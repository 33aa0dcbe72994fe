/** The paging discipline over whole runs: one page per outage and interval, recoveries that match. */
module Paging {
  import opened Model
  import opened StateMachine
  import opened Gates
  import opened Records
  import opened Scheduling
  import opened SchedulerInvariant
  import opened Suppression

  /** What an observer has noted about one host: how often it was marked as contacted, how many recoveries
      were announced for it, when the DOWN pages of the current outage were delivered, and which positions the host
      has had: its own and those of the nodes it took over from. */
  datatype History = History(marks: nat, recoveries: nat, sends: seq<real>, line: set<nat>)

  /** The DOWN pages of one outage: more than the page interval apart, and just one if there is no interval. */
  ghost predicate Spaced(sends: seq<real>, interval: real) {
    && (forall i :: 0 <= i < |sends| - 1 ==> sends[i + 1] - sends[i] > interval)
    && (interval <= 0.0 ==> |sends| <= 1)
  }

  ghost predicate HostOk(st: HostState, h: History, interval: real) {
    && (st.contacted ==> !IsUp(st.lastcheck))
    && h.marks == h.recoveries + (if st.contacted then 1 else 0)
    && Spaced(h.sends, interval)
    && (h.sends != [] ==> st.contacted && h.sends[|h.sends| - 1] <= st.lastcontacted)
  }

  /** What holds of a host while a page about it is on its way. */
  ghost predicate SendOk(st: HostState, h: History, kind: SendKind, interval: real, now: real) {
    match kind
    case FirstDown => !IsUp(st.lastcheck) && h.sends == []
    case Repage => st.contacted && (h.sends == [] || (interval > 0.0 && now - st.lastcontacted > interval))
    case Recovery => true
  }

  ghost predicate HostsOk(s: State, hs: seq<History>) {
    && |hs| == |s.scheds|
    && forall x :: 0 <= x < |s.scheds| && s.scheds[x].alive ==> HostOk(s.scheds[x].state, hs[x], s.cfg.pageInterval)
  }

  /** A contacted host was contacted in the past. */
  ghost predicate Stamped(s: State) {
    forall x :: 0 <= x < |s.scheds| && s.scheds[x].alive && s.scheds[x].state.contacted ==>
      s.scheds[x].state.lastcontacted <= s.now
  }

  ghost predicate SendsOk(s: State, hs: seq<History>)
    requires |hs| == |s.scheds|
  {
    forall t :: t in s.tasks && s.tasks[t].phase.Sending? && s.tasks[t].id < |s.scheds| && s.scheds[s.tasks[t].id].alive ==>
      SendOk(s.scheds[s.tasks[t].id].state, hs[s.tasks[t].id], s.tasks[t].phase.kind, s.cfg.pageInterval, s.now)
  }

  // ----- the observer ------------------------------------------------------------------------

  /** `ev` announces the recovery of `x`. */
  ghost predicate Recovers(s: State, ev: Event, x: nat) {
    && LiveCompletion(s, ev, x)
    && Apply(s.scheds[x].state.(suppressed := false), ev.code, ev.wall, s.cfg.pageOnDegraded).intent == PageRecovery
  }

  /** `ev` is the delivery of a DOWN page about the host noted in `h`, whichever of its nodes asked for it. */
  ghost predicate Delivers(s: State, ev: Event, h: History) {
    && ev.SendDone? && ev.ok && TaskAt(s, ev.tid) && s.tasks[ev.tid].id in h.line
    && DownPhase(s.tasks[ev.tid].phase)
  }

  /** The note of a host whose state is first seen as `st`: already contacted counts as marked once. */
  function FirstNote(st: HostState, line: set<nat>): History {
    History(if st.contacted then 1 else 0, 0, [], line)
  }

  ghost function Noted1(s: State, mono: real, ev: Event, s': State, h: History, x: nat): History
    requires x < |s.scheds| && x < |s'.scheds|
  {
    var was, st := s.scheds[x].state, s'.scheds[x].state;
    if Restores(s, ev, x) then FirstNote(st, h.line) else History(
      h.marks + (if !was.contacted && st.contacted then 1 else 0),
      h.recoveries + (if Recovers(s, ev, x) then 1 else 0),
      if !IsUp(was.lastcheck) && IsUp(st.lastcheck) then []
      else if Delivers(s, ev, h) then h.sends + [mono]
      else h.sends,
      h.line)
  }

  /** A reload hands a node's history on together with its state. */
  ghost function Inherited(s: State, hs: seq<History>, s': State, x: nat): History
    requires |hs| == |s.scheds| && |s.scheds| <= x < |s'.scheds|
  {
    var prior := LastWith(s.scheds, s.current, KeyOf(s'.scheds[x].node));
    if prior.Some? then hs[prior.value].(line := hs[prior.value].line + {x}) else History(0, 0, [], {x})
  }

  ghost predicate Observes(s: State, mono: real, ev: Event, s': State, hs: seq<History>, hs': seq<History>) {
    && |hs| == |s.scheds| && |hs'| == |s'.scheds| && |s.scheds| <= |s'.scheds|
    && forall x :: 0 <= x < |s'.scheds| ==>
         hs'[x] == if x < |s.scheds| then Noted1(s, mono, ev, s', hs[x], x) else Inherited(s, hs, s', x)
  }

  /** Some node of the plan takes over the state of `id`. */
  ghost predicate HandsOver(s: State, p: Plan, id: nat) {
    exists k :: 0 <= k < |p.nodes| && LastWith(s.scheds, s.current, KeyOf(p.nodes[k])) == Some(id)
  }

  /** No host about which a DOWN page is on its way is handed over to the new configuration. */
  ghost predicate NoneHandedOver(s: State, p: Plan) {
    forall t :: t in s.tasks && DownPhase(s.tasks[t].phase) && s.tasks[t].id < |s.scheds| && s.scheds[s.tasks[t].id].alive ==>
      !HandsOver(s, p, s.tasks[t].id)
  }

  /** A restored state fits the page on its way about its host, if any: a first page is about a host that is not up,
      a repeated one about a host that was contacted. */
  ghost predicate FitsPages(s: State, x: nat, c: Carried) {
    forall t :: t in s.tasks && s.tasks[t].id == x ==>
      && (s.tasks[t].phase == Sending(FirstDown) ==> !IsUp(c.lastcheck))
      && (s.tasks[t].phase == Sending(Repage) ==> c.contacted)
  }

  /** What the records that take effect must say: no host was contacted while up, and each fits the pages on their
      way. */
  ghost predicate RecordsFit(s: State, records: seq<Record>) {
    forall x: nat :: x < |s.scheds| && Landing(s, records, x).Some? ==>
      var c := Landing(s, records, x).value;
      (c.contacted ==> !IsUp(c.lastcheck)) && FitsPages(s, x, c)
  }

  /** The runs of the theorem: every reload and every import meets its condition. */
  ghost predicate Calm(s: State, ev: Event) {
    && (ev.Reload? ==> NoneHandedOver(s, ev.plan))
    && (ev.ImportState? ==> RecordsFit(s, ev.records))
  }

  ghost predicate ObservedRun(states: seq<State>, evs: seq<Timed>, hists: seq<seq<History>>) {
    && IsRun(states, evs) && |hists| == |states|
    && forall i :: 0 <= i < |evs| ==>
         Calm(states[i], evs[i].ev) && Observes(states[i], evs[i].mono, evs[i].ev, states[i + 1], hists[i], hists[i + 1])
  }

  // ----- one host through one result ---------------------------------------------------------

  /** The state and history of a host after a result, before any page about it has been sent. */
  lemma ResultKeepsHostOk(cfg: Config, node: Node, st: HostState, h: History, code: int, wall: real, mono: real)
    requires HostOk(st, h, cfg.pageInterval) && (st.contacted ==> st.lastcontacted <= mono)
    ensures var out := Apply(st.(suppressed := false), code, wall, cfg.pageOnDegraded);
            var paging := HandlePaging(cfg, node, out.state, out.intent, mono);
            var h' := History(h.marks + (if !st.contacted && paging.state.contacted then 1 else 0),
                              h.recoveries + (if out.intent == PageRecovery then 1 else 0),
                              if !IsUp(st.lastcheck) && IsUp(paging.state.lastcheck) then [] else h.sends, h.line);
            && HostOk(paging.state, h', cfg.pageInterval)
            && (paging.send.Some? ==> SendOk(paging.state, h', paging.send.value, cfg.pageInterval, mono))
  {
    hide PagesDown, PagesUp, ContactOn;
  }

  // ----- one step ----------------------------------------------------------------------------

  predicate DownPhase(phase: Phase) {
    phase == Sending(FirstDown) || phase == Sending(Repage)
  }

  /** A DOWN page on its way about a current host was asked for by the host's current node, so that its answer will
      reach that node. */
  ghost predicate LinesClear(s: State, hs: seq<History>)
    requires |hs| == |s.scheds|
  {
    forall t, x :: t in s.tasks && DownPhase(s.tasks[t].phase) && 0 <= x < |s.scheds| && s.scheds[x].alive && s.tasks[t].id in hs[x].line ==>
      s.tasks[t].id == x
  }

  /** Every node is in its own line; besides it, lines hold retired positions only. */
  ghost predicate LinesOk(s: State, hs: seq<History>)
    requires |hs| == |s.scheds|
  {
    forall x :: 0 <= x < |s.scheds| ==>
      x in hs[x].line && forall y :: y in hs[x].line ==> y < |s.scheds| && (y != x ==> !s.scheds[y].alive)
  }

  ghost predicate PagingOk(s: State, hs: seq<History>) {
    HostsOk(s, hs) && SendsOk(s, hs) && Stamped(s) && LinesOk(s, hs) && LinesClear(s, hs)
  }

  /** Everything paging cares about in a host's state. */
  function PageFields(st: HostState): (int, bool, real) {
    (st.lastcheck, st.contacted, st.lastcontacted)
  }

  /** Steps that neither touch the paging fields of current nodes nor start a send. */
  ghost predicate Quiet(s: State, s': State) {
    && s'.cfg == s.cfg && s.now <= s'.now && |s'.scheds| == |s.scheds|
    && (forall x :: 0 <= x < |s.scheds| ==>
          s'.scheds[x].alive == s.scheds[x].alive && PageFields(s'.scheds[x].state) == PageFields(s.scheds[x].state))
    && (forall t :: t in s'.tasks && s'.tasks[t].phase.Sending? ==> t in s.tasks && s.tasks[t] == s'.tasks[t])
  }

  lemma QuietKeepsPaging(s: State, s': State, hs: seq<History>)
    requires PagingOk(s, hs) && Quiet(s, s')
    ensures PagingOk(s', hs)
  {
    forall t | t in s'.tasks && s'.tasks[t].phase.Sending? && s'.tasks[t].id < |s'.scheds| && s'.scheds[s'.tasks[t].id].alive
      ensures SendOk(s'.scheds[s'.tasks[t].id].state, hs[s'.tasks[t].id], s'.tasks[t].phase.kind, s'.cfg.pageInterval, s'.now)
    {
      assert SendOk(s.scheds[s.tasks[t].id].state, hs[s.tasks[t].id], s.tasks[t].phase.kind, s.cfg.pageInterval, s.now);
    }
    forall x | 0 <= x < |s'.scheds| && s'.scheds[x].alive
      ensures HostOk(s'.scheds[x].state, hs[x], s'.cfg.pageInterval)
    {
      assert HostOk(s.scheds[x].state, hs[x], s.cfg.pageInterval);
      assert PageFields(s'.scheds[x].state) == PageFields(s.scheds[x].state);
    }
  }

  lemma FinishQuiet(s: State, tid: nat)
    requires TaskAt(s, tid)
    ensures Quiet(s, Finish(s, tid))
  {
  }

  /** The states and tasks after a completion, as far as paging goes. */
  lemma CompletionEffect(s: State, tid: nat, code: int, wall: real)
    requires TaskAt(s, tid) && s.tasks[tid].phase == Running
    ensures var s', id := Complete(s, tid, code, wall), s.tasks[tid].id;
            var out := Apply(s.scheds[id].state.(suppressed := false), code, wall, s.cfg.pageOnDegraded);
            var paging := HandlePaging(s.cfg, s.scheds[id].node, out.state, out.intent, s.now);
            if !s.scheds[id].alive || !HasLivePath(s.scheds, id) then Quiet(s, s')
            else
              && s'.cfg == s.cfg && s'.now == s.now && |s'.scheds| == |s.scheds|
              && (forall x :: 0 <= x < |s.scheds| ==>
                    s'.scheds[x].alive == s.scheds[x].alive && (x != id ==> s'.scheds[x].state == s.scheds[x].state))
              && s'.scheds[id].state == paging.state
              && s'.tasks == if paging.send.Some? then s.tasks[tid := Task(id, Sending(paging.send.value))] else s.tasks - {tid}
  {
    hide Finish, HasLivePath, Apply, HandlePaging;
    var id := s.tasks[tid].id;
    var sched := s.scheds[id];
    if !sched.alive {
      FinishQuiet(s, tid);
    } else if !HasLivePath(s.scheds, id) {
      FinishQuiet(SetSched(s, id, sched.(state := sched.state.(suppressed := true))), tid);
    } else {
      var out := Apply(sched.state.(suppressed := false), code, wall, s.cfg.pageOnDegraded);
      var paging := HandlePaging(s.cfg, sched.node, out.state, out.intent, s.now);
      FinishShape(SetSched(s, id, sched.(state := paging.state, checked := true)), tid);
    }
  }

  lemma FinishShape(s: State, tid: nat)
    requires TaskAt(s, tid)
    ensures var s' := Finish(s, tid);
            && s'.cfg == s.cfg && s'.now == s.now && |s'.scheds| == |s.scheds| && s'.tasks == s.tasks - {tid}
            && forall x :: 0 <= x < |s.scheds| ==> s'.scheds[x].alive == s.scheds[x].alive && s'.scheds[x].state == s.scheds[x].state
  {
  }

  lemma DroppedKeepsPaging(s: State, mono: real, ev: Event, s': State, hs: seq<History>, hs': seq<History>)
    requires PagingOk(s, hs) && s.now <= mono && Observes(s, mono, ev, s', hs, hs')
    requires Quiet(s.(now := mono), s') && !ev.SendDone? && !ev.ImportState? && (forall x :: 0 <= x < |s.scheds| ==> !Recovers(s, ev, x))
    ensures PagingOk(s', hs')
  {
    hide HasLivePath, Apply, HostOk, SendOk, Recovers;
    assert Quiet(s, s');
    assert hs' == hs;
    QuietKeepsPaging(s, s', hs);
  }

  /** Only host `id` changes; a page on its way afterwards is either an old one about another host or about `id`. */
  ghost predicate OneChanged(s: State, s': State, id: nat) {
    && id < |s.scheds| && s'.cfg == s.cfg && s.now <= s'.now && |s'.scheds| == |s.scheds|
    && (forall x :: 0 <= x < |s.scheds| ==>
          s'.scheds[x].alive == s.scheds[x].alive && (x != id ==> s'.scheds[x].state == s.scheds[x].state))
    && (forall k :: k in s'.tasks && s'.tasks[k].phase.Sending? && s'.tasks[k].id != id ==> k in s.tasks && s.tasks[k] == s'.tasks[k])
  }

  lemma OneChangedKeepsPaging(s: State, s': State, hs: seq<History>, hs': seq<History>, id: nat)
    requires PagingOk(s, hs) && OneChanged(s, s', id)
    requires |hs'| == |hs| && (forall x :: 0 <= x < |hs| && x != id && s.scheds[x].alive ==> hs'[x] == hs[x])
    requires forall x :: 0 <= x < |hs| ==> hs'[x].line == hs[x].line
    requires forall k :: k in s'.tasks && s'.tasks[k].phase.Sending? && s'.tasks[k].id == id ==>
               forall x :: 0 <= x < |hs| && s.scheds[x].alive && id in hs[x].line ==> x == id
    requires s.scheds[id].alive ==>
               && HostOk(s'.scheds[id].state, hs'[id], s.cfg.pageInterval)
               && (s'.scheds[id].state.contacted ==> s'.scheds[id].state.lastcontacted <= s'.now)
    requires forall k :: k in s'.tasks && s'.tasks[k].phase.Sending? && s'.tasks[k].id == id ==>
               s.scheds[id].alive ==> SendOk(s'.scheds[id].state, hs'[id], s'.tasks[k].phase.kind, s.cfg.pageInterval, s'.now)
    ensures PagingOk(s', hs')
  {
    hide HostOk, SendOk;
    forall k | k in s'.tasks && s'.tasks[k].phase.Sending? && s'.tasks[k].id < |s'.scheds| && s'.scheds[s'.tasks[k].id].alive
      ensures SendOk(s'.scheds[s'.tasks[k].id].state, hs'[s'.tasks[k].id], s'.tasks[k].phase.kind, s'.cfg.pageInterval, s'.now)
    {
      if s'.tasks[k].id != id {
        LaterSendOk(s.scheds[s.tasks[k].id].state, hs[s.tasks[k].id], s.tasks[k].phase.kind, s.cfg.pageInterval, s.now, s'.now);
      }
    }
  }

  /** The note taken of a host whose state did not change is the one there was. */
  lemma UnchangedNote(s: State, mono: real, ev: Event, s': State, h: History, x: nat)
    requires x < |s.scheds| && x < |s'.scheds| && s'.scheds[x].state == s.scheds[x].state
    requires !Recovers(s, ev, x) && !Delivers(s, ev, h) && !Restores(s, ev, x)
    ensures Noted1(s, mono, ev, s', h, x) == h
  {
  }

  lemma AppliedKeepsPaging(s: State, mono: real, ev: Event, s': State, hs: seq<History>, hs': seq<History>)
    requires UniqueTasks(s.tasks) && PagingOk(s, hs) && Observes(s, mono, ev, s', hs, hs')
    requires ev.CheckDone? && s.now <= mono && TaskAt(s, ev.tid) && s.tasks[ev.tid].phase == Running
    requires s' == Complete(s.(now := mono), ev.tid, ev.code, ev.wall)
    requires LiveCompletion(s, ev, s.tasks[ev.tid].id)
    ensures PagingOk(s', hs')
  {
    hide HasLivePath, Apply, HandlePaging, Complete, HostOk, SendOk, SendsOk, Noted1;
    CompletionEffect(s.(now := mono), ev.tid, ev.code, ev.wall);
    var id := s.tasks[ev.tid].id;
    ResultKeepsHostOk(s.cfg, s.scheds[id].node, s.scheds[id].state, hs[id], ev.code, ev.wall, mono);
    StampAfterResult(s.cfg, s.scheds[id].node, s.scheds[id].state, ev.code, ev.wall, mono);
    LinesStay(s, mono, ev, s', hs, hs');
    forall x | 0 <= x < |hs| && x != id
      ensures hs'[x] == hs[x]
    {
      UnchangedNote(s, mono, ev, s', hs[x], x);
    }
    AppliedNote(s, mono, ev, s', hs[id]);
    OneChangedKeepsPaging(s, s', hs, hs', id);
  }

  lemma AppliedNote(s: State, mono: real, ev: Event, s': State, h: History)
    requires ev.CheckDone? && TaskAt(s, ev.tid) && LiveCompletion(s, ev, s.tasks[ev.tid].id)
    requires s.tasks[ev.tid].id < |s'.scheds|
    ensures var id := s.tasks[ev.tid].id;
            var st, st' := s.scheds[id].state, s'.scheds[id].state;
            Noted1(s, mono, ev, s', h, id) ==
            History(h.marks + (if !st.contacted && st'.contacted then 1 else 0),
                    h.recoveries + (if Apply(st.(suppressed := false), ev.code, ev.wall, s.cfg.pageOnDegraded).intent == PageRecovery then 1 else 0),
                    if !IsUp(st.lastcheck) && IsUp(st'.lastcheck) then [] else h.sends, h.line)
  {
    hide Apply, HasLivePath;
  }

  lemma LaterSendOk(st: HostState, h: History, kind: SendKind, interval: real, now: real, later: real)
    requires SendOk(st, h, kind, interval, now) && now <= later
    ensures SendOk(st, h, kind, interval, later)
  {
  }

  lemma StampAfterResult(cfg: Config, node: Node, st: HostState, code: int, wall: real, mono: real)
    requires st.contacted ==> st.lastcontacted <= mono
    ensures var out := Apply(st.(suppressed := false), code, wall, cfg.pageOnDegraded);
            var paging := HandlePaging(cfg, node, out.state, out.intent, mono);
            paging.state.contacted ==> paging.state.lastcontacted <= mono
  {
  }

  /** One delivered or failed page, seen from its host. */
  lemma DeliveryKeepsHostOk(st: HostState, h: History, kind: SendKind, ok: bool, interval: real, mono: real)
    requires HostOk(st, h, interval) && SendOk(st, h, kind, interval, mono)
    ensures var st' := Answered(st, kind, ok, mono);
            var h' := History(h.marks + (if !st.contacted && st'.contacted then 1 else 0), h.recoveries,
                              if ok && kind != Recovery then h.sends + [mono] else h.sends, h.line);
            HostOk(st', h', interval)
  {
  }

  lemma SendBackShape(s: State, tid: nat, ok: bool)
    requires TaskAt(s, tid) && s.tasks[tid].phase.Sending?
    ensures var s', id := SendBack(s, tid, ok), s.tasks[tid].id;
            && s'.cfg == s.cfg && s'.now == s.now && |s'.scheds| == |s.scheds| && s'.tasks == s.tasks - {tid}
            && (forall x :: 0 <= x < |s.scheds| ==>
                  s'.scheds[x].alive == s.scheds[x].alive && (x != id ==> s'.scheds[x].state == s.scheds[x].state))
            && s'.scheds[id].state == Answered(s.scheds[id].state, s.tasks[tid].phase.kind, ok, s.now)
  {
    hide Finish;
    var id := s.tasks[tid].id;
    FinishShape(SetSched(s, id, s.scheds[id].(state := Answered(s.scheds[id].state, s.tasks[tid].phase.kind, ok, s.now))), tid);
  }

  lemma AnswerKeepsPaging(s: State, mono: real, ev: Event, s': State, hs: seq<History>, hs': seq<History>)
    requires UniqueTasks(s.tasks) && PagingOk(s, hs) && Observes(s, mono, ev, s', hs, hs')
    requires ev.SendDone? && s.now <= mono && TaskAt(s, ev.tid) && s.tasks[ev.tid].phase.Sending?
    requires s' == SendBack(s.(now := mono), ev.tid, ev.ok)
    ensures PagingOk(s', hs')
  {
    hide SendBack, HostOk, SendOk, Noted1;
    SendBackShape(s.(now := mono), ev.tid, ev.ok);
    var id, kind := s.tasks[ev.tid].id, s.tasks[ev.tid].phase.kind;
    var st := s.scheds[id].state;
    if s.scheds[id].alive {
      LaterSendOk(st, hs[id], kind, s.cfg.pageInterval, s.now, mono);
      DeliveryKeepsHostOk(st, hs[id], kind, ev.ok, s.cfg.pageInterval, mono);
      AnsweredNote(s, mono, ev, s', hs[id]);
    }
    LinesStay(s, mono, ev, s', hs, hs');
    forall x | 0 <= x < |hs| && x != id && s.scheds[x].alive
      ensures hs'[x] == hs[x]
    {
      assert !Delivers(s, ev, hs[x]);
      UnchangedNote(s, mono, ev, s', hs[x], x);
    }
    OneChangedKeepsPaging(s, s', hs, hs', id);
  }

  lemma AnsweredNote(s: State, mono: real, ev: Event, s': State, h: History)
    requires ev.SendDone? && TaskAt(s, ev.tid) && s.tasks[ev.tid].phase.Sending? && s.tasks[ev.tid].id < |s'.scheds|
    requires s.tasks[ev.tid].id in h.line
    requires var id := s.tasks[ev.tid].id; IsUp(s'.scheds[id].state.lastcheck) == IsUp(s.scheds[id].state.lastcheck)
    ensures var id, kind := s.tasks[ev.tid].id, s.tasks[ev.tid].phase.kind;
            Noted1(s, mono, ev, s', h, id) ==
            History(h.marks + (if !s.scheds[id].state.contacted && s'.scheds[id].state.contacted then 1 else 0), h.recoveries,
                    if ev.ok && kind != Recovery then h.sends + [mono] else h.sends, h.line)
  {
  }

  /** The note taken of a new node. */
  lemma NewNote(s: State, mono: real, ev: Event, s': State, hs: seq<History>, hs': seq<History>, k: nat)
    requires Observes(s, mono, ev, s', hs, hs') && ev.Reload? && PlanFormed(ev.plan) && k < |ev.plan.nodes|
    requires s' == Reloaded(s.(now := mono), ev.plan, ev.wall)
    ensures |s'.scheds| == |hs'| == |s.scheds| + |ev.plan.nodes|
    ensures var prior := LastWith(s.scheds, s.current, KeyOf(ev.plan.nodes[k]));
            var h := hs'[|s.scheds| + k];
            if prior.Some? then h == hs[prior.value].(line := hs[prior.value].line + {|s.scheds| + k})
            else h == History(0, 0, [], {|s.scheds| + k})
  {
    hide Reloaded, ReloadedSched, Noted1, LastWith;
    var t := s.(now := mono);
    ReloadedFrame(t, ev.plan, ev.wall);
    ReloadedAt(t, ev.plan, ev.wall, |s.scheds| + k);
    ReloadedShape(t, ev.plan, k, ev.wall);
  }

  lemma NewHostFits(s: State, mono: real, ev: Event, s': State, hs: seq<History>, hs': seq<History>, x: nat)
    requires Identified(s) && TasksOk(s) && PagingOk(s, hs) && Observes(s, mono, ev, s', hs, hs')
    requires ev.Reload? && s.now <= mono && PlanFormed(ev.plan) && s' == Reloaded(s.(now := mono), ev.plan, ev.wall)
    requires x < |s'.scheds|
    ensures |hs'| == |s'.scheds| && HostFits(s', hs', x)
    ensures s'.scheds[x].alive <==> x >= |s.scheds|
  {
    hide HostOk, SendOk, Reloaded, ReloadedSched, Noted1, HasTask, UniqueTasks, LastWith, LinesOk, LinesClear;
    var t, base := s.(now := mono), |s.scheds|;
    ReloadedFrame(t, ev.plan, ev.wall);
    ReloadedTasks(t, ev.plan, ev.wall);
    ReloadedAt(t, ev.plan, ev.wall, x);
    if x >= base {
      ReloadedShape(t, ev.plan, x - base, ev.wall);
      NewNote(s, mono, ev, s', hs, hs', x - base);
      InheritedOk(t, ev.plan, x - base, ev.wall, hs);
      SameButLine(s'.scheds[x].state, hs'[x], s.cfg.pageInterval);
    }
  }

  lemma SameButLine(st: HostState, h: History, interval: real)
    ensures forall line: set<nat> :: HostOk(st, h.(line := line), interval) <==> HostOk(st, h, interval)
  {
  }

  lemma NewLinesOk(s: State, mono: real, ev: Event, s': State, hs: seq<History>, hs': seq<History>)
    requires Identified(s) && TasksOk(s) && PagingOk(s, hs) && Observes(s, mono, ev, s', hs, hs')
    requires ev.Reload? && s.now <= mono && PlanFormed(ev.plan) && s' == Reloaded(s.(now := mono), ev.plan, ev.wall)
    ensures |hs'| == |s'.scheds| && LinesOk(s', hs')
  {
    hide HostOk, SendOk, Reloaded, Noted1, HasTask, UniqueTasks, LastWith, LinesClear, HostFits, Stamped, SendsOk, HostsOk;
    ReloadedFrame(s.(now := mono), ev.plan, ev.wall);
    assert |hs| == |s.scheds|;
    forall x: nat | x < |s'.scheds|
      ensures x in hs'[x].line && forall y :: y in hs'[x].line ==> y < |s'.scheds| && (y != x ==> !s'.scheds[y].alive)
    {
      NewHostFits(s, mono, ev, s', hs, hs', x);
      if x >= |s.scheds| {
        NewNote(s, mono, ev, s', hs, hs', x - |s.scheds|);
      } else {
        OldLine(s, mono, ev, s', hs, hs', x);
      }
      forall y: nat | y < |s.scheds|
        ensures !s'.scheds[y].alive
      {
        NewHostFits(s, mono, ev, s', hs, hs', y);
      }
    }
  }

  lemma OldLine(s: State, mono: real, ev: Event, s': State, hs: seq<History>, hs': seq<History>, x: nat)
    requires Observes(s, mono, ev, s', hs, hs') && x < |s.scheds|
    ensures hs'[x].line == hs[x].line
  {
    hide Restores, Recovers, Delivers, Inherited;
  }

  lemma LinesClearIff(s: State, mono: real, ev: Event, s': State, hs: seq<History>, hs': seq<History>)
    requires Identified(s) && TasksOk(s) && PagingOk(s, hs) && Observes(s, mono, ev, s', hs, hs')
    requires ev.Reload? && s.now <= mono && PlanFormed(ev.plan) && s' == Reloaded(s.(now := mono), ev.plan, ev.wall)
    ensures |hs'| == |s'.scheds|
    ensures LinesClear(s', hs') <==> NoneHandedOver(s, ev.plan)
  {
    hide HostOk, SendOk, Reloaded, Noted1, HasTask, UniqueTasks, LastWith, HostFits, Stamped, SendsOk, HostsOk, Inherited, Observes;
    var base, n := |s.scheds|, |ev.plan.nodes|;
    ReloadedFrame(s.(now := mono), ev.plan, ev.wall);
    ReloadedTasks(s.(now := mono), ev.plan, ev.wall);
    ObservedLengths(s, mono, ev, s', hs, hs');
    forall x: nat | x < |s'.scheds|
      ensures s'.scheds[x].alive <==> x >= base
    {
      NewHostFits(s, mono, ev, s', hs, hs', x);
    }
    forall t, k: nat | t in s.tasks && DownPhase(s.tasks[t].phase) && k < n
      ensures s.tasks[t].id in hs'[base + k].line <==> LastWith(s.scheds, s.current, KeyOf(ev.plan.nodes[k])) == Some(s.tasks[t].id)
    {
      NewNote(s, mono, ev, s', hs, hs', k);
      PriorAlive(s, KeyOf(ev.plan.nodes[k]));
    }
    if LinesClear(s', hs') {
      forall t, k: nat | t in s.tasks && DownPhase(s.tasks[t].phase) && k < n
        ensures LastWith(s.scheds, s.current, KeyOf(ev.plan.nodes[k])) != Some(s.tasks[t].id)
      {
        assert s'.scheds[base + k].alive;
      }
    }
    if NoneHandedOver(s, ev.plan) {
      forall t, x: nat | t in s'.tasks && DownPhase(s'.tasks[t].phase) && x < |s'.scheds| && s'.scheds[x].alive
        ensures s'.tasks[t].id !in hs'[x].line
      {
        var k := x - base;
        assert x == base + k;
        PriorAlive(s, KeyOf(ev.plan.nodes[k]));
      }
    }
  }

  lemma ObservedLengths(s: State, mono: real, ev: Event, s': State, hs: seq<History>, hs': seq<History>)
    requires Observes(s, mono, ev, s', hs, hs')
    ensures |hs| == |s.scheds| && |hs'| == |s'.scheds|
  {
  }

  lemma PriorAlive(s: State, key: Key)
    requires Identified(s)
    ensures var prior := LastWith(s.scheds, s.current, key); prior.Some? ==> prior.value < |s.scheds| && s.scheds[prior.value].alive
  {
  }

  /** A reload keeps the discipline iff it hands over no host about which a DOWN page is on its way. */
  lemma ReloadKeepsPagingIff(s: State, mono: real, ev: Event, s': State, hs: seq<History>, hs': seq<History>)
    requires Inv(s) && PagingOk(s, hs) && Next(s, mono, ev, s') && Observes(s, mono, ev, s', hs, hs') && ev.Reload?
    ensures PagingOk(s', hs') <==> NoneHandedOver(s, ev.plan)
  {
    hide QueueOk, GatesOk, PagingOk, Observes, Reloaded, NoneHandedOver, HostFits, LinesOk, LinesClear, TasksOk, Identified;
    ObservedLengths(s, mono, ev, s', hs, hs');
    forall x: nat | x < |s'.scheds|
      ensures HostFits(s', hs', x)
    {
      NewHostFits(s, mono, ev, s', hs, hs', x);
    }
    NewLinesOk(s, mono, ev, s', hs, hs');
    LinesClearIff(s, mono, ev, s', hs, hs');
    PagingIsPerHost(s', hs');
  }

  lemma ReloadedFrame(s: State, p: Plan, wall: real)
    requires PlanFormed(p)
    ensures |Reloaded(s, p, wall).scheds| == |s.scheds| + |p.nodes|
    ensures Reloaded(s, p, wall).cfg == s.cfg && Reloaded(s, p, wall).now == s.now
  {
  }

  lemma InheritedOk(s: State, p: Plan, k: nat, wall: real, hs: seq<History>)
    requires Identified(s) && PlanFormed(p) && k < |p.nodes| && HostsOk(s, hs) && Stamped(s)
    ensures var prior := LastWith(s.scheds, s.current, KeyOf(p.nodes[k]));
            var h := if prior.Some? then hs[prior.value] else History(0, 0, [], {});
            var st := ReloadedSched(s, p, k, wall).state;
            HostOk(st, h, s.cfg.pageInterval) && (st.contacted ==> st.lastcontacted <= s.now)
  {
    var prior := LastWith(s.scheds, s.current, KeyOf(p.nodes[k]));
    if prior.Some? {
      assert s.scheds[prior.value].alive;
      assert HostOk(s.scheds[prior.value].state, hs[prior.value], s.cfg.pageInterval);
    }
  }

  lemma TickQuiet(s: State, now: real, s': State)
    requires s.now == now && Ticked(s, now, s')
    ensures Quiet(s, s')
  {
    hide HasLivePath, SweptHeap;
  }

  lemma CommandsQuiet(s: State, key: Key, text: Option<string>)
    ensures Quiet(s, Scheduling.Acked(s, key)) && Quiet(s, Noted(s, key, text))
  {
  }

  /** Steps that announce nothing and change no paging field. */
  lemma QuietEventKeepsPaging(s: State, mono: real, ev: Event, s': State, hs: seq<History>, hs': seq<History>)
    requires Inv(s) && PagingOk(s, hs) && Next(s, mono, ev, s') && Observes(s, mono, ev, s', hs, hs')
    requires ev.Tick? || ev.Raised? || ev.Ack? || ev.SetNote?
    ensures PagingOk(s', hs')
  {
    hide Inv, PagingOk, Ticked, Finish, Observes, Quiet;
    var t := s.(now := mono);
    match ev {
      case Tick => TickQuiet(t, mono, s');
      case Raised(tid) => FinishQuiet(t, tid);
      case Ack(key) => CommandsQuiet(t, key, None);
      case SetNote(key, text) => CommandsQuiet(t, key, text);
    }
    DroppedKeepsPaging(s, mono, ev, s', hs, hs');
  }

  lemma CompletionKeepsPaging(s: State, mono: real, ev: Event, s': State, hs: seq<History>, hs': seq<History>)
    requires Inv(s) && PagingOk(s, hs) && Next(s, mono, ev, s') && Observes(s, mono, ev, s', hs, hs') && ev.CheckDone?
    ensures PagingOk(s', hs')
  {
    hide QueueOk, GatesOk, UniqueTasks, HasTask, PagingOk, Complete, HasLivePath, Observes, Apply, HandlePaging;
    if LiveCompletion(s, ev, s.tasks[ev.tid].id) {
      AppliedKeepsPaging(s, mono, ev, s', hs, hs');
    } else {
      CompletionEffect(s.(now := mono), ev.tid, ev.code, ev.wall);
      DroppedKeepsPaging(s, mono, ev, s', hs, hs');
    }
  }

  lemma {:induction false} LandsOnCurrent(s: State, records: seq<Record>, x: nat)
    requires Landing(s, records, x).Some?
    ensures x in s.current && x < |s.scheds|
  {
    hide Keyed, ValidatedCarry;
    if records != [] {
      var r := records[|records| - 1];
      if !(LastKeyed(s.scheds, s.current, r) == Some(x) && ValidatedCarry(r).Some?) {
        LandsOnCurrent(s, records[..|records| - 1], x);
      }
    }
  }

  lemma RestoredOk(st: HostState, c: Carried, line: set<nat>, kind: SendKind, interval: real, now: real)
    ensures var st' := Restore(st, c).(lastcontacted := now);
            && (HostOk(st', FirstNote(st', line), interval) <==> (c.contacted ==> !IsUp(c.lastcheck)))
            && (SendOk(st', FirstNote(st', line), kind, interval, now) <==>
                  (kind == FirstDown ==> !IsUp(c.lastcheck)) && (kind == Repage ==> c.contacted))
  {
  }

  /** One host through an import. */
  ghost predicate HostFits(s: State, hs: seq<History>, x: nat)
    requires |hs| == |s.scheds| && x < |s.scheds|
  {
    s.scheds[x].alive ==>
      && HostOk(s.scheds[x].state, hs[x], s.cfg.pageInterval)
      && (s.scheds[x].state.contacted ==> s.scheds[x].state.lastcontacted <= s.now)
      && forall t :: t in s.tasks && s.tasks[t].phase.Sending? && s.tasks[t].id == x ==>
           SendOk(s.scheds[x].state, hs[x], s.tasks[t].phase.kind, s.cfg.pageInterval, s.now)
  }

  lemma PagingIsPerHost(s: State, hs: seq<History>)
    requires |hs| == |s.scheds|
    ensures PagingOk(s, hs) <==> LinesOk(s, hs) && LinesClear(s, hs) && forall x: nat :: x < |s.scheds| ==> HostFits(s, hs, x)
  {
    hide HostOk, SendOk, LinesOk, LinesClear;
    if forall x: nat :: x < |s.scheds| ==> HostFits(s, hs, x) {
      forall t | t in s.tasks && s.tasks[t].phase.Sending? && s.tasks[t].id < |s.scheds| && s.scheds[s.tasks[t].id].alive
        ensures SendOk(s.scheds[s.tasks[t].id].state, hs[s.tasks[t].id], s.tasks[t].phase.kind, s.cfg.pageInterval, s.now)
      {
        assert HostFits(s, hs, s.tasks[t].id);
      }
      forall x: nat | x < |s.scheds| && s.scheds[x].alive
        ensures HostOk(s.scheds[x].state, hs[x], s.cfg.pageInterval)
        ensures s.scheds[x].state.contacted ==> s.scheds[x].state.lastcontacted <= s.now
      {
        assert HostFits(s, hs, x);
      }
    }
  }

  lemma ImportedHost(s: State, mono: real, ev: Event, s': State, hs: seq<History>, hs': seq<History>, x: nat)
    requires Identified(s) && PagingOk(s, hs) && Observes(s, mono, ev, s', hs, hs') && x < |s.scheds|
    requires ev.ImportState? && s.now <= mono && s' == Import(s.(now := mono), ev.records)
    ensures |s'.scheds| == |s.scheds| == |hs'|
    ensures HostFits(s', hs', x) <==>
      (Landing(s, ev.records, x).Some? ==>
         var c := Landing(s, ev.records, x).value; (c.contacted ==> !IsUp(c.lastcheck)) && FitsPages(s, x, c))
  {
    hide HostOk, SendOk, Import, Keyed, ValidatedCarry, Landing;
    var t := s.(now := mono);
    ImportLands(t, ev.records);
    SameLanding(s, mono, ev.records, x);
    PagingIsPerHost(s, hs);
    var landed := Landing(s, ev.records, x);
    if landed.Some? {
      LandsOnCurrent(s, ev.records, x);
      RestoredNote(s, mono, ev, s', hs[x], x);
      RestoredHost(t, s', hs', x, landed.value);
    } else {
      assert s'.scheds[x] == s.scheds[x];
      UnchangedNote(s, mono, ev, s', hs[x], x);
      assert HostFits(s, hs, x);
      LaterHostFits(s, hs, s', hs', x);
    }
  }

  lemma RestoredNote(s: State, mono: real, ev: Event, s': State, h: History, x: nat)
    requires x < |s.scheds| && x < |s'.scheds| && ev.ImportState? && Landing(s, ev.records, x).Some?
    ensures Noted1(s, mono, ev, s', h, x) == FirstNote(s'.scheds[x].state, h.line)
  {
    hide Landing, Recovers, Delivers;
  }

  lemma RestoredHost(s: State, s': State, hs': seq<History>, x: nat, c: Carried)
    requires x < |s.scheds| && |s'.scheds| == |s.scheds| == |hs'| && s.scheds[x].alive && s' == s.(scheds := s'.scheds)
    requires s'.scheds[x] == s.scheds[x].(state := Restore(s.scheds[x].state, c).(lastcontacted := s.now))
    requires hs'[x] == FirstNote(s'.scheds[x].state, hs'[x].line)
    ensures HostFits(s', hs', x) <==> (c.contacted ==> !IsUp(c.lastcheck)) && FitsPages(s, x, c)
  {
    hide HostOk, SendOk, FirstNote, Restore;
    RestoreKeepsTime(s.scheds[x].state, c, s.now);
    RestoredOk(s.scheds[x].state, c, hs'[x].line, Recovery, s.cfg.pageInterval, s.now);
    forall t | t in s.tasks && s.tasks[t].phase.Sending? && s.tasks[t].id == x
      ensures SendOk(s'.scheds[x].state, hs'[x], s.tasks[t].phase.kind, s.cfg.pageInterval, s.now) <==>
                (s.tasks[t].phase == Sending(FirstDown) ==> !IsUp(c.lastcheck)) && (s.tasks[t].phase == Sending(Repage) ==> c.contacted)
    {
      RestoredOk(s.scheds[x].state, c, hs'[x].line, s.tasks[t].phase.kind, s.cfg.pageInterval, s.now);
    }
  }

  lemma RestoreKeepsTime(st: HostState, c: Carried, now: real)
    ensures Restore(st, c).(lastcontacted := now).lastcontacted == now
  {
  }

  lemma LaterHostFits(s: State, hs: seq<History>, s': State, hs': seq<History>, x: nat)
    requires x < |s.scheds| == |s'.scheds| == |hs| == |hs'| && HostFits(s, hs, x)
    requires s'.scheds[x] == s.scheds[x] && hs'[x] == hs[x] && s'.tasks == s.tasks && s'.cfg == s.cfg && s.now <= s'.now
    ensures HostFits(s', hs', x)
  {
    hide HostOk, SendOk;
    forall t | s'.scheds[x].alive && t in s'.tasks && s'.tasks[t].phase.Sending? && s'.tasks[t].id == x
      ensures SendOk(s'.scheds[x].state, hs'[x], s'.tasks[t].phase.kind, s'.cfg.pageInterval, s'.now)
    {
      LaterSendOk(s.scheds[x].state, hs[x], s.tasks[t].phase.kind, s.cfg.pageInterval, s.now, s'.now);
    }
  }

  /** Steps other than reloads leave the lines as they are. */
  lemma LinesStay(s: State, mono: real, ev: Event, s': State, hs: seq<History>, hs': seq<History>)
    requires Observes(s, mono, ev, s', hs, hs') && |s'.scheds| == |s.scheds|
    ensures |hs'| == |hs| && forall x :: 0 <= x < |hs| ==> hs'[x].line == hs[x].line
  {
    hide Restores, Recovers, Delivers;
  }

  lemma LinesKeep(s: State, s': State, hs: seq<History>, hs': seq<History>)
    requires |s'.scheds| == |s.scheds| == |hs| == |hs'| && s'.tasks == s.tasks
    requires forall x :: 0 <= x < |hs| ==> hs'[x].line == hs[x].line && s'.scheds[x].alive == s.scheds[x].alive
    requires LinesOk(s, hs) && LinesClear(s, hs)
    ensures LinesOk(s', hs') && LinesClear(s', hs')
  {
  }

  /** An import keeps the discipline iff its records fit. */
  lemma ImportKeepsPagingIff(s: State, mono: real, ev: Event, s': State, hs: seq<History>, hs': seq<History>)
    requires Inv(s) && PagingOk(s, hs) && Next(s, mono, ev, s') && Observes(s, mono, ev, s', hs, hs') && ev.ImportState?
    ensures PagingOk(s', hs') <==> RecordsFit(s, ev.records)
  {
    hide QueueOk, GatesOk, TasksOk, PagingOk, Import, Landing, FitsPages, Noted1, HostFits;
    PagingIsPerHost(s, hs);
    ImportLands(s.(now := mono), ev.records);
    LinesStay(s, mono, ev, s', hs, hs');
    LinesKeep(s, s', hs, hs');
    forall x: nat | x < |s.scheds|
      ensures |s'.scheds| == |s.scheds| == |hs'|
      ensures HostFits(s', hs', x) <==>
        (Landing(s, ev.records, x).Some? ==>
           var c := Landing(s, ev.records, x).value; (c.contacted ==> !IsUp(c.lastcheck)) && FitsPages(s, x, c))
    {
      ImportedHost(s, mono, ev, s', hs, hs', x);
    }
    PagingIsPerHost(s', hs');
  }

  lemma NextKeepsPaging(s: State, mono: real, ev: Event, s': State, hs: seq<History>, hs': seq<History>)
    requires Inv(s) && PagingOk(s, hs) && Calm(s, ev) && Next(s, mono, ev, s') && Observes(s, mono, ev, s', hs, hs')
    ensures PagingOk(s', hs')
  {
    hide QueueOk, GatesOk, UniqueTasks, HasTask, PagingOk, Observes, Ticked, Complete, Finish, SendBack, Reloaded;
    match ev
    case CheckDone(_, _, _) => CompletionKeepsPaging(s, mono, ev, s', hs, hs');
    case SendDone(_, _) => AnswerKeepsPaging(s, mono, ev, s', hs, hs');
    case Reload(_, _) => ReloadKeepsPagingIff(s, mono, ev, s', hs, hs');
    case ImportState(_) => ImportKeepsPagingIff(s, mono, ev, s', hs, hs');
    case _ => QuietEventKeepsPaging(s, mono, ev, s', hs, hs');
  }

  /** In every run whose imports and reloads meet their conditions: a contacted host is not up; marks and announced
      recoveries alternate; the DOWN pages delivered in one outage lie more than the page interval apart, and there
      is at most one if the interval is not positive. */
  lemma {:induction false} PagingDiscipline(states: seq<State>, evs: seq<Timed>, hists: seq<seq<History>>, n: nat)
    requires ObservedRun(states, evs, hists) && n < |states|
    requires Inv(states[0]) && PagingOk(states[0], hists[0])
    ensures PagingOk(states[n], hists[n])
  {
    hide PagingOk, Next, Inv, Observes, Calm;
    if n > 0 {
      PagingDiscipline(states, evs, hists, n - 1);
      RunKeepsInv(states, evs, n - 1);
      NextKeepsPaging(states[n - 1], evs[n - 1].mono, evs[n - 1].ev, states[n], hists[n - 1], hists[n]);
    }
  }

  /** The history an observer starts with. */
  ghost function StartHistory(s: State): seq<History> {
    seq(|s.scheds|, x requires 0 <= x < |s.scheds| => FirstNote(s.scheds[x].state, {x}))
  }

  /** The discipline holds of any scheduler without tasks in which contacted hosts are down. */
  lemma StartKeepsDiscipline(s: State)
    requires s.tasks == map[] && Stamped(s)
    requires forall x :: 0 <= x < |s.scheds| && s.scheds[x].alive && s.scheds[x].state.contacted ==> !IsUp(s.scheds[x].state.lastcheck)
    ensures PagingOk(s, StartHistory(s))
  {
  }

  lemma InitPagingOk(cfg: Config, p: Plan, mono: real, wall: real, stagger: bool)
    requires PlanFormed(p)
    ensures var s := Init(cfg, p, mono, wall, stagger); PagingOk(s, StartHistory(s))
  {
    hide PagingOk;
    StartKeepsDiscipline(Init(cfg, p, mono, wall, stagger));
  }

  /** So it is in every such run from a fresh scheduler. */
  lemma PagingFromStart(cfg: Config, p: Plan, mono: real, wall: real, stagger: bool, states: seq<State>, evs: seq<Timed>, hists: seq<seq<History>>, n: nat)
    requires PlanFormed(p) && ObservedRun(states, evs, hists) && n < |states|
    requires states[0] == Init(cfg, p, mono, wall, stagger) && hists[0] == StartHistory(states[0])
    ensures PagingOk(states[n], hists[n])
  {
    hide PagingOk, Next, Inv, Observes, Calm, Init, StartHistory;
    InitInv(cfg, p, mono, wall, stagger);
    InitPagingOk(cfg, p, mono, wall, stagger);
    PagingDiscipline(states, evs, hists, n);
  }

  // ----- acknowledgements --------------------------------------------------------------------

  /** `x` goes from not up to up. */
  ghost predicate ComesUp(s: State, s': State, x: nat) {
    x < |s.scheds| && x < |s'.scheds| && !IsUp(s.scheds[x].state.lastcheck) && IsUp(s'.scheds[x].state.lastcheck)
  }

  /** A DOWN page about `x` starts. */
  ghost predicate DownStarts(s: State, s': State, x: nat) {
    exists t :: PageStarts(s, s', t) && DownPhase(s'.tasks[t].phase) && s'.tasks[t].id == x
  }

  lemma AppliedAck(cfg: Config, node: Node, st: HostState, code: int, wall: real, mono: real)
    requires st.acked
    ensures var out := Apply(st.(suppressed := false), code, wall, cfg.pageOnDegraded);
            var paging := HandlePaging(cfg, node, out.state, out.intent, mono);
            && (paging.state.acked || (!IsUp(st.lastcheck) && IsUp(paging.state.lastcheck)))
            && (paging.send.Some? ==> paging.send.value == Recovery)
  {
    hide PagesDown, PagesUp, ContactOn;
  }

  lemma DownNeedsCheck(s: State, mono: real, ev: Event, s': State, x: nat)
    requires Inv(s) && Next(s, mono, ev, s') && DownStarts(s, s', x)
    ensures ev.CheckDone?
  {
    hide Inv, Next, LiveCompletion;
    var k :| PageStarts(s, s', k) && DownPhase(s'.tasks[k].phase) && s'.tasks[k].id == x;
    PagesNeedLivePath(s, mono, ev, s', k);
  }

  lemma CheckWhileAcked(s: State, mono: real, tid: nat, code: int, wall: real, x: nat)
    requires TaskAt(s, tid) && s.tasks[tid].phase == Running && x < |s.scheds| && s.scheds[x].state.acked
    ensures var s' := Complete(s.(now := mono), tid, code, wall);
            && x < |s'.scheds| && (s'.scheds[x].state.acked || ComesUp(s, s', x))
            && !DownStarts(s, s', x)
  {
    hide HasLivePath, Apply, HandlePaging, Complete;
    var t, id := s.(now := mono), s.tasks[tid].id;
    CompletionEffect(t, tid, code, wall);
    AppliedAck(s.cfg, s.scheds[x].node, s.scheds[x].state, code, wall, mono);
    if !s.scheds[id].alive || !HasLivePath(s.scheds, id) {
      DiscardKeepsAck(t, tid, code, wall, x);
    }
  }

  lemma AckStep(s: State, mono: real, ev: Event, s': State, x: nat)
    requires Inv(s) && Next(s, mono, ev, s') && !ev.ImportState? && x < |s.scheds| && s.scheds[x].state.acked
    ensures x < |s'.scheds| && (s'.scheds[x].state.acked || ComesUp(s, s', x))
    ensures !DownStarts(s, s', x)
  {
    hide Inv, HasLivePath, SweptHeap, SweptTasks, Reloaded, Finish, Complete, SendBack, DownStarts, ComesUp;
    var t := s.(now := mono);
    if DownStarts(s, s', x) {
      DownNeedsCheck(s, mono, ev, s', x);
    }
    match ev
    case CheckDone(tid, code, wall) => CheckWhileAcked(s, mono, tid, code, wall, x);
    case SendDone(tid, ok) => SendBackShape(t, tid, ok);
    case Raised(tid) => FinishShape(t, tid);
    case Reload(plan, wall) => ReloadedAt(t, plan, wall, x);
    case _ =>
  }

  lemma DiscardKeepsAck(s: State, tid: nat, code: int, wall: real, x: nat)
    requires TaskAt(s, tid) && s.tasks[tid].phase == Running && x < |s.scheds|
    requires !s.scheds[s.tasks[tid].id].alive || !HasLivePath(s.scheds, s.tasks[tid].id)
    ensures |Complete(s, tid, code, wall).scheds| == |s.scheds|
    ensures Complete(s, tid, code, wall).scheds[x].state.acked == s.scheds[x].state.acked
  {
    hide HasLivePath, Finish;
    var id := s.tasks[tid].id;
    FinishShape(s, tid);
    FinishShape(SetSched(s, id, s.scheds[id].(state := s.scheds[id].state.(suppressed := true))), tid);
  }

  // ----- by key, across reloads --------------------------------------------------------------

  /** Every current node with this key is acknowledged. */
  ghost predicate KeyAcked(s: State, key: Key) {
    forall x: nat :: Matches(s, x, key) ==> s.scheds[x].state.acked
  }

  ghost predicate Present(s: State, key: Key) {
    exists x: nat :: Matches(s, x, key)
  }

  predicate Planned(p: Plan, key: Key) {
    exists k :: 0 <= k < |p.nodes| && KeyOf(p.nodes[k]) == key
  }

  /** No record that takes effect on a node with this key takes the acknowledgement back. */
  ghost predicate RecordsAck(s: State, records: seq<Record>, key: Key) {
    forall x: nat :: Matches(s, x, key) && Landing(s, records, x).Some? ==> Landing(s, records, x).value.acked
  }

  /** Between two steps the acknowledged outage goes on: no node with this key comes up by a result, a reload does not
      bring the key back after it was gone, an import does not take the acknowledgement back. */
  ghost predicate OutageGoesOn(s: State, ev: Event, s': State, key: Key) {
    match ev
    case CheckDone(_, _, _) => forall x: nat :: Matches(s, x, key) ==> !ComesUp(s, s', x)
    case Reload(plan, _) => Planned(plan, key) ==> Present(s, key)
    case ImportState(records) => RecordsAck(s, records, key)
    case _ => true
  }

  /** An import keeps a key acknowledged iff no record that takes effect says otherwise. */
  lemma ImportKeepsAckIff(s: State, records: seq<Record>, key: Key)
    requires KeyAcked(s, key)
    ensures KeyAcked(Import(s, records), key) <==> RecordsAck(s, records, key)
  {
    hide Import, Landing;
    ImportLands(s, records);
    var s' := Import(s, records);
    forall x: nat
      ensures Matches(s', x, key) <==> Matches(s, x, key)
      ensures Matches(s, x, key) ==>
        (s'.scheds[x].state.acked <==> (Landing(s, records, x).Some? ==> Landing(s, records, x).value.acked))
    {
    }
  }

  /** A reload keeps a key acknowledged iff it does not bring back a key that was gone. */
  lemma ReloadKeepsAckIff(s: State, p: Plan, wall: real, key: Key)
    requires Identified(s) && KeyAcked(s, key) && PlanFormed(p)
    ensures KeyAcked(Reloaded(s, p, wall), key) <==> (Planned(p, key) ==> Present(s, key))
  {
    hide LastWith, FreshSched, FreshHeap, ReloadedSched, Present;
    var s', base := Reloaded(s, p, wall), |s.scheds|;
    forall k: nat | k < |p.nodes|
      ensures Matches(s', base + k, key) <==> KeyOf(p.nodes[k]) == key
      ensures KeyOf(p.nodes[k]) == key ==> (s'.scheds[base + k].state.acked <==> Present(s, key))
    {
      ReloadedAt(s, p, wall, base + k);
      assert s'.current[k] == base + k;
      ReloadedShape(s, p, k, wall);
      if KeyOf(p.nodes[k]) == key {
        HeirAckedIff(s, p, k, wall, key);
      }
    }
    if KeyAcked(s', key) && Planned(p, key) {
      var k: nat :| k < |p.nodes| && KeyOf(p.nodes[k]) == key;
      assert Matches(s', base + k, key);
    }
    if Planned(p, key) ==> Present(s, key) {
      forall x: nat | Matches(s', x, key)
        ensures s'.scheds[x].state.acked
      {
        assert x == base + (x - base);
        assert KeyOf(p.nodes[x - base]) == key;
      }
    }
  }

  lemma HeirAckedIff(s: State, p: Plan, k: nat, wall: real, key: Key)
    requires KeyAcked(s, key) && PlanFormed(p) && k < |p.nodes| && KeyOf(p.nodes[k]) == key
    ensures ReloadedSched(s, p, k, wall).state.acked <==> Present(s, key)
  {
    var prior := LastWith(s.scheds, s.current, key);
    if prior.Some? {
      assert Matches(s, prior.value, key);
    }
  }

  /** A DOWN page about a node with this key starts. */
  ghost predicate KeyDownStarts(s: State, s': State, key: Key) {
    exists x: nat :: x < |s.scheds| && KeyOf(s.scheds[x].node) == key && DownStarts(s, s', x)
  }

  lemma DownStartsAtCurrent(s: State, mono: real, ev: Event, s': State, x: nat)
    requires Inv(s) && Next(s, mono, ev, s') && DownStarts(s, s', x) && x < |s.scheds|
    ensures x in s.current
  {
    hide Next, QueueOk, TasksOk, GatesOk, HasLivePath;
    var k :| PageStarts(s, s', k) && DownPhase(s'.tasks[k].phase) && s'.tasks[k].id == x;
    PagesNeedLivePath(s, mono, ev, s', k);
  }

  lemma AckKeyStep(s: State, mono: real, ev: Event, s': State, key: Key)
    requires Inv(s) && Next(s, mono, ev, s') && KeyAcked(s, key) && OutageGoesOn(s, ev, s', key)
    ensures KeyAcked(s', key) && !KeyDownStarts(s, s', key)
  {
    hide Inv, Next, DownStarts, ComesUp, Import, Reloaded, Present, RecordsAck, Planned;
    NextUnfolds(s, mono, ev, s');
    if ev.ImportState? {
      RecordsAckLater(s, mono, ev.records, key);
      ImportKeepsAckIff(s.(now := mono), ev.records, key);
    } else if ev.Reload? {
      PresentLater(s, mono, key);
      InvMeans(s, mono);
      ReloadKeepsAckIff(s.(now := mono), ev.plan, ev.wall, key);
    } else {
      NextKeepsPlaces(s, mono, ev, s');
      forall x: nat | Matches(s', x, key)
        ensures s'.scheds[x].state.acked
      {
        assert Matches(s, x, key);
        AckStep(s, mono, ev, s', x);
        if !ev.CheckDone? {
          OnlyChecksBringUp(s, mono, ev, s', x);
        }
      }
    }
    if KeyDownStarts(s, s', key) {
      var x: nat :| x < |s.scheds| && KeyOf(s.scheds[x].node) == key && DownStarts(s, s', x);
      DownNeedsCheck(s, mono, ev, s', x);
      DownStartsAtCurrent(s, mono, ev, s', x);
      assert Matches(s, x, key);
      AckStep(s, mono, ev, s', x);
    }
  }

  lemma NextUnfolds(s: State, mono: real, ev: Event, s': State)
    requires Next(s, mono, ev, s')
    ensures s.now <= mono
    ensures ev.ImportState? ==> s' == Import(s.(now := mono), ev.records)
    ensures ev.Reload? ==> PlanFormed(ev.plan) && s' == Reloaded(s.(now := mono), ev.plan, ev.wall)
  {
    hide Ticked, Complete, Finish, SendBack, Import, Reloaded;
  }

  lemma PresentLater(s: State, mono: real, key: Key)
    ensures Present(s.(now := mono), key) <==> Present(s, key)
  {
    assert forall x: nat :: Matches(s.(now := mono), x, key) <==> Matches(s, x, key);
  }

  lemma RecordsAckLater(s: State, mono: real, records: seq<Record>, key: Key)
    ensures RecordsAck(s.(now := mono), records, key) <==> RecordsAck(s, records, key)
  {
    hide Landing;
    forall x: nat
      ensures Landing(s.(now := mono), records, x) == Landing(s, records, x)
      ensures Matches(s.(now := mono), x, key) <==> Matches(s, x, key)
    {
      SameLanding(s, mono, records, x);
    }
  }

  lemma InvMeans(s: State, mono: real)
    requires Inv(s)
    ensures Identified(s.(now := mono))
  {
  }

  lemma OnlyChecksBringUp(s: State, mono: real, ev: Event, s': State, x: nat)
    requires Inv(s) && Next(s, mono, ev, s') && !ev.CheckDone? && !ev.ImportState? && x < |s.scheds|
    ensures !ComesUp(s, s', x)
  {
    hide Inv, Next;
    ResultsNeedLivePath(s, mono, ev, s', x);
  }

  /** A host is followed by its key. From an acknowledgement of it, across any reload that does not bring the key back
      after it was gone and any import that keeps the acknowledgement, until one of its nodes comes up: no DOWN page
      about it starts, and every current node of the key stays acknowledged. */
  lemma {:induction false} NoDownPageWhileAcked(states: seq<State>, evs: seq<Timed>, key: Key, n: nat)
    requires IsRun(states, evs) && Inv(states[0]) && n < |states| && KeyAcked(states[0], key)
    requires forall i :: 0 <= i < n ==> OutageGoesOn(states[i], evs[i].ev, states[i + 1], key)
    ensures KeyAcked(states[n], key)
    ensures forall i :: 0 <= i < n ==> !KeyDownStarts(states[i], states[i + 1], key)
  {
    hide Next, Inv, KeyDownStarts, KeyAcked, OutageGoesOn;
    if n > 0 {
      NoDownPageWhileAcked(states, evs, key, n - 1);
      RunKeepsInv(states, evs, n - 1);
      AckKeyStep(states[n - 1], evs[n - 1].mono, evs[n - 1].ev, states[n], key);
    }
  }

  /** An acknowledgement puts its key into that state. */
  lemma AckAcksKey(s: State, mono: real, key: Key, s': State)
    requires Next(s, mono, Event.Ack(key), s')
    ensures KeyAcked(s', key)
  {
    hide HasLivePath;
  }
}
