/** Who is told what: when a completed check starts a page, when it marks a host silently, and what a host's state owes
    to the events of a run. */
module Announcing {
  import opened Model
  import opened StateMachine
  import opened Gates
  import opened Records
  import opened Scheduling
  import opened SchedulerInvariant
  import opened Suppression
  import opened Paging
  import T = Timing

  // ----- one completion ----------------------------------------------------------------------

  /** The transitions a contact wants to hear of: the node's own choice, else the daemon's. */
  function Choice(cfg: Config, node: Node): string {
    if node.contactOn == "" then cfg.contactOn else node.contactOn
  }

  /** The result takes the host from not up to up. */
  predicate Recovered(st: HostState, code: int) {
    code == 0 && st.lastcheck != 0
  }

  /** The result is a failure that counts, has now been seen often enough in a row, and nobody knows yet. */
  predicate OutageBegins(cfg: Config, st: HostState, code: int) {
    && code != 0 && code != 5 && (code == 14 ==> cfg.pageOnDegraded)
    && (if code == st.lastcheck then st.downct + 1 else 1) >= st.maxDown
    && !st.contacted
  }

  /** The contact knows, the outage goes on, and the page interval is over. */
  predicate RepeatDue(cfg: Config, st: HostState, code: int, mono: real) {
    st.contacted && !Recovered(st, code) && cfg.pageInterval > 0.0 && mono - st.lastcontacted > cfg.pageInterval
  }

  /** The check of `x` goes on to send a page of this kind. */
  ghost predicate Begins(s': State, tid: nat, x: nat, kind: SendKind) {
    tid in s'.tasks && s'.tasks[tid] == Task(x, Sending(kind))
  }

  /** What a completed check that counts makes of the paging of its host, and which page it starts. */
  ghost predicate Announces(cfg: Config, node: Node, st: HostState, code: int, wall: real, mono: real, st': HostState, begins: Option<SendKind>) {
    var c := Choice(cfg, node);
    && (begins == Some(Recovery) <==> Recovered(st, code) && st.contacted && (c == "up" || c == "both"))
    && (begins == Some(FirstDown) <==> OutageBegins(cfg, st, code) && !st.acked && (c == "down" || c == "both"))
    && (begins == Some(Repage) <==> RepeatDue(cfg, st, code, mono) && !st.acked && (c == "down" || c == "both"))
    && (st'.contacted <==> if st.contacted then !Recovered(st, code) else OutageBegins(cfg, st, code) && (st.acked || c == "up"))
    && (st'.acked <==> st.acked && !Recovered(st, code))
    && st'.lastcontacted == (if (st'.contacted && !st.contacted) || (RepeatDue(cfg, st, code, mono) && begins == None) then mono else st.lastcontacted)
    && st'.lastUp == (if Recovered(st, code) then wall else st.lastUp)
    && !st'.suppressed && st'.note == st.note && st'.maxDown == st.maxDown
  }

  lemma ResultAnnounces(cfg: Config, node: Node, st: HostState, code: int, wall: real, mono: real)
    ensures var out := Apply(st.(suppressed := false), code, wall, cfg.pageOnDegraded);
            var paging := HandlePaging(cfg, node, out.state, out.intent, mono);
            Announces(cfg, node, st, code, wall, mono, paging.state, paging.send)
  {
  }

  /** A completed check of a live host, in terms of the host's state before it and the contact's choice alone. A recovery
      page starts iff a contacted host comes up and the choice is "up" or "both"; a first DOWN page iff an outage begins,
      is not acknowledged, and the choice is "down" or "both"; a repeated one iff the interval is over, under the same two
      conditions. A host is marked without a page iff an outage begins that is acknowledged or whose choice is "up".
      Without a page the check ends and the host is queued again. */
  lemma CompletionAnnounces(s: State, mono: real, ev: Event, s': State, x: nat)
    requires Next(s, mono, ev, s') && LiveCompletion(s, ev, x)
    ensures |s'.scheds| == |s.scheds| && s'.scheds[x].checked
    ensures exists begins: Option<SendKind> ::
              && Announces(s.cfg, s.scheds[x].node, s.scheds[x].state, ev.code, ev.wall, mono, s'.scheds[x].state, begins)
              && (forall kind :: Begins(s', ev.tid, x, kind) <==> begins == Some(kind))
              && (begins == None <==> ev.tid !in s'.tasks)
              && (begins == None ==> !s'.scheds[x].inFlight && exists e :: e in s'.heap && e.id == x && e.due == s.scheds[x].nextDue)
  {
    hide HasLivePath, Apply, HandlePaging, Announces;
    var t, sched := s.(now := mono), s.scheds[x];
    var out := Apply(sched.state.(suppressed := false), ev.code, ev.wall, s.cfg.pageOnDegraded);
    var paging := HandlePaging(s.cfg, sched.node, out.state, out.intent, mono);
    ResultAnnounces(s.cfg, sched.node, sched.state, ev.code, ev.wall, mono);
    if paging.send.None? {
      FinishQueues(SetSched(t, x, sched.(state := paging.state, checked := true)), ev.tid);
    }
    assert Announces(s.cfg, s.scheds[x].node, s.scheds[x].state, ev.code, ev.wall, mono, s'.scheds[x].state, paging.send);
  }

  lemma FinishQueues(s: State, tid: nat)
    requires TaskAt(s, tid) && s.scheds[s.tasks[tid].id].alive
    ensures var s', x := Finish(s, tid), s.tasks[tid].id;
            && s'.tasks == s.tasks - {tid} && s'.scheds == s.scheds[x := s.scheds[x].(inFlight := false)]
            && Entry(s.scheds[x].nextDue, s.heapSeq, x, s.now) in s'.heap
  {
  }

  /** A host that comes up by a result is no longer acknowledged or contacted, so that its next outage is announced. */
  lemma RecoveryClears(s: State, mono: real, ev: Event, s': State, x: nat)
    requires Inv(s) && Next(s, mono, ev, s') && ev.CheckDone? && x < |s.scheds| && ComesUp(s, s', x)
    ensures !s'.scheds[x].state.acked && !s'.scheds[x].state.contacted && s'.scheds[x].state.lastUp == ev.wall
  {
    hide Inv, Next, Announces, LiveCompletion;
    ResultsNeedLivePath(s, mono, ev, s', x);
    CompletionAnnounces(s, mono, ev, s', x);
    var begins :| Announces(s.cfg, s.scheds[x].node, s.scheds[x].state, ev.code, ev.wall, mono, s'.scheds[x].state, begins);
    UpMeansRecovered(s, mono, ev, s', x);
    RecoveredAnnounces(s.cfg, s.scheds[x].node, s.scheds[x].state, ev.code, ev.wall, mono, s'.scheds[x].state, begins);
  }

  lemma RecoveredAnnounces(cfg: Config, node: Node, st: HostState, code: int, wall: real, mono: real, st': HostState, begins: Option<SendKind>)
    requires Announces(cfg, node, st, code, wall, mono, st', begins) && Recovered(st, code)
    ensures !st'.acked && !st'.contacted && st'.lastUp == wall
  {
  }

  lemma UpMeansRecovered(s: State, mono: real, ev: Event, s': State, x: nat)
    requires Next(s, mono, ev, s') && LiveCompletion(s, ev, x) && x < |s'.scheds| && ComesUp(s, s', x)
    ensures Recovered(s.scheds[x].state, ev.code)
  {
    hide HasLivePath;
    if IsUp(s'.scheds[x].state.lastcheck) && !IsUp(s.scheds[x].state.lastcheck) {
      CompletionEffect(s.(now := mono), ev.tid, ev.code, ev.wall);
    }
  }

  // ----- the notifier's answer ---------------------------------------------------------------

  /** The answer to a page: a delivered first page marks the host, a delivered DOWN page of either kind restarts its clock,
      and nothing else about any host changes; an undelivered page changes nothing. The check ends. */
  lemma AnswerMarks(s: State, mono: real, ev: Event, s': State, y: nat)
    requires Next(s, mono, ev, s') && ev.SendDone? && y < |s.scheds|
    ensures |s'.scheds| == |s.scheds| && s'.tasks == s.tasks - {ev.tid}
    ensures var kind, st, st' := s.tasks[ev.tid].phase.kind, s.scheds[y].state, s'.scheds[y].state;
            var lands := y == s.tasks[ev.tid].id && ev.ok && kind != Recovery;
            && st' == st.(contacted := st'.contacted, lastcontacted := st'.lastcontacted)
            && (st'.contacted <==> st.contacted || (lands && kind == FirstDown))
            && st'.lastcontacted == (if lands then mono else st.lastcontacted)
  {
    hide Finish;
    var id, t := s.tasks[ev.tid].id, s.(now := mono);
    FinishEffect(SetSched(t, id, s.scheds[id].(state := Answered(s.scheds[id].state, s.tasks[ev.tid].phase.kind, ev.ok, mono))), ev.tid);
  }

  // ----- a host is its history ---------------------------------------------------------------

  /** What a step adds to the history of `x`: the result of its check, then a mark or a restart of its page clock if there is
      one; a mark for a delivered first page and a restart for a delivered repeated one; an acknowledgement of its key. */
  ghost function Adds(s: State, mono: real, ev: Event, s': State, x: nat): seq<HistoryEvent>
    requires x < |s.scheds| && x < |s'.scheds|
  {
    var st, st' := s.scheds[x].state, s'.scheds[x].state;
    match ev
    case CheckDone(_, code, wall) =>
      if !LiveCompletion(s, ev, x) then []
      else if st'.contacted && !st.contacted then [Result(code, wall), Marked(mono)]
      else if st'.lastcontacted != st.lastcontacted then [Result(code, wall), Dated(mono)]
      else [Result(code, wall)]
    case SendDone(tid, ok) =>
      if !TaskAt(s, tid) || s.tasks[tid].id != x || !ok then []
      else if s.tasks[tid].phase == Sending(FirstDown) then [Marked(mono)]
      else if s.tasks[tid].phase == Sending(Repage) then [Dated(mono)]
      else []
    case Ack(key) => if Matches(s, x, key) then [HistoryEvent.Acked] else []
    case _ => []
  }

  /** The history of `x` over the first `n` steps of a run. */
  ghost function LogOf(states: seq<State>, evs: seq<Timed>, x: nat, n: nat): seq<HistoryEvent>
    requires |states| == |evs| + 1 && n <= |evs|
  {
    if n == 0 then []
    else
      var s, s' := states[n - 1], states[n];
      LogOf(states, evs, x, n - 1) + if x < |s.scheds| && x < |s'.scheds| then Adds(s, evs[n - 1].mono, evs[n - 1].ev, s', x) else []
  }

  /** Everything about a host except its display flag and its note. */
  function Essence(st: HostState): HostState {
    st.(suppressed := false, note := None)
  }

  lemma {:induction false} ReplaySplit(a: seq<HistoryEvent>, b: seq<HistoryEvent>, st: HostState, pageOnDegraded: bool)
    ensures Replay(a + b, st, pageOnDegraded) == Replay(b, Replay(a, st, pageOnDegraded), pageOnDegraded)
  {
    hide Happened;
    if b == [] {
      assert a + b == a;
    } else {
      ReplaySplit(a, b[..|b| - 1], st, pageOnDegraded);
      assert (a + b)[..|a + b| - 1] == a + b[..|b| - 1];
    }
  }

  lemma ReplayOne(e: HistoryEvent, st: HostState, pageOnDegraded: bool)
    ensures Replay([e], st, pageOnDegraded) == Happened(st, e, pageOnDegraded)
  {
    hide Happened;
    assert [e][..0] == [];
  }

  lemma ReplayTwo(a: HistoryEvent, b: HistoryEvent, st: HostState, pageOnDegraded: bool)
    ensures Replay([a, b], st, pageOnDegraded) == Happened(Happened(st, a, pageOnDegraded), b, pageOnDegraded)
  {
    hide Happened, Replay;
    assert [a, b] == [a] + [b];
    ReplaySplit([a], [b], st, pageOnDegraded);
    ReplayOne(a, st, pageOnDegraded);
    ReplayOne(b, Happened(st, a, pageOnDegraded), pageOnDegraded);
  }

  lemma AppliedEssence(st: HostState, code: int, wall: real, pageOnDegraded: bool)
    ensures var st1 := Applied(st.(suppressed := false), code, wall, pageOnDegraded);
            Essence(st1) == Applied(Essence(st), code, wall, pageOnDegraded) && st1.lastcontacted == st.lastcontacted && (st1.contacted ==> st.contacted)
            && (!IsUp(code) ==> st1.contacted == st.contacted)
  {
  }

  /** Handling a page marks the host, restarts its clock, or leaves it as it is. */
  lemma HandlingMarks(cfg: Config, node: Node, before: HostState, after: HostState, code: int, mono: real)
    requires (after.contacted ==> before.contacted) && (!IsUp(code) ==> after.contacted == before.contacted)
    ensures var intent := IntentOf(before, after, code, cfg.pageOnDegraded);
            var st' := HandlePaging(cfg, node, after, intent, mono).state;
            if st'.contacted && !before.contacted then st' == after.(contacted := true, lastcontacted := mono)
            else st' == after.(lastcontacted := st'.lastcontacted) && (st'.lastcontacted == after.lastcontacted || st'.lastcontacted == mono)
  {
  }

  lemma ResultReplays(cfg: Config, node: Node, st: HostState, code: int, wall: real, mono: real)
    ensures var out := Apply(st.(suppressed := false), code, wall, cfg.pageOnDegraded);
            var st' := HandlePaging(cfg, node, out.state, out.intent, mono).state;
            var h := if st'.contacted && !st.contacted then [Result(code, wall), Marked(mono)]
                     else if st'.lastcontacted != st.lastcontacted then [Result(code, wall), Dated(mono)]
                     else [Result(code, wall)];
            Essence(st') == Replay(h, Essence(st), cfg.pageOnDegraded)
  {
    hide Replay, HandlePaging, Applied, IntentOf;
    AppliedEssence(st, code, wall, cfg.pageOnDegraded);
    HandlingMarks(cfg, node, st.(suppressed := false), Applied(st.(suppressed := false), code, wall, cfg.pageOnDegraded), code, mono);
    ReplayTwo(Result(code, wall), Marked(mono), Essence(st), cfg.pageOnDegraded);
    ReplayTwo(Result(code, wall), Dated(mono), Essence(st), cfg.pageOnDegraded);
    ReplayOne(Result(code, wall), Essence(st), cfg.pageOnDegraded);
  }

  lemma ReplayNothing(st: HostState, pageOnDegraded: bool)
    ensures Replay([], st, pageOnDegraded) == st
  {
  }

  lemma CheckReplays(s: State, mono: real, tid: nat, code: int, wall: real, x: nat)
    requires TaskAt(s, tid) && s.tasks[tid].phase == Running && x < |s.scheds|
    ensures var ev, s' := Event.CheckDone(tid, code, wall), Complete(s.(now := mono), tid, code, wall);
            |s'.scheds| == |s.scheds| && Essence(s'.scheds[x].state) == Replay(Adds(s, mono, ev, s', x), Essence(s.scheds[x].state), s.cfg.pageOnDegraded)
  {
    hide HasLivePath, Apply, HandlePaging, Finish, Replay;
    var t, id := s.(now := mono), s.tasks[tid].id;
    var sched := s.scheds[id];
    ReplayNothing(Essence(s.scheds[x].state), s.cfg.pageOnDegraded);
    if sched.alive && HasLivePath(s.scheds, id) {
      var out := Apply(sched.state.(suppressed := false), code, wall, s.cfg.pageOnDegraded);
      var paging := HandlePaging(s.cfg, sched.node, out.state, out.intent, mono);
      ResultReplays(s.cfg, sched.node, sched.state, code, wall, mono);
      FinishEffect(SetSched(t, id, sched.(state := paging.state, checked := true)), tid);
    } else {
      FinishEffect(t, tid);
      FinishEffect(SetSched(t, id, sched.(state := sched.state.(suppressed := true))), tid);
    }
  }

  lemma AnswerReplays(s: State, mono: real, tid: nat, ok: bool, x: nat)
    requires TaskAt(s, tid) && s.tasks[tid].phase.Sending? && x < |s.scheds|
    ensures var ev, s' := Event.SendDone(tid, ok), SendBack(s.(now := mono), tid, ok);
            |s'.scheds| == |s.scheds| && Essence(s'.scheds[x].state) == Replay(Adds(s, mono, ev, s', x), Essence(s.scheds[x].state), s.cfg.pageOnDegraded)
  {
    hide Finish, Replay;
    var t, id := s.(now := mono), s.tasks[tid].id;
    ReplayNothing(Essence(s.scheds[x].state), s.cfg.pageOnDegraded);
    ReplayOne(Marked(mono), Essence(s.scheds[x].state), s.cfg.pageOnDegraded);
    ReplayOne(Dated(mono), Essence(s.scheds[x].state), s.cfg.pageOnDegraded);
    FinishEffect(SetSched(t, id, s.scheds[id].(state := Answered(s.scheds[id].state, s.tasks[tid].phase.kind, ok, mono))), tid);
  }

  /** Every step does to a host what the events it adds to the host's history say, and no more. */
  lemma NextReplays(s: State, mono: real, ev: Event, s': State, x: nat)
    requires Next(s, mono, ev, s') && x < |s.scheds| && !Restores(s, ev, x)
    ensures x < |s'.scheds|
    ensures Essence(s'.scheds[x].state) == Replay(Adds(s, mono, ev, s', x), Essence(s.scheds[x].state), s.cfg.pageOnDegraded)
  {
    hide HasLivePath, Replay, Complete, SendBack, Import, Landing, Reloaded, Finish, SweptHeap, SweptTasks;
    var t := s.(now := mono);
    ReplayNothing(Essence(s.scheds[x].state), s.cfg.pageOnDegraded);
    ReplayOne(HistoryEvent.Acked, Essence(s.scheds[x].state), s.cfg.pageOnDegraded);
    match ev
    case CheckDone(tid, code, wall) => CheckReplays(s, mono, tid, code, wall, x);
    case SendDone(tid, ok) => AnswerReplays(s, mono, tid, ok, x);
    case Raised(tid) => FinishEffect(t, tid);
    case Reload(plan, wall) => ReloadedAt(t, plan, wall, x);
    case ImportState(records) =>
      ImportLands(t, records);
      SameLanding(s, mono, records, x);
    case _ =>
  }

  lemma {:induction false} RunReplays(states: seq<State>, evs: seq<Timed>, x: nat, n: nat)
    requires IsRun(states, evs) && n < |states| && x < |states[0].scheds|
    requires forall i :: 0 <= i < n ==> !Restores(states[i], evs[i].ev, x)
    ensures x < |states[n].scheds| && states[n].cfg == states[0].cfg
    ensures Essence(states[n].scheds[x].state)
         == Replay(LogOf(states, evs, x, n), Essence(states[0].scheds[x].state), states[0].cfg.pageOnDegraded)
  {
    hide Next, Replay, Adds, Restores;
    if n == 0 {
      ReplayNothing(Essence(states[0].scheds[x].state), states[0].cfg.pageOnDegraded);
    } else {
      var s, e, s' := states[n - 1], evs[n - 1], states[n];
      RunReplays(states, evs, x, n - 1);
      assert Next(s, e.mono, e.ev, s');
      NextReplays(s, e.mono, e.ev, s', x);
      T.NextKeepsConfig(s, e.mono, e.ev, s');
      ReplaySplit(LogOf(states, evs, x, n - 1), Adds(s, e.mono, e.ev, s', x), Essence(states[0].scheds[x].state), states[0].cfg.pageOnDegraded);
    }
  }

  /** In every run from the start, through reloads and whatever imports do to other hosts, a host's state is read off its
      history: what its last result was, how long its failure has lasted, when it failed and came up, whether its contact
      knows, and whether an acknowledgement stands. */
  lemma HostIsItsHistory(cfg: Config, p: Plan, mono: real, wall: real, stagger: bool, states: seq<State>, evs: seq<Timed>, x: nat, n: nat)
    requires PlanFormed(p) && IsRun(states, evs) && states[0] == Init(cfg, p, mono, wall, stagger) && x < |p.nodes| && n < |states|
    requires forall i :: 0 <= i < n ==> !Restores(states[i], evs[i].ev, x)
    ensures x < |states[n].scheds|
    ensures var st, h := states[n].scheds[x].state, LogOf(states, evs, x, n);
            var g := Settled(h, cfg.pageOnDegraded);
            && st.maxDown == p.nodes[x].maxDown
            && st.lastcheck == LastResult(h)
            && st.downct == (if LastResult(g) == 0 then 0 else RunLength(g, LastResult(g)))
            && st.deathtime == LastFailure(h, cfg.pageOnDegraded) && st.lastUp == LastRecovery(h, wall)
            && (st.contacted <==> SinceUp(h, Mark)) && st.lastcontacted == LastMark(h)
            && (st.acked <==> SinceUp(h, Acknowledgement))
  {
    hide Next, Replay, LogOf, Restores, SinceUp, Settled, LastResult, LastFailure, LastRecovery, LastMark, RunLength;
    RunReplays(states, evs, x, n);
    HistoryDeterminesState(LogOf(states, evs, x, n), p.nodes[x].maxDown, wall, cfg.pageOnDegraded);
  }
}
