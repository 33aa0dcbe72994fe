/** Results and pages need a live path: masked and retired hosts stay as they are. */
module Suppression {
  import opened Model
  import opened StateMachine
  import opened Gates
  import opened Records
  import opened Scheduling
  import opened SchedulerInvariant

  /** What a check result may change: the last code, the failure count, and when it went down or came up. */
  function ResultFields(st: HostState): (int, int, real, real) {
    (st.lastcheck, st.downct, st.deathtime, st.lastUp)
  }

  /** `ev` is the completion of node `x`'s own check, at an instant when `x` is alive and has a live path. */
  ghost predicate LiveCompletion(s: State, ev: Event, x: nat) {
    && ev.CheckDone? && TaskAt(s, ev.tid) && s.tasks[ev.tid].id == x
    && s.scheds[x].alive && HasLivePath(s.scheds, x)
  }

  /** Between `s` and `s'`, task `tid` starts sending a page. */
  ghost predicate PageStarts(s: State, s': State, tid: nat) {
    && tid in s'.tasks && s'.tasks[tid].phase.Sending?
    && (tid in s.tasks ==> !s.tasks[tid].phase.Sending?)
  }

  lemma FinishEffect(s: State, tid: nat)
    requires TaskAt(s, tid)
    ensures var s' := Finish(s, tid);
            && |s'.scheds| == |s.scheds|
            && (forall x :: 0 <= x < |s.scheds| ==> s'.scheds[x].state == s.scheds[x].state && s'.scheds[x].checked == s.scheds[x].checked)
            && s'.tasks == s.tasks - {tid}
  {
  }

  lemma {:induction false} ImportTasks(s: State, records: seq<Record>)
    ensures Import(s, records).tasks == s.tasks && |Import(s, records).scheds| == |s.scheds|
  {
    hide Keyed, ValidatedCarry;
    if records != [] {
      ImportTasks(s, records[..|records| - 1]);
    }
  }

  /** What an import puts into `x`: the last of the records that validates and finds `x` by its key. */
  function Landing(s: State, records: seq<Record>, x: nat): Option<Carried> {
    if records == [] then None
    else
      var r := records[|records| - 1];
      if LastKeyed(s.scheds, s.current, r) == Some(x) && ValidatedCarry(r).Some? then ValidatedCarry(r)
      else Landing(s, records[..|records| - 1], x)
  }

  /** `ev` restores a saved state into `x`. */
  predicate Restores(s: State, ev: Event, x: nat) {
    ev.ImportState? && Landing(s, ev.records, x).Some?
  }

  lemma {:induction false} SameNodesSameKey(a: seq<Sched>, b: seq<Sched>, ids: seq<nat>, r: Record)
    requires |a| == |b| && forall x :: 0 <= x < |a| ==> a[x].node == b[x].node
    ensures LastKeyed(a, ids, r) == LastKeyed(b, ids, r)
  {
    hide Keyed;
    if ids != [] {
      SameNodesSameKey(a, b, ids[..|ids| - 1], r);
    }
  }

  /** An import restores into each node the last record that lands on it, and touches nothing else. */
  lemma {:induction false} ImportLands(s: State, records: seq<Record>)
    ensures var s' := Import(s, records);
            && s' == s.(scheds := s'.scheds) && |s'.scheds| == |s.scheds|
            && forall x: nat :: x < |s.scheds| ==>
                 s'.scheds[x] == if Landing(s, records, x).None? then s.scheds[x]
                                 else s.scheds[x].(state := Restore(s.scheds[x].state, Landing(s, records, x).value).(lastcontacted := s.now))
  {
    hide Keyed, ValidatedCarry, LastKeyed;
    if records != [] {
      var front := records[..|records| - 1];
      ImportLands(s, front);
      SameNodesSameKey(Import(s, front).scheds, s.scheds, s.current, records[|records| - 1]);
    }
  }

  lemma SameLanding(s: State, mono: real, records: seq<Record>, x: nat)
    ensures Landing(s.(now := mono), records, x) == Landing(s, records, x)
  {
    hide Keyed, ValidatedCarry;
    if records != [] {
      SameLanding(s, mono, records[..|records| - 1], x);
    }
  }

  /** Any step that touches `x`'s result fields is a live completion of `x`'s check, or the import of a record that lands
      on `x`; only the former counts as a check. */
  lemma ResultsNeedLivePath(s: State, mono: real, ev: Event, s': State, x: nat)
    requires Inv(s) && Next(s, mono, ev, s') && x < |s.scheds|
    ensures x < |s'.scheds|
    ensures ResultFields(s'.scheds[x].state) != ResultFields(s.scheds[x].state) ==> LiveCompletion(s, ev, x) || Restores(s, ev, x)
    ensures s'.scheds[x].checked != s.scheds[x].checked ==> LiveCompletion(s, ev, x)
  {
    hide Import, Landing, Inv, HasLivePath, SweptHeap, SweptTasks, Reloaded, Apply, HandlePaging, Finish;
    var t := s.(now := mono);
    match ev
    case CheckDone(tid, code, wall) =>
      var id := s.tasks[tid].id;
      var sched := s.scheds[id];
      if sched.alive && HasLivePath(s.scheds, id) {
        var out := Apply(sched.state.(suppressed := false), code, wall, s.cfg.pageOnDegraded);
        var paging := HandlePaging(s.cfg, sched.node, out.state, out.intent, mono);
        FinishEffect(SetSched(t, id, sched.(state := paging.state, checked := true)), tid);
      } else {
        FinishEffect(t, tid);
        FinishEffect(SetSched(t, id, sched.(state := sched.state.(suppressed := true))), tid);
      }
    case Raised(tid) =>
      FinishEffect(t, tid);
    case SendDone(tid, ok) =>
      SendBackEffect(t, tid, ok, x);
    case Reload(plan, wall) =>
      ReloadedAt(t, plan, wall, x);
    case ImportState(records) =>
      ImportLands(t, records);
      SameLanding(s, mono, records, x);
    case _ =>
  }

  lemma SendBackEffect(s: State, tid: nat, ok: bool, x: nat)
    requires TaskAt(s, tid) && s.tasks[tid].phase.Sending? && x < |s.scheds|
    ensures |SendBack(s, tid, ok).scheds| == |s.scheds|
    ensures ResultFields(SendBack(s, tid, ok).scheds[x].state) == ResultFields(s.scheds[x].state)
    ensures SendBack(s, tid, ok).scheds[x].checked == s.scheds[x].checked
    ensures SendBack(s, tid, ok).tasks == s.tasks - {tid}
  {
    hide Finish;
    var id, st := s.tasks[tid].id, s.scheds[s.tasks[tid].id].state;
    FinishEffect(SetSched(s, id, s.scheds[id].(state := Answered(st, s.tasks[tid].phase.kind, ok, s.now))), tid);
  }

  /** The display flag: set when the host has its turn, or its check comes back, without a live path; cleared by a result that
      counts; otherwise left alone. */
  lemma FlagFollowsPath(s: State, mono: real, ev: Event, s': State, x: nat)
    requires Next(s, mono, ev, s') && x < |s.scheds|
    ensures x < |s'.scheds|
    ensures var masked := || (ev.Tick? && (exists e :: e in s.heap && e.id == x && e.due <= mono) && !HasLivePath(s.scheds, x))
                          || (ev.CheckDone? && TaskAt(s, ev.tid) && s.tasks[ev.tid].id == x && s.scheds[x].alive && !HasLivePath(s.scheds, x));
            s'.scheds[x].state.suppressed == if masked then true else if LiveCompletion(s, ev, x) then false else s.scheds[x].state.suppressed
  {
    hide Import, Landing, HasLivePath, SweptHeap, SweptTasks, Reloaded, Applied, IntentOf, Finish;
    var t := s.(now := mono);
    match ev
    case Tick => assert x in DueIds(t, mono) <==> exists e :: e in s.heap && e.id == x && e.due <= mono;
    case CheckDone(tid, code, wall) =>
      var id := s.tasks[tid].id;
      var sched := s.scheds[id];
      if sched.alive && HasLivePath(s.scheds, id) {
        var out := Apply(sched.state.(suppressed := false), code, wall, s.cfg.pageOnDegraded);
        var paging := HandlePaging(s.cfg, sched.node, out.state, out.intent, mono);
        AppliedKeepsFlag(sched.state.(suppressed := false), code, wall, s.cfg.pageOnDegraded);
        FinishEffect(SetSched(t, id, sched.(state := paging.state, checked := true)), tid);
      } else {
        FinishEffect(t, tid);
        FinishEffect(SetSched(t, id, sched.(state := sched.state.(suppressed := true))), tid);
      }
    case Raised(tid) => FinishEffect(t, tid);
    case SendDone(tid, ok) =>
      var id := s.tasks[tid].id;
      FinishEffect(SetSched(t, id, s.scheds[id].(state := Answered(s.scheds[id].state, s.tasks[tid].phase.kind, ok, mono))), tid);
    case Reload(plan, wall) => ReloadedAt(t, plan, wall, x);
    case ImportState(records) =>
      ImportLands(t, records);
    case _ =>
  }

  lemma AppliedKeepsFlag(st: HostState, code: int, wall: real, pageOnDegraded: bool)
    ensures Applied(st, code, wall, pageOnDegraded).suppressed == st.suppressed
  {
  }

  /** A page starts only in the live completion of its own node's check. */
  lemma PagesNeedLivePath(s: State, mono: real, ev: Event, s': State, tid: nat)
    requires Inv(s) && Next(s, mono, ev, s') && PageStarts(s, s', tid)
    ensures ev.CheckDone? && ev.tid == tid && LiveCompletion(s, ev, s'.tasks[tid].id)
  {
    hide Inv, HasLivePath, SweptHeap, SweptScheds, Reloaded, Apply, HandlePaging, Finish, SendBack;
    var t := s.(now := mono);
    match ev
    case CheckDone(k, code, wall) =>
      var id := s.tasks[k].id;
      var sched := s.scheds[id];
      if sched.alive && HasLivePath(s.scheds, id) {
        var out := Apply(sched.state.(suppressed := false), code, wall, s.cfg.pageOnDegraded);
        var paging := HandlePaging(s.cfg, sched.node, out.state, out.intent, mono);
        FinishEffect(SetSched(t, id, sched.(state := paging.state, checked := true)), k);
      } else {
        FinishEffect(t, k);
        FinishEffect(SetSched(t, id, sched.(state := sched.state.(suppressed := true))), k);
      }
    case Raised(k) =>
      FinishEffect(t, k);
    case SendDone(k, ok) =>
      SendBackEffect(t, k, ok, s.tasks[k].id);
    case Reload(plan, wall) =>
      ReloadedTasks(t, plan, wall);
    case ImportState(records) =>
      ImportTasks(t, records);
    case _ =>
  }

  lemma ReloadedTasks(s: State, p: Plan, wall: real)
    requires PlanFormed(p)
    ensures Reloaded(s, p, wall).tasks == s.tasks
  {
  }

  /** Over any run in which no import restores `x`: as long as `x` has no live path or is retired, its result fields are
      frozen, whatever its parents, its in-flight check, the operator or a reload do meanwhile. */
  lemma {:induction false} MaskedHostsStayFrozen(states: seq<State>, evs: seq<Timed>, x: nat, n: nat)
    requires IsRun(states, evs) && Inv(states[0]) && x < |states[0].scheds| && n < |states|
    requires forall i :: 0 <= i < n ==> !Restores(states[i], evs[i].ev, x)
    requires forall i :: 0 <= i < n && x < |states[i].scheds| ==>
               !states[i].scheds[x].alive || !HasLivePath(states[i].scheds, x)
    ensures x < |states[n].scheds|
    ensures ResultFields(states[n].scheds[x].state) == ResultFields(states[0].scheds[x].state)
    ensures states[n].scheds[x].checked == states[0].scheds[x].checked
  {
    hide Inv, HasLivePath, Next, Restores;
    if n > 0 {
      MaskedHostsStayFrozen(states, evs, x, n - 1);
      RunKeepsInv(states, evs, n - 1);
      ResultsNeedLivePath(states[n - 1], evs[n - 1].mono, evs[n - 1].ev, states[n], x);
    }
  }
}
