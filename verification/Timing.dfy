/** How long the loop may sleep, and that it never spins. */
module Timing {
  import opened Model
  import opened StateMachine
  import opened Gates
  import opened Records
  import opened Scheduling
  import opened SchedulerInvariant

  const MAX_IDLE_POLL := 1.0

  function Min(a: real, b: real): real { if a < b then a else b }
  function Max(a: real, b: real): real { if a < b then b else a }

  ghost predicate IsHead(heap: set<Entry>, e: Entry) {
    e in heap && forall a :: a in heap ==> e.due <= a.due
  }

  /** `d` is the delay `run` sleeps for when it looks at the queue of `s` at time `mono`. */
  ghost predicate IsDelay(s: State, mono: real, d: real) {
    if s.heap == {} then d == Min(s.cfg.defaultInterval, MAX_IDLE_POLL)
    else exists e :: IsHead(s.heap, e) && d == Max(0.0, e.due - mono)
  }

  /** With nothing waiting the loop still looks at least once a second. */
  lemma IdleLoopPolls(s: State, mono: real, d: real)
    requires s.heap == {} && IsDelay(s, mono, d)
    ensures d <= 1.0 && d <= s.cfg.defaultInterval && (d == 1.0 || d == s.cfg.defaultInterval)
  {
  }

  /** Nothing is scheduled further ahead than `imax` from when it was queued. */
  ghost predicate Bounded(s: State, imax: real) {
    && 0.0 < s.cfg.defaultInterval <= imax
    && (forall x :: 0 <= x < |s.scheds| ==> s.scheds[x].interval <= imax && s.scheds[x].nextDue <= s.now + imax)
    && (forall e :: e in s.heap ==> e.pushed <= s.now && e.due <= e.pushed + imax)
  }

  ghost predicate PlanBounded(cfg: Config, p: Plan, imax: real) {
    forall k :: 0 <= k < |p.nodes| ==> EffectiveInterval(p.nodes[k], cfg.defaultInterval) <= imax
  }

  /** A configuration swapped in by `ev` respects the bound. */
  ghost predicate EventBounded(cfg: Config, ev: Event, imax: real) {
    ev.Reload? ==> PlanBounded(cfg, ev.plan, imax)
  }

  lemma StaggerBound(cfg: Config, stagger: bool, mono: real, k: nat, n: nat)
    requires k < n && cfg.defaultInterval > 0.0
    ensures mono <= StaggerDue(cfg, stagger, mono, k, n) <= mono + cfg.defaultInterval
  {
    var f := k as real / n as real;
    assert 0.0 <= f <= 1.0;
    assert 0.0 <= f * cfg.defaultInterval <= cfg.defaultInterval;
  }

  lemma FinishBounded(s: State, tid: nat, imax: real)
    requires Bounded(s, imax) && TaskAt(s, tid)
    ensures Bounded(Finish(s, tid), imax)
  {
  }

  lemma TickBounded(s: State, now: real, s': State, imax: real)
    requires Bounded(s, imax) && s.now == now && Inv(s) && Ticked(s, now, s')
    ensures Bounded(s', imax)
  {
    hide HasLivePath, SweptTasks, QueueOk, TasksOk, GatesOk, Identified;
    forall e | e in s'.heap
      ensures e.pushed <= now && e.due <= e.pushed + imax
    {
      if e !in s.heap {
        assert Requeued(s, now, DueIds(s, now), e, s'.heapSeq);
      }
    }
  }

  lemma ReloadBounded(s: State, p: Plan, wall: real, imax: real)
    requires Bounded(s, imax) && PlanFormed(p) && PlanBounded(s.cfg, p, imax)
    ensures Bounded(Reloaded(s, p, wall), imax)
  {
    hide ReloadedSched;
    var s', base := Reloaded(s, p, wall), |s.scheds|;
    forall x | 0 <= x < |s'.scheds|
      ensures s'.scheds[x].interval <= imax && s'.scheds[x].nextDue <= s.now + imax
    {
      ReloadedAt(s, p, wall, x);
      if x >= base {
        ReloadedShape(s, p, x - base, wall);
        StaggerBound(s.cfg, true, s.now, x - base, |p.nodes|);
      }
    }
    forall e | e in s'.heap
      ensures e.pushed <= s'.now && e.due <= e.pushed + imax
    {
      StaggerBound(s.cfg, true, s.now, e.seqno, |p.nodes|);
    }
  }

  lemma {:induction false} ImportShape(s: State, records: seq<Record>)
    ensures var s' := Import(s, records); ShapesKept(s.scheds, s'.scheds) && s' == s.(scheds := s'.scheds)
  {
    hide Keyed, ValidatedCarry;
    if records != [] {
      ImportShape(s, records[..|records| - 1]);
    }
  }

  lemma ShapeBounded(s: State, s': State, imax: real)
    requires Bounded(s, imax) && ShapesKept(s.scheds, s'.scheds) && s' == s.(scheds := s'.scheds)
    ensures Bounded(s', imax)
  {
  }

  lemma CompleteBounded(s: State, tid: nat, code: int, wall: real, imax: real)
    requires Bounded(s, imax) && TaskAt(s, tid)
    ensures Bounded(Complete(s, tid, code, wall), imax)
  {
    hide Bounded, Finish, HasLivePath, Apply, HandlePaging;
    var id := s.tasks[tid].id;
    var sched := s.scheds[id];
    if !sched.alive {
      FinishBounded(s, tid, imax);
    } else if !HasLivePath(s.scheds, id) {
      var s1 := SetSched(s, id, sched.(state := sched.state.(suppressed := true)));
      ShapeBounded(s, s1, imax);
      FinishBounded(s1, tid, imax);
    } else {
      var out := Apply(sched.state.(suppressed := false), code, wall, s.cfg.pageOnDegraded);
      var paging := HandlePaging(s.cfg, sched.node, out.state, out.intent, s.now);
      var s1 := SetSched(s, id, sched.(state := paging.state, checked := true));
      ShapeBounded(s, s1, imax);
      if paging.send.Some? {
        TasksBounded(s1, s1.tasks[tid := Task(id, Sending(paging.send.value))], imax);
      } else {
        FinishBounded(s1, tid, imax);
      }
    }
  }

  lemma TasksBounded(s: State, tasks: map<nat, Task>, imax: real)
    requires Bounded(s, imax)
    ensures Bounded(s.(tasks := tasks), imax)
  {
  }

  lemma SendBackBounded(s: State, tid: nat, ok: bool, imax: real)
    requires Bounded(s, imax) && TaskAt(s, tid) && s.tasks[tid].phase.Sending?
    ensures Bounded(SendBack(s, tid, ok), imax)
  {
    hide Bounded, Finish;
    var id, st := s.tasks[tid].id, s.scheds[s.tasks[tid].id].state;
    var st' := Answered(st, s.tasks[tid].phase.kind, ok, s.now);
    var s1 := SetSched(s, id, s.scheds[id].(state := st'));
    ShapeBounded(s, s1, imax);
    FinishBounded(s1, tid, imax);
  }

  lemma LaterBounded(s: State, mono: real, imax: real)
    requires Bounded(s, imax) && s.now <= mono
    ensures Bounded(s.(now := mono), imax)
  {
  }

  /** Every step keeps due times within `imax` of their push. */
  lemma NextBounded(s: State, mono: real, ev: Event, s': State, imax: real)
    requires Inv(s) && Bounded(s, imax) && Next(s, mono, ev, s') && EventBounded(s.cfg, ev, imax)
    ensures Bounded(s', imax)
  {
    hide Inv, Bounded, Ticked, Complete, Finish, SendBack, Reloaded, Import;
    var t := s.(now := mono);
    ShapeKeepsInv(s, t);
    LaterBounded(s, mono, imax);
    match ev
    case Tick => TickBounded(t, mono, s', imax);
    case CheckDone(tid, code, wall) => CompleteBounded(t, tid, code, wall, imax);
    case Raised(tid) => FinishBounded(t, tid, imax);
    case SendDone(tid, ok) => SendBackBounded(t, tid, ok, imax);
    case Reload(plan, wall) => ReloadBounded(t, plan, wall, imax);
    case ImportState(records) =>
      ImportShape(t, records);
      ShapeBounded(t, s', imax);
    case _ => ShapeBounded(t, s', imax);
  }

  lemma InitBounded(cfg: Config, p: Plan, mono: real, wall: real, stagger: bool, imax: real)
    requires PlanFormed(p) && 0.0 < cfg.defaultInterval <= imax && PlanBounded(cfg, p, imax)
    ensures Bounded(Init(cfg, p, mono, wall, stagger), imax)
  {
    var s := Init(cfg, p, mono, wall, stagger);
    forall k: nat | k < |p.nodes|
      ensures mono <= StaggerDue(cfg, stagger, mono, k, |p.nodes|) <= mono + cfg.defaultInterval
    {
      StaggerBound(cfg, stagger, mono, k, |p.nodes|);
    }
    hide StaggerDue, EffectiveInterval;
    forall e | e in s.heap
      ensures e.pushed <= s.now && e.due <= e.pushed + imax
    {
      assert e.seqno < |p.nodes| && e.due == StaggerDue(cfg, stagger, mono, e.seqno, |p.nodes|);
    }
  }

  lemma NextKeepsConfig(s: State, mono: real, ev: Event, s': State)
    requires Next(s, mono, ev, s')
    ensures s'.cfg == s.cfg && s'.now == mono
  {
    hide HasLivePath, Apply, HandlePaging, Import, SweptScheds, SweptHeap, SweptTasks, Retired;
    match ev
    case ImportState(records) => ImportShape(s.(now := mono), records);
    case _ =>
  }

  /** A run from a fresh scheduler in which every configuration keeps its intervals within `imax`. */
  ghost predicate BoundedRun(cfg: Config, p: Plan, mono: real, wall: real, stagger: bool, states: seq<State>, evs: seq<Timed>, imax: real) {
    && PlanFormed(p) && IsRun(states, evs) && states[0] == Init(cfg, p, mono, wall, stagger)
    && 0.0 < cfg.defaultInterval <= imax && PlanBounded(cfg, p, imax)
    && forall i :: 0 <= i < |evs| ==> EventBounded(cfg, evs[i].ev, imax)
  }

  /** In every state of such a run nothing is queued further ahead than `imax` from its push. */
  lemma {:induction false} RunBounded(cfg: Config, p: Plan, mono: real, wall: real, stagger: bool, states: seq<State>, evs: seq<Timed>, imax: real, i: nat)
    requires BoundedRun(cfg, p, mono, wall, stagger, states, evs, imax) && i < |states|
    ensures Inv(states[i]) && Bounded(states[i], imax) && states[i].cfg == cfg
  {
    hide Inv, Bounded, Next, EventBounded, PlanBounded;
    if i == 0 {
      InitInv(cfg, p, mono, wall, stagger);
      InitBounded(cfg, p, mono, wall, stagger, imax);
    } else {
      hide Init;
      RunBounded(cfg, p, mono, wall, stagger, states, evs, imax, i - 1);
      NextKeepsInv(states[i - 1], evs[i - 1].mono, evs[i - 1].ev, states[i]);
      NextBounded(states[i - 1], evs[i - 1].mono, evs[i - 1].ev, states[i], imax);
      NextKeepsConfig(states[i - 1], evs[i - 1].mono, evs[i - 1].ev, states[i]);
    }
  }

  // ----- sleeping ----------------------------------------------------------------------------

  lemma FinishHeap(s: State, tid: nat)
    requires TaskAt(s, tid)
    ensures forall e :: e in Finish(s, tid).heap ==> e in s.heap || e.pushed == s.now
  {
  }

  /** Between ticks and reloads the queue only gains entries, and those are pushed at the step's own time. */
  lemma QueueGains(s: State, mono: real, ev: Event, s': State)
    requires Next(s, mono, ev, s') && !ev.Tick? && !ev.Reload?
    ensures forall e :: e in s'.heap ==> e in s.heap || e.pushed == mono
  {
    hide Finish, HasLivePath, Apply, HandlePaging, Import;
    var t := s.(now := mono);
    match ev
    case CheckDone(tid, code, wall) =>
      var id := s.tasks[tid].id;
      var sched := s.scheds[id];
      var out := Apply(sched.state.(suppressed := false), code, wall, s.cfg.pageOnDegraded);
      var paging := HandlePaging(s.cfg, sched.node, out.state, out.intent, mono);
      FinishHeap(t, tid);
      FinishHeap(SetSched(t, id, sched.(state := sched.state.(suppressed := true))), tid);
      FinishHeap(SetSched(t, id, sched.(state := paging.state, checked := true)), tid);
    case Raised(tid) => FinishHeap(t, tid);
    case SendDone(tid, ok) =>
      var id, st := s.tasks[tid].id, s.scheds[s.tasks[tid].id].state;
      FinishHeap(SetSched(t, id, s.scheds[id].(state := Answered(st, s.tasks[tid].phase.kind, ok, mono))), tid);
    case ImportState(records) => ImportShape(t, records);
    case _ =>
  }

  lemma {:induction false} QueueDuringSleep(states: seq<State>, evs: seq<Timed>, t0: real, m: nat, n: nat)
    requires IsRun(states, evs) && m <= n < |states|
    requires forall i :: m <= i < n ==> !evs[i].ev.Tick? && !evs[i].ev.Reload? && evs[i].mono >= t0
    ensures forall e :: e in states[n].heap ==> e in states[m].heap || e.pushed >= t0
  {
    hide Next;
    if n > m {
      QueueDuringSleep(states, evs, t0, m, n - 1);
      QueueGains(states[n - 1], evs[n - 1].mono, evs[n - 1].ev, states[n]);
    }
  }

  /** In any run from a fresh scheduler the loop goes to sleep at `t0` for `d`, after step `m`. Whatever completes
      meanwhile, the wake-up at `t0 + d` is no later than the due time of an entry that was waiting (or `t0`, if that
      was already past), and within `imax` of the push of an entry that was added during the sleep. */
  lemma SleepIsBounded(cfg: Config, p: Plan, mono: real, wall: real, stagger: bool, states: seq<State>, evs: seq<Timed>, imax: real,
                       t0: real, d: real, m: nat, n: nat)
    requires BoundedRun(cfg, p, mono, wall, stagger, states, evs, imax) && m <= n < |states|
    requires states[m].now <= t0 && IsDelay(states[m], t0, d)
    requires forall i :: m <= i < n ==> !evs[i].ev.Tick? && !evs[i].ev.Reload? && evs[i].mono >= t0
    ensures forall e :: e in states[n].heap ==>
              if e in states[m].heap then t0 + d <= Max(t0, e.due) else t0 + d <= e.pushed + imax
  {
    hide Next, Inv, Init, EventBounded, PlanBounded;
    RunBounded(cfg, p, mono, wall, stagger, states, evs, imax, m);
    QueueDuringSleep(states, evs, t0, m, n);
    var s := states[m];
    if s.heap != {} {
      var head :| IsHead(s.heap, head) && d == Max(0.0, head.due - t0);
    }
  }

  /** A tick leaves nothing due, so the loop never sleeps for zero time right after it. */
  lemma TickLeavesNothingDue(s: State, now: real, s': State, d: real)
    requires Inv(s) && s.cfg.defaultInterval > 0.0 && Ticked(s, now, s') && IsDelay(s', now, d)
    ensures forall e :: e in s'.heap ==> e.due > now
    ensures d > 0.0
  {
    hide HasLivePath, SweptTasks, QueueOk, TasksOk, GatesOk, Identified;
    forall e | e in s'.heap
      ensures e.due > now
    {
      if e in s.heap && e.id !in DueIds(s, now) {
        assert e.due <= now ==> e.id in DueIds(s, now);
      } else {
        assert Requeued(s, now, DueIds(s, now), e, s'.heapSeq);
      }
    }
  }

  lemma LoneHostTick(node: Node, cfg: Config) returns (s1: State)
    requires node.interval == Some(0.5)
    ensures Next(Init(cfg, Plan([node], [[]]), 0.0, 0.0, true), 0.0, Event.Tick, s1)
    ensures s1.cfg == cfg && s1.heap == {} && s1.now == 0.0 && s1.tasks == map[0 := Task(0, Running)]
    ensures |s1.scheds| == 1 && s1.scheds[0].nextDue == 0.5 && s1.scheds[0].alive
  {
    var s0 := Init(cfg, Plan([node], [[]]), 0.0, 0.0, true);
    var x := s0.scheds[0];
    assert |s0.scheds| == 1 && x.gate == [] && x.interval == 0.5;
    RootIsLive(s0.scheds, 0);
    hide HasLivePath;
    s1 := s0.(heap := {}, scheds := [x.(nextDue := 0.5, inFlight := true)],
              tasks := map[0 := Task(0, Running)], nextTask := 1);
    FreshHeapEntries(cfg, 0, 1, 0.0, true);
    assert HasEntry(s0.heap, 0);
    var first :| first in s0.heap && first.id == 0;
    assert first.id in DueIds(s0, 0.0);
    assert DueIds(s0, 0.0) == {0};
    assert s1.tasks[0].id == 0;
    assert HasTask(s1.tasks, 0);
    assert Swept(s0, 0.0, {0}, s1);
  }

  /** The bound is tight in kind: a sleep already under way is not cut short. A lone host checked every half
      second is dispatched at 0, the loop then polls after a full second, and a check that raises at 0.1
      leaves the host due at 0.5 with nobody awake until 1. */
  lemma SleepIsNotShortened(node: Node)
    requires node.interval == Some(0.5)
    ensures var cfg := Config(100.0, 0.0, false, "both");
            exists s1, s2, e ::
              && Next(Init(cfg, Plan([node], [[]]), 0.0, 0.0, true), 0.0, Event.Tick, s1)
              && IsDelay(s1, 0.0, 1.0)
              && Next(s1, 0.1, Event.Raised(0), s2)
              && e in s2.heap && e.due == 0.5
  {
    hide Init, HasLivePath, Ticked;
    var cfg := Config(100.0, 0.0, false, "both");
    var s1 := LoneHostTick(node, cfg);
    var s2 := Finish(s1.(now := 0.1), 0);
    assert Entry(0.5, s1.heapSeq, 0, 0.1) in s2.heap;
    assert Next(s1, 0.1, Event.Raised(0), s2);
  }
}
