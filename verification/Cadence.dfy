/** When a host has its turn: its own fixed interval, from its own start slot. */
module Cadence {
  import opened Model
  import opened StateMachine
  import opened Gates
  import opened Records
  import opened Scheduling
  import opened SchedulerInvariant
  import T = Timing

  /** How far apart the turns of a node are: its own interval if it has one, else the daemon's, and at least 0.01 s. */
  function Every(cfg: Config, node: Node): real {
    var own := if node.interval == None || node.interval == Some(0.0) then cfg.defaultInterval else node.interval.value;
    if own < 0.01 then 0.01 else own
  }

  /** How long after the start the `k`-th of `n` hosts has its first turn. */
  function Slot(cfg: Config, stagger: bool, k: nat, n: nat): real
    requires k < n
  {
    if stagger then cfg.defaultInterval * k as real / n as real else 0.0
  }

  ghost predicate Queued(s: State, x: nat) {
    exists e :: e in s.heap && e.id == x
  }

  /** `ev` is a tick that finds `x` due. */
  ghost predicate Turn(s: State, mono: real, ev: Event, x: nat) {
    ev.Tick? && exists e :: e in s.heap && e.id == x && e.due <= mono
  }

  ghost predicate IntervalsAre(s: State) {
    forall x :: 0 <= x < |s.scheds| ==> s.scheds[x].interval == Every(s.cfg, s.scheds[x].node)
  }

  predicate SameSlot(a: Sched, b: Sched) {
    a.node == b.node && a.interval == b.interval && a.nextDue == b.nextDue
  }

  ghost predicate SlotsKept(s: State, s': State) {
    s'.cfg == s.cfg && |s'.scheds| == |s.scheds| && forall x :: 0 <= x < |s.scheds| ==> SameSlot(s'.scheds[x], s.scheds[x])
  }

  lemma FinishSlots(s: State, s1: State, tid: nat)
    requires TaskAt(s1, tid) && SlotsKept(s, s1)
    ensures SlotsKept(s, Finish(s1, tid))
  {
  }

  lemma {:induction false} ImportSlots(s: State, records: seq<Record>)
    ensures SlotsKept(s, Import(s, records))
  {
    hide Keyed, ValidatedCarry;
    if records != [] {
      ImportSlots(s, records[..|records| - 1]);
    }
  }

  /** Nothing but a tick and a reload touches anybody's slot. */
  lemma OtherSteps(s: State, mono: real, ev: Event, s': State)
    requires Next(s, mono, ev, s') && !ev.Reload? && !ev.Tick?
    ensures SlotsKept(s, s')
  {
    hide Finish, HasLivePath, Apply, HandlePaging, Import, Answered;
    var t := s.(now := mono);
    match ev
    case CheckDone(tid, code, wall) =>
      var id := s.tasks[tid].id;
      var sched := s.scheds[id];
      var out := Apply(sched.state.(suppressed := false), code, wall, s.cfg.pageOnDegraded);
      var paging := HandlePaging(s.cfg, sched.node, out.state, out.intent, mono);
      FinishSlots(s, t, tid);
      FinishSlots(s, SetSched(t, id, sched.(state := sched.state.(suppressed := true))), tid);
      FinishSlots(s, SetSched(t, id, sched.(state := paging.state, checked := true)), tid);
    case Raised(tid) => FinishSlots(s, t, tid);
    case SendDone(tid, ok) =>
      var id := s.tasks[tid].id;
      FinishSlots(s, SetSched(t, id, s.scheds[id].(state := Answered(s.scheds[id].state, s.tasks[tid].phase.kind, ok, mono))), tid);
    case ImportState(records) => ImportSlots(t, records);
    case _ =>
  }

  /** A tick moves the slot of exactly the hosts that have their turn, one interval on. */
  lemma TickSlots(s: State, mono: real, s': State, x: nat)
    requires Next(s, mono, Event.Tick, s') && x < |s.scheds|
    ensures |s'.scheds| == |s.scheds| && s'.scheds[x].node == s.scheds[x].node && s'.scheds[x].interval == s.scheds[x].interval
    ensures s'.scheds[x].nextDue == if Turn(s, mono, Event.Tick, x) then mono + s.scheds[x].interval else s.scheds[x].nextDue
  {
    hide HasLivePath, SweptHeap, SweptTasks;
    var t := s.(now := mono);
    assert x in DueIds(t, mono) <==> Turn(s, mono, Event.Tick, x);
  }

  /** What a step does to the slot of a host that was there before it. */
  lemma NextSlot(s: State, mono: real, ev: Event, s': State, x: nat)
    requires Next(s, mono, ev, s') && x < |s.scheds|
    ensures x < |s'.scheds| && s'.cfg == s.cfg && s'.scheds[x].node == s.scheds[x].node && s'.scheds[x].interval == s.scheds[x].interval
    ensures s'.scheds[x].nextDue == if Turn(s, mono, ev, x) then mono + s.scheds[x].interval else s.scheds[x].nextDue
  {
    hide Next, Turn;
    T.NextKeepsConfig(s, mono, ev, s');
    if ev.Tick? {
      TickSlots(s, mono, s', x);
    } else {
      NoTurn(s, mono, ev, x);
      if ev.Reload? {
        ReloadSlot(s, mono, ev, s', x);
      } else {
        OtherSteps(s, mono, ev, s');
      }
    }
  }

  lemma NoTurn(s: State, mono: real, ev: Event, x: nat)
    requires !ev.Tick?
    ensures !Turn(s, mono, ev, x)
  {
  }

  lemma ReloadSlot(s: State, mono: real, ev: Event, s': State, x: nat)
    requires Next(s, mono, ev, s') && ev.Reload? && x < |s.scheds|
    ensures x < |s'.scheds| && SameSlot(s'.scheds[x], s.scheds[x])
  {
    ReloadedAt(s.(now := mono), ev.plan, ev.wall, x);
  }

  lemma EffectiveIsEvery(cfg: Config, node: Node)
    ensures EffectiveInterval(node, cfg.defaultInterval) == Every(cfg, node)
  {
  }

  lemma NextKeepsIntervals(s: State, mono: real, ev: Event, s': State)
    requires Next(s, mono, ev, s') && IntervalsAre(s)
    ensures IntervalsAre(s')
  {
    hide Next, Every;
    forall x | 0 <= x < |s'.scheds|
      ensures s'.scheds[x].interval == Every(s'.cfg, s'.scheds[x].node)
    {
      if x < |s.scheds| {
        NextSlot(s, mono, ev, s', x);
      } else {
        NewSlot(s, mono, ev, s', x);
      }
    }
  }

  /** Only a reload brings new hosts, with the start slots of a fresh scheduler. */
  lemma NewSlot(s: State, mono: real, ev: Event, s': State, x: nat)
    requires Next(s, mono, ev, s') && |s.scheds| <= x < |s'.scheds|
    ensures ev.Reload? && x - |s.scheds| < |ev.plan.nodes| && s'.scheds[x].node == ev.plan.nodes[x - |s.scheds|]
    ensures s'.scheds[x].interval == Every(s'.cfg, s'.scheds[x].node)
    ensures s'.scheds[x].nextDue == mono + Slot(s.cfg, true, x - |s.scheds|, |ev.plan.nodes|)
  {
    hide HasLivePath, SweptHeap, SweptTasks, Import, Complete, SendBack, Finish, Every;
    if !ev.Reload? {
      NextKeepsPlaces(s, mono, ev, s');
    }
    ReloadedAt(s.(now := mono), ev.plan, ev.wall, x);
    EffectiveIsEvery(s.cfg, s'.scheds[x].node);
    SlotIsStagger(s.cfg, true, mono, x - |s.scheds|, |ev.plan.nodes|);
  }

  lemma SlotIsStagger(cfg: Config, stagger: bool, mono: real, k: nat, n: nat)
    requires k < n
    ensures StaggerDue(cfg, stagger, mono, k, n) == mono + Slot(cfg, stagger, k, n)
  {
    var a, b, d := k as real, n as real, cfg.defaultInterval;
    assert (a / b) * d == d * a / b;
  }

  /** A waiting host has its turn in a tick iff its slot has come. */
  lemma TurnIffDue(s: State, mono: real, x: nat)
    requires QueueOk(s)
    ensures Turn(s, mono, Event.Tick, x) <==> Queued(s, x) && x < |s.scheds| && s.scheds[x].nextDue <= mono
  {
    if Queued(s, x) {
      var e :| e in s.heap && e.id == x;
      assert Waits(s, e);
    }
    if Turn(s, mono, Event.Tick, x) {
      var e :| e in s.heap && e.id == x && e.due <= mono;
      assert Waits(s, e);
    }
  }

  /** From a turn on, the slot stays until the next one. */
  lemma {:induction false} SlotAfterTurn(states: seq<State>, evs: seq<Timed>, x: nat, a: nat, b: nat, due: real)
    requires IsRun(states, evs) && a <= b < |states| && x < |states[a].scheds| && states[a].scheds[x].nextDue == due
    requires forall i :: a <= i < b ==> !Turn(states[i], evs[i].mono, evs[i].ev, x)
    ensures x < |states[b].scheds| && states[b].scheds[x].nextDue == due && states[b].cfg == states[a].cfg
    ensures states[b].scheds[x].node == states[a].scheds[x].node && states[b].scheds[x].interval == states[a].scheds[x].interval
    decreases b
  {
    hide Next, Turn;
    if a < b {
      SlotAfterTurn(states, evs, x, a, b - 1, due);
      assert Next(states[b - 1], evs[b - 1].mono, evs[b - 1].ev, states[b]);
      NextSlot(states[b - 1], evs[b - 1].mono, evs[b - 1].ev, states[b], x);
    }
  }

  ghost predicate StartedRun(cfg: Config, p: Plan, mono: real, wall: real, stagger: bool, states: seq<State>, evs: seq<Timed>) {
    PlanFormed(p) && IsRun(states, evs) && states[0] == Init(cfg, p, mono, wall, stagger)
  }

  lemma {:induction false} RunIntervals(cfg: Config, p: Plan, mono: real, wall: real, stagger: bool, states: seq<State>, evs: seq<Timed>, i: nat)
    requires StartedRun(cfg, p, mono, wall, stagger, states, evs) && i < |states|
    ensures Inv(states[i]) && IntervalsAre(states[i]) && states[i].cfg == cfg
  {
    hide Inv, Next, IntervalsAre, Init;
    if i == 0 {
      InitInv(cfg, p, mono, wall, stagger);
      InitIntervals(cfg, p, mono, wall, stagger);
    } else {
      RunIntervals(cfg, p, mono, wall, stagger, states, evs, i - 1);
      var s, e, s' := states[i - 1], evs[i - 1], states[i];
      assert Next(s, e.mono, e.ev, s');
      NextKeepsInv(s, e.mono, e.ev, s');
      NextKeepsIntervals(s, e.mono, e.ev, s');
      T.NextKeepsConfig(s, e.mono, e.ev, s');
    }
  }

  lemma InitIntervals(cfg: Config, p: Plan, mono: real, wall: real, stagger: bool)
    requires PlanFormed(p)
    ensures IntervalsAre(Init(cfg, p, mono, wall, stagger)) && Init(cfg, p, mono, wall, stagger).cfg == cfg
  {
    hide Every;
    forall k | 0 <= k < |p.nodes|
      ensures EffectiveInterval(p.nodes[k], cfg.defaultInterval) == Every(cfg, p.nodes[k])
    {
      EffectiveIsEvery(cfg, p.nodes[k]);
    }
  }

  /** In every run from the start: after a turn of a host, a tick gives it the next one iff it is waiting then and its
      interval has passed since that turn. The interval counts from tick to tick, however long the check took and whatever
      it found. */
  lemma TurnsAreSpaced(cfg: Config, p: Plan, mono: real, wall: real, stagger: bool, states: seq<State>, evs: seq<Timed>, x: nat, a: nat, b: nat)
    requires StartedRun(cfg, p, mono, wall, stagger, states, evs) && a < b < |evs| && evs[b].ev.Tick?
    requires Turn(states[a], evs[a].mono, evs[a].ev, x) && forall i :: a < i < b ==> !Turn(states[i], evs[i].mono, evs[i].ev, x)
    ensures x < |states[a].scheds|
    ensures Turn(states[b], evs[b].mono, evs[b].ev, x) <==>
              Queued(states[b], x) && evs[b].mono >= evs[a].mono + Every(cfg, states[a].scheds[x].node)
  {
    hide Inv, Next, Turn, Queued, Every, StartedRun;
    RunOf(cfg, p, mono, wall, stagger, states, evs);
    RunIntervals(cfg, p, mono, wall, stagger, states, evs, a);
    RunIntervals(cfg, p, mono, wall, stagger, states, evs, b);
    InvQueue(states[a]);
    InvQueue(states[b]);
    OnlyTicks(states[a], evs[a].mono, evs[a].ev, x);
    TurnIffDue(states[a], evs[a].mono, x);
    assert Next(states[a], evs[a].mono, evs[a].ev, states[a + 1]);
    NextSlot(states[a], evs[a].mono, evs[a].ev, states[a + 1], x);
    SlotAfterTurn(states, evs, x, a + 1, b, states[a + 1].scheds[x].nextDue);
    TurnIffDue(states[b], evs[b].mono, x);
  }

  lemma OnlyTicks(s: State, mono: real, ev: Event, x: nat)
    requires Turn(s, mono, ev, x)
    ensures ev == Event.Tick
  {
  }

  lemma InvQueue(s: State)
    requires Inv(s)
    ensures QueueOk(s)
  {
  }

  lemma RunOf(cfg: Config, p: Plan, mono: real, wall: real, stagger: bool, states: seq<State>, evs: seq<Timed>)
    requires StartedRun(cfg, p, mono, wall, stagger, states, evs)
    ensures PlanFormed(p) && IsRun(states, evs) && states[0] == Init(cfg, p, mono, wall, stagger)
  {
  }

  /** The first turn of the `x`-th configured host: the start is spread evenly over one default interval, or all at once. */
  lemma FirstTurn(cfg: Config, p: Plan, mono: real, wall: real, stagger: bool, states: seq<State>, evs: seq<Timed>, x: nat, b: nat)
    requires StartedRun(cfg, p, mono, wall, stagger, states, evs) && b < |evs| && evs[b].ev.Tick? && x < |p.nodes|
    requires forall i :: 0 <= i < b ==> !Turn(states[i], evs[i].mono, evs[i].ev, x)
    ensures Turn(states[b], evs[b].mono, evs[b].ev, x) <==> Queued(states[b], x) && evs[b].mono >= mono + Slot(cfg, stagger, x, |p.nodes|)
  {
    hide Inv, Next, Turn, Queued, Every, Slot;
    RunIntervals(cfg, p, mono, wall, stagger, states, evs, b);
    InvQueue(states[b]);
    SlotIsStagger(cfg, stagger, mono, x, |p.nodes|);
    SlotAfterTurn(states, evs, x, 0, b, states[0].scheds[x].nextDue);
    TurnIffDue(states[b], evs[b].mono, x);
  }
}
