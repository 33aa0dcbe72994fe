/** Every host is accounted for in every state of every run. */
module SchedulerInvariant {
  import opened StateMachine
  import opened Gates
  import opened Records
  import opened Scheduling

  ghost predicate Identified(s: State) {
    && (forall i :: 0 <= i < |s.current| ==> s.current[i] < |s.scheds|)
    && (forall i, j :: 0 <= i < j < |s.current| ==> s.current[i] != s.current[j])
    && (forall x :: 0 <= x < |s.scheds| ==> (s.scheds[x].alive <==> x in s.current))
  }

  ghost predicate GatesOk(s: State) {
    && GatesClosed(s.scheds)
    && forall x, p :: 0 <= x < |s.scheds| && s.scheds[x].alive && p in s.scheds[x].gate ==> s.scheds[p].alive
  }

  ghost predicate Waits(s: State, e: Entry) {
    && e.id < |s.scheds| && s.scheds[e.id].alive && !s.scheds[e.id].inFlight
    && e.due == s.scheds[e.id].nextDue && e.seqno < s.heapSeq
  }

  ghost predicate QueueOk(s: State) {
    && UniqueEntries(s.heap)
    && (forall e :: e in s.heap ==> Waits(s, e))
    && (forall x: nat :: x < |s.scheds| && s.scheds[x].alive && !s.scheds[x].inFlight ==> HasEntry(s.heap, x))
  }

  ghost predicate TasksOk(s: State) {
    && UniqueTasks(s.tasks)
    && (forall t :: t in s.tasks ==> t < s.nextTask && s.tasks[t].id < |s.scheds| && s.scheds[s.tasks[t].id].inFlight)
    && (forall x: nat :: x < |s.scheds| && s.scheds[x].inFlight ==> HasTask(s.tasks, x))
  }

  ghost predicate IntervalsOk(s: State) {
    forall x :: 0 <= x < |s.scheds| ==> s.scheds[x].interval >= MIN_INTERVAL
  }

  ghost predicate Inv(s: State) {
    Identified(s) && GatesOk(s) && QueueOk(s) && TasksOk(s) && IntervalsOk(s)
  }

  // ----- what the invariant says about hosts -------------------------------------------------

  ghost function EntriesOf(heap: set<Entry>, x: nat): set<Entry> {
    set e | e in heap && e.id == x
  }

  ghost function TasksOf(tasks: map<nat, Task>, x: nat): set<nat> {
    set t | t in tasks && tasks[t].id == x
  }

  /** A current node waits on the queue exactly once or has exactly one check under way, never both;
      a retired node is never queued and has at most the one check that was under way. */
  ghost predicate Accounted(s: State) {
    forall x: nat :: x < |s.scheds| ==>
      if x in s.current then
        if s.scheds[x].inFlight then EntriesOf(s.heap, x) == {} && |TasksOf(s.tasks, x)| == 1
        else |EntriesOf(s.heap, x)| == 1 && TasksOf(s.tasks, x) == {}
      else EntriesOf(s.heap, x) == {} && |TasksOf(s.tasks, x)| <= 1
  }

  lemma Singleton<T>(s: set<T>, x: T)
    requires x in s && forall y :: y in s ==> y == x
    ensures |s| == 1
  {
    assert s == {x};
  }

  lemma InvAccounts(s: State)
    requires Inv(s)
    ensures Accounted(s)
  {
    forall x: nat | x < |s.scheds|
      ensures if x in s.current then
                if s.scheds[x].inFlight then EntriesOf(s.heap, x) == {} && |TasksOf(s.tasks, x)| == 1
                else |EntriesOf(s.heap, x)| == 1 && TasksOf(s.tasks, x) == {}
              else EntriesOf(s.heap, x) == {} && |TasksOf(s.tasks, x)| <= 1
    {
      var entries, tasks := EntriesOf(s.heap, x), TasksOf(s.tasks, x);
      if s.scheds[x].inFlight {
        var t :| t in s.tasks && s.tasks[t].id == x;
        Singleton(tasks, t);
      } else {
        assert tasks == {};
        if x in s.current {
          var e :| e in s.heap && e.id == x;
          Singleton(entries, e);
        }
      }
    }
  }

  // ----- steps that leave the shape alone ----------------------------------------------------

  predicate SameShape(a: Sched, b: Sched) {
    a.gate == b.gate && a.interval == b.interval && a.nextDue == b.nextDue && a.inFlight == b.inFlight && a.alive == b.alive
  }

  ghost predicate ShapesKept(a: seq<Sched>, b: seq<Sched>) {
    |a| == |b| && forall x :: 0 <= x < |a| ==> SameShape(a[x], b[x])
  }

  lemma ShapeKeepsInv(s: State, s': State)
    requires Inv(s) && ShapesKept(s.scheds, s'.scheds)
    requires s' == s.(scheds := s'.scheds, now := s'.now)
    ensures Inv(s')
  {
    forall e | e in s'.heap
      ensures Waits(s', e)
    {
      assert Waits(s, e);
    }
  }

  lemma PhaseTasks(s: State, tid: nat, phase: Phase)
    requires TasksOk(s) && tid in s.tasks
    ensures TasksOk(s.(tasks := s.tasks[tid := Task(s.tasks[tid].id, phase)]))
  {
    var s' := s.(tasks := s.tasks[tid := Task(s.tasks[tid].id, phase)]);
    forall t | t in s'.tasks
      ensures t in s.tasks && s'.tasks[t].id == s.tasks[t].id
    {
    }
    forall x: nat | x < |s'.scheds| && s'.scheds[x].inFlight
      ensures HasTask(s'.tasks, x)
    {
      var t :| t in s.tasks && s.tasks[t].id == x;
      assert t in s'.tasks;
    }
  }

  lemma RestIgnoresTasks(s: State, tasks: map<nat, Task>)
    requires Identified(s) && GatesOk(s) && QueueOk(s) && IntervalsOk(s)
    ensures var s' := s.(tasks := tasks); Identified(s') && GatesOk(s') && QueueOk(s') && IntervalsOk(s')
  {
    forall e | e in s.heap
      ensures Waits(s.(tasks := tasks), e)
    {
      assert Waits(s, e);
    }
  }

  lemma PhaseKeepsInv(s: State, tid: nat, phase: Phase)
    requires Inv(s) && tid in s.tasks
    ensures Inv(s.(tasks := s.tasks[tid := Task(s.tasks[tid].id, phase)]))
  {
    hide Identified, GatesOk, QueueOk, TasksOk, IntervalsOk;
    PhaseTasks(s, tid, phase);
    RestIgnoresTasks(s, s.tasks[tid := Task(s.tasks[tid].id, phase)]);
  }

  lemma FinishQueue(s: State, tid: nat)
    requires Inv(s) && TaskAt(s, tid)
    ensures QueueOk(Finish(s, tid))
  {
    hide GatesOk, IntervalsOk, HasTask;
    var s', id := Finish(s, tid), s.tasks[tid].id;
    var added := Entry(s.scheds[id].nextDue, s.heapSeq, id, s.now);
    forall e | e in s.heap
      ensures e.id != id && e.seqno < s.heapSeq && Waits(s', e)
    {
      assert Waits(s, e);
    }
    assert s'.heap == if s.scheds[id].alive then s.heap + {added} else s.heap;
    forall x: nat | x < |s'.scheds| && s'.scheds[x].alive && !s'.scheds[x].inFlight
      ensures HasEntry(s'.heap, x)
    {
      if x == id {
        assert added in s'.heap;
      } else {
        var e :| e in s.heap && e.id == x;
        assert e in s'.heap;
      }
    }
  }

  lemma FinishTasks(s: State, tid: nat)
    requires Inv(s) && TaskAt(s, tid)
    ensures TasksOk(Finish(s, tid))
  {
    hide GatesOk, IntervalsOk, QueueOk, Identified;
    var s', id := Finish(s, tid), s.tasks[tid].id;
    assert s'.tasks == s.tasks - {tid};
    forall x: nat | x < |s'.scheds| && s'.scheds[x].inFlight
      ensures HasTask(s'.tasks, x)
    {
      assert x != id && s.scheds[x].inFlight;
      var t :| t in s.tasks && s.tasks[t].id == x;
      assert t in s'.tasks;
    }
  }

  lemma FinishRest(s: State, tid: nat)
    requires Inv(s) && TaskAt(s, tid)
    ensures var s' := Finish(s, tid); Identified(s') && GatesOk(s') && IntervalsOk(s')
  {
    hide QueueOk, TasksOk;
  }

  lemma FinishKeepsInv(s: State, tid: nat)
    requires Inv(s) && TaskAt(s, tid)
    ensures Inv(Finish(s, tid))
  {
    hide Identified, GatesOk, IntervalsOk, QueueOk, TasksOk, Finish;
    FinishQueue(s, tid);
    FinishTasks(s, tid);
    FinishRest(s, tid);
  }

  /** Replacing one node's runtime state, or marking it checked, leaves the bookkeeping alone. */
  lemma SetStateKeepsInv(s: State, id: nat, st: HostState, checked: bool)
    requires Inv(s) && id < |s.scheds|
    ensures Inv(SetSched(s, id, s.scheds[id].(state := st, checked := checked)))
  {
    hide Inv;
    ShapeKeepsInv(s, SetSched(s, id, s.scheds[id].(state := st, checked := checked)));
  }

  lemma CompleteKeepsInv(s: State, tid: nat, code: int, wall: real)
    requires Inv(s) && TaskAt(s, tid)
    ensures Inv(Complete(s, tid, code, wall))
  {
    hide Inv, Finish, HasLivePath, Apply, HandlePaging;
    var id := s.tasks[tid].id;
    var sched := s.scheds[id];
    if !sched.alive {
      FinishKeepsInv(s, tid);
    } else if !HasLivePath(s.scheds, id) {
      SetStateKeepsInv(s, id, sched.state.(suppressed := true), sched.checked);
      FinishKeepsInv(SetSched(s, id, sched.(state := sched.state.(suppressed := true))), tid);
    } else {
      var out := Apply(sched.state.(suppressed := false), code, wall, s.cfg.pageOnDegraded);
      var paging := HandlePaging(s.cfg, sched.node, out.state, out.intent, s.now);
      SetStateKeepsInv(s, id, paging.state, true);
      var s1 := SetSched(s, id, sched.(state := paging.state, checked := true));
      if paging.send.Some? {
        PhaseKeepsInv(s1, tid, Sending(paging.send.value));
      } else {
        FinishKeepsInv(s1, tid);
      }
    }
  }

  lemma SendBackKeepsInv(s: State, tid: nat, ok: bool)
    requires Inv(s) && TaskAt(s, tid) && s.tasks[tid].phase.Sending?
    ensures Inv(SendBack(s, tid, ok))
  {
    hide Inv, Finish;
    var id := s.tasks[tid].id;
    var st := s.scheds[id].state;
    var st' := Answered(st, s.tasks[tid].phase.kind, ok, s.now);
    SetStateKeepsInv(s, id, st', s.scheds[id].checked);
    FinishKeepsInv(SetSched(s, id, s.scheds[id].(state := st')), tid);
  }

  lemma ImportOneKeepsInv(s: State, r: Record)
    requires Inv(s)
    ensures Inv(ImportOne(s, r))
  {
    hide Inv, Keyed, ValidatedCarry;
    var found, carried := LastKeyed(s.scheds, s.current, r), ValidatedCarry(r);
    if found.Some? && carried.Some? {
      var x := found.value;
      SetStateKeepsInv(s, x, Restore(s.scheds[x].state, carried.value).(lastcontacted := s.now), s.scheds[x].checked);
    }
  }

  lemma {:induction false} ImportKeepsInv(s: State, records: seq<Record>)
    requires Inv(s)
    ensures Inv(Import(s, records))
  {
    hide Inv, ImportOne;
    if records != [] {
      ImportKeepsInv(s, records[..|records| - 1]);
      ImportOneKeepsInv(Import(s, records[..|records| - 1]), records[|records| - 1]);
    }
  }

  // ----- tick --------------------------------------------------------------------------------

  lemma SweepKeepsQueue(s: State, now: real, done: set<nat>, s': State)
    requires Inv(s) && Swept(s, now, done, s') && (forall x :: x in done ==> HasEntry(s.heap, x))
    ensures QueueOk(s')
  {
    hide HasLivePath, GatesOk, TasksOk, IntervalsOk, UniqueTasks, HasTask, Dispatched;
    forall x: nat | x in done
      ensures x < |s.scheds| && s.scheds[x].alive && !s.scheds[x].inFlight
    {
      var e :| e in s.heap && e.id == x;
      assert Waits(s, e);
    }
    forall e | e in s'.heap
      ensures Waits(s', e)
    {
      if e in s.heap && e.id !in done {
        assert Waits(s, e);
      } else {
        assert Requeued(s, now, done, e, s'.heapSeq);
      }
    }
    forall x: nat | x < |s'.scheds| && s'.scheds[x].alive && !s'.scheds[x].inFlight
      ensures HasEntry(s'.heap, x)
    {
      if x !in done {
        var e :| e in s.heap && e.id == x;
        assert e in s'.heap;
      }
    }
  }

  lemma SweepKeepsTasks(s: State, now: real, done: set<nat>, s': State)
    requires Inv(s) && Swept(s, now, done, s') && (forall x :: x in done ==> HasEntry(s.heap, x))
    ensures TasksOk(s')
  {
    hide HasLivePath, GatesOk, IntervalsOk, UniqueEntries, Requeued;
    forall t | t in s'.tasks
      ensures t < s'.nextTask && s'.tasks[t].id < |s'.scheds| && s'.scheds[s'.tasks[t].id].inFlight
    {
      if t in s.tasks {
        assert s.scheds[s.tasks[t].id].inFlight;
      } else {
        assert Dispatched(s, done, t, s'.tasks[t]);
      }
    }
    forall x: nat | x < |s'.scheds| && s'.scheds[x].inFlight
      ensures HasTask(s'.tasks, x)
    {
      if x !in done || !HasLivePath(s.scheds, x) {
        assert s.scheds[x].inFlight;
        var t :| t in s.tasks && s.tasks[t].id == x;
        assert t in s'.tasks;
      }
    }
  }

  lemma SweepKeepsRest(s: State, now: real, done: set<nat>, s': State)
    requires Inv(s) && Swept(s, now, done, s')
    ensures Identified(s') && GatesOk(s') && IntervalsOk(s')
  {
    hide HasLivePath, QueueOk, TasksOk, UniqueTasks, HasTask, Dispatched, UniqueEntries, Requeued, HasEntry;
  }

  lemma SweepKeepsInv(s: State, now: real, done: set<nat>, s': State)
    requires Inv(s) && Swept(s, now, done, s') && (forall x :: x in done ==> HasEntry(s.heap, x))
    ensures Inv(s')
  {
    hide Identified, GatesOk, IntervalsOk, QueueOk, TasksOk, Swept, HasEntry;
    SweepKeepsQueue(s, now, done, s');
    SweepKeepsTasks(s, now, done, s');
    SweepKeepsRest(s, now, done, s');
  }

  // ----- configurations ----------------------------------------------------------------------

  /** A rebuilt queue holds one entry for each of the ids `base .. base + n - 1`. */
  lemma FreshHeapEntries(cfg: Config, base: nat, n: nat, mono: real, stagger: bool)
    ensures UniqueEntries(FreshHeap(cfg, base, n, mono, stagger))
    ensures forall e :: e in FreshHeap(cfg, base, n, mono, stagger) ==>
              base <= e.id < base + n && e.due == StaggerDue(cfg, stagger, mono, e.id - base, n) && e.seqno == e.id - base
    ensures forall x: nat :: base <= x < base + n ==> HasEntry(FreshHeap(cfg, base, n, mono, stagger), x)
  {
    forall x: nat | base <= x < base + n
      ensures HasEntry(FreshHeap(cfg, base, n, mono, stagger), x)
    {
      var k := x - base;
      assert Entry(StaggerDue(cfg, stagger, mono, k, n), k, base + k, mono) in FreshHeap(cfg, base, n, mono, stagger);
    }
  }

  /** What a reload puts at each position. */
  lemma ReloadedAt(s: State, p: Plan, wall: real, x: nat)
    requires PlanFormed(p) && x < |s.scheds| + |p.nodes|
    ensures var s' := Reloaded(s, p, wall);
            && |s'.scheds| == |s.scheds| + |p.nodes|
            && s'.scheds[x] == if x >= |s.scheds| then ReloadedSched(s, p, x - |s.scheds|, wall)
                               else if x in s.current then s.scheds[x].(alive := false) else s.scheds[x]
  {
  }

  lemma ReloadedShape(s: State, p: Plan, k: nat, wall: real)
    requires PlanFormed(p) && k < |p.nodes|
    ensures SameShape(ReloadedSched(s, p, k, wall), FreshSched(s.cfg, p, |s.scheds|, k, s.now, wall, true))
    ensures ReloadedSched(s, p, k, wall).node == p.nodes[k]
    ensures ReloadedSched(s, p, k, wall).state.maxDown == p.nodes[k].maxDown
  {
  }

  lemma ReloadQueue(s: State, p: Plan, wall: real)
    requires Inv(s) && PlanFormed(p)
    ensures QueueOk(Reloaded(s, p, wall))
  {
    hide GatesOk, TasksOk, IntervalsOk, ReloadedSched, FreshHeap, UniqueEntries, HasEntry;
    var s', base := Reloaded(s, p, wall), |s.scheds|;
    FreshHeapEntries(s.cfg, base, |p.nodes|, s.now, true);
    forall e | e in s'.heap
      ensures Waits(s', e)
    {
      ReloadedAt(s, p, wall, e.id);
      ReloadedShape(s, p, e.id - base, wall);
    }
    forall x: nat | x < |s'.scheds| && s'.scheds[x].alive && !s'.scheds[x].inFlight
      ensures HasEntry(s'.heap, x)
    {
      ReloadedAt(s, p, wall, x);
    }
  }

  lemma ReloadTasks(s: State, p: Plan, wall: real)
    requires Inv(s) && PlanFormed(p)
    ensures TasksOk(Reloaded(s, p, wall))
  {
    hide GatesOk, QueueOk, IntervalsOk, ReloadedSched, FreshHeap, UniqueTasks, HasTask;
    var s', base := Reloaded(s, p, wall), |s.scheds|;
    forall x: nat | x < |s'.scheds|
      ensures s'.scheds[x].inFlight <==> x < base && s.scheds[x].inFlight
    {
      ReloadedAt(s, p, wall, x);
      if x >= base {
        ReloadedShape(s, p, x - base, wall);
      }
    }
  }

  lemma ReloadRest(s: State, p: Plan, wall: real)
    requires Inv(s) && PlanFormed(p)
    ensures var s' := Reloaded(s, p, wall); Identified(s') && GatesOk(s') && IntervalsOk(s')
  {
    hide TasksOk, QueueOk, ReloadedSched, FreshHeap;
    var s', base := Reloaded(s, p, wall), |s.scheds|;
    forall x: nat | x < |s'.scheds|
      ensures s'.scheds[x].alive <==> x >= base
      ensures s'.scheds[x].interval >= MIN_INTERVAL
      ensures x in s'.current <==> x >= base
      ensures forall p :: p in s'.scheds[x].gate ==> p < |s'.scheds| && (x >= base ==> p >= base)
    {
      ReloadedAt(s, p, wall, x);
      if x >= base {
        ReloadedShape(s, p, x - base, wall);
        assert s'.current[x - base] == x;
      }
    }
    assert forall x, i :: 0 <= x < |s'.scheds| && 0 <= i < |s'.scheds[x].gate| ==>
        s'.scheds[x].gate[i] in s'.scheds[x].gate;
  }

  lemma ReloadKeepsInv(s: State, p: Plan, wall: real)
    requires Inv(s) && PlanFormed(p)
    ensures Inv(Reloaded(s, p, wall))
  {
    hide Identified, GatesOk, IntervalsOk, QueueOk, TasksOk, Reloaded;
    ReloadQueue(s, p, wall);
    ReloadTasks(s, p, wall);
    ReloadRest(s, p, wall);
  }

  lemma InitInv(cfg: Config, p: Plan, mono: real, wall: real, stagger: bool)
    requires PlanFormed(p)
    ensures Inv(Init(cfg, p, mono, wall, stagger))
  {
    hide UniqueEntries, HasEntry, FreshHeap;
    var s := Init(cfg, p, mono, wall, stagger);
    FreshHeapEntries(cfg, 0, |p.nodes|, mono, stagger);
    forall x | 0 <= x < |p.nodes|
      ensures x in s.current
    {
      assert s.current[x] == x;
    }
  }

  // ----- what only a reload changes ----------------------------------------------------------

  predicate SamePlace(a: Sched, b: Sched) {
    a.node == b.node && a.gate == b.gate && a.alive == b.alive
  }

  ghost predicate PlacesKept(s: State, s': State) {
    && s'.current == s.current && |s'.scheds| == |s.scheds|
    && forall x :: 0 <= x < |s.scheds| ==> SamePlace(s'.scheds[x], s.scheds[x])
  }

  lemma FinishPlaces(s: State, s1: State, tid: nat)
    requires TaskAt(s1, tid) && PlacesKept(s, s1)
    ensures PlacesKept(s, Finish(s1, tid))
  {
  }

  lemma {:induction false} ImportPlaces(s: State, records: seq<Record>)
    ensures PlacesKept(s, Import(s, records))
  {
    hide Keyed, ValidatedCarry, Restore;
    if records != [] {
      ImportPlaces(s, records[..|records| - 1]);
    }
  }

  /** Only a reload changes which nodes there are, what they are, and what gates them. */
  lemma NextKeepsPlaces(s: State, mono: real, ev: Event, s': State)
    requires Next(s, mono, ev, s') && !ev.Reload?
    ensures PlacesKept(s, s')
  {
    hide Finish, HasLivePath, Apply, HandlePaging, Import, SweptHeap, SweptTasks, Answered;
    var t := s.(now := mono);
    match ev
    case CheckDone(tid, code, wall) =>
      var id := s.tasks[tid].id;
      var sched := s.scheds[id];
      var out := Apply(sched.state.(suppressed := false), code, wall, s.cfg.pageOnDegraded);
      var paging := HandlePaging(s.cfg, sched.node, out.state, out.intent, mono);
      FinishPlaces(s, t, tid);
      FinishPlaces(s, SetSched(t, id, sched.(state := sched.state.(suppressed := true))), tid);
      FinishPlaces(s, SetSched(t, id, sched.(state := paging.state, checked := true)), tid);
    case Raised(tid) => FinishPlaces(s, t, tid);
    case SendDone(tid, ok) =>
      var id := s.tasks[tid].id;
      FinishPlaces(s, SetSched(t, id, s.scheds[id].(state := Answered(s.scheds[id].state, s.tasks[tid].phase.kind, ok, mono))), tid);
    case ImportState(records) => ImportPlaces(t, records);
    case _ =>
  }

  // ----- every run ---------------------------------------------------------------------------

  lemma NextKeepsInv(s: State, mono: real, ev: Event, s': State)
    requires Inv(s) && Next(s, mono, ev, s')
    ensures Inv(s')
  {
    hide Inv, Complete, Finish, SendBack, Swept, Reloaded, Import, HasEntry;
    var t := s.(now := mono);
    ShapeKeepsInv(s, t);
    match ev
    case Tick =>
      forall x | x in DueIds(t, mono)
        ensures HasEntry(t.heap, x)
      {
        DueHasEntry(t, mono, x);
      }
      SweepKeepsInv(t, mono, DueIds(t, mono), s');
    case CheckDone(tid, code, wall) => CompleteKeepsInv(t, tid, code, wall);
    case Raised(tid) => FinishKeepsInv(t, tid);
    case SendDone(tid, ok) => SendBackKeepsInv(t, tid, ok);
    case Ack(key) => ShapeKeepsInv(t, s');
    case SetNote(key, text) => ShapeKeepsInv(t, s');
    case Reload(plan, wall) => ReloadKeepsInv(t, plan, wall);
    case ImportState(records) => ImportKeepsInv(t, records);
  }

  lemma DueHasEntry(s: State, now: real, x: nat)
    requires x in DueIds(s, now)
    ensures HasEntry(s.heap, x)
  {
  }

  lemma {:induction false} RunKeepsInv(states: seq<State>, evs: seq<Timed>, i: nat)
    requires IsRun(states, evs) && Inv(states[0]) && i < |states|
    ensures Inv(states[i])
  {
    hide Inv, Next;
    if i > 0 {
      RunKeepsInv(states, evs, i - 1);
      NextKeepsInv(states[i - 1], evs[i - 1].mono, evs[i - 1].ev, states[i]);
    }
  }

  /** In every run from a fresh scheduler, through any mix of ticks, results (applied, discarded or
      raising), sends, operator commands, imports and reloads, no host is ever lost or doubled. */
  lemma NoHostLostOrDoubled(cfg: Config, p: Plan, mono: real, wall: real, stagger: bool, states: seq<State>, evs: seq<Timed>, i: nat)
    requires PlanFormed(p) && IsRun(states, evs) && states[0] == Init(cfg, p, mono, wall, stagger) && i < |states|
    ensures Accounted(states[i])
  {
    hide Inv, Next, Init;
    InitInv(cfg, p, mono, wall, stagger);
    RunKeepsInv(states, evs, i);
    InvAccounts(states[i]);
  }
}
