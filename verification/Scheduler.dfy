/** The scheduler object: each operation, proved to take exactly its step of the machine. */
module Scheduler {
  import opened Model
  import opened StateMachine
  import opened Gates
  import opened Records
  import opened Scheduling
  import opened SchedulerInvariant
  import F = Flatten
  import Graphs
  import T = Timing
  import opened Lists

  // ----- live paths depend on gates and results only ------------------------------------------

  predicate SameLinks(a: Sched, b: Sched) {
    a.gate == b.gate && a.checked == b.checked && a.state.lastcheck == b.state.lastcheck
  }

  ghost predicate LinksKept(a: seq<Sched>, b: seq<Sched>) {
    |a| == |b| && forall x :: 0 <= x < |a| ==> SameLinks(a[x], b[x])
  }

  lemma LivePathKept(a: seq<Sched>, b: seq<Sched>, x: nat)
    requires LinksKept(a, b)
    ensures HasLivePath(a, x) <==> HasLivePath(b, x)
  {
    if HasLivePath(a, x) {
      LivePathCarries(a, b, x);
    }
    if HasLivePath(b, x) {
      LivePathCarries(b, a, x);
    }
  }

  lemma LivePathCarries(a: seq<Sched>, b: seq<Sched>, x: nat)
    requires LinksKept(a, b) && HasLivePath(a, x)
    ensures HasLivePath(b, x)
  {
    var p :| ChainFrom(a, p, x);
    assert ChainFrom(b, p, x);
  }

  // ----- one iteration of tick ----------------------------------------------------------------

  /** The node of the popped entry `e` is dispatched if `live`, else suppressed and queued again. */
  function PopOne(s: State, e: Entry, live: bool): State
    requires e.id < |s.scheds|
  {
    var id := e.id;
    var next := s.scheds[id].(nextDue := s.now + s.scheds[id].interval);
    var s1 := s.(heap := s.heap - {e});
    if live then
      SetSched(s1, id, next.(inFlight := true))
      .(tasks := s1.tasks[s1.nextTask := Task(id, Running)], nextTask := s1.nextTask + 1)
    else
      Push(SetSched(s1, id, next.(state := next.state.(suppressed := true))), id)
  }

  lemma SweptLinks(s: State, now: real, done: set<nat>, s': State)
    requires Swept(s, now, done, s')
    ensures LinksKept(s.scheds, s'.scheds)
  {
    hide HasLivePath, SweptHeap, SweptTasks;
  }

  lemma SweepStarts(s: State)
    requires Inv(s)
    ensures Swept(s, s.now, {}, s)
  {
    hide HasLivePath;
  }

  /** A due entry met during the tick has been on the queue since before it. */
  lemma DueIsOld(s: State, now: real, done: set<nat>, t: State, e: Entry)
    requires Inv(s) && Swept(s, now, done, t) && e in t.heap && e.due <= now
    ensures e in s.heap && e.id !in done && e.id < |s.scheds| && e.id in DueIds(s, now)
  {
    hide HasLivePath, Dispatched, UniqueEntries, UniqueTasks, HasEntry, HasTask, TasksOk, GatesOk;
    assert Waits(s, e);
  }

  lemma SweepOneScheds(s: State, now: real, done: set<nat>, t: State, e: Entry)
    requires SweptScheds(s, now, done, t.scheds) && t.now == now && e.id < |s.scheds| && e.id !in done
    ensures SweptScheds(s, now, done + {e.id}, PopOne(t, e, HasLivePath(s.scheds, e.id)).scheds)
  {
    hide HasLivePath;
  }

  lemma SweepOneHeap(s: State, now: real, done: set<nat>, heap: set<Entry>, heapSeq: nat, e: Entry)
    requires SweptHeap(s, now, done, heap, heapSeq) && (forall a :: a in s.heap ==> a.seqno < s.heapSeq)
    requires e in heap && e in s.heap && e.id !in done && e.id < |s.scheds|
    ensures HasLivePath(s.scheds, e.id) ==> SweptHeap(s, now, done + {e.id}, heap - {e}, heapSeq)
    ensures !HasLivePath(s.scheds, e.id) ==>
              SweptHeap(s, now, done + {e.id}, heap - {e} + {Entry(now + s.scheds[e.id].interval, heapSeq, e.id, now)}, heapSeq + 1)
  {
    hide HasLivePath;
    var live, more := HasLivePath(s.scheds, e.id), done + {e.id};
    var added := Entry(now + s.scheds[e.id].interval, heapSeq, e.id, now);
    var heap' := if live then heap - {e} else heap - {e} + {added};
    forall a | a in heap - {e}
      ensures a.id != e.id && a.seqno < heapSeq
      ensures (a in s.heap && a.id !in more) || Requeued(s, now, more, a, heapSeq)
    {
      assert (a in s.heap && a.id !in done) || Requeued(s, now, done, a, heapSeq);
    }
    forall x: nat | x in more && x < |s.scheds| && !HasLivePath(s.scheds, x)
      ensures HasEntry(heap', x)
    {
      if x == e.id {
        assert added in heap';
      } else {
        assert HasEntry(heap, x);
        var a :| a in heap && a.id == x;
        assert a in heap';
      }
    }
  }

  lemma SweepOneTasks(s: State, done: set<nat>, tasks: map<nat, Task>, nextTask: nat, id: nat)
    requires SweptTasks(s, done, tasks, nextTask) && id < |s.scheds| && id !in done
    requires forall k :: k in s.tasks ==> k < s.nextTask && s.tasks[k].id != id
    ensures HasLivePath(s.scheds, id) ==> SweptTasks(s, done + {id}, tasks[nextTask := Task(id, Running)], nextTask + 1)
    ensures !HasLivePath(s.scheds, id) ==> SweptTasks(s, done + {id}, tasks, nextTask)
  {
    hide HasLivePath;
    var live, more := HasLivePath(s.scheds, id), done + {id};
    var tasks' := if live then tasks[nextTask := Task(id, Running)] else tasks;
    forall k | k in tasks
      ensures k < nextTask && tasks[k].id != id
      ensures k in s.tasks || Dispatched(s, more, k, tasks[k])
    {
      if k !in s.tasks {
        assert Dispatched(s, done, k, tasks[k]);
      }
    }
    forall x: nat | x in more && x < |s.scheds| && HasLivePath(s.scheds, x)
      ensures HasTask(tasks', x)
    {
      if x == id {
        assert tasks'[nextTask].id == x;
      } else {
        assert HasTask(tasks, x);
        var k :| k in tasks && tasks[k].id == x;
        assert k in tasks';
      }
    }
  }

  lemma DueFacts(s: State, e: Entry)
    requires Inv(s) && e in s.heap
    ensures forall a :: a in s.heap ==> a.seqno < s.heapSeq
    ensures forall k :: k in s.tasks ==> k < s.nextTask && s.tasks[k].id != e.id
  {
    hide GatesOk, Identified, HasEntry, HasTask;
    assert Waits(s, e);
    forall a | a in s.heap
      ensures a.seqno < s.heapSeq
    {
      assert Waits(s, a);
    }
  }

  lemma SweepOne(s: State, now: real, done: set<nat>, t: State, e: Entry)
    requires Inv(s) && Swept(s, now, done, t) && e in t.heap && e.due <= now
    ensures e.id < |t.scheds| && e.id !in done && e.id in DueIds(s, now)
    ensures Swept(s, now, done + {e.id}, PopOne(t, e, HasLivePath(t.scheds, e.id)))
  {
    hide Inv, HasLivePath, SweptHeap, SweptTasks, TickSched;
    DueIsOld(s, now, done, t, e);
    DueFacts(s, e);
    SweptLinks(s, now, done, t);
    LivePathKept(s.scheds, t.scheds, e.id);
    SweepOneScheds(s, now, done, t, e);
    SweepOneHeap(s, now, done, t.heap, t.heapSeq, e);
    SweepOneTasks(s, done, t.tasks, t.nextTask, e.id);
  }

  /** When nothing on the queue is due any more, exactly the due nodes have been swept. */
  lemma SweepEnds(s: State, now: real, done: set<nat>, t: State)
    requires Swept(s, now, done, t) && done <= DueIds(s, now)
    requires forall e :: e in t.heap ==> e.due > now
    ensures Ticked(s, now, t)
  {
    hide HasLivePath, Requeued, Dispatched, UniqueEntries, UniqueTasks, HasEntry, HasTask, TickSched;
    assert done == DueIds(s, now);
  }

  /** From any state a tick can be completed. */
  lemma {:induction false} SweepOn(s: State, now: real, done: set<nat>, t: State) returns (t': State)
    requires Inv(s) && Swept(s, now, done, t) && done <= DueIds(s, now)
    ensures Ticked(s, now, t')
    decreases |DueIds(s, now) - done|
  {
    hide Inv, Swept, Ticked, DueIds, HasLivePath, PopOne;
    if e :| e in t.heap && e.due <= now {
      SweepOne(s, now, done, t, e);
      Graphs.SubsetSmaller(DueIds(s, now) - (done + {e.id}), DueIds(s, now) - done, e.id);
      t' := SweepOn(s, now, done + {e.id}, PopOne(t, e, HasLivePath(t.scheds, e.id)));
    } else {
      SweepEnds(s, now, done, t);
      t' := t;
    }
  }

  /** A tick starts the check of any waiting node that is due and has a live path. */
  lemma TickDispatches(s: State, mono: real, x: nat) returns (s': State, tid: nat)
    requires Inv(s) && s.now <= mono && x < |s.scheds| && HasLivePath(s.scheds, x)
    requires s.scheds[x].alive && !s.scheds[x].inFlight && s.scheds[x].nextDue <= mono
    ensures Next(s, mono, Event.Tick, s') && Inv(s') && s'.cfg == s.cfg && s'.now == mono
    ensures tid in s'.tasks && s'.tasks[tid] == Task(x, Running) && tid !in s.tasks
    ensures |s'.scheds| == |s.scheds| && s'.scheds[x] == s.scheds[x].(nextDue := mono + s.scheds[x].interval, inFlight := true)
    ensures HasLivePath(s'.scheds, x)
  {
    var t := s.(now := mono);
    assert Inv(t) by {
      hide Inv;
      ShapeKeepsInv(s, t);
    }
    assert Swept(t, mono, {}, t) by {
      SweepStarts(t);
    }
    hide HasLivePath;
    s' := SweepOn(t, mono, {}, t);
    TickIsNext(s, mono, s');
    NextKeepsInv(s, mono, Event.Tick, s');
    SweptLinks(t, mono, DueIds(t, mono), s');
    LivePathKept(t.scheds, s'.scheds, x);
    tid := DispatchedTask(t, mono, s', x);
  }

  lemma DispatchedTask(s: State, now: real, s': State, x: nat) returns (tid: nat)
    requires Inv(s) && Ticked(s, now, s') && x < |s.scheds| && HasLivePath(s.scheds, x)
    requires s.scheds[x].alive && !s.scheds[x].inFlight && s.scheds[x].nextDue <= now
    ensures tid in s'.tasks && s'.tasks[tid] == Task(x, Running) && tid !in s.tasks
    ensures |s'.scheds| == |s.scheds| && s'.scheds[x] == s.scheds[x].(nextDue := now + s.scheds[x].interval, inFlight := true)
  {
    hide HasLivePath, GatesOk, IntervalsOk, UniqueTasks, UniqueEntries, SweptHeap;
    assert HasEntry(s.heap, x);
    var e :| e in s.heap && e.id == x;
    assert Waits(s, e);
    assert e.id in DueIds(s, now);
    assert HasTask(s'.tasks, x);
    tid :| tid in s'.tasks && s'.tasks[tid].id == x;
    assert tid !in s.tasks;
    assert Dispatched(s, DueIds(s, now), tid, s'.tasks[tid]);
  }

  // ----- plans from configured graphs ---------------------------------------------------------

  function PlanOf(g: F.Graph, f: F.Flat): Plan
    requires forall k :: 0 <= k < |f.order| ==> f.order[k] < |g.nodes|
  {
    Plan(seq(|f.order|, k requires 0 <= k < |f.order| => g.nodes[f.order[k]]), f.gates)
  }

  /** `plan` is a flattening of `g`. */
  ghost predicate PlanFor(g: F.Graph, plan: Plan)
    requires F.Formed(g)
  {
    exists f :: F.IsFlat(g, f) && (forall k :: 0 <= k < |f.order| ==> f.order[k] < |g.nodes|) && plan == PlanOf(g, f)
  }

  lemma FlatBounds(g: F.Graph, f: F.Flat)
    requires F.Formed(g) && F.IsFlat(g, f)
    ensures forall k :: 0 <= k < |f.order| ==> f.order[k] < |g.nodes|
    ensures PlanFormed(PlanOf(g, f)) && PlanFor(g, PlanOf(g, f))
  {
    forall k | 0 <= k < |f.order|
      ensures f.order[k] < |g.nodes|
    {
      assert f.order[k] in f.order;
      assert F.Wanted(g, f.order[k]);
      var p :| F.EndsAt(g, p, f.order[k]);
    }
    forall k, i | 0 <= k < |f.gates| && 0 <= i < |f.gates[k]|
      ensures f.gates[k][i] < |f.order|
    {
      assert f.gates[k][i] in f.gates[k];
    }
  }

  // ----- the object ---------------------------------------------------------------------------

  predicate Earlier(a: Entry, b: Entry) {
    a.due < b.due || (a.due == b.due && a.seqno < b.seqno)
  }

  lemma {:induction false} HeadExists(heap: set<Entry>)
    requires heap != {}
    ensures exists e :: e in heap && forall a :: a in heap ==> !Earlier(a, e)
  {
    var x :| x in heap;
    var rest := heap - {x};
    if rest != {} {
      HeadExists(rest);
      var e :| e in rest && forall a :: a in rest ==> !Earlier(a, e);
      if Earlier(x, e) {
        forall a | a in heap
          ensures !Earlier(a, x)
        {
          assert a != x ==> a in rest && !Earlier(a, e);
        }
      } else {
        assert forall a :: a in heap ==> !Earlier(a, e);
      }
    } else {
      assert heap == {x};
    }
  }

  class Scheduler {
    const cfg: Config
    var scheds: seq<Sched>
    var current: seq<nat>
    var heap: set<Entry>
    var heapSeq: nat
    var tasks: map<nat, Task>
    var nextTask: nat
    var now: real  // the last reading of the monotonic clock

    ghost function Abs(): State
      reads this
    {
      State(cfg, scheds, current, heap, heapSeq, tasks, nextTask, now)
    }

    /** The head of the queue: earliest due time first, then the order of pushing. */
    method Head() returns (e: Option<Entry>)
      ensures e.None? <==> heap == {}
      ensures e.Some? ==> e.value in heap && forall a :: a in heap ==> e.value.due <= a.due
    {
      if heap == {} {
        return None;
      }
      HeadExists(heap);
      var h :| h in heap && forall a :: a in heap ==> !Earlier(a, h);
      return Some(h);
    }

    /** Until the head of the queue is due; a bounded poll when nothing waits. */
    method NextDelay(mono: real) returns (d: real)
      ensures T.IsDelay(Abs(), mono, d)
    {
      var e := Head();
      if e.None? {
        return T.Min(cfg.defaultInterval, T.MAX_IDLE_POLL);
      }
      assert T.IsHead(heap, e.value);
      return T.Max(0.0, e.value.due - mono);
    }

    /** Takes one due entry off the queue: its node starts a check, or is suppressed and queued again. */
    method PopEntry(e: Entry, mono: real)
      requires GatesClosed(scheds) && e.id < |scheds| && now == mono
      modifies this
      ensures now == mono && Abs() == PopOne(old(Abs()), e, HasLivePath(old(scheds), e.id))
    {
      hide HasLivePath;
      heap := heap - {e};
      var sched := scheds[e.id].(nextDue := mono + scheds[e.id].interval);
      var eligible := Reachable(scheds, e.id);
      if eligible {
        scheds := scheds[e.id := sched.(inFlight := true)];
        tasks := tasks[nextTask := Task(e.id, Running)];
        nextTask := nextTask + 1;
      } else {
        scheds := scheds[e.id := sched.(state := sched.state.(suppressed := true))];
        heap := heap + {Entry(sched.nextDue, heapSeq, e.id, mono)};
        heapSeq := heapSeq + 1;
      }
    }

    /** Dispatches or suppresses every node whose time has come. Terminates since re-queued nodes are
        due strictly later than `mono`. */
    method Tick(mono: real)
      requires Inv(Abs()) && now <= mono
      modifies this
      ensures Next(old(Abs()), mono, Event.Tick, Abs()) && Inv(Abs())
    {
      hide Inv, Swept, Ticked, Next, DueIds, HasLivePath, GatesClosed, PopOne;
      ghost var start := Abs();
      now := mono;
      ghost var s := Abs();
      ShapeKeepsInv(start, s);
      ghost var done: set<nat> := {};
      SweepStarts(s);
      InvGates(s);
      var head := Head();
      while head.Some? && head.value.due <= mono
        invariant now == mono && done <= DueIds(s, mono) && Swept(s, mono, done, Abs()) && GatesClosed(scheds)
        invariant head.None? <==> heap == {}
        invariant head.Some? ==> head.value in heap && forall a :: a in heap ==> head.value.due <= a.due
        decreases |DueIds(s, mono) - done|
      {
        var e := head.value;
        ghost var t := Abs();
        SweepOne(s, mono, done, t, e);
        Graphs.SubsetSmaller(DueIds(s, mono) - (done + {e.id}), DueIds(s, mono) - done, e.id);
        PopEntry(e, mono);
        done := done + {e.id};
        SweptGates(s, mono, done, Abs());
        head := Head();
      }
      SweepEnds(s, mono, done, Abs());
      TickIsNext(start, mono, Abs());
      NextKeepsInv(start, mono, Event.Tick, Abs());
    }

    /** A new scheduler monitors the flattening of its configuration. */
    constructor (cfg: Config, g: F.Graph, mono: real, wall: real, stagger: bool)
      requires F.Formed(g)
      ensures exists plan :: PlanFor(g, plan) && PlanFormed(plan) && Abs() == Init(cfg, plan, mono, wall, stagger)
      ensures Inv(Abs())
    {
      var f := F.FlattenGraph(g);
      FlatBounds(g, f);
      var plan := PlanOf(g, f);
      var n := |plan.nodes|;
      this.cfg := cfg;
      scheds, current := FreshScheds(cfg, plan, 0, mono, wall, stagger), Ids(0, n);
      heap, heapSeq := FreshHeap(cfg, 0, n, mono, stagger), n;
      tasks, nextTask, now := map[], 0, mono;
      InitInv(cfg, plan, mono, wall, stagger);
    }

    /** The tail of every check task: clear the flag and, unless retired, go back on the queue. */
    method FinishCheck(tid: nat)
      requires TaskAt(Abs(), tid)
      modifies this
      ensures Abs() == Finish(old(Abs()), tid)
    {
      var id := tasks[tid].id;
      scheds := scheds[id := scheds[id].(inFlight := false)];
      tasks := tasks - {tid};
      if scheds[id].alive {
        heap := heap + {Entry(scheds[id].nextDue, heapSeq, id, now)};
        heapSeq := heapSeq + 1;
      }
    }

    /** A check came back with `code`; `sent` is the page it starts, if any. */
    method CheckDone(tid: nat, code: int, wall: real, mono: real) returns (sent: Option<SendKind>)
      requires Inv(Abs()) && now <= mono && TaskAt(Abs(), tid) && tasks[tid].phase == Running
      modifies this
      ensures Next(old(Abs()), mono, Event.CheckDone(tid, code, wall), Abs()) && Inv(Abs())
      ensures sent.Some? <==> tid in tasks
      ensures sent.Some? ==> tasks[tid].phase == Sending(sent.value)
    {
      hide HasLivePath, Inv, Next, Apply, HandlePaging;
      ghost var start := Abs();
      now, sent := mono, None;
      InvGates(start);
      var id := tasks[tid].id;
      var sched := scheds[id];
      if !sched.alive {
        FinishCheck(tid);
      } else {
        var eligible := Reachable(scheds, id);
        if !eligible {
          scheds := scheds[id := sched.(state := sched.state.(suppressed := true))];
          FinishCheck(tid);
        } else {
          var out := Apply(sched.state.(suppressed := false), code, wall, cfg.pageOnDegraded);
          var paging := HandlePaging(cfg, sched.node, out.state, out.intent, mono);
          scheds := scheds[id := sched.(state := paging.state, checked := true)];
          sent := paging.send;
          if sent.Some? {
            tasks := tasks[tid := Task(id, Sending(sent.value))];
          } else {
            FinishCheck(tid);
          }
        }
      }
      CompleteIsNext(start, mono, tid, code, wall, Abs());
      NextKeepsInv(start, mono, Event.CheckDone(tid, code, wall), Abs());
    }

    /** The notifier answered; a delivered DOWN page is what marks the host as contacted. */
    method SendDone(tid: nat, ok: bool, mono: real)
      requires Inv(Abs()) && now <= mono && TaskAt(Abs(), tid) && tasks[tid].phase.Sending?
      modifies this
      ensures Next(old(Abs()), mono, Event.SendDone(tid, ok), Abs()) && Inv(Abs())
    {
      hide Inv;
      ghost var start := Abs();
      now := mono;
      var id, kind := tasks[tid].id, tasks[tid].phase.kind;
      var st := scheds[id].state;
      if ok && kind == FirstDown {
        st := st.(contacted := true, lastcontacted := mono);
      } else if ok && kind == Repage {
        st := st.(lastcontacted := mono);
      }
      scheds := scheds[id := scheds[id].(state := st)];
      FinishCheck(tid);
      NextKeepsInv(start, mono, Event.SendDone(tid, ok), Abs());
    }

    /** The check or the notifier raised: nothing is recorded, the node goes back on the queue. */
    method TaskRaised(tid: nat, mono: real)
      requires Inv(Abs()) && now <= mono && TaskAt(Abs(), tid)
      modifies this
      ensures Next(old(Abs()), mono, Event.Raised(tid), Abs()) && Inv(Abs())
    {
      hide Inv;
      ghost var start := Abs();
      now := mono;
      FinishCheck(tid);
      NextKeepsInv(start, mono, Event.Raised(tid), Abs());
    }

    /** The current nodes with this key, in order. */
    method Match(key: Key) returns (found: seq<nat>)
      requires Inv(Abs())
      ensures Listed(Abs(), key, found)
    {
      hide Inv;
      found := [];
      InvIdentified(Abs());
      for i := 0 to |current|
        invariant forall x: nat :: x in found <==> x in current[..i] && KeyOf(scheds[x].node) == key
        invariant forall i, j :: 0 <= i < j < |found| ==> found[i] != found[j]
      {
        assert current[..i + 1] == current[..i] + [current[i]];
        assert current[i] !in current[..i];
        if KeyOf(scheds[current[i]].node) == key {
          found := found + [current[i]];
        }
      }
      assert current[..|current|] == current;
    }

    /** Applies an operator's mark to the listed nodes, one after the other. */
    method MarkAll(found: seq<nat>, m: Mark)
      requires forall i :: 0 <= i < |found| ==> found[i] < |scheds|
      requires forall i, j :: 0 <= i < j < |found| ==> found[i] != found[j]
      modifies this`scheds
      ensures MarkedSome(old(scheds), found, scheds, m)
    {
      hide MarkedSome, MarkedBy;
      NoneMarked(scheds, m);
      for i := 0 to |found|
        invariant |scheds| == |old(scheds)|
        invariant MarkedSome(old(scheds), found[..i], scheds, m)
      {
        assert found[i] !in found[..i];
        MarkOneMore(old(scheds), found, i, scheds, m);
        scheds := scheds[found[i] := scheds[found[i]].(state := MarkedBy(scheds[found[i]].state, m))];
      }
      assert found[..|found|] == found;
    }

    /** Acknowledges every current node with this key; returns how many there are. */
    method Ack(key: Key, mono: real) returns (matched: nat)
      requires Inv(Abs()) && now <= mono
      modifies this
      ensures Next(old(Abs()), mono, Event.Ack(key), Abs()) && Inv(Abs())
      ensures matched == |MatchSet(old(Abs()), key)|
    {
      hide Inv, Next, Listed, MarkedSome;
      ghost var start := Abs();
      now := mono;
      ShapeKeepsInv(start, Abs());
      var found := Match(key);
      ListedMeans(Abs(), key, found);
      MarkAll(found, Acknowledge);
      matched := |found|;
      AllMarked(start, mono, key, None, found, scheds, Acknowledge);
      NextKeepsInv(start, mono, Event.Ack(key), Abs());
    }

    /** Sets or clears the note of every current node with this key; returns how many there are. */
    method SetNote(key: Key, text: Option<string>, mono: real) returns (matched: nat)
      requires Inv(Abs()) && now <= mono
      modifies this
      ensures Next(old(Abs()), mono, Event.SetNote(key, text), Abs()) && Inv(Abs())
      ensures matched == |MatchSet(old(Abs()), key)|
    {
      hide Inv, Next, Listed, MarkedSome;
      ghost var start := Abs();
      now := mono;
      ShapeKeepsInv(start, Abs());
      var found := Match(key);
      ListedMeans(Abs(), key, found);
      MarkAll(found, Annotate(NoteFor(text)));
      matched := |found|;
      AllMarked(start, mono, key, text, found, scheds, Annotate(NoteFor(text)));
      NextKeepsInv(start, mono, Event.SetNote(key, text), Abs());
    }

    /** Restores each well-formed record into the node that carries its key. */
    method ImportState(records: seq<Record>, mono: real)
      requires Inv(Abs()) && now <= mono
      modifies this
      ensures Next(old(Abs()), mono, Event.ImportState(records), Abs()) && Inv(Abs())
    {
      hide Inv, Keyed, ValidatedCarry;
      ghost var start := Abs();
      now := mono;
      for i := 0 to |records|
        invariant Abs() == Import(start.(now := mono), records[..i])
      {
        assert records[..i + 1][..i] == records[..i];
        var found, carried := LastKeyed(scheds, current, records[i]), ValidatedCarry(records[i]);
        if found.Some? && carried.Some? {
          var x := found.value;
          scheds := scheds[x := scheds[x].(state := Restore(scheds[x].state, carried.value).(lastcontacted := now))];
        }
      }
      assert records[..|records|] == records;
      NextKeepsInv(start, mono, Event.ImportState(records), Abs());
    }

    /** Swaps in a new configuration while checks may be in flight. */
    method Reload(g: F.Graph, mono: real, wall: real) returns (plan: Plan)
      requires Inv(Abs()) && now <= mono && F.Formed(g)
      modifies this
      ensures PlanFor(g, plan)
      ensures Next(old(Abs()), mono, Event.Reload(plan, wall), Abs()) && Inv(Abs())
    {
      hide Inv, Next, PlanFor, PlanFormed, F.IsFlat, F.Formed, FreshHeap, ReloadedSched;
      ghost var start := Abs();
      var f := F.FlattenGraph(g);
      FlatBounds(g, f);
      plan := PlanOf(g, f);
      now := mono;
      ghost var t := Abs();
      var old_, ids, base := scheds, current, |scheds|;
      var n := |plan.nodes|;
      var made := CarryAll(cfg, old_, ids, plan, mono, wall, t);
      scheds := seq(base, x requires 0 <= x < base => if x in ids then old_[x].(alive := false) else old_[x]) + made;
      current := Ids(base, n);
      heap, heapSeq := FreshHeap(cfg, base, n, mono, true), n;
      ReloadIsNext(start, mono, plan, wall, made, Abs());
      NextKeepsInv(start, mono, Event.Reload(plan, wall), Abs());
    }
  }

  lemma TickIsNext(s: State, mono: real, s': State)
    requires s.now <= mono && Ticked(s.(now := mono), mono, s')
    ensures Next(s, mono, Event.Tick, s')
  {
  }

  lemma InvGates(s: State)
    requires Inv(s)
    ensures GatesClosed(s.scheds)
  {
  }

  lemma SweptGates(s: State, now: real, done: set<nat>, t: State)
    requires Inv(s) && Swept(s, now, done, t)
    ensures GatesClosed(t.scheds)
  {
    hide HasLivePath, Requeued, Dispatched, UniqueEntries, UniqueTasks, HasEntry, HasTask, QueueOk, TasksOk;
  }

  lemma CompleteIsNext(s: State, mono: real, tid: nat, code: int, wall: real, s': State)
    requires s.now <= mono && TaskAt(s, tid) && s.tasks[tid].phase == Running
    requires s' == Complete(s.(now := mono), tid, code, wall)
    ensures Next(s, mono, Event.CheckDone(tid, code, wall), s')
  {
  }

  /** `found` lists, without repeats, the current nodes with this key. */
  ghost predicate Listed(s: State, key: Key, found: seq<nat>) {
    && (forall x: nat :: x in found <==> Matches(s, x, key))
    && (forall i, j :: 0 <= i < j < |found| ==> found[i] != found[j])
  }

  ghost function MatchSet(s: State, key: Key): set<nat> {
    set x | x in s.current && Matches(s, x, key)
  }

  lemma ListedMeans(s: State, key: Key, found: seq<nat>)
    requires Inv(s) && Listed(s, key, found)
    ensures forall i :: 0 <= i < |found| ==> found[i] < |s.scheds|
    ensures forall i, j :: 0 <= i < j < |found| ==> found[i] != found[j]
  {
    hide Inv;
    InvIdentified(s);
    assert forall i :: 0 <= i < |found| ==> found[i] in found;
  }

  lemma InvIdentified(s: State)
    requires Inv(s)
    ensures Identified(s)
  {
  }

  /** What an operator does to a node's state. */
  datatype Mark = Acknowledge | Annotate(note: Option<string>)

  function MarkedBy(st: HostState, m: Mark): HostState {
    match m
    case Acknowledge => st.(acked := true)
    case Annotate(note) => st.(note := note)
  }

  ghost predicate MarkedSome(before: seq<Sched>, ids: seq<nat>, after: seq<Sched>, m: Mark) {
    && |after| == |before|
    && forall x :: 0 <= x < |after| ==>
         after[x] == if x in ids then before[x].(state := MarkedBy(before[x].state, m)) else before[x]
  }

  lemma NoneMarked(scheds: seq<Sched>, m: Mark)
    ensures MarkedSome(scheds, [], scheds, m)
  {
  }

  lemma MarkOneMore(before: seq<Sched>, found: seq<nat>, i: nat, after: seq<Sched>, m: Mark)
    requires i < |found| && MarkedSome(before, found[..i], after, m) && found[i] < |before| && found[i] !in found[..i]
    ensures found[i] < |after|
    ensures MarkedSome(before, found[..i + 1], after[found[i] := after[found[i]].(state := MarkedBy(after[found[i]].state, m))], m)
  {
    assert found[..i + 1] == found[..i] + [found[i]];
  }

  lemma AllMarked(s: State, mono: real, key: Key, text: Option<string>, found: seq<nat>, after: seq<Sched>, m: Mark)
    requires s.now <= mono && Listed(s.(now := mono), key, found) && MarkedSome(s.scheds, found, after, m)
    ensures m.Acknowledge? ==> Next(s, mono, Event.Ack(key), s.(now := mono, scheds := after))
    ensures m == Annotate(NoteFor(text)) ==> Next(s, mono, Event.SetNote(key, text), s.(now := mono, scheds := after))
    ensures |found| == |MatchSet(s, key)|
  {
    assert m.Acknowledge? ==> after == Scheduling.Acked(s.(now := mono), key).scheds;
    assert m == Annotate(NoteFor(text)) ==> after == Noted(s.(now := mono), key, text).scheds;
    assert MatchSet(s, key) == Elements(found);
    DistinctCard(found);
  }

  /** The new objects of a reload, each inheriting from the last old node with its key. */
  method CarryAll(cfg: Config, prior: seq<Sched>, ids: seq<nat>, plan: Plan, mono: real, wall: real, ghost s: State)
    returns (made: seq<Sched>)
    requires PlanFormed(plan) && s.cfg == cfg && s.scheds == prior && s.current == ids && s.now == mono
    ensures |made| == |plan.nodes|
    ensures forall k :: 0 <= k < |made| ==> made[k] == ReloadedSched(s, plan, k, wall)
  {
    hide FreshSched, CarryOver, LastWith;
    made := FreshScheds(cfg, plan, |prior|, mono, wall, true);
    for k := 0 to |plan.nodes|
      invariant |made| == |plan.nodes|
      invariant forall j :: 0 <= j < k ==> made[j] == ReloadedSched(s, plan, j, wall)
      invariant forall j :: k <= j < |made| ==> made[j] == FreshSched(cfg, plan, |prior|, j, mono, wall, true)
    {
      var from := LastWith(prior, ids, KeyOf(made[k].node));
      if from.Some? {
        made := made[k := CarryOver(prior[from.value], made[k])];
      }
    }
  }

  lemma ReloadIsNext(s: State, mono: real, plan: Plan, wall: real, made: seq<Sched>, s': State)
    requires s.now <= mono && PlanFormed(plan) && |made| == |plan.nodes|
    requires forall k :: 0 <= k < |made| ==> made[k] == ReloadedSched(s.(now := mono), plan, k, wall)
    requires var base, n := |s.scheds|, |plan.nodes|;
             s' == s.(now := mono, current := Ids(base, n), heap := FreshHeap(s.cfg, base, n, mono, true), heapSeq := n,
                      scheds := seq(base, x requires 0 <= x < base =>
                          if x in s.current then s.scheds[x].(alive := false) else s.scheds[x]) + made)
    ensures Next(s, mono, Event.Reload(plan, wall), s')
  {
    hide ReloadedSched, FreshHeap;
    assert s'.scheds == Reloaded(s.(now := mono), plan, wall).scheds;
  }
}
