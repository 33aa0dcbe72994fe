/** The scheduler as a step machine: what each stretch of code between two awaits does to it. */
module Scheduling {
  import opened Model
  import opened StateMachine
  import opened Gates
  import opened Records
  import F = Flatten

  datatype Config = Config(defaultInterval: real, pageInterval: real, pageOnDegraded: bool, contactOn: string)

  /** A due-time queue entry; `pushed` is when it was queued. */
  datatype Entry = Entry(due: real, seqno: nat, id: nat, pushed: real)

  datatype SendKind = FirstDown | Repage | Recovery

  /** Where a check task is suspended: in the check itself, or in the notifier. */
  datatype Phase = Running | Sending(kind: SendKind)

  datatype Task = Task(id: nat, phase: Phase)

  /** `scheds` holds every scheduled object ever made, retired ones included; `current` is the live list. */
  datatype State = State(
    cfg: Config,
    scheds: seq<Sched>,
    current: seq<nat>,
    heap: set<Entry>,
    heapSeq: nat,
    tasks: map<nat, Task>,
    nextTask: nat,
    now: real)

  const MIN_INTERVAL := 0.01

  // ----- building blocks ---------------------------------------------------------------------

  function EffectiveInterval(node: Node, default: real): (r: real)
    ensures r >= MIN_INTERVAL
  {
    var wanted := if node.interval.Some? && node.interval.value != 0.0 then node.interval.value else default;
    if wanted > MIN_INTERVAL then wanted else MIN_INTERVAL
  }

  /** Start times: spread evenly over one default interval, or all at once. */
  function StaggerDue(cfg: Config, stagger: bool, mono: real, k: nat, count: nat): real
    requires k < count
  {
    if stagger then mono + (k as real / count as real) * cfg.defaultInterval else mono
  }

  function Push(s: State, id: nat): State
    requires id < |s.scheds|
  {
    s.(heap := s.heap + {Entry(s.scheds[id].nextDue, s.heapSeq, id, s.now)}, heapSeq := s.heapSeq + 1)
  }

  function SetSched(s: State, id: nat, sched: Sched): State
    requires id < |s.scheds|
  {
    s.(scheds := s.scheds[id := sched])
  }

  /** The end of a check task: back on the queue unless a reload has retired the node meanwhile. */
  function Finish(s: State, tid: nat): State
    requires tid in s.tasks && s.tasks[tid].id < |s.scheds|
  {
    var id := s.tasks[tid].id;
    var s1 := SetSched(s, id, s.scheds[id].(inFlight := false)).(tasks := s.tasks - {tid});
    if s.scheds[id].alive then Push(s1, id) else s1
  }

  predicate PagesDown(contactOn: string) {
    contactOn == "down" || contactOn == "both"
  }

  predicate PagesUp(contactOn: string) {
    contactOn == "up" || contactOn == "both"
  }

  function ContactOn(cfg: Config, node: Node): string {
    if node.contactOn != "" then node.contactOn else cfg.contactOn
  }

  /** What follows a result: the state to store now, and the send to start, if any. */
  datatype Paging = Paging(state: HostState, send: Option<SendKind>)

  function HandlePaging(cfg: Config, node: Node, st: HostState, intent: Intent, mono: real): Paging {
    var on := ContactOn(cfg, node);
    match intent
    case PageDown =>
      if st.acked then Paging(st.(contacted := true, lastcontacted := mono), None)
      else if PagesDown(on) then Paging(st, Some(FirstDown))
      else if on == "up" then Paging(st.(contacted := true, lastcontacted := mono), None)
      else Paging(st, None)
    case PageRecovery =>
      Paging(st, if PagesUp(on) then Some(Recovery) else None)
    case NoPage =>
      if st.contacted && MaybeRepage(st, mono, cfg.pageInterval) then
        if !st.acked && PagesDown(on) then Paging(st, Some(Repage))
        else Paging(st.(lastcontacted := mono), None)
      else Paging(st, None)
  }

  // ----- the steps ---------------------------------------------------------------------------

  /** A check returned `code`: dropped if retired, discarded if its gate fell, else applied. */
  ghost function Complete(s: State, tid: nat, code: int, wall: real): State
    requires tid in s.tasks && s.tasks[tid].id < |s.scheds|
  {
    var id := s.tasks[tid].id;
    var sched := s.scheds[id];
    if !sched.alive then Finish(s, tid)
    else if !HasLivePath(s.scheds, id) then
      Finish(SetSched(s, id, sched.(state := sched.state.(suppressed := true))), tid)
    else
      var out := Apply(sched.state.(suppressed := false), code, wall, s.cfg.pageOnDegraded);
      var paging := HandlePaging(s.cfg, sched.node, out.state, out.intent, s.now);
      var s1 := SetSched(s, id, sched.(state := paging.state, checked := true));
      if paging.send.Some? then s1.(tasks := s1.tasks[tid := Task(id, Sending(paging.send.value))])
      else Finish(s1, tid)
  }

  /** A host's state once the notifier has answered: a delivered DOWN page is marked and dated. */
  function Answered(st: HostState, kind: SendKind, ok: bool, mono: real): HostState {
    match kind
    case FirstDown => if ok then st.(contacted := true, lastcontacted := mono) else st
    case Repage => if ok then st.(lastcontacted := mono) else st
    case Recovery => st
  }

  /** The notifier answered. */
  function SendBack(s: State, tid: nat, ok: bool): State
    requires tid in s.tasks && s.tasks[tid].id < |s.scheds| && s.tasks[tid].phase.Sending?
  {
    var id := s.tasks[tid].id;
    var st := s.scheds[id].state;
    Finish(SetSched(s, id, s.scheds[id].(state := Answered(st, s.tasks[tid].phase.kind, ok, s.now))), tid)
  }

  predicate Matches(s: State, x: nat, key: Key) {
    x < |s.scheds| && x in s.current && KeyOf(s.scheds[x].node) == key
  }

  function Acked(s: State, key: Key): State {
    s.(scheds := seq(|s.scheds|, x requires 0 <= x < |s.scheds| =>
      if Matches(s, x, key) then s.scheds[x].(state := s.scheds[x].state.(acked := true)) else s.scheds[x]))
  }

  function NoteFor(text: Option<string>): Option<string> {
    if text.Some? && text.value != "" then Some(Truncated(text.value)) else None
  }

  function Noted(s: State, key: Key, text: Option<string>): State {
    s.(scheds := seq(|s.scheds|, x requires 0 <= x < |s.scheds| =>
      if Matches(s, x, key) then s.scheds[x].(state := s.scheds[x].state.(note := NoteFor(text))) else s.scheds[x]))
  }

  // ----- tick --------------------------------------------------------------------------------

  /** The nodes with a queue entry that is due. */
  ghost function DueIds(s: State, now: real): set<nat> {
    set e | e in s.heap && e.due <= now :: e.id
  }

  /** What a due node becomes: its next slot is set, then it is dispatched or suppressed. */
  ghost function TickSched(scheds: seq<Sched>, x: nat, now: real): Sched
    requires x < |scheds|
  {
    var next := scheds[x].(nextDue := now + scheds[x].interval);
    if HasLivePath(scheds, x) then next.(inFlight := true)
    else next.(state := next.state.(suppressed := true))
  }

  /** The queue entry made for a suppressed node during the tick that took `s` to `heapSeq`. */
  ghost predicate Requeued(s: State, now: real, done: set<nat>, e: Entry, heapSeq: nat) {
    && e.id in done && e.id < |s.scheds| && !HasLivePath(s.scheds, e.id)
    && e.due == now + s.scheds[e.id].interval && e.pushed == now
    && s.heapSeq <= e.seqno < heapSeq
  }

  /** The task made for a dispatched node. */
  ghost predicate Dispatched(s: State, done: set<nat>, t: nat, task: Task) {
    t >= s.nextTask && task.phase == Running && task.id in done && task.id < |s.scheds| && HasLivePath(s.scheds, task.id)
  }

  ghost predicate HasEntry(heap: set<Entry>, x: nat) {
    exists e :: e in heap && e.id == x
  }

  ghost predicate HasTask(tasks: map<nat, Task>, x: nat) {
    exists t :: t in tasks && tasks[t].id == x
  }

  /** Exactly the nodes in `done` have had their turn. */
  ghost predicate SweptScheds(s: State, now: real, done: set<nat>, scheds: seq<Sched>) {
    && |scheds| == |s.scheds|
    && forall x :: 0 <= x < |s.scheds| ==>
         scheds[x] == if x in done then TickSched(s.scheds, x, now) else s.scheds[x]
  }

  /** The queue has lost the entries of `done` and gained one for each of them that is not live. */
  ghost predicate SweptHeap(s: State, now: real, done: set<nat>, heap: set<Entry>, heapSeq: nat) {
    && heapSeq >= s.heapSeq
    && (forall e :: e in heap ==> (e in s.heap && e.id !in done) || Requeued(s, now, done, e, heapSeq))
    && (forall e :: e in s.heap && e.id !in done ==> e in heap)
    && (forall x: nat :: x in done && x < |s.scheds| && !HasLivePath(s.scheds, x) ==> HasEntry(heap, x))
    && UniqueEntries(heap)
  }

  /** A check has been started for each node of `done` that is live, and for no other. */
  ghost predicate SweptTasks(s: State, done: set<nat>, tasks: map<nat, Task>, nextTask: nat) {
    && nextTask >= s.nextTask
    && (forall t :: t in s.tasks ==> t in tasks && tasks[t] == s.tasks[t])
    && (forall t :: t in tasks && t !in s.tasks ==> t < nextTask && Dispatched(s, done, t, tasks[t]))
    && (forall x: nat :: x in done && x < |s.scheds| && HasLivePath(s.scheds, x) ==> HasTask(tasks, x))
    && UniqueTasks(tasks)
  }

  /** `s'` is `s` with exactly the nodes in `done` dispatched (if live) or requeued (if not). */
  ghost predicate Swept(s: State, now: real, done: set<nat>, s': State) {
    && s'.cfg == s.cfg && s'.current == s.current && s'.now == now
    && SweptScheds(s, now, done, s'.scheds)
    && SweptHeap(s, now, done, s'.heap, s'.heapSeq)
    && SweptTasks(s, done, s'.tasks, s'.nextTask)
  }

  ghost predicate UniqueEntries(heap: set<Entry>) {
    forall a, b :: a in heap && b in heap && (a.id == b.id || a.seqno == b.seqno) ==> a == b
  }

  ghost predicate UniqueTasks(tasks: map<nat, Task>) {
    forall t, u :: t in tasks && u in tasks && tasks[t].id == tasks[u].id ==> t == u
  }

  /** One tick dispatches exactly the due live nodes and requeues exactly the due others. */
  ghost predicate Ticked(s: State, now: real, s': State) {
    Swept(s, now, DueIds(s, now), s')
  }

  // ----- configurations ----------------------------------------------------------------------

  /** What `_flatten` hands to the scheduler: the nodes in order, and each one's gate as positions. */
  datatype Plan = Plan(nodes: seq<Node>, gates: seq<seq<nat>>)

  ghost predicate PlanFormed(p: Plan) {
    && |p.gates| == |p.nodes|
    && forall k, i :: 0 <= k < |p.gates| && 0 <= i < |p.gates[k]| ==> p.gates[k][i] < |p.nodes|
  }

  /** The plan's `k`-th node as a new scheduled object; positions are offset by `base`. */
  function FreshSched(cfg: Config, p: Plan, base: nat, k: nat, mono: real, wall: real, stagger: bool): Sched
    requires k < |p.nodes| == |p.gates|
  {
    Sched(p.nodes[k],
          Fresh(p.nodes[k].maxDown, wall),
          seq(|p.gates[k]|, i requires 0 <= i < |p.gates[k]| => base + p.gates[k][i]),
          EffectiveInterval(p.nodes[k], cfg.defaultInterval),
          StaggerDue(cfg, stagger, mono, k, |p.nodes|),
          false, false, true)
  }

  function FreshScheds(cfg: Config, p: Plan, base: nat, mono: real, wall: real, stagger: bool): seq<Sched>
    requires |p.nodes| == |p.gates|
  {
    seq(|p.nodes|, k requires 0 <= k < |p.nodes| => FreshSched(cfg, p, base, k, mono, wall, stagger))
  }

  function Ids(base: nat, n: nat): seq<nat> {
    seq(n, k requires 0 <= k < n => base + k)
  }

  /** The queue as rebuilt from scratch: one entry per node, numbered in order. */
  function FreshHeap(cfg: Config, base: nat, n: nat, mono: real, stagger: bool): set<Entry> {
    set k | 0 <= k < n :: Entry(StaggerDue(cfg, stagger, mono, k, n), k, base + k, mono)
  }

  /** A scheduler just built from a plan, its start times staggered or not. */
  function Init(cfg: Config, p: Plan, mono: real, wall: real, stagger: bool): State
    requires |p.nodes| == |p.gates|
  {
    State(cfg, FreshScheds(cfg, p, 0, mono, wall, stagger), Ids(0, |p.nodes|),
          FreshHeap(cfg, 0, |p.nodes|, mono, stagger), |p.nodes|, map[], 0, mono)
  }

  /** The last of `ids` that carries `key`. */
  function LastWith(scheds: seq<Sched>, ids: seq<nat>, key: Key): (r: Option<nat>)
    ensures r.Some? ==> r.value in ids && r.value < |scheds| && KeyOf(scheds[r.value].node) == key
    ensures r.None? ==> forall x :: x in ids && x < |scheds| ==> KeyOf(scheds[x].node) != key
  {
    if ids == [] then None
    else
      var x := ids[|ids| - 1];
      if x < |scheds| && KeyOf(scheds[x].node) == key then Some(x) else LastWith(scheds, ids[..|ids| - 1], key)
  }

  /** The runtime state that a node still present keeps across a reload. */
  function CarryOver(prior: Sched, made: Sched): Sched {
    made.(state := Restore(made.state, CarriedOf(prior.state)).(lastcontacted := prior.state.lastcontacted),
            checked := prior.checked)
  }

  function ReloadedSched(s: State, p: Plan, k: nat, wall: real): Sched
    requires k < |p.nodes| == |p.gates|
  {
    var made := FreshSched(s.cfg, p, |s.scheds|, k, s.now, wall, true);
    var prior := LastWith(s.scheds, s.current, KeyOf(made.node));
    if prior.Some? then CarryOver(s.scheds[prior.value], made) else made
  }

  function Retired(s: State): seq<Sched> {
    seq(|s.scheds|, x requires 0 <= x < |s.scheds| =>
      if x in s.current then s.scheds[x].(alive := false) else s.scheds[x])
  }

  /** The old objects are retired; the new ones inherit by key and start on a rebuilt queue. */
  function Reloaded(s: State, p: Plan, wall: real): State
    requires |p.nodes| == |p.gates|
  {
    var base, n := |s.scheds|, |p.nodes|;
    s.(scheds := Retired(s) + seq(n, k requires 0 <= k < n => ReloadedSched(s, p, k, wall)),
       current := Ids(base, n),
       heap := FreshHeap(s.cfg, base, n, s.now, true),
       heapSeq := n)
  }

  // ----- persistence -------------------------------------------------------------------------

  function Export(s: State): seq<Record>
    requires forall i :: 0 <= i < |s.current| ==> s.current[i] < |s.scheds|
  {
    seq(|s.current|, i requires 0 <= i < |s.current| =>
      ExportRecord(s.scheds[s.current[i]].node, s.scheds[s.current[i]].state))
  }

  /** The last current node whose key the record carries. */
  function LastKeyed(scheds: seq<Sched>, ids: seq<nat>, r: Record): (found: Option<nat>)
    ensures found.Some? ==> found.value in ids && found.value < |scheds| && Keyed(r, KeyOf(scheds[found.value].node))
  {
    if ids == [] then None
    else
      var x := ids[|ids| - 1];
      if x < |scheds| && Keyed(r, KeyOf(scheds[x].node)) then Some(x) else LastKeyed(scheds, ids[..|ids| - 1], r)
  }

  /** One record: restored into its node if that exists and all fields are well typed, else skipped. */
  function ImportOne(s: State, r: Record): State {
    var found, carried := LastKeyed(s.scheds, s.current, r), ValidatedCarry(r);
    if found.Some? && carried.Some? then
      var x := found.value;
      SetSched(s, x, s.scheds[x].(state := Restore(s.scheds[x].state, carried.value).(lastcontacted := s.now)))
    else s
  }

  function Import(s: State, records: seq<Record>): State {
    if records == [] then s
    else ImportOne(Import(s, records[..|records| - 1]), records[|records| - 1])
  }

  // ----- runs --------------------------------------------------------------------------------

  datatype Event =
    | Tick
    | CheckDone(tid: nat, code: int, wall: real)
    | Raised(tid: nat)
    | SendDone(tid: nat, ok: bool)
    | Ack(key: Key)
    | SetNote(key: Key, text: Option<string>)
    | Reload(plan: Plan, wall: real)
    | ImportState(records: seq<Record>)

  ghost predicate TaskAt(s: State, tid: nat) {
    tid in s.tasks && s.tasks[tid].id < |s.scheds|
  }

  /** `ev`, happening at `mono`, takes `s` to `s'`. Time does not run backwards. */
  ghost predicate Next(s: State, mono: real, ev: Event, s': State) {
    && s.now <= mono
    && var t := s.(now := mono);
       match ev
       case Tick => Ticked(t, mono, s')
       case CheckDone(tid, code, wall) =>
         TaskAt(t, tid) && t.tasks[tid].phase == Running && s' == Complete(t, tid, code, wall)
       case Raised(tid) => TaskAt(t, tid) && s' == Finish(t, tid)
       case SendDone(tid, ok) => TaskAt(t, tid) && t.tasks[tid].phase.Sending? && s' == SendBack(t, tid, ok)
       case Ack(key) => s' == Acked(t, key)
       case SetNote(key, text) => s' == Noted(t, key, text)
       case Reload(plan, wall) => PlanFormed(plan) && s' == Reloaded(t, plan, wall)
       case ImportState(records) => s' == Import(t, records)
  }

  datatype Timed = Timed(mono: real, ev: Event)

  /** A run: `states[i]` goes to `states[i + 1]` by `evs[i]`. */
  ghost predicate IsRun(states: seq<State>, evs: seq<Timed>) {
    && |states| == |evs| + 1
    && forall i :: 0 <= i < |evs| ==> Next(states[i], evs[i].mono, evs[i].ev, states[i + 1])
  }
}
