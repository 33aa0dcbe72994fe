/** A reload while a DOWN page is on its way: the answer misses the current node, and the outage is paged again. */
module PagingReload {
  import opened Model
  import opened StateMachine
  import opened Gates
  import opened Scheduling
  import opened SchedulerInvariant
  import opened Suppression
  import opened Paging
  import S = Scheduler

  ghost predicate UniqueKeys(s: State) {
    forall x, y ::
      (x in s.current && y in s.current && x < |s.scheds| && y < |s.scheds| &&
       KeyOf(s.scheds[x].node) == KeyOf(s.scheds[y].node)) ==> x == y
  }

  /** The answer to a page, first or repeated, reaches the current node of its key exactly when no reload has retired
      the node that asked for it. */
  lemma AnswerLandsIffNotReloaded(s: State, tid: nat, y: nat)
    requires Inv(s) && UniqueKeys(s) && TaskAt(s, tid) && s.tasks[tid].phase.Sending?
    requires y in s.current && y < |s.scheds| && KeyOf(s.scheds[y].node) == KeyOf(s.scheds[s.tasks[tid].id].node)
    requires Answered(s.scheds[y].state, s.tasks[tid].phase.kind, true, s.now) != s.scheds[y].state
    ensures y < |SendBack(s, tid, true).scheds|
    ensures SendBack(s, tid, true).scheds[y].state == Answered(s.scheds[y].state, s.tasks[tid].phase.kind, true, s.now)
       <==> s.scheds[s.tasks[tid].id].alive
  {
    hide QueueOk, TasksOk, GatesOk, SendBack, Answered;
    SendBackShape(s, tid, true);
  }

  /** A delivered first page marks the current node exactly then. */
  lemma MarkLandsIffNotReloaded(s: State, tid: nat, y: nat)
    requires Inv(s) && UniqueKeys(s) && TaskAt(s, tid) && s.tasks[tid].phase == Sending(FirstDown)
    requires y in s.current && y < |s.scheds| && !s.scheds[y].state.contacted
    requires KeyOf(s.scheds[y].node) == KeyOf(s.scheds[s.tasks[tid].id].node)
    ensures y < |SendBack(s, tid, true).scheds|
    ensures SendBack(s, tid, true).scheds[y].state.contacted <==> s.scheds[s.tasks[tid].id].alive
  {
    hide QueueOk, TasksOk, GatesOk, SendBack;
    SendBackShape(s, tid, true);
  }

  /** A delivered repeated page restarts the current node's clock exactly then. */
  lemma StampLandsIffNotReloaded(s: State, tid: nat, y: nat)
    requires Inv(s) && UniqueKeys(s) && TaskAt(s, tid) && s.tasks[tid].phase == Sending(Repage)
    requires y in s.current && y < |s.scheds| && s.scheds[y].state.lastcontacted != s.now
    requires KeyOf(s.scheds[y].node) == KeyOf(s.scheds[s.tasks[tid].id].node)
    ensures y < |SendBack(s, tid, true).scheds|
    ensures SendBack(s, tid, true).scheds[y].state.lastcontacted == s.now <==> s.scheds[s.tasks[tid].id].alive
  {
    hide QueueOk, TasksOk, GatesOk, SendBack;
    SendBackShape(s, tid, true);
  }

  // ----- paging twice ------------------------------------------------------------------------

  /** One more failure of the same kind would page about a host in this state again. */
  ghost predicate PagesAgain(cfg: Config, node: Node, st: HostState, kind: SendKind, mono: real) {
    && !IsUp(st.lastcheck) && !st.acked && PagesDown(ContactOn(cfg, node))
    && match kind
       case FirstDown => !st.contacted && IsHard(st.lastcheck, cfg.pageOnDegraded) && st.downct + 1 >= st.maxDown
       case Repage => st.contacted && MaybeRepage(st, mono, cfg.pageInterval)
       case Recovery => false
  }

  /** What a result makes of a host, and the page it starts. */
  function Outgoing(cfg: Config, node: Node, st: HostState, code: int, wall: real, mono: real): Scheduling.Paging {
    var out := Apply(st.(suppressed := false), code, wall, cfg.pageOnDegraded);
    HandlePaging(cfg, node, out.state, out.intent, mono)
  }

  lemma PagesOnFailure(cfg: Config, node: Node, st: HostState, kind: SendKind, wall: real, mono: real)
    requires PagesAgain(cfg, node, st, kind, mono)
    ensures Outgoing(cfg, node, st, st.lastcheck, wall, mono).send == Some(kind)
    ensures !IsUp(Outgoing(cfg, node, st, st.lastcheck, wall, mono).state.lastcheck)
  {
    hide PagesDown, PagesUp, ContactOn;
  }

  lemma PagesLater(cfg: Config, node: Node, st: HostState, kind: SendKind, mono: real, later: real)
    requires PagesAgain(cfg, node, st, kind, mono) && mono <= later
    ensures PagesAgain(cfg, node, st, kind, later)
  {
  }

  /** One tick and one completion: a waiting host that is due and has a live path gets the result `code`, and the page
      that asks for starts. */
  lemma ResultStartsPage(s: State, y: nat, code: int, kind: SendKind, wall: real, later: real)
    returns (s1: State, tid: nat, s2: State)
    requires Inv(s) && s.now <= later && y < |s.scheds| && s.scheds[y].alive && !s.scheds[y].inFlight
    requires s.scheds[y].nextDue <= later && HasLivePath(s.scheds, y)
    requires Outgoing(s.cfg, s.scheds[y].node, s.scheds[y].state, code, wall, later).send == Some(kind) && kind != Recovery
    ensures Next(s, later, Event.Tick, s1)
    ensures Next(s1, later, Event.CheckDone(tid, code, wall), s2)
    ensures Inv(s2) && s2.cfg == s.cfg && s2.now == later && s2.current == s.current && DownStarts(s1, s2, y)
    ensures TaskAt(s2, tid) && s2.tasks[tid] == Task(y, Sending(kind))
    ensures |s1.scheds| == |s2.scheds| == |s.scheds| && s1.scheds[y].state == s.scheds[y].state
    ensures s2.scheds[y] == s.scheds[y].(nextDue := later + s.scheds[y].interval, inFlight := true, checked := true,
                                         state := Outgoing(s.cfg, s.scheds[y].node, s.scheds[y].state, code, wall, later).state)
  {
    hide Inv, HasLivePath, Next, Complete, Apply, HandlePaging;
    s1, tid := S.TickDispatches(s, later, y);
    s2 := Complete(s1, tid, code, wall);
    assert s1.(now := later) == s1;
    S.CompleteIsNext(s1, later, tid, code, wall, s2);
    NextKeepsInv(s1, later, Event.CheckDone(tid, code, wall), s2);
    NextKeepsPlaces(s, later, Event.Tick, s1);
    NextKeepsPlaces(s1, later, Event.CheckDone(tid, code, wall), s2);
    CompletionEffect(s1, tid, code, wall);
    SentShape(s1, tid, code, wall);
    assert PageStarts(s1, s2, tid);
  }

  lemma SentShape(s: State, tid: nat, code: int, wall: real)
    requires TaskAt(s, tid) && s.scheds[s.tasks[tid].id].alive && HasLivePath(s.scheds, s.tasks[tid].id)
    requires var y := s.tasks[tid].id; Outgoing(s.cfg, s.scheds[y].node, s.scheds[y].state, code, wall, s.now).send.Some?
    ensures var y, s' := s.tasks[tid].id, Complete(s, tid, code, wall);
      && |s'.scheds| == |s.scheds|
      && s'.scheds[y] == s.scheds[y].(state := Outgoing(s.cfg, s.scheds[y].node, s.scheds[y].state, code, wall, s.now).state, checked := true)
  {
    hide HasLivePath, Apply, HandlePaging, Finish;
  }

  /** `y` is where a reload puts the heir of `id`. */
  ghost predicate Heir(s: State, p: Plan, k: nat, id: nat) {
    k < |p.nodes| && LastWith(s.scheds, s.current, KeyOf(p.nodes[k])) == Some(id)
  }

  lemma HeirState(s: State, p: Plan, k: nat, wall: real, id: nat)
    requires PlanFormed(p) && Heir(s, p, k, id)
    ensures var y, s1 := |s.scheds| + k, Reloaded(s, p, wall);
            && id < |s.scheds| && y < |s1.scheds| && s1.cfg == s.cfg && s1.now == s.now && s1.tasks == s.tasks
            && s1.scheds[y].node == p.nodes[k] && s1.scheds[y].alive && !s1.scheds[y].inFlight
            && s1.scheds[y].nextDue == StaggerDue(s.cfg, true, s.now, k, |p.nodes|)
            && KeyOf(p.nodes[k]) == KeyOf(s.scheds[id].node)
            && var a, b := s.scheds[id].state, s1.scheds[y].state;
               && b.lastcheck == a.lastcheck && b.downct == a.downct && b.contacted == a.contacted && b.acked == a.acked
               && b.lastcontacted == a.lastcontacted && b.maxDown == p.nodes[k].maxDown
  {
    hide LastWith, FreshHeap, StaggerDue;
    ReloadedAt(s, p, wall, |s.scheds| + k);
  }

  lemma AnswerElsewhere(s: State, tid: nat, ok: bool, y: nat)
    requires Inv(s) && TaskAt(s, tid) && s.tasks[tid].phase.Sending? && y < |s.scheds| && s.tasks[tid].id != y
    ensures var s' := SendBack(s, tid, ok);
            && |s'.scheds| == |s.scheds| && s'.scheds[y] == s.scheds[y] && s'.cfg == s.cfg && s'.now == s.now
            && (HasLivePath(s'.scheds, y) <==> HasLivePath(s.scheds, y))
  {
    hide Inv, HasLivePath;
    var s' := SendBack(s, tid, ok);
    assert S.LinksKept(s.scheds, s'.scheds);
    S.LivePathKept(s.scheds, s'.scheds, y);
  }

  /** For every state with a DOWN page on its way, first or repeated, about a host that one more failure would page
      about: a reload that hands the host over, the delivery of the page, and that failure, at any later time the heir
      is due, make a run in which a page of the same kind about the same host starts again. Nothing ties `later` to the
      page interval. */
  lemma ReloadDuringSendPagesTwice(s: State, tid: nat, p: Plan, k: nat, wall: real, answered: real, later: real)
    returns (states: seq<State>, evs: seq<Timed>)
    requires Inv(s) && TaskAt(s, tid) && DownPhase(s.tasks[tid].phase) && s.scheds[s.tasks[tid].id].alive
    requires PlanFormed(p) && Heir(s, p, k, s.tasks[tid].id) && s.now <= answered <= later
    requires StaggerDue(s.cfg, true, s.now, k, |p.nodes|) <= later
    requires HasLivePath(Reloaded(s, p, wall).scheds, |s.scheds| + k)
    requires PagesAgain(s.cfg, p.nodes[k], s.scheds[s.tasks[tid].id].state.(maxDown := p.nodes[k].maxDown), s.tasks[tid].phase.kind, s.now)
    ensures IsRun(states, evs) && |states| == 5 && states[0] == s
    ensures evs[0] == Timed(s.now, Event.Reload(p, wall)) && evs[1] == Timed(answered, Event.SendDone(tid, true))
    ensures evs[2] == Timed(later, Event.Tick) && evs[3].mono == later && evs[3].ev.CheckDone?
    ensures TaskAt(states[1], tid) && states[1].tasks[tid] == s.tasks[tid]
    ensures DownStarts(states[3], states[4], |s.scheds| + k)
    ensures TaskAt(states[4], evs[3].ev.tid) && states[4].tasks[evs[3].ev.tid] == Task(|s.scheds| + k, s.tasks[tid].phase)
    ensures KeyOf(p.nodes[k]) == KeyOf(s.scheds[s.tasks[tid].id].node)
    ensures forall m :: 1 <= m < 5 ==> |states[m].scheds| == |s.scheds| + |p.nodes| && !IsUp(states[m].scheds[|s.scheds| + k].state.lastcheck)
  {
    hide Inv, HasLivePath, Next, Reloaded, SendBack, LastWith, StaggerDue, PagesAgain, Outgoing;
    var id, y, kind := s.tasks[tid].id, |s.scheds| + k, s.tasks[tid].phase.kind;
    var s1 := Reloaded(s, p, wall);
    HeirState(s, p, k, wall, id);
    assert s.(now := s.now) == s;
    ReloadNext(s, p, wall);
    NextKeepsInv(s, s.now, Event.Reload(p, wall), s1);
    var t1 := s1.(now := answered);
    ShapeKeepsInv(s1, t1);
    var s2 := SendBack(t1, tid, true);
    SendNext(s1, answered, tid);
    NextKeepsInv(s1, answered, Event.SendDone(tid, true), s2);
    AnswerElsewhere(t1, tid, true, y);
    SameForPaging(s.cfg, p.nodes[k], s.scheds[id].state.(maxDown := p.nodes[k].maxDown), s2.scheds[y].state, kind, s.now);
    PagesLater(s.cfg, p.nodes[k], s2.scheds[y].state, kind, s.now, later);
    var code := s2.scheds[y].state.lastcheck;
    PagesOnFailure(s.cfg, p.nodes[k], s2.scheds[y].state, kind, wall, later);
    AgainMeans(s.cfg, p.nodes[k], s2.scheds[y].state, kind, later);
    ReloadedFrame(s, p, wall);
    var s3, tid', s4 := ResultStartsPage(s2, y, code, kind, wall, later);
    states := [s, s1, s2, s3, s4];
    evs := [Timed(s.now, Event.Reload(p, wall)), Timed(answered, Event.SendDone(tid, true)), Timed(later, Event.Tick),
            Timed(later, Event.CheckDone(tid', code, wall))];
    FourSteps(states, evs);
  }

  lemma AgainMeans(cfg: Config, node: Node, st: HostState, kind: SendKind, mono: real)
    requires PagesAgain(cfg, node, st, kind, mono)
    ensures !IsUp(st.lastcheck) && kind != Recovery
  {
  }

  lemma ReloadNext(s: State, p: Plan, wall: real)
    requires PlanFormed(p)
    ensures Next(s, s.now, Event.Reload(p, wall), Reloaded(s, p, wall))
  {
    hide Reloaded;
  }

  lemma SendNext(s: State, mono: real, tid: nat)
    requires s.now <= mono && TaskAt(s, tid) && s.tasks[tid].phase.Sending?
    ensures Next(s, mono, Event.SendDone(tid, true), SendBack(s.(now := mono), tid, true))
  {
    hide SendBack;
  }

  lemma FourSteps(states: seq<State>, evs: seq<Timed>)
    requires |states| == 5 && |evs| == 4
    requires Next(states[0], evs[0].mono, evs[0].ev, states[1]) && Next(states[1], evs[1].mono, evs[1].ev, states[2])
    requires Next(states[2], evs[2].mono, evs[2].ev, states[3]) && Next(states[3], evs[3].mono, evs[3].ev, states[4])
    ensures IsRun(states, evs)
  {
    hide Next;
  }

  lemma SameForPaging(cfg: Config, node: Node, a: HostState, b: HostState, kind: SendKind, mono: real)
    requires PagesAgain(cfg, node, a, kind, mono)
    requires b.lastcheck == a.lastcheck && b.downct == a.downct && b.contacted == a.contacted && b.acked == a.acked
    requires b.lastcontacted == a.lastcontacted && b.maxDown == a.maxDown
    ensures PagesAgain(cfg, node, b, kind, mono)
  {
  }

  // ----- two runs from the start -------------------------------------------------------------

  /** Two DOWN pages about one host within the page interval, in one outage: a page is delivered in step `i`, another
      starts in step `j`, and the node it is about was never up from `i` on. */
  ghost predicate PagedTwice(states: seq<State>, evs: seq<Timed>, kind: SendKind, i: nat, j: nat, x: nat, y: nat) {
    && IsRun(states, evs) && i < j < |evs|
    && evs[i].ev.SendDone? && evs[i].ev.ok && TaskAt(states[i], evs[i].ev.tid)
    && kind != Recovery && states[i].tasks[evs[i].ev.tid] == Task(x, Sending(kind))
    && DownStarts(states[j], states[j + 1], y)
    && x < |states[i].scheds| && y < |states[j].scheds| && KeyOf(states[i].scheds[x].node) == KeyOf(states[j].scheds[y].node)
    && evs[j].mono - evs[i].mono <= states[0].cfg.pageInterval
    && forall m :: i <= m <= j + 1 ==> y < |states[m].scheds| && !IsUp(states[m].scheds[y].state.lastcheck)
  }

  const LoneHost := Node("h", Ping, 0, "", "c", "", "", None, "", "", "", None, 1, Some(0.5), None, None)

  const LonePlan := Plan([LoneHost], [[]])

  const LoneConfig := Config(1.0, 100.0, false, "both")

  /** A scheduler that monitors one host without parents. */
  ghost predicate Lone(s: State, st: HostState) {
    && Inv(s) && s.cfg == LoneConfig && s.current == [0] && |s.scheds| == 1 && s.scheds[0].alive && s.scheds[0].gate == []
    && s.scheds[0].node == LoneHost && s.scheds[0].interval == 0.5 && s.scheds[0].state == st
  }

  lemma LoneStart()
    ensures var s := Init(LoneConfig, LonePlan, 0.0, 0.0, true);
      Lone(s, Fresh(1, 0.0)) && !s.scheds[0].inFlight && s.scheds[0].nextDue == 0.0 && s.now == 0.0
  {
    hide Inv;
    InitInv(LoneConfig, LonePlan, 0.0, 0.0, true);
  }

  lemma LonePages(s: State, st: HostState, kind: SendKind, later: real) returns (s1: State, tid: nat, s2: State)
    requires Lone(s, st) && !s.scheds[0].inFlight && s.scheds[0].nextDue <= later && s.now <= later
    requires Outgoing(LoneConfig, LoneHost, st, UNPINGABLE, later, later).send == Some(kind) && kind != Recovery
    ensures Next(s, later, Event.Tick, s1) && Next(s1, later, Event.CheckDone(tid, UNPINGABLE, later), s2)
    ensures Lone(s2, Outgoing(LoneConfig, LoneHost, st, UNPINGABLE, later, later).state) && s2.now == later
    ensures TaskAt(s2, tid) && s2.tasks[tid] == Task(0, Sending(kind)) && s2.scheds[0].nextDue == later + 0.5
  {
    hide Inv, Next, Outgoing, HasLivePath;
    RootIsLive(s.scheds, 0);
    s1, tid, s2 := ResultStartsPage(s, 0, UNPINGABLE, kind, later, later);
  }

  /** From a pending page of the lone host, the reload and what follows it. */
  lemma LoneReload(s: State, tid: nat, st: HostState, kind: SendKind) returns (states: seq<State>, evs: seq<Timed>)
    requires Lone(s, st) && TaskAt(s, tid) && s.tasks[tid] == Task(0, Sending(kind))
    requires PagesAgain(LoneConfig, LoneHost, st, kind, s.now) && st.maxDown == 1
    ensures IsRun(states, evs) && states[0] == s && |evs| == 4 && PagedTwice(states, evs, kind, 1, 3, 0, 1)
  {
    hide Inv, Next, HasLivePath, PagesAgain, Reloaded, IsRun, DownStarts;
    AgainMeans(LoneConfig, LoneHost, st, kind, s.now);
    assert LastWith(s.scheds, s.current, KeyOf(LoneHost)) == Some(0);
    LoneHeirLive(s);
    LoneDue(s.now);
    assert st.(maxDown := 1) == st;
    states, evs := ReloadDuringSendPagesTwice(s, tid, LonePlan, 0, s.now, s.now + 1.0, s.now + 2.0);
    RunLengths(states, evs);
    HeirNodes(s, states, evs);
  }

  lemma LoneHeirLive(s: State)
    requires |s.scheds| == 1
    ensures HasLivePath(Reloaded(s, LonePlan, s.now).scheds, 1)
  {
    hide HasLivePath, LastWith;
    ReloadedAt(s, LonePlan, s.now, 1);
    ReloadedShape(s, LonePlan, 0, s.now);
    RootIsLive(Reloaded(s, LonePlan, s.now).scheds, 1);
  }

  lemma LoneDue(now: real)
    ensures StaggerDue(LoneConfig, true, now, 0, 1) == now
  {
  }

  lemma HeirNodes(s: State, states: seq<State>, evs: seq<Timed>)
    requires IsRun(states, evs) && |states| == 5 && states[0] == s && |s.scheds| == 1 && s.scheds[0].node == LoneHost
    requires evs[0] == Timed(s.now, Event.Reload(LonePlan, s.now)) && evs[1].ev.SendDone? && evs[2].ev.Tick? && evs[3].ev.CheckDone?
    ensures |states[1].scheds| == |states[3].scheds| == 2 && states[1].scheds[0].node == LoneHost && states[3].scheds[1].node == LoneHost
    ensures states[0].cfg == s.cfg
  {
    hide Next, Reloaded;
    assert Next(states[0], evs[0].mono, evs[0].ev, states[1]);
    assert Next(states[1], evs[1].mono, evs[1].ev, states[2]);
    assert Next(states[2], evs[2].mono, evs[2].ev, states[3]);
    NextUnfolds(states[0], evs[0].mono, evs[0].ev, states[1]);
    assert s.(now := s.now) == s;
    ReloadedAt(s, LonePlan, s.now, 0);
    ReloadedAt(s, LonePlan, s.now, 1);
    ReloadedShape(s, LonePlan, 0, s.now);
    NextKeepsPlaces(states[1], evs[1].mono, evs[1].ev, states[2]);
    NextKeepsPlaces(states[2], evs[2].mono, evs[2].ev, states[3]);
  }

  /** Runs join where one ends as the other begins. */
  lemma JoinRuns(a: seq<State>, ea: seq<Timed>, b: seq<State>, eb: seq<Timed>)
    requires IsRun(a, ea) && IsRun(b, eb) && a[|a| - 1] == b[0]
    ensures IsRun(a + b[1..], ea + eb)
  {
    hide Next;
    var states, evs := a + b[1..], ea + eb;
    forall i | 0 <= i < |evs|
      ensures Next(states[i], evs[i].mono, evs[i].ev, states[i + 1])
    {
      if i < |ea| {
        assert Next(a[i], ea[i].mono, ea[i].ev, a[i + 1]);
      } else {
        var k := i - |ea|;
        assert Next(b[k], eb[k].mono, eb[k].ev, b[k + 1]);
        assert states[i] == b[k];
      }
    }
  }

  lemma PagedTwiceLater(a: seq<State>, ea: seq<Timed>, b: seq<State>, eb: seq<Timed>, kind: SendKind, i: nat, j: nat, x: nat, y: nat)
    requires IsRun(a, ea) && PagedTwice(b, eb, kind, i, j, x, y) && a[|a| - 1] == b[0] && a[0].cfg == b[0].cfg
    ensures PagedTwice(a + b[1..], ea + eb, kind, |ea| + i, |ea| + j, x, y)
  {
    hide Next, DownStarts, IsRun;
    RunLengths(a, ea);
    RunLengths(b, eb);
    JoinRuns(a, ea, b, eb);
    var states := a + b[1..];
    assert forall m :: |ea| <= m < |states| ==> states[m] == b[m - |ea|];
    assert forall m :: |ea| <= m < |ea| + |eb| ==> (ea + eb)[m] == eb[m - |ea|];
  }

  lemma RunLengths(a: seq<State>, ea: seq<Timed>)
    requires IsRun(a, ea)
    ensures |a| == |ea| + 1
  {
    hide Next;
  }

  lemma LoneStates()
    ensures var st := Outgoing(LoneConfig, LoneHost, Fresh(1, 0.0), UNPINGABLE, 0.0, 0.0);
      && st.send == Some(FirstDown) && PagesAgain(LoneConfig, LoneHost, st.state, FirstDown, 0.0) && st.state.maxDown == 1
      && var marked := Answered(st.state, FirstDown, true, 0.0);
         var again := Outgoing(LoneConfig, LoneHost, marked, UNPINGABLE, 200.0, 200.0);
         again.send == Some(Repage) && PagesAgain(LoneConfig, LoneHost, again.state, Repage, 200.0) && again.state.maxDown == 1
  {
  }

  /** The first page of an outage is delivered and, with a page interval of 100, starts again one second later: a run of
      a fresh scheduler with one host. */
  lemma FirstPageTwice() returns (states: seq<State>, evs: seq<Timed>)
    ensures |states| == 7 && states[0] == Init(LoneConfig, LonePlan, 0.0, 0.0, true)
    ensures PagedTwice(states, evs, FirstDown, 3, 5, 0, 1)
  {
    hide Inv, Next, Init, Outgoing, PagesAgain, HasLivePath, PagedTwice;
    var s0 := Init(LoneConfig, LonePlan, 0.0, 0.0, true);
    LoneStart();
    LoneStates();
    var s1, tid, s2 := LonePages(s0, Fresh(1, 0.0), FirstDown, 0.0);
    var a, ea := [s0, s1, s2], [Timed(0.0, Event.Tick), Timed(0.0, Event.CheckDone(tid, UNPINGABLE, 0.0))];
    assert IsRun(a, ea);
    var b, eb := LoneReload(s2, tid, s2.scheds[0].state, FirstDown);
    PagedTwiceLater(a, ea, b, eb, FirstDown, 1, 3, 0, 1);
    states, evs := a + b[1..], ea + eb;
    RunLengths(b, eb);
  }

  lemma LoneMarked(s: State, tid: nat, st: HostState)
    requires Lone(s, st) && TaskAt(s, tid) && s.tasks[tid] == Task(0, Sending(FirstDown))
    ensures var s' := SendBack(s.(now := s.now), tid, true);
      && Next(s, s.now, Event.SendDone(tid, true), s') && Lone(s', Answered(st, FirstDown, true, s.now)) && s'.now == s.now
      && !s'.scheds[0].inFlight && s'.scheds[0].nextDue == s.scheds[0].nextDue
  {
    hide Inv, Next;
    SendNext(s, s.now, tid);
    NextKeepsInv(s, s.now, Event.SendDone(tid, true), SendBack(s.(now := s.now), tid, true));
  }

  /** The same with a repeated page, 200 seconds into the outage. */
  lemma RepeatedPageTwice() returns (states: seq<State>, evs: seq<Timed>)
    ensures |states| == 10 && states[0] == Init(LoneConfig, LonePlan, 0.0, 0.0, true)
    ensures PagedTwice(states, evs, Repage, 6, 8, 0, 1)
  {
    hide Inv, Next, Init, Outgoing, PagesAgain, HasLivePath, PagedTwice, Answered, SendBack;
    var s0 := Init(LoneConfig, LonePlan, 0.0, 0.0, true);
    LoneStart();
    LoneStates();
    var s1, tid, s2 := LonePages(s0, Fresh(1, 0.0), FirstDown, 0.0);
    LoneMarked(s2, tid, s2.scheds[0].state);
    var s3 := SendBack(s2.(now := s2.now), tid, true);
    var s4, tid', s5 := LonePages(s3, s3.scheds[0].state, Repage, 200.0);
    var a := [s0, s1, s2, s3, s4, s5];
    var ea := [Timed(0.0, Event.Tick), Timed(0.0, Event.CheckDone(tid, UNPINGABLE, 0.0)), Timed(0.0, Event.SendDone(tid, true)),
               Timed(200.0, Event.Tick), Timed(200.0, Event.CheckDone(tid', UNPINGABLE, 200.0))];
    assert IsRun(a, ea);
    var b, eb := LoneReload(s5, tid', s5.scheds[0].state, Repage);
    PagedTwiceLater(a, ea, b, eb, Repage, 1, 3, 0, 1);
    states, evs := a + b[1..], ea + eb;
    RunLengths(b, eb);
  }
}
