/** From configured graphs to eligible hosts, in every state of every run: the gates that flattening builds have no
    cycle, and with all pings up every host is eligible. */
module Eligibility {
  import opened Model
  import opened StateMachine
  import opened Graphs
  import opened Gates
  import opened Scheduling
  import opened SchedulerInvariant
  import S = Scheduler
  import F = Flatten

  /** `p` is a flattening of some acyclic configuration. */
  ghost predicate DagPlan(p: Plan) {
    exists g: F.Graph :: F.Formed(g) && Acyclic(EdgesOf(g.children)) && S.PlanFor(g, p)
  }

  /** A rank that falls along every gate of the plan; only pings gate. */
  ghost predicate PlanRanked(p: Plan, rank: seq<nat>) {
    && PlanFormed(p) && |rank| == |p.nodes|
    && forall k, j: nat :: 0 <= k < |p.nodes| && j in p.gates[k] ==> j < |p.nodes| && rank[j] < rank[k] && IsPing(p.nodes[j].checkType)
  }

  ghost function RankOf(g: F.Graph, f: F.Flat): seq<nat> {
    seq(|f.order|, k requires 0 <= k < |f.order| => |Above(EdgesOf(g.children), |g.nodes|, f.order[k])|)
  }

  lemma FlatRanked(g: F.Graph, f: F.Flat)
    requires F.Formed(g) && F.IsFlat(g, f) && Acyclic(EdgesOf(g.children))
    requires forall k :: 0 <= k < |f.order| ==> f.order[k] < |g.nodes|
    ensures PlanRanked(S.PlanOf(g, f), RankOf(g, f))
  {
    hide F.Wanted;
    S.FlatBounds(g, f);
    var p, rank := S.PlanOf(g, f), RankOf(g, f);
    assert Within(EdgesOf(g.children), |g.nodes|);
    forall k: nat, j: nat | k < |p.nodes| && j in p.gates[k]
      ensures j < |p.nodes| && rank[j] < rank[k] && IsPing(p.nodes[j].checkType)
    {
      assert F.Gates(g, f.order, j, k);
      EdgeIffListed(g.children, f.order[j], f.order[k]);
      RankGrows(EdgesOf(g.children), |g.nodes|, f.order[j], f.order[k]);
    }
  }

  lemma DagPlanRanked(p: Plan) returns (rank: seq<nat>)
    requires DagPlan(p)
    ensures PlanRanked(p, rank)
  {
    hide F.IsFlat, PlanRanked, Acyclic, EdgesOf;
    var g: F.Graph :| F.Formed(g) && Acyclic(EdgesOf(g.children)) && S.PlanFor(g, p);
    var f :| F.IsFlat(g, f) && (forall k :: 0 <= k < |f.order| ==> f.order[k] < |g.nodes|) && p == S.PlanOf(g, f);
    FlatRanked(g, f);
    rank := RankOf(g, f);
  }

  // ----- every state of every run ------------------------------------------------------------

  /** All gates, retired ones included, follow one rank, and only pings gate. */
  ghost predicate GatesRanked(s: State, rank: seq<nat>) {
    && Ranked(s.scheds, rank)
    && forall x, p: nat :: 0 <= x < |s.scheds| && p in s.scheds[x].gate ==> p < |s.scheds| && IsPing(s.scheds[p].node.checkType)
  }

  lemma PlacesKeepRank(s: State, s': State, rank: seq<nat>)
    requires PlacesKept(s, s') && GatesRanked(s, rank)
    ensures GatesRanked(s', rank)
  {
    forall x | 0 <= x < |s.scheds|
      ensures s'.scheds[x].gate == s.scheds[x].gate && s'.scheds[x].node == s.scheds[x].node
    {
      assert SamePlace(s'.scheds[x], s.scheds[x]);
    }
  }

  lemma InitRanked(cfg: Config, p: Plan, mono: real, wall: real, stagger: bool, rank: seq<nat>)
    requires PlanRanked(p, rank)
    ensures GatesRanked(Init(cfg, p, mono, wall, stagger), rank)
  {
    hide EffectiveInterval, StaggerDue, Fresh, FreshHeap;
    var s := Init(cfg, p, mono, wall, stagger);
    forall x | 0 <= x < |s.scheds|
      ensures s.scheds[x].gate == p.gates[x] && s.scheds[x].node == p.nodes[x]
    {
      assert |s.scheds[x].gate| == |p.gates[x]|;
    }
  }

  lemma NewGate(s: State, p: Plan, wall: real, k: nat)
    requires PlanFormed(p) && k < |p.nodes|
    ensures var s', y := Reloaded(s, p, wall), |s.scheds| + k;
      && y < |s'.scheds| == |s.scheds| + |p.nodes| && s'.scheds[y].node == p.nodes[k] && |s'.scheds[y].gate| == |p.gates[k]|
      && forall i :: 0 <= i < |p.gates[k]| ==> s'.scheds[y].gate[i] == |s.scheds| + p.gates[k][i]
  {
    hide Reloaded, ReloadedSched, EffectiveInterval, StaggerDue;
    ReloadedAt(s, p, wall, |s.scheds| + k);
    ReloadedShape(s, p, k, wall);
  }

  lemma ReloadRanked(s: State, p: Plan, wall: real, rank: seq<nat>, more: seq<nat>)
    requires GatesRanked(s, rank) && PlanRanked(p, more)
    ensures GatesRanked(Reloaded(s, p, wall), rank + more)
  {
    hide Reloaded, ReloadedSched;
    var s', base, all := Reloaded(s, p, wall), |s.scheds|, rank + more;
    assert |s'.scheds| == base + |p.nodes| by {
      if p.nodes != [] || s.scheds != [] {
        ReloadedAt(s, p, wall, 0);
      } else {
        NothingReloaded(s, p, wall);
      }
    }
    forall x: nat | x < |s'.scheds|
      ensures forall j: nat :: j in s'.scheds[x].gate ==> j < |s'.scheds| && all[j] < all[x] && IsPing(s'.scheds[j].node.checkType)
    {
      ReloadedAt(s, p, wall, x);
      if x >= base {
        NewGate(s, p, wall, x - base);
      }
      forall j: nat | j in s'.scheds[x].gate
        ensures j < |s'.scheds| && all[j] < all[x] && IsPing(s'.scheds[j].node.checkType)
      {
        if x >= base {
          var i :| 0 <= i < |s'.scheds[x].gate| && s'.scheds[x].gate[i] == j;
          assert p.gates[x - base][i] in p.gates[x - base];
          NewGate(s, p, wall, j - base);
        } else {
          ReloadedAt(s, p, wall, j);
        }
      }
    }
    assert forall x, i :: 0 <= x < |s'.scheds| && 0 <= i < |s'.scheds[x].gate| ==> s'.scheds[x].gate[i] in s'.scheds[x].gate;
  }

  lemma NothingReloaded(s: State, p: Plan, wall: real)
    requires PlanFormed(p)
    ensures |Reloaded(s, p, wall).scheds| == |s.scheds| + |p.nodes|
  {
  }

  /** A run from a fresh scheduler, all of whose configurations are acyclic. */
  ghost predicate DagRun(cfg: Config, p: Plan, mono: real, wall: real, stagger: bool, states: seq<State>, evs: seq<Timed>) {
    && DagPlan(p) && PlanFormed(p) && IsRun(states, evs) && states[0] == Init(cfg, p, mono, wall, stagger)
    && forall i :: 0 <= i < |evs| && evs[i].ev.Reload? ==> DagPlan(evs[i].ev.plan)
  }

  /** In every state of such a run, through any reloads, the gates have a rank and hence no cycle. */
  lemma {:induction false} DagGatesRanked(cfg: Config, p: Plan, mono: real, wall: real, stagger: bool, states: seq<State>, evs: seq<Timed>, i: nat)
    returns (rank: seq<nat>)
    requires DagRun(cfg, p, mono, wall, stagger, states, evs) && i < |states|
    ensures GatesRanked(states[i], rank)
  {
    hide GatesRanked, DagPlan, Next, Init, PlanRanked;
    if i == 0 {
      rank := DagPlanRanked(p);
      InitRanked(cfg, p, mono, wall, stagger, rank);
    } else {
      var before := DagGatesRanked(cfg, p, mono, wall, stagger, states, evs, i - 1);
      var s, ev, s' := states[i - 1], evs[i - 1], states[i];
      assert Next(s, ev.mono, ev.ev, s');
      if ev.ev.Reload? {
        var more := DagPlanRanked(ev.ev.plan);
        rank := before + more;
        ReloadStepRanked(s, ev.mono, ev.ev, s', before, more);
      } else {
        NextKeepsPlaces(s, ev.mono, ev.ev, s');
        rank := before;
        PlacesKeepRank(s, s', rank);
      }
    }
  }

  lemma ReloadStepRanked(s: State, mono: real, ev: Event, s': State, rank: seq<nat>, more: seq<nat>)
    requires Next(s, mono, ev, s') && ev.Reload? && GatesRanked(s, rank) && PlanRanked(ev.plan, more)
    ensures GatesRanked(s', rank + more)
  {
    hide GatesRanked, PlanRanked, Reloaded;
    PlacesKeepRankNow(s, mono, rank);
    ReloadRanked(s.(now := mono), ev.plan, ev.wall, rank, more);
  }

  lemma PlacesKeepRankNow(s: State, mono: real, rank: seq<nat>)
    requires GatesRanked(s, rank)
    ensures GatesRanked(s.(now := mono), rank)
  {
  }

  /** `y` is a ping of either family. */
  predicate Pings(s: State, y: nat)
    requires y < |s.scheds|
  {
    s.scheds[y].node.checkType == Ping || s.scheds[y].node.checkType == Ping6
  }

  /** `y` has been checked, and its last result was up or degraded. */
  predicate Forwards(s: State, y: nat)
    requires y < |s.scheds|
  {
    s.scheds[y].checked && (s.scheds[y].state.lastcheck == 0 || s.scheds[y].state.lastcheck == 14)
  }

  /** A node all of whose ancestors are usable has a live path. */
  lemma {:induction false} UsableAncestors(s: State, rank: seq<nat>, x: nat)
    requires Inv(s) && GatesRanked(s, rank) && x < |s.scheds| && s.scheds[x].alive
    requires forall y: nat :: y < |s.scheds| && s.scheds[y].alive && IsPing(s.scheds[y].node.checkType) ==> Usable(s.scheds[y])
    ensures HasLivePath(s.scheds, x)
    decreases rank[x]
  {
    hide HasLivePath, QueueOk, TasksOk, Identified;
    if s.scheds[x].gate == [] {
      RootIsLive(s.scheds, x);
    } else {
      var p := s.scheds[x].gate[0];
      assert p in s.scheds[x].gate;
      UsableAncestors(s, rank, p);
      ExtendChain(s.scheds, x, p);
    }
  }

  ghost predicate NoneForwards(s: State, x: nat)
    requires x < |s.scheds|
  {
    forall p: nat :: p in s.scheds[x].gate && p < |s.scheds| ==> !Forwards(s, p)
  }

  /** A host without parents is always eligible; one behind parents is not while each of them is unchecked, or neither up nor
      degraded. */
  lemma MaskedByParents(s: State, x: nat)
    requires x < |s.scheds|
    ensures s.scheds[x].gate == [] ==> HasLivePath(s.scheds, x)
    ensures s.scheds[x].gate != [] && NoneForwards(s, x) ==> !HasLivePath(s.scheds, x)
  {
    if s.scheds[x].gate == [] {
      RootIsLive(s.scheds, x);
    } else if HasLivePath(s.scheds, x) {
      var p :| ChainFrom(s.scheds, p, x);
      assert p[0] == x && |p| > 1;
      assert p[1] in s.scheds[p[0]].gate && Usable(s.scheds[p[1]]) && Forwards(s, p[1]);
    }
  }

  /** In every state of such a run: with every current ping checked, and up or degraded, every current host is eligible. */
  lemma AllPingsUpAllEligible(cfg: Config, p: Plan, mono: real, wall: real, stagger: bool, states: seq<State>, evs: seq<Timed>, i: nat, x: nat)
    requires DagRun(cfg, p, mono, wall, stagger, states, evs) && i < |states| && x in states[i].current
    requires forall y: nat :: y in states[i].current && y < |states[i].scheds| && Pings(states[i], y) ==> Forwards(states[i], y)
    ensures HasLivePath(states[i].scheds, x)
  {
    hide HasLivePath, QueueOk, TasksOk, GatesOk, IntervalsOk, GatesRanked, DagPlan, Next, Init;
    InitInv(cfg, p, mono, wall, stagger);
    RunKeepsInv(states, evs, i);
    var rank := DagGatesRanked(cfg, p, mono, wall, stagger, states, evs, i);
    UsableAncestors(states[i], rank, x);
  }
}
