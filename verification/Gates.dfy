/** The scheduled nodes, and the search of their dependency gates for a live path to a root. */
module Gates {
  import opened Model
  import opened StateMachine
  import opened Graphs

  /** A monitored node with its runtime state. Other entries are named by their position. */
  datatype Sched = Sched(
    node: Node,
    state: HostState,
    gate: seq<nat>,
    interval: real,
    nextDue: real,
    inFlight: bool,
    checked: bool,
    alive: bool)

  ghost predicate GatesClosed(scheds: seq<Sched>) {
    forall x, i :: 0 <= x < |scheds| && 0 <= i < |scheds[x].gate| ==> scheds[x].gate[i] < |scheds|
  }

  /** A parent that forwards: it has a result, and that result is up or degraded. */
  predicate Usable(s: Sched) {
    s.checked && IsReachable(s.state.lastcheck)
  }

  /** A chain of gate edges from its first node up to a root, every node above the first usable. */
  ghost predicate LiveChain(scheds: seq<Sched>, p: seq<nat>) {
    && |p| > 0
    && (forall i :: 0 <= i < |p| ==> p[i] < |scheds|)
    && (forall i :: 0 <= i < |p| - 1 ==> p[i + 1] in scheds[p[i]].gate)
    && (forall i :: 1 <= i < |p| ==> Usable(scheds[p[i]]))
    && scheds[p[|p| - 1]].gate == []
  }

  ghost predicate ChainFrom(scheds: seq<Sched>, p: seq<nat>, x: nat) {
    LiveChain(scheds, p) && p[0] == x
  }

  ghost predicate HasLivePath(scheds: seq<Sched>, x: nat) {
    exists p :: ChainFrom(scheds, p, x)
  }

  lemma ExtendChain(scheds: seq<Sched>, x: nat, parent: nat)
    requires x < |scheds| && parent < |scheds| && parent in scheds[x].gate
    requires Usable(scheds[parent]) && HasLivePath(scheds, parent)
    ensures HasLivePath(scheds, x)
  {
    var p :| ChainFrom(scheds, p, parent);
    var q := [x] + p;
    assert forall i :: 0 <= i < |p| ==> q[i + 1] == p[i];
    forall i | 0 <= i < |q| - 1
      ensures q[i + 1] in scheds[q[i]].gate
    {
      if i > 0 {
        assert q[i] == p[i - 1] && q[i + 1] == p[i];
      }
    }
    assert forall i :: 1 <= i < |q| ==> q[i] == p[i - 1];
    assert ChainFrom(scheds, q, x);
  }

  /** A search that has closed `seen` above `x` without meeting a usable root rules a live path out. */
  lemma {:induction false} ClosedSearchFindsNone(scheds: seq<Sched>, seen: set<nat>, p: seq<nat>, k: nat)
    requires LiveChain(scheds, p) && scheds[p[0]].gate != []
    requires forall y :: y in scheds[p[0]].gate ==> y in seen
    requires forall y :: y in seen && y < |scheds| && Usable(scheds[y]) ==>
               scheds[y].gate != [] && forall z :: z in scheds[y].gate ==> z in seen
    requires k < |p|
    ensures scheds[p[k]].gate != [] && (k > 0 ==> p[k] in seen)
  {
    if k > 0 {
      ClosedSearchFindsNone(scheds, seen, p, k - 1);
    }
  }

  /** Nothing on the stack is live without `x` being live. */
  ghost predicate Sound(scheds: seq<Sched>, x: nat, stack: seq<nat>) {
    forall i :: 0 <= i < |stack| ==>
      stack[i] < |scheds| && (Usable(scheds[stack[i]]) && HasLivePath(scheds, stack[i]) ==> HasLivePath(scheds, x))
  }

  /** Everything above `x` and above the usable nodes in `seen` is in `seen` or still on the stack. */
  ghost predicate Covered(scheds: seq<Sched>, x: nat, seen: set<nat>, stack: seq<nat>)
    requires x < |scheds|
  {
    && (forall y :: y in scheds[x].gate ==> y in seen || y in stack)
    && (forall y :: y in seen && y < |scheds| && Usable(scheds[y]) ==>
          scheds[y].gate != [] && forall z :: z in scheds[y].gate ==> z in seen || z in stack)
  }

  lemma ParentsSound(scheds: seq<Sched>, x: nat, y: nat)
    requires GatesClosed(scheds) && x < |scheds| && y < |scheds|
    requires HasLivePath(scheds, y) ==> HasLivePath(scheds, x)
    ensures Sound(scheds, x, scheds[y].gate)
  {
    forall i | 0 <= i < |scheds[y].gate| && Usable(scheds[scheds[y].gate[i]]) && HasLivePath(scheds, scheds[y].gate[i])
      ensures HasLivePath(scheds, x)
    {
      ExtendChain(scheds, y, scheds[y].gate[i]);
    }
  }

  lemma RootIsLive(scheds: seq<Sched>, x: nat)
    requires x < |scheds| && scheds[x].gate == []
    ensures HasLivePath(scheds, x)
  {
    assert ChainFrom(scheds, [x], x);
  }

  lemma NothingLeft(scheds: seq<Sched>, x: nat, seen: set<nat>)
    requires x < |scheds| && scheds[x].gate != [] && Covered(scheds, x, seen, [])
    ensures !HasLivePath(scheds, x)
  {
    if HasLivePath(scheds, x) {
      var p :| ChainFrom(scheds, p, x);
      ClosedSearchFindsNone(scheds, seen, p, |p| - 1);
    }
  }

  ghost predicate Searching(scheds: seq<Sched>, x: nat, seen: set<nat>, stack: seq<nat>)
    requires x < |scheds|
  {
    seen <= Upto(|scheds|) && Sound(scheds, x, stack) && Covered(scheds, x, seen, stack)
  }

  lemma CoveredPop(scheds: seq<Sched>, x: nat, seen: set<nat>, rest: seq<nat>, p: nat)
    requires x < |scheds| && p < |scheds| && Covered(scheds, x, seen, rest + [p])
    ensures p in seen ==> Covered(scheds, x, seen, rest)
    ensures !Usable(scheds[p]) ==> Covered(scheds, x, seen + {p}, rest)
    ensures scheds[p].gate != [] ==> Covered(scheds, x, seen + {p}, rest + scheds[p].gate)
  {
    assert forall z :: z in rest + [p] ==> z in rest || z == p;
  }

  /** Taking the top node off: it may be done already, useless, or lead further up. */
  lemma PopStep(scheds: seq<Sched>, x: nat, seen: set<nat>, stack: seq<nat>)
    requires GatesClosed(scheds) && x < |scheds| && stack != [] && Searching(scheds, x, seen, stack)
    ensures var p, rest := stack[|stack| - 1], stack[..|stack| - 1];
            && p < |scheds|
            && (p in seen ==> Searching(scheds, x, seen, rest))
            && (p !in seen ==> |Upto(|scheds|) - (seen + {p})| < |Upto(|scheds|) - seen|)
            && (!Usable(scheds[p]) ==> Searching(scheds, x, seen + {p}, rest))
            && (Usable(scheds[p]) && scheds[p].gate == [] ==> HasLivePath(scheds, x))
            && (Usable(scheds[p]) && scheds[p].gate != [] ==> Searching(scheds, x, seen + {p}, rest + scheds[p].gate))
  {
    hide *;
    var p, rest := stack[|stack| - 1], stack[..|stack| - 1];
    assert stack == rest + [p];
    SearchingPop(scheds, x, seen, rest, p);
    if p !in seen {
      SubsetSmaller(Upto(|scheds|) - (seen + {p}), Upto(|scheds|) - seen, p);
    }
    if Usable(scheds[p]) {
      if scheds[p].gate == [] {
        RootIsLive(scheds, p);
      } else {
        SearchingPush(scheds, x, seen, rest, p);
      }
    }
  }

  lemma SearchingPop(scheds: seq<Sched>, x: nat, seen: set<nat>, rest: seq<nat>, p: nat)
    requires x < |scheds| && Searching(scheds, x, seen, rest + [p])
    ensures p < |scheds| && (Usable(scheds[p]) && HasLivePath(scheds, p) ==> HasLivePath(scheds, x))
    ensures p in seen ==> Searching(scheds, x, seen, rest)
    ensures !Usable(scheds[p]) ==> Searching(scheds, x, seen + {p}, rest)
  {
    hide HasLivePath;
    assert (rest + [p])[|rest|] == p;
    assert forall i :: 0 <= i < |rest| ==> rest[i] == (rest + [p])[i];
    CoveredPop(scheds, x, seen, rest, p);
  }

  lemma SearchingPush(scheds: seq<Sched>, x: nat, seen: set<nat>, rest: seq<nat>, p: nat)
    requires GatesClosed(scheds) && x < |scheds| && p < |scheds| && Searching(scheds, x, seen, rest + [p])
    requires Usable(scheds[p]) && scheds[p].gate != []
    ensures Searching(scheds, x, seen + {p}, rest + scheds[p].gate)
  {
    hide HasLivePath;
    assert (rest + [p])[|rest|] == p;
    assert forall i :: 0 <= i < |rest| ==> rest[i] == (rest + [p])[i];
    CoveredPop(scheds, x, seen, rest, p);
    ParentsSound(scheds, x, p);
  }

  /** Any-path reachability: search up the gate edges with an explicit stack and a seen-set. */
  method Reachable(scheds: seq<Sched>, x: nat) returns (r: bool)
    requires GatesClosed(scheds) && x < |scheds|
    ensures r <==> HasLivePath(scheds, x)
  {
    if scheds[x].gate == [] {
      RootIsLive(scheds, x);
      return true;
    }
    ParentsSound(scheds, x, x);
    var seen: set<nat> := {};
    var stack: seq<nat> := scheds[x].gate;
    while stack != []
      invariant Searching(scheds, x, seen, stack)
      decreases |Upto(|scheds|) - seen|, |stack|
    {
      hide *;
      PopStep(scheds, x, seen, stack);
      var p := stack[|stack| - 1];
      stack := stack[..|stack| - 1];
      if p in seen {
        continue;
      }
      seen := seen + {p};
      if !(scheds[p].checked && IsReachable(scheds[p].state.lastcheck)) {
        UsableMeans(scheds[p]);
        continue;
      }
      UsableMeans(scheds[p]);
      if scheds[p].gate == [] {
        return true;
      }
      stack := stack + scheds[p].gate;
    }
    NothingLeft(scheds, x, seen);
    return false;
  }

  lemma UsableMeans(s: Sched)
    ensures Usable(s) <==> s.checked && IsReachable(s.state.lastcheck)
  {
  }

  // ----- acyclic gates -----------------------------------------------------------------------

  /** A rank that falls along every gate edge: the gates form no cycle. */
  ghost predicate Ranked(scheds: seq<Sched>, rank: seq<nat>) {
    && GatesClosed(scheds)
    && |rank| == |scheds|
    && forall x, p :: 0 <= x < |scheds| && p in scheds[x].gate ==> rank[p] < rank[x]
  }

  /** The recursive rule: a root, or some parent that is usable and itself passes. */
  ghost predicate AnyParent(scheds: seq<Sched>, rank: seq<nat>, x: nat)
    requires Ranked(scheds, rank) && x < |scheds|
    decreases rank[x]
  {
    scheds[x].gate == [] || exists p :: p in scheds[x].gate && Usable(scheds[p]) && AnyParent(scheds, rank, p)
  }

  lemma LiveParent(scheds: seq<Sched>, x: nat) returns (p: nat)
    requires x < |scheds| && scheds[x].gate != [] && HasLivePath(scheds, x)
    ensures p in scheds[x].gate && p < |scheds| && Usable(scheds[p]) && HasLivePath(scheds, p)
  {
    var c :| ChainFrom(scheds, c, x);
    p := c[1];
    var q := c[1..];
    assert forall i :: 0 <= i < |q| ==> q[i] == c[i + 1];
    assert ChainFrom(scheds, q, p);
  }

  lemma {:induction false} SearchIsAnyParentRule(scheds: seq<Sched>, rank: seq<nat>, x: nat)
    requires Ranked(scheds, rank) && x < |scheds|
    ensures AnyParent(scheds, rank, x) <==> HasLivePath(scheds, x)
    decreases rank[x]
  {
    hide HasLivePath;
    forall p | p in scheds[x].gate
      ensures AnyParent(scheds, rank, p) <==> HasLivePath(scheds, p)
    {
      SearchIsAnyParentRule(scheds, rank, p);
    }
    if scheds[x].gate == [] {
      RootIsLive(scheds, x);
    } else {
      if AnyParent(scheds, rank, x) {
        var p :| p in scheds[x].gate && Usable(scheds[p]) && AnyParent(scheds, rank, p);
        ExtendChain(scheds, x, p);
      }
      if HasLivePath(scheds, x) {
        var _ := LiveParent(scheds, x);
      }
    }
  }

  /** With every gating ping up, nothing is masked. */
  lemma {:induction false} AllUpAllReachable(scheds: seq<Sched>, rank: seq<nat>, x: nat)
    requires Ranked(scheds, rank) && x < |scheds|
    requires forall y, p :: 0 <= y < |scheds| && p in scheds[y].gate ==> Usable(scheds[p])
    ensures HasLivePath(scheds, x)
    decreases rank[x]
  {
    if scheds[x].gate == [] {
      RootIsLive(scheds, x);
    } else {
      var p := scheds[x].gate[0];
      AllUpAllReachable(scheds, rank, p);
      ExtendChain(scheds, x, p);
    }
  }
}
