/** Building the scheduled set: which configured nodes are monitored, and behind which pings. */
module Flatten {
  import opened Model
  import opened Graphs
  import opened Lists

  /** A configured graph. Nodes are named by position; shared children make it a DAG. */
  datatype Graph = Graph(nodes: seq<Node>, children: seq<seq<nat>>, roots: seq<nat>)

  ghost predicate Formed(g: Graph) {
    && |g.children| == |g.nodes|
    && (forall x, i :: 0 <= x < |g.nodes| && 0 <= i < |g.children[x]| ==> g.children[x][i] < |g.nodes|)
    && (forall i :: 0 <= i < |g.roots| ==> g.roots[i] < |g.nodes|)
  }

  predicate PingAt(g: Graph, x: nat)
    requires x < |g.nodes|
  {
    IsPing(g.nodes[x].checkType)
  }

  /** A walk down from a root that passes through pings only. */
  ghost predicate PingPath(g: Graph, p: seq<nat>)
    requires Formed(g)
  {
    && |p| > 0
    && (forall i :: 0 <= i < |p| ==> p[i] < |g.nodes|)
    && p[0] in g.roots
    && (forall i :: 0 <= i < |p| - 1 ==> PingAt(g, p[i]) && p[i + 1] in g.children[p[i]])
  }

  ghost predicate EndsAt(g: Graph, p: seq<nat>, x: nat)
    requires Formed(g)
  {
    PingPath(g, p) && p[|p| - 1] == x
  }

  /** `x` has at least one path from a root whose ancestors are all pings. */
  ghost predicate Wanted(g: Graph, x: nat)
    requires Formed(g)
  {
    exists p :: EndsAt(g, p, x)
  }

  lemma RootWanted(g: Graph, x: nat)
    requires Formed(g) && x in g.roots
    ensures Wanted(g, x)
  {
    assert EndsAt(g, [x], x);
  }

  lemma ChildWanted(g: Graph, x: nat, c: nat)
    requires Formed(g) && x < |g.nodes| && PingAt(g, x) && c in g.children[x] && Wanted(g, x)
    ensures Wanted(g, c)
  {
    var p :| EndsAt(g, p, x);
    var q := p + [c];
    assert forall i :: 0 <= i < |p| ==> q[i] == p[i];
    assert EndsAt(g, q, c);
  }

  /** A configured node is wanted iff it is a root or stands below a wanted ping of either family. */
  lemma WantedMeans(g: Graph, c: nat)
    requires Formed(g)
    ensures Wanted(g, c) <==> c in g.roots || exists x: nat :: Above(g, x, c) && Wanted(g, x)
  {
    if c in g.roots {
      RootWanted(g, c);
    }
    if x: nat :| Above(g, x, c) && Wanted(g, x) {
      ChildWanted(g, x, c);
    }
    if Wanted(g, c) && c !in g.roots {
      var p :| EndsAt(g, p, c);
      var q := p[..|p| - 1];
      assert |p| > 1 && forall i :: 0 <= i < |q| ==> q[i] == p[i];
      assert PingAt(g, p[|p| - 2]) && p[|p| - 2 + 1] in g.children[p[|p| - 2]];
      assert EndsAt(g, q, p[|p| - 2]);
      assert Above(g, p[|p| - 2], c);
    }
  }

  /** `x` is a ping, of either family, with child `c`. */
  predicate Above(g: Graph, x: nat, c: nat)
    requires Formed(g)
  {
    x < |g.nodes| && c in g.children[x] && (g.nodes[x].checkType == Ping || g.nodes[x].checkType == Ping6)
  }

  /** The scheduled nodes in order, each one's gate as positions in that order, and the nodes warned about. */
  datatype Flat = Flat(order: seq<nat>, gates: seq<seq<nat>>, dropped: seq<nat>)

  /** `x` is a child of a scheduled node that is not a ping. */
  ghost predicate BehindNonPing(g: Graph, order: seq<nat>, x: nat)
    requires Formed(g)
  {
    exists k :: 0 <= k < |order| && order[k] < |g.nodes| && !PingAt(g, order[k]) && x in g.children[order[k]]
  }

  /** `j` is the position of a scheduled ping whose child is at position `k`. */
  ghost predicate Gates(g: Graph, order: seq<nat>, j: nat, k: nat)
    requires Formed(g)
  {
    && j < |order| && k < |order| && order[j] < |g.nodes|
    && PingAt(g, order[j]) && order[k] in g.children[order[j]]
  }

  /** Exactly the wanted nodes, each once; gates exactly the scheduled ping parents; warnings exactly
      the unscheduled children of scheduled non-pings. */
  ghost predicate IsFlat(g: Graph, f: Flat)
    requires Formed(g)
  {
    && Distinct(f.order)
    && (forall x: nat :: x in f.order <==> Wanted(g, x))
    && |f.gates| == |f.order|
    && (forall k :: 0 <= k < |f.gates| ==> Distinct(f.gates[k]))
    && (forall j: nat, k: nat :: k < |f.gates| ==> (j in f.gates[k] <==> Gates(g, f.order, j, k)))
    && Distinct(f.dropped)
    && (forall x: nat :: x in f.dropped <==> x !in f.order && BehindNonPing(g, f.order, x))
  }

  // ----- the walk ----------------------------------------------------------------------------

  datatype Item = Item(node: nat, parent: Option<nat>, reachable: bool)

  /** A list of nodes as stack entries, last child deepest, so that they pop in declared order. */
  function Items(cs: seq<nat>, parent: Option<nat>, reachable: bool): (items: seq<Item>)
    ensures forall it :: it in items <==> it.parent == parent && it.reachable == reachable && it.node in cs
  {
    if cs == [] then [] else Items(cs[1..], parent, reachable) + [Item(cs[0], parent, reachable)]
  }

  ghost predicate Positions(order: seq<nat>, pos: map<nat, nat>) {
    && (forall k :: 0 <= k < |order| ==> order[k] in pos && pos[order[k]] == k)
    && (forall x :: x in pos ==> pos[x] < |order| && order[pos[x]] == x)
  }

  ghost predicate ItemSound(g: Graph, order: seq<nat>, it: Item)
    requires Formed(g)
  {
    && it.node < |g.nodes|
    && if it.reachable then
         && Wanted(g, it.node)
         && (it.parent.Some? ==>
               && it.parent.value < |order| && order[it.parent.value] < |g.nodes|
               && PingAt(g, order[it.parent.value]) && it.node in g.children[order[it.parent.value]])
       else BehindNonPing(g, order, it.node)
  }

  ghost predicate Scheduled(g: Graph, order: seq<nat>)
    requires Formed(g)
  {
    forall k :: 0 <= k < |order| ==> order[k] < |g.nodes| && Wanted(g, order[k])
  }

  ghost predicate GatesSound(g: Graph, order: seq<nat>, gates: seq<seq<nat>>)
    requires Formed(g)
  {
    && |gates| == |order|
    && (forall k :: 0 <= k < |gates| ==> Distinct(gates[k]))
    && (forall k, j: nat :: 0 <= k < |gates| && j in gates[k] ==> Gates(g, order, j, k))
  }

  ghost predicate RootsCovered(g: Graph, order: seq<nat>, stack: seq<Item>) {
    forall r :: r in g.roots ==> r in order || Item(r, None, true) in stack
  }

  /** The edge from the scheduled position `k` to `c` has been followed or waits on the stack. */
  ghost predicate Followed(g: Graph, order: seq<nat>, gates: seq<seq<nat>>, pos: map<nat, nat>, behind: seq<nat>,
                           stack: seq<Item>, k: nat, c: nat)
    requires Formed(g) && Positions(order, pos) && |gates| == |order| && k < |order| && order[k] < |g.nodes|
  {
    if PingAt(g, order[k]) then Item(c, Some(k), true) in stack || (c in pos && k in gates[pos[c]])
    else Item(c, None, false) in stack || c in behind
  }

  ghost predicate EdgesCovered(g: Graph, order: seq<nat>, gates: seq<seq<nat>>, pos: map<nat, nat>,
                               behind: seq<nat>, stack: seq<Item>)
    requires Formed(g) && Positions(order, pos) && |gates| == |order| && Scheduled(g, order)
  {
    forall k: nat, c: nat :: k < |order| && c in g.children[order[k]] ==>
      Followed(g, order, gates, pos, behind, stack, k, c)
  }

  ghost predicate BehindSound(g: Graph, order: seq<nat>, behind: seq<nat>)
    requires Formed(g)
  {
    Distinct(behind) && forall x :: x in behind ==> BehindNonPing(g, order, x)
  }

  ghost predicate Walking(g: Graph, order: seq<nat>, gates: seq<seq<nat>>, pos: map<nat, nat>,
                          behind: seq<nat>, stack: seq<Item>)
    requires Formed(g)
  {
    && Positions(order, pos)
    && Scheduled(g, order)
    && GatesSound(g, order, gates)
    && (forall i :: 0 <= i < |stack| ==> ItemSound(g, order, stack[i]))
    && RootsCovered(g, order, stack)
    && EdgesCovered(g, order, gates, pos, behind, stack)
    && BehindSound(g, order, behind)
  }

  lemma InSplit<T>(s: seq<T>, last: T)
    ensures forall x :: x in s + [last] <==> x in s || x == last
    ensures forall i :: 0 <= i < |s| ==> s[i] == (s + [last])[i]
    ensures (s + [last])[|s|] == last
  {
  }

  lemma StartWalk(g: Graph)
    requires Formed(g)
    ensures Walking(g, [], [], map[], [], Items(g.roots, None, true))
  {
    var items := Items(g.roots, None, true);
    forall i | 0 <= i < |items|
      ensures ItemSound(g, [], items[i])
    {
      assert items[i] in items;
      RootWanted(g, items[i].node);
    }
    forall r | r in g.roots
      ensures Item(r, None, true) in items
    {
    }
  }

  /** An entry reached behind a non-ping is only remembered. */
  lemma RememberStep(g: Graph, order: seq<nat>, gates: seq<seq<nat>>, pos: map<nat, nat>, behind: seq<nat>,
                     rest: seq<Item>, it: Item)
    requires Formed(g) && Walking(g, order, gates, pos, behind, rest + [it]) && !it.reachable
    ensures Walking(g, order, gates, pos, if it.node in behind then behind else behind + [it.node], rest)
  {
    hide Wanted, BehindNonPing;
    InSplit(rest, it);
    var behind' := if it.node in behind then behind else behind + [it.node];
    assert forall x :: x in behind' <==> x in behind || x == it.node;
    assert ItemSound(g, order, (rest + [it])[|rest|]);
    forall k: nat, c: nat | k < |order| && c in g.children[order[k]]
      ensures Followed(g, order, gates, pos, behind', rest, k, c)
    {
      assert Followed(g, order, gates, pos, behind, rest + [it], k, c);
      assert PingAt(g, order[k]) ==> Item(c, Some(k), true) != it;
    }
    assert Distinct(behind');
    assert forall i :: 0 <= i < |rest| ==> rest[i] == (rest + [it])[i];
  }

  /** `gates` with `parent`, if any, among the gate of position `k`. */
  function WithGate(gates: seq<seq<nat>>, k: nat, parent: Option<nat>): seq<seq<nat>>
    requires k < |gates|
  {
    if parent.None? || parent.value in gates[k] then gates else gates[k := gates[k] + [parent.value]]
  }

  lemma WithGateMembers(gates: seq<seq<nat>>, k: nat, parent: Option<nat>)
    requires k < |gates|
    ensures |WithGate(gates, k, parent)| == |gates|
    ensures forall i :: 0 <= i < |gates| && Distinct(gates[i]) ==> Distinct(WithGate(gates, k, parent)[i])
    ensures forall i, j: nat :: 0 <= i < |gates| ==>
              (j in WithGate(gates, k, parent)[i] <==> j in gates[i] || (i == k && parent == Some(j)))
  {
  }

  /** An entry for a node that is already scheduled adds its parent to that node's gate. */
  lemma GateStep(g: Graph, order: seq<nat>, gates: seq<seq<nat>>, pos: map<nat, nat>, behind: seq<nat>,
                 rest: seq<Item>, it: Item)
    requires Formed(g) && Walking(g, order, gates, pos, behind, rest + [it]) && it.reachable && it.node in pos
    ensures pos[it.node] < |gates|
    ensures Walking(g, order, WithGate(gates, pos[it.node], it.parent), pos, behind, rest)
  {
    hide Wanted, BehindNonPing, Distinct;
    InSplit(rest, it);
    var at := pos[it.node];
    var gates' := WithGate(gates, at, it.parent);
    WithGateMembers(gates, at, it.parent);
    assert ItemSound(g, order, (rest + [it])[|rest|]);
    forall k: nat, c: nat | k < |order| && c in g.children[order[k]]
      ensures Followed(g, order, gates', pos, behind, rest, k, c)
    {
      assert Followed(g, order, gates, pos, behind, rest + [it], k, c);
    }
    assert forall i :: 0 <= i < |rest| ==> rest[i] == (rest + [it])[i];
    forall k, j: nat | 0 <= k < |gates'| && j in gates'[k]
      ensures Gates(g, order, j, k)
    {
      assert j in gates[k] || (k == at && it.parent == Some(j));
    }
  }

  /** A node met for the first time is scheduled, and its children go on the stack. */
  lemma FreshStep(g: Graph, order: seq<nat>, gates: seq<seq<nat>>, pos: map<nat, nat>, behind: seq<nat>,
                  rest: seq<Item>, it: Item)
    requires Formed(g) && Walking(g, order, gates, pos, behind, rest + [it]) && it.reachable && it.node !in pos
    ensures it.node < |g.nodes|
    ensures var ping := PingAt(g, it.node);
            var kids := Items(g.children[it.node], if ping then Some(|order|) else None, ping);
            Walking(g, order + [it.node], gates + [[]], pos[it.node := |order|], behind, (rest + kids) + [it])
  {
    hide Wanted, BehindNonPing, Followed, BehindSound;
    InSplit(rest, it);
    assert ItemSound(g, order, (rest + [it])[|rest|]);
    var x := it.node;
    FreshItems(g, order, rest, it);
    FreshEdges(g, order, gates, pos, behind, rest, it);
    GatesGrow(g, order, gates, x);
    BehindGrows(g, order, behind, x);
  }

  /** The stack after scheduling `it.node`, with `it` itself back on top. */
  function Expanded(g: Graph, n: nat, rest: seq<Item>, it: Item): seq<Item>
    requires it.node < |g.nodes| == |g.children|
  {
    var ping := PingAt(g, it.node);
    (rest + Items(g.children[it.node], if ping then Some(n) else None, ping)) + [it]
  }

  lemma FreshItems(g: Graph, order: seq<nat>, rest: seq<Item>, it: Item)
    requires Formed(g) && it.reachable && it.node < |g.nodes|
    requires forall i :: 0 <= i < |rest + [it]| ==> ItemSound(g, order, (rest + [it])[i])
    ensures var stack := Expanded(g, |order|, rest, it);
            forall i :: 0 <= i < |stack| ==> ItemSound(g, order + [it.node], stack[i])
  {
    hide Wanted, BehindNonPing, ItemSound;
    var ping := PingAt(g, it.node);
    var kids := Items(g.children[it.node], if ping then Some(|order|) else None, ping);
    var stack := Expanded(g, |order|, rest, it);
    assert (rest + [it])[|rest|] == it;
    ItemMeans(g, order, it);
    forall i | 0 <= i < |stack|
      ensures ItemSound(g, order + [it.node], stack[i])
    {
      if i < |rest| {
        assert stack[i] == (rest + [it])[i];
        LongerOrder(g, order, it.node, stack[i]);
      } else if i < |rest| + |kids| {
        assert stack[i] == kids[i - |rest|] && kids[i - |rest|] in kids;
        KidSound(g, order, it.node, stack[i]);
      } else {
        LongerOrder(g, order, it.node, it);
      }
    }
  }

  lemma ItemMeans(g: Graph, order: seq<nat>, it: Item)
    requires Formed(g) && ItemSound(g, order, it) && it.reachable
    ensures Wanted(g, it.node)
  {
  }

  lemma FreshEdges(g: Graph, order: seq<nat>, gates: seq<seq<nat>>, pos: map<nat, nat>, behind: seq<nat>,
                   rest: seq<Item>, it: Item)
    requires Formed(g) && Positions(order, pos) && |gates| == |order| && Scheduled(g, order)
    requires it.node !in pos && it.node < |g.nodes| && Wanted(g, it.node)
    requires EdgesCovered(g, order, gates, pos, behind, rest + [it])
    ensures EdgesCovered(g, order + [it.node], gates + [[]], pos[it.node := |order|], behind,
                         Expanded(g, |order|, rest, it))
  {
    hide Wanted;
    var x, n := it.node, |order|;
    var ping := PingAt(g, x);
    var kids := Items(g.children[x], if ping then Some(n) else None, ping);
    var order', gates', pos', stack' := order + [x], gates + [[]], pos[x := n], Expanded(g, n, rest, it);
    assert forall k :: 0 <= k < n ==> order'[k] == order[k];
    assert forall e :: e in stack' <==> e in rest + [it] || e in kids;
    forall k: nat, c: nat | k < |order'| && c in g.children[order'[k]]
      ensures Followed(g, order', gates', pos', behind, stack', k, c)
    {
      if k < n {
        assert Followed(g, order, gates, pos, behind, rest + [it], k, c);
      } else {
        assert Item(c, if ping then Some(n) else None, ping) in kids;
      }
    }
  }

  lemma LongerOrder(g: Graph, order: seq<nat>, x: nat, it: Item)
    requires Formed(g) && ItemSound(g, order, it)
    ensures ItemSound(g, order + [x], it)
  {
    if !it.reachable {
      var k :| 0 <= k < |order| && order[k] < |g.nodes| && !PingAt(g, order[k]) && it.node in g.children[order[k]];
      assert (order + [x])[k] == order[k];
    }
  }

  lemma KidSound(g: Graph, order: seq<nat>, x: nat, it: Item)
    requires Formed(g) && x < |g.nodes| && Wanted(g, x) && it.node in g.children[x]
    requires it.parent == (if PingAt(g, x) then Some(|order|) else None) && it.reachable == PingAt(g, x)
    ensures ItemSound(g, order + [x], it)
  {
    assert (order + [x])[|order|] == x;
    if PingAt(g, x) {
      ChildWanted(g, x, it.node);
    }
  }

  lemma GatesGrow(g: Graph, order: seq<nat>, gates: seq<seq<nat>>, x: nat)
    requires Formed(g) && GatesSound(g, order, gates)
    ensures GatesSound(g, order + [x], gates + [[]])
  {
    forall k, j: nat | 0 <= k < |gates| + 1 && j in (gates + [[]])[k]
      ensures Gates(g, order + [x], j, k)
    {
      assert Gates(g, order, j, k);
    }
  }

  lemma BehindGrows(g: Graph, order: seq<nat>, behind: seq<nat>, x: nat)
    requires Formed(g) && BehindSound(g, order, behind)
    ensures BehindSound(g, order + [x], behind)
  {
    forall y | y in behind
      ensures BehindNonPing(g, order + [x], y)
    {
      var k :| 0 <= k < |order| && order[k] < |g.nodes| && !PingAt(g, order[k]) && y in g.children[order[k]];
      assert (order + [x])[k] == order[k];
    }
  }

  /** Once the stack is empty every wanted node has been met. */
  lemma {:induction false} AllMet(g: Graph, order: seq<nat>, gates: seq<seq<nat>>, pos: map<nat, nat>,
                                  behind: seq<nat>, p: seq<nat>, i: nat)
    requires Formed(g) && Walking(g, order, gates, pos, behind, []) && PingPath(g, p) && i < |p|
    ensures p[i] in pos
  {
    if i > 0 {
      AllMet(g, order, gates, pos, behind, p, i - 1);
      assert Followed(g, order, gates, pos, behind, [], pos[p[i - 1]], p[i]);
    }
  }

  /** The nodes remembered behind non-pings that no ping path reached, in the order they were met. */
  function Unmet(behind: seq<nat>, pos: map<nat, nat>): (dropped: seq<nat>)
    ensures forall x :: x in dropped <==> x in behind && x !in pos
  {
    if behind == [] then []
    else (if behind[0] in pos then [] else [behind[0]]) + Unmet(behind[1..], pos)
  }

  lemma {:induction false} UnmetDistinct(behind: seq<nat>, pos: map<nat, nat>)
    requires Distinct(behind)
    ensures Distinct(Unmet(behind, pos))
  {
    if behind != [] {
      UnmetDistinct(behind[1..], pos);
      assert behind[0] !in behind[1..];
    }
  }

  lemma WalkDone(g: Graph, order: seq<nat>, gates: seq<seq<nat>>, pos: map<nat, nat>, behind: seq<nat>)
    requires Formed(g) && Walking(g, order, gates, pos, behind, [])
    ensures IsFlat(g, Flat(order, gates, Unmet(behind, pos)))
  {
    var dropped := Unmet(behind, pos);
    UnmetDistinct(behind, pos);
    forall x: nat
      ensures x in order <==> Wanted(g, x)
    {
      if Wanted(g, x) {
        var p :| EndsAt(g, p, x);
        AllMet(g, order, gates, pos, behind, p, |p| - 1);
      }
    }
    forall j: nat, k: nat | k < |gates| && Gates(g, order, j, k)
      ensures j in gates[k]
    {
      assert Followed(g, order, gates, pos, behind, [], j, order[k]);
    }
    forall x: nat | x !in order && BehindNonPing(g, order, x)
      ensures x in behind
    {
      var k: nat :| 0 <= k < |order| && order[k] < |g.nodes| && !PingAt(g, order[k]) && x in g.children[order[k]];
      assert Followed(g, order, gates, pos, behind, [], k, x);
    }
  }

  lemma FreshProgress(n: nat, pos: map<nat, nat>, x: nat, k: nat)
    requires x < n && x !in pos
    ensures |Upto(n) - pos[x := k].Keys| < |Upto(n) - pos.Keys|
  {
    SubsetSmaller(Upto(n) - pos[x := k].Keys, Upto(n) - pos.Keys, x);
  }

  /** Pre-order walk with an explicit stack; a shared node is scheduled once and gathers every parent. */
  method FlattenGraph(g: Graph) returns (f: Flat)
    requires Formed(g)
    ensures IsFlat(g, f)
  {
    hide *;
    var order: seq<nat>, gates: seq<seq<nat>> := [], [];
    var pos: map<nat, nat>, behind: seq<nat> := map[], [];
    var stack := Items(g.roots, None, true);
    StartWalk(g);
    while stack != []
      invariant Walking(g, order, gates, pos, behind, stack)
      decreases |Upto(|g.nodes|) - pos.Keys|, |stack|
    {
      var it := stack[|stack| - 1];
      assert stack == stack[..|stack| - 1] + [it];
      stack := stack[..|stack| - 1];
      if !it.reachable {
        RememberStep(g, order, gates, pos, behind, stack, it);
        behind := if it.node in behind then behind else behind + [it.node];
        continue;
      }
      if it.node !in pos {
        FreshStep(g, order, gates, pos, behind, stack, it);
        FreshProgress(|g.nodes|, pos, it.node, |order|);
        FormedAt(g, it.node);
        var ping := PingAt(g, it.node);
        stack := stack + Items(g.children[it.node], if ping then Some(|order|) else None, ping);
        order, gates, pos := order + [it.node], gates + [[]], pos[it.node := |order|];
      }
      GateStep(g, order, gates, pos, behind, stack, it);
      gates := WithGate(gates, pos[it.node], it.parent);
    }
    WalkDone(g, order, gates, pos, behind);
    f := Flat(order, gates, Unmet(behind, pos));
  }

  lemma FormedAt(g: Graph, x: nat)
    requires Formed(g) && x < |g.nodes|
    ensures |g.children| == |g.nodes|
  {
  }
}
