/** The forest that a converted file loads into is the one that was converted, iff every node is clean. */
module ForestTrip {
  import opened Model
  import opened ModernBuild
  import opened Convert
  import opened Reparse
  import opened Graphs
  import opened Forest
  import opened RoundTrip
  import opened Regrow
  import opened Lists

  // ----- the survivors keep their order ------------------------------------------------------

  /** The positions, from `at` on, of the written objects that survive. */
  function KeptAt(lib: Lib, seed: int, objs: seq<Convert.Named>, at: nat): seq<nat> {
    if objs == [] then []
    else (if NodeBack(lib, seed, objs[0]).None? then [] else [at]) + KeptAt(lib, seed, objs[1..], at + 1)
  }

  /** Object `i` of `kept` is object `idx[i] - at` of `objs`, as far as names and dependencies go. */
  ghost predicate Tracks(kept: seq<Object>, objs: seq<Convert.Named>, idx: seq<nat>, at: nat) {
    && |idx| == |kept| && Ascending(idx)
    && forall i :: 0 <= i < |idx| ==> at <= idx[i] < at + |objs| && TracksOne(kept[i], objs[idx[i] - at])
  }

  ghost predicate TracksOne(kept: Object, o: Convert.Named) {
    kept.name == o.name && kept.deps == if o.parent.Some? then [o.parent.value] else []
  }

  lemma TracksCons(kept: seq<Object>, objs: seq<Convert.Named>, idx: seq<nat>, at: nat)
    requires objs != [] && Tracks(kept, objs[1..], idx, at + 1)
    ensures Tracks(kept, objs, idx, at)
    ensures forall first: Object :: TracksOne(first, objs[0]) ==> Tracks([first] + kept, objs, [at] + idx, at)
  {
    hide TracksOne;
    forall i | 0 <= i < |idx|
      ensures at < idx[i] < at + |objs| && TracksOne(kept[i], objs[idx[i] - at])
    {
      assert objs[1..][idx[i] - (at + 1)] == objs[idx[i] - at];
    }
  }

  lemma NoneTracked(lib: Lib, seed: int, at: nat)
    ensures Tracks(Kept(lib, seed, []), [], KeptAt(lib, seed, [], at), at)
  {
  }

  lemma KeptAtStep(lib: Lib, seed: int, objs: seq<Convert.Named>, at: nat)
    requires objs != []
    ensures KeptAt(lib, seed, objs, at)
         == (if NodeBack(lib, seed, objs[0]).None? then [] else [at]) + KeptAt(lib, seed, objs[1..], at + 1)
  {
    hide NodeBack;
  }

  lemma {:induction false} KeptTracks(lib: Lib, seed: int, objs: seq<Convert.Named>, at: nat)
    ensures Tracks(Kept(lib, seed, objs), objs, KeptAt(lib, seed, objs, at), at)
  {
    hide NodeBack, Kept, KeptAt, Tracks;
    if objs == [] {
      NoneTracked(lib, seed, at);
    } else {
      var rest, more := Kept(lib, seed, objs[1..]), KeptAt(lib, seed, objs[1..], at + 1);
      KeptTracks(lib, seed, objs[1..], at + 1);
      TracksCons(rest, objs, more, at);
      KeptHead(lib, seed, objs);
      KeptAtStep(lib, seed, objs, at);
      if NodeBack(lib, seed, objs[0]).Some? {
        KeptFirst(lib, seed, objs);
      } else {
        assert [] + more == more;
      }
    }
  }

  /** Each object has at most one dependency, on an earlier object if on any; names are distinct. */
  ghost predicate Rising(objs: seq<Obj>) {
    && (forall i, j :: 0 <= i < j < |objs| ==> objs[i].name != objs[j].name)
    && (forall c :: 0 <= c < |objs| ==> |objs[c].deps| <= 1)
    && (forall p, c :: 0 <= p < |objs| && 0 <= c < |objs| && objs[p].name in objs[c].deps ==> p < c)
  }

  lemma SurvivorsRise(kept: seq<Object>, all: seq<Convert.Named>, idx: seq<nat>)
    requires Tracks(kept, all, idx, 0) && InOrder(all)
    ensures Rising(LinkObjs(kept))
  {
    var objs := LinkObjs(kept);
    forall i, j | 0 <= i < j < |objs|
      ensures objs[i].name != objs[j].name
    {
      assert TracksOne(kept[i], all[idx[i] - 0]) && TracksOne(kept[j], all[idx[j] - 0]);
    }
    forall p, c | 0 <= p < |objs| && 0 <= c < |objs| && objs[p].name in objs[c].deps
      ensures p < c
    {
      assert TracksOne(kept[p], all[idx[p] - 0]) && TracksOne(kept[c], all[idx[c] - 0]);
      var q: nat :| q < idx[c] && all[idx[c]].parent == Some(all[q].name);
      assert q == idx[p];
    }
    forall c | 0 <= c < |objs|
      ensures |objs[c].deps| <= 1
    {
      assert TracksOne(kept[c], all[idx[c] - 0]);
    }
  }

  // ----- links of rising objects -------------------------------------------------------------

  ghost predicate UniqueParents(edges: Edges) {
    forall p, q, c :: (p, c) in edges && (q, c) in edges ==> p == q
  }

  lemma KnownMeans(objs: seq<Obj>, p: nat, c: nat)
    ensures (p, c) in Known(objs) <==> p < |objs| && c < |objs| && objs[p].name in objs[c].deps
  {
    if p < |objs| && c < |objs| && objs[p].name in objs[c].deps {
      var k :| 0 <= k < |objs[c].deps| && objs[c].deps[k] == objs[p].name;
      assert (c, objs[c].deps[k]) in Asked(objs, |objs|, 0);
    }
  }

  lemma RisingLinks(objs: seq<Obj>, children: seq<seq<nat>>, roots: seq<nat>, warnings: seq<DepWarning>)
    requires Rising(objs) && Linked(objs, children, roots, warnings)
    ensures EdgesOf(children) == Known(objs) && UniqueParents(EdgesOf(children)) && Downward(children)
    ensures forall i :: 0 <= i < |roots| ==> roots[i] < |children|
  {
    hide Warned, Asked, Known, EdgesOf, Acyclic, HasParent;
    forall x, y | (x, y) in Known(objs)
      ensures x < y
    {
      KnownMeans(objs, x, y);
    }
    RisingAcyclic(Known(objs));
    forall p, q, c | (p, c) in Known(objs) && (q, c) in Known(objs)
      ensures p == q
    {
      KnownMeans(objs, p, c);
      KnownMeans(objs, q, c);
    }
    forall p, k | 0 <= p < |children| && 0 <= k < |children[p]|
      ensures p < children[p][k] < |children|
    {
      EdgeIffListed(children, p, children[p][k]);
    }
    forall i | 0 <= i < |roots|
      ensures roots[i] < |children|
    {
      assert roots[i] in roots;
    }
  }

  // ----- every object hangs in at most one place ---------------------------------------------

  /** The positions met when the trees at `list` are walked in preorder; all of `list` is at least `low`. */
  ghost function Walked(children: seq<seq<nat>>, list: seq<nat>, low: nat): seq<nat>
    requires Downward(children) && forall i :: 0 <= i < |list| ==> low <= list[i] < |children|
    decreases |children| - low, |list|
  {
    if list == [] then [] else WalkedFrom(children, list[0]) + Walked(children, list[1..], low)
  }

  ghost function WalkedFrom(children: seq<seq<nat>>, x: nat): seq<nat>
    requires Downward(children) && x < |children|
    decreases |children| - x, 0
  {
    [x] + Walked(children, children[x], x + 1)
  }

  lemma {:induction false} WalkedIsPreorder(nodes: seq<Node>, children: seq<seq<nat>>, list: seq<nat>, low: nat)
    requires |nodes| == |children| && Downward(children) && forall i :: 0 <= i < |list| ==> low <= list[i] < |children|
    ensures |Preorder(UnfoldAll(nodes, children, list))| == |Walked(children, list, low)|
    decreases |children| - low, |list|
  {
    hide Downward;
    if list != [] {
      var x, rest := list[0], list[1..];
      assert list == [x] + rest;
      UnfoldAllCons(nodes, children, x, rest);
      WalkedIsPreorder(nodes, children, rest, low);
      assert forall i :: 0 <= i < |children[x]| ==> x + 1 <= children[x][i] < |children| by {
        DownwardAt(children, x);
      }
      WalkedIsPreorder(nodes, children, children[x], x + 1);
      UnfoldedNode(nodes, children, x);
      PreorderCons(Unfold(nodes, children, x), UnfoldAll(nodes, children, rest));
    }
  }

  lemma DownwardAt(children: seq<seq<nat>>, x: nat)
    requires Downward(children) && x < |children|
    ensures forall i :: 0 <= i < |children[x]| ==> x + 1 <= children[x][i] < |children|
  {
  }

  lemma UnfoldedNode(nodes: seq<Node>, children: seq<seq<nat>>, x: nat)
    requires |nodes| == |children| && Downward(children) && x < |children|
    ensures forall i :: 0 <= i < |children[x]| ==> children[x][i] < |nodes|
    ensures Unfold(nodes, children, x).children == UnfoldAll(nodes, children, children[x])
  {
  }

  lemma PreorderCons(t: Tree, ts: seq<Tree>)
    ensures Preorder([t] + ts) == [t.node] + Preorder(t.children) + Preorder(ts)
  {
    assert ([t] + ts)[1..] == ts;
  }

  lemma LastEdge(edges: Edges, a: nat, b: nat) returns (q: nat)
    requires Connected(edges, a, b) && a != b
    ensures Connected(edges, a, q) && (q, b) in edges
  {
    var p :| Connects(edges, p, a, b);
    q := p[|p| - 2];
    assert (p[|p| - 2], p[|p| - 2 + 1]) in edges;
    assert Connects(edges, p[..|p| - 1], a, q);
  }

  lemma ConnectedRises(edges: Edges, a: nat, b: nat)
    requires Connected(edges, a, b) && forall x, y :: (x, y) in edges ==> x < y
    ensures a <= b
  {
    var p :| Connects(edges, p, a, b);
    PathRises(edges, p, a, b);
  }

  /** Two nodes above a third stand one above the other. */
  lemma {:induction false} AncestorsMeet(edges: Edges, a: nat, b: nat, y: nat)
    requires UniqueParents(edges) && forall x, y :: (x, y) in edges ==> x < y
    requires Connected(edges, a, y) && Connected(edges, b, y)
    ensures Connected(edges, a, b) || Connected(edges, b, a)
    decreases y
  {
    hide Connected;
    if a != y && b != y {
      var p := LastEdge(edges, a, y);
      var q := LastEdge(edges, b, y);
      assert p == q;
      AncestorsMeet(edges, a, b, p);
    }
  }

  ghost predicate Rises(children: seq<seq<nat>>) {
    Downward(children) && UniqueParents(EdgesOf(children)) && forall x, y :: (x, y) in EdgesOf(children) ==> x < y
  }

  /** No two of `list` stand one above the other. */
  ghost predicate Unrelated(children: seq<seq<nat>>, list: seq<nat>) {
    Distinct(list) && forall i, j :: 0 <= i < |list| && 0 <= j < |list| && i != j ==> !Connected(EdgesOf(children), list[i], list[j])
  }

  lemma SiblingsUnrelated(children: seq<seq<nat>>, x: nat)
    requires Rises(children) && x < |children| && Ascending(children[x])
    ensures Unrelated(children, children[x])
  {
    hide Connected, EdgesOf;
    var edges, cs := EdgesOf(children), children[x];
    forall i, j | 0 <= i < |cs| && 0 <= j < |cs| && i != j
      ensures !Connected(edges, cs[i], cs[j])
    {
      assert cs[i] != cs[j];
      EdgeIffListed(children, x, cs[i]);
      EdgeIffListed(children, x, cs[j]);
      if Connected(edges, cs[i], cs[j]) {
        var q := LastEdge(edges, cs[i], cs[j]);
        ConnectedRises(edges, cs[i], q);
      }
    }
  }

  lemma RootsUnrelated(children: seq<seq<nat>>, roots: seq<nat>)
    requires Rises(children) && IsRoots(EdgesOf(children), roots, |children|)
    ensures Unrelated(children, roots)
  {
    hide Connected, EdgesOf;
    var edges := EdgesOf(children);
    forall i, j | 0 <= i < |roots| && 0 <= j < |roots| && i != j
      ensures !Connected(edges, roots[i], roots[j])
    {
      assert roots[i] != roots[j] && roots[j] in roots;
      if Connected(edges, roots[i], roots[j]) {
        var q := LastEdge(edges, roots[i], roots[j]);
      }
    }
  }

  /** What is met below `list` is connected to one of `list`. */
  lemma {:induction false} WalkedConnected(children: seq<seq<nat>>, list: seq<nat>, low: nat, y: nat) returns (i: nat)
    requires Downward(children) && forall i :: 0 <= i < |list| ==> low <= list[i] < |children|
    requires y in Walked(children, list, low)
    ensures i < |list| && Connected(EdgesOf(children), list[i], y)
    decreases |children| - low, |list|
  {
    hide Connected, EdgesOf, Downward;
    var edges, x := EdgesOf(children), list[0];
    if y in Walked(children, list[1..], low) {
      var k := WalkedConnected(children, list[1..], low, y);
      i := k + 1;
    } else {
      i := 0;
      DownwardAt(children, x);
      if y == x {
        ConnectedRefl(edges, x);
      } else {
        var k := WalkedConnected(children, children[x], x + 1, y);
        EdgeIffListed(children, x, children[x][k]);
        ConnectedEdge(edges, x, children[x][k]);
        ConnectedTrans(edges, x, children[x][k], y);
      }
    }
  }

  lemma DistinctJoin<T>(a: seq<T>, b: seq<T>)
    requires Distinct(a) && Distinct(b) && forall x :: x in a ==> x !in b
    ensures Distinct(a + b)
  {
    forall i, j | 0 <= i < j < |a + b|
      ensures (a + b)[i] != (a + b)[j]
    {
      if i < |a| && j >= |a| {
        assert a[i] in a && b[j - |a|] in b;
      }
    }
  }

  lemma {:induction false} WalkedDistinct(children: seq<seq<nat>>, list: seq<nat>, low: nat)
    requires Rises(children) && (forall p :: 0 <= p < |children| ==> Ascending(children[p]))
    requires Unrelated(children, list) && forall i :: 0 <= i < |list| ==> low <= list[i] < |children|
    ensures Distinct(Walked(children, list, low))
    decreases |children| - low, |list|
  {
    hide Connected, EdgesOf, Downward;
    if list != [] {
      var x, rest := list[0], list[1..];
      TailUnrelated(children, list);
      WalkedDistinct(children, rest, low);
      WalkedFromDistinct(children, x, low, |list|);
      forall y | y in WalkedFrom(children, x)
        ensures y !in Walked(children, rest, low)
      {
        if y in Walked(children, rest, low) {
          var k := WalkedConnected(children, rest, low, y);
          assert rest[k] == list[k + 1];
          WalkedFromConnected(children, x, y);
          AncestorsMeet(EdgesOf(children), x, rest[k], y);
        }
      }
      DistinctJoin(WalkedFrom(children, x), Walked(children, rest, low));
    }
  }

  lemma TailUnrelated(children: seq<seq<nat>>, list: seq<nat>)
    requires Unrelated(children, list) && list != []
    ensures Unrelated(children, list[1..])
  {
    hide Connected, EdgesOf;
    var rest := list[1..];
    forall i, j | 0 <= i < |rest| && 0 <= j < |rest| && i != j
      ensures !Connected(EdgesOf(children), rest[i], rest[j])
    {
      assert rest[i] == list[i + 1] && rest[j] == list[j + 1];
    }
  }

  lemma WalkedFromConnected(children: seq<seq<nat>>, x: nat, y: nat)
    requires Downward(children) && x < |children| && y in WalkedFrom(children, x)
    ensures Connected(EdgesOf(children), x, y)
  {
    hide Connected, EdgesOf;
    assert [x][1..] == [];
    assert Walked(children, [x][1..], x) == [];
    assert Walked(children, [x], x) == WalkedFrom(children, x) + [];
    var i := WalkedConnected(children, [x], x, y);
  }

  lemma {:induction false} WalkedFromDistinct(children: seq<seq<nat>>, x: nat, low: nat, n: nat)
    requires Rises(children) && (forall p :: 0 <= p < |children| ==> Ascending(children[p])) && low <= x < |children| && n > 0
    ensures Distinct(WalkedFrom(children, x))
    decreases |children| - low, n, 0
  {
    hide Connected, EdgesOf, Downward;
    var cs := children[x];
    DownwardAt(children, x);
    SiblingsUnrelated(children, x);
    WalkedDistinct(children, cs, x + 1);
    if x in Walked(children, cs, x + 1) {
      var k := WalkedConnected(children, cs, x + 1, x);
      ConnectedRises(EdgesOf(children), cs[k], x);
    }
    DistinctJoin([x], Walked(children, cs, x + 1));
  }

  /** A list of distinct positions is no longer than there are positions. */
  lemma {:induction false} Pigeonhole(s: seq<nat>, n: nat)
    requires Distinct(s) && forall i :: 0 <= i < |s| ==> s[i] < n
    ensures |s| <= n
  {
    var elems := Elements(s);
    DistinctCard(s);
    assert elems <= Upto(n);
    if elems != Upto(n) {
      var x :| x in Upto(n) && x !in elems;
      SubsetSmaller(elems, Upto(n), x);
    }
  }

  /** The unfolded forest has no more nodes than there are objects. */
  lemma UnfoldingFits(nodes: seq<Node>, children: seq<seq<nat>>, roots: seq<nat>)
    requires |nodes| == |children| && Rises(children) && (forall p :: 0 <= p < |children| ==> Ascending(children[p]))
    requires IsRoots(EdgesOf(children), roots, |children|) && forall i :: 0 <= i < |roots| ==> roots[i] < |children|
    ensures |Preorder(UnfoldAll(nodes, children, roots))| <= |nodes|
  {
    hide Connected, EdgesOf, Downward, Preorder;
    WalkedIsPreorder(nodes, children, roots, 0);
    RootsUnrelated(children, roots);
    WalkedDistinct(children, roots, 0);
    var walked := Walked(children, roots, 0);
    forall i | 0 <= i < |walked|
      ensures walked[i] < |nodes|
    {
      assert walked[i] in walked;
      WalkedBound(children, roots, 0, walked[i]);
    }
    Pigeonhole(walked, |nodes|);
  }

  lemma {:induction false} WalkedBound(children: seq<seq<nat>>, list: seq<nat>, low: nat, y: nat)
    requires Downward(children) && forall i :: 0 <= i < |list| ==> low <= list[i] < |children|
    requires y in Walked(children, list, low)
    ensures y < |children|
    decreases |children| - low, |list|
  {
    hide Downward;
    var x := list[0];
    if y in Walked(children, list[1..], low) {
      WalkedBound(children, list[1..], low, y);
    } else if y != x {
      DownwardAt(children, x);
      WalkedBound(children, children[x], x + 1, y);
    }
  }

  // ----- both directions ---------------------------------------------------------------------

  /** Whatever its nodes are, a forest laid out and linked as `ts` unfolds with its nodes in preorder. */
  lemma {:induction false} PlacedPreorder(shape: seq<Node>, nodes: seq<Node>, children: seq<seq<nat>>, ts: seq<Tree>, at: nat)
    requires |shape| == |nodes| == |children| && Downward(children) && Placed(shape, children, ts, at)
    ensures forall i :: 0 <= i < |Tops(ts, at)| ==> Tops(ts, at)[i] < |nodes|
    ensures at <= |nodes| ==> at + |Preorder(ts)| <= |nodes|
    ensures at <= |nodes| ==> Preorder(UnfoldAll(nodes, children, Tops(ts, at))) == nodes[at..at + |Preorder(ts)|]
    decreases ts
  {
    hide *;
    if ts == [] {
      UnfoldNothing(nodes, children, at);
      NoPreorder();
    } else {
      var next := at + 1 + |Preorder(ts[0].children)|;
      PlacedStep(shape, children, ts, at);
      PreorderSplits(ts);
      PlacedPreorder(shape, nodes, children, ts[0].children, at + 1);
      PlacedPreorder(shape, nodes, children, ts[1..], next);
      UnfoldedNode(nodes, children, at);
      UnfoldedRoot(nodes, children, at);
      UnfoldAllCons(nodes, children, at, Tops(ts[1..], next));
      PreorderCons(Unfold(nodes, children, at), UnfoldAll(nodes, children, Tops(ts[1..], next)));
      var mid, end := next, at + |Preorder(ts)|;
      assert nodes[at..end] == [nodes[at]] + nodes[at + 1..mid] + nodes[mid..end];
    }
  }

  lemma NoPreorder()
    ensures Preorder([]) == []
  {
  }

  lemma UnfoldedRoot(nodes: seq<Node>, children: seq<seq<nat>>, x: nat)
    requires |nodes| == |children| && Downward(children) && x < |children|
    ensures Unfold(nodes, children, x).node == nodes[x]
  {
  }

  /** With no object lost, the trees have the shape of the forest, whatever became of the nodes. */
  lemma ShapeComesBack(forest: seq<Tree>, loaded: seq<Object>, children: seq<seq<nat>>, roots: seq<nat>, warnings: seq<DepWarning>)
    requires SameNames(loaded, NamedObjects(forest)) && Linked(LinkObjs(loaded), children, roots, warnings)
    ensures |children| == |loaded| == |Preorder(forest)| && Downward(children) && roots == Tops(forest, 0) && warnings == []
    ensures Placed(NodesOf(NamedObjects(forest)), children, forest, 0)
  {
    hide SameNames, InOrder, NameForest, Known, EdgesOf, Warned, Asked, IsRoots, Acyclic, LinksAre, Downward, Placed, Tops, Sealed, Holds, Preorder;
    var all := NamedObjects(forest);
    NamedInOrder(forest);
    Lengths(loaded, all);
    LinksKnown(loaded, all, children, roots, warnings);
    RootsAreTops(forest, loaded, children, roots);
    NothingWarned(loaded, all, children, warnings);
    NamedAre(forest);
    NamedNodes(forest, None, {});
    WholeFile(all);
    assert Sealed(all, 0, |all|, {}, NameForest(forest, None, {}).used) by {
      NothingOutside(all, {}, NameForest(forest, None, {}).used);
    }
    PlaceForest(all, children, forest, None, {}, 0);
  }

  /** Every object came back, with the node it came back with. */
  ghost predicate CameBack(lib: Lib, seed: int, kept: seq<Object>, objs: seq<Convert.Named>) {
    && |kept| == |objs|
    && forall i :: 0 <= i < |objs| ==> TracksOne(kept[i], objs[i]) && NodeBack(lib, seed, objs[i]) == Some(kept[i].node)
  }

  lemma CameBackCons(lib: Lib, seed: int, first: Object, kept: seq<Object>, objs: seq<Convert.Named>)
    requires objs != [] && CameBack(lib, seed, kept, objs[1..])
    requires TracksOne(first, objs[0]) && NodeBack(lib, seed, objs[0]) == Some(first.node)
    ensures CameBack(lib, seed, [first] + kept, objs)
  {
    hide TracksOne, NodeBack;
    forall i | 0 < i < |objs|
      ensures TracksOne(kept[i - 1], objs[i]) && NodeBack(lib, seed, objs[i]) == Some(kept[i - 1].node)
    {
      assert objs[i] == objs[1..][i - 1];
    }
  }

  lemma NoneCame(lib: Lib, seed: int)
    ensures CameBack(lib, seed, Kept(lib, seed, []), [])
  {
  }

  lemma {:induction false} KeptNames(lib: Lib, seed: int, objs: seq<Convert.Named>)
    requires |Kept(lib, seed, objs)| == |objs|
    ensures CameBack(lib, seed, Kept(lib, seed, objs), objs)
  {
    hide NodeBack, Kept, CameBack, SameObjects, SameObject, AllBack, TracksOne;
    if objs == [] {
      NoneCame(lib, seed);
    } else {
      KeptAll(lib, seed, objs[1..]);
      KeptHead(lib, seed, objs);
      KeptNames(lib, seed, objs[1..]);
      KeptFirst(lib, seed, objs);
      CameBackCons(lib, seed, Kept(lib, seed, objs)[0], Kept(lib, seed, objs[1..]), objs);
    }
  }

  lemma CameBackMeans(lib: Lib, seed: int, kept: seq<Object>, objs: seq<Convert.Named>)
    requires CameBack(lib, seed, kept, objs)
    ensures SameNames(kept, objs)
    ensures forall i :: 0 <= i < |objs| ==> NodeBack(lib, seed, objs[i]) == Some(kept[i].node)
  {
    hide NodeBack;
    forall i | 0 <= i < |objs|
      ensures kept[i].name == objs[i].name && kept[i].deps == if objs[i].parent.Some? then [objs[i].parent.value] else []
    {
      assert TracksOne(kept[i], objs[i]);
    }
  }

  lemma KeptFirst(lib: Lib, seed: int, objs: seq<Convert.Named>)
    requires objs != [] && NodeBack(lib, seed, objs[0]).Some?
    ensures var all := Kept(lib, seed, objs);
      all != [] && TracksOne(all[0], objs[0]) && NodeBack(lib, seed, objs[0]) == Some(all[0].node)
  {
    hide NodeBack, BlockOf;
  }

  /** A legacy forest, converted and loaded and linked, unfolds into itself iff every node is clean: the same trees, the
      same nodes, the same order. A clean one gives no warning. */
  lemma ForestRoundTrip(lib: Lib, seed: int, head: seq<Line>, forest: seq<Tree>, children: seq<seq<nat>>, roots: seq<nat>, warnings: seq<DepWarning>)
    requires FloatsOk(lib) && AllFromLegacy(lib, forest) && HeadLines(head)
    requires Linked(LinkObjs(Loaded(lib, seed, FileText(lib, seed, head, forest))), children, roots, warnings)
    ensures Downward(children) && forall i :: 0 <= i < |roots| ==> roots[i] < |children|
    ensures |LoadedNodes(Loaded(lib, seed, FileText(lib, seed, head, forest)))| == |children|
    ensures UnfoldAll(LoadedNodes(Loaded(lib, seed, FileText(lib, seed, head, forest))), children, roots) == forest <==> AllClean(seed, forest)
    ensures AllClean(seed, forest) ==> warnings == []
  {
    hide FloatsOk, AllFromLegacy, HeadLines, AllClean, FileText, Loaded, SameObjects, SameNames, NameForest, Known, EdgesOf, Warned, Asked,
      Acyclic, Downward, Placed, Tops, UnfoldAll, Kept, AllBack, InOrder, Rising, Tracks, Preorder, IsRoots, UniqueParents, CameBack;
    var all := NamedObjects(forest);
    var loaded := Loaded(lib, seed, FileText(lib, seed, head, forest));
    var nodes := LoadedNodes(loaded);
    LoadsKept(lib, seed, head, forest);
    KeptTracks(lib, seed, all, 0);
    NamedInOrder(forest);
    SurvivorsRise(loaded, all, KeptAt(lib, seed, all, 0));
    RisingLinks(LinkObjs(loaded), children, roots, warnings);
    ObjectsRoundTrip(lib, seed, head, forest);
    KeptAll(lib, seed, all);
    NamedAre(forest);
    NamedNodes(forest, None, {});
    if UnfoldAll(nodes, children, roots) == forest {
      KnownRises(LinkObjs(loaded), children);
      UnfoldingFits(nodes, children, roots);
      KeptNames(lib, seed, all);
      CameBackMeans(lib, seed, loaded, all);
      ShapeComesBack(forest, loaded, children, roots, warnings);
      PlacedPreorder(NodesOf(all), nodes, children, forest, 0);
      assert nodes[0..0 + |Preorder(forest)|] == nodes;
      SameNodesBack(lib, seed, all, loaded);
    }
    if AllClean(seed, forest) {
      SameIsSame(loaded, all);
      ShapeComesBack(forest, loaded, children, roots, warnings);
      PlacedUnfolds(NodesOf(all), children, forest, 0);
    }
  }

  lemma KnownRises(objs: seq<Obj>, children: seq<seq<nat>>)
    requires Rising(objs) && EdgesOf(children) == Known(objs) && UniqueParents(EdgesOf(children)) && Downward(children)
    ensures Rises(children)
  {
    hide Known, EdgesOf;
    forall x, y | (x, y) in EdgesOf(children)
      ensures x < y
    {
      KnownMeans(objs, x, y);
    }
  }

  lemma SameNodesBack(lib: Lib, seed: int, all: seq<Convert.Named>, loaded: seq<Object>)
    requires |loaded| == |all| && LoadedNodes(loaded) == NodesOf(all)
    requires forall i :: 0 <= i < |all| ==> NodeBack(lib, seed, all[i]) == Some(loaded[i].node)
    ensures AllBack(lib, seed, all)
  {
    hide NodeBack;
    forall i | 0 <= i < |all|
      ensures loaded[i].node == all[i].node
    {
      assert LoadedNodes(loaded)[i] == NodesOf(all)[i];
    }
  }

  lemma SameIsSame(loaded: seq<Object>, all: seq<Convert.Named>)
    requires SameObjects(loaded, all)
    ensures SameNames(loaded, all) && LoadedNodes(loaded) == NodesOf(all)
  {
    forall i | 0 <= i < |all|
      ensures loaded[i].name == all[i].name && loaded[i].node == all[i].node
      ensures loaded[i].deps == if all[i].parent.Some? then [all[i].parent.value] else []
    {
      assert SameObject(loaded[i], all[i]);
    }
  }
}
