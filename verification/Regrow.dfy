/** The linked objects of a converted file unfold into the forest that was converted. */
module Regrow {
  import opened Model
  import opened ModernBuild
  import opened Convert
  import opened Reparse
  import opened Graphs
  import opened Forest
  import opened RoundTrip

  // ----- positions ---------------------------------------------------------------------------

  /** Where the roots of `ts` stand when its nodes are laid out in preorder from `at` on. */
  function Tops(ts: seq<Tree>, at: nat): seq<nat>
  {
    if ts == [] then [] else [at] + Tops(ts[1..], at + 1 + |Preorder(ts[0].children)|)
  }

  lemma {:induction false} TopsAscend(ts: seq<Tree>, at: nat)
    ensures Ascending(Tops(ts, at)) && |Tops(ts, at)| == |ts|
    ensures forall x :: x in Tops(ts, at) ==> at <= x < at + |Preorder(ts)|
    decreases ts
  {
    if ts != [] {
      var next := at + 1 + |Preorder(ts[0].children)|;
      TopsAscend(ts[1..], next);
      var rest := Tops(ts[1..], next);
      assert forall i :: 0 <= i < |rest| ==> rest[i] in rest;
    }
  }

  /** An ascending list is determined by its elements. */
  lemma {:induction false} AscendingUnique(s: seq<nat>, t: seq<nat>)
    requires Ascending(s) && Ascending(t) && forall x :: x in s <==> x in t
    ensures s == t
  {
    assert |s| > 0 <==> |t| > 0 by {
      assert |s| > 0 ==> s[0] in s;
      assert |t| > 0 ==> t[0] in t;
    }
    if s != [] {
      assert s[0] in t;
      assert t[0] in s;
      assert s[0] == t[0];
      forall x
        ensures x in s[1..] <==> x in t[1..]
      {
        assert x in s[1..] <==> x in s && x != s[0];
        assert x in t[1..] <==> x in t && x != t[0];
      }
      AscendingUnique(s[1..], t[1..]);
    }
  }

  // ----- who hangs below whom ----------------------------------------------------------------

  lemma TopPart(objs: seq<Convert.Named>, top: Convert.Named, below: seq<Convert.Named>, rest: seq<Convert.Named>, j: nat)
    requires objs == [top] + below + rest && j < |objs|
    ensures objs[j] == if j == 0 then top else if j <= |below| then below[j - 1] else rest[j - 1 - |below|]
  {
  }

  lemma TopsStep(ts: seq<Tree>, at: nat)
    requires ts != []
    ensures var next := at + 1 + |Preorder(ts[0].children)|;
      forall x: nat :: x in Tops(ts, at) <==> x == at || x in Tops(ts[1..], next)
  {
    hide Preorder;
  }

  lemma NothingNamed(parent: Option<string>, used: set<string>)
    ensures NameForest([], parent, used).objs == []
  {
  }

  /** Exactly the roots of the window hang below the window's parent. */
  lemma {:induction false} TopsHang(ts: seq<Tree>, parent: Option<string>, used: set<string>, at: nat, j: nat)
    requires parent.Some? ==> parent.value in used
    requires j < |NameForest(ts, parent, used).objs|
    ensures NameForest(ts, parent, used).objs[j].parent == parent <==> at + j in Tops(ts, at)
    decreases ts
  {
    hide NameFor, NameOk, Preorder, Window, NameForest, Tops;
    NothingNamed(parent, used);
    var name := NameFor(ts[0].node.hostname, used);
    NameForOk(ts[0].node.hostname, used);
    var below := NameForest(ts[0].children, Some(name), used + {name});
    var rest := NameForest(ts[1..], parent, below.used);
    ForestSplits(ts, parent, used);
    TopPart(NameForest(ts, parent, used).objs, Convert.Named(name, ts[0].node, parent), below.objs, rest.objs, j);
    NamedNodes(ts[0].children, Some(name), used + {name});
    var next := at + 1 + |below.objs|;
    TopsStep(ts, at);
    TopsAscend(ts[1..], next);
    ForestWindow(ts[0].children, Some(name), used + {name});
    if 0 < j <= |below.objs| {
      HangsInside(below.objs, Some(name), used + {name}, below.used, j - 1);
    } else if j > |below.objs| {
      WindowGrows(below.objs, Some(name), used + {name}, below.used);
      assert next + (j - 1 - |below.objs|) == at + j;
      TopsHang(ts[1..], parent, below.used, next, j - 1 - |below.objs|);
    }
  }

  lemma HangsInside(objs: seq<Convert.Named>, parent: Option<string>, used: set<string>, used2: set<string>, j: nat)
    requires Window(objs, parent, used, used2) && j < |objs|
    ensures objs[j].parent == parent || NewName(objs[j].parent, used, used2)
    ensures objs[j].name in used2 && objs[j].name !in used
  {
    hide NameOk;
  }

  lemma WindowGrows(objs: seq<Convert.Named>, parent: Option<string>, used: set<string>, used2: set<string>)
    requires Window(objs, parent, used, used2)
    ensures used <= used2
  {
    hide NameOk;
  }

  /** Every object but the roots of the window names an object written before it. */
  lemma {:induction false} ParentsFirst(ts: seq<Tree>, parent: Option<string>, used: set<string>, j: nat)
    requires j < |NameForest(ts, parent, used).objs|
    ensures var objs := NameForest(ts, parent, used).objs;
      objs[j].parent == parent || exists p: nat :: p < j && objs[j].parent == Some(objs[p].name)
    decreases ts
  {
    hide NameFor;
    var name := NameFor(ts[0].node.hostname, used);
    var below := NameForest(ts[0].children, Some(name), used + {name}).objs;
    var rest := NameForest(ts[1..], parent, NameForest(ts[0].children, Some(name), used + {name}).used).objs;
    var objs := NameForest(ts, parent, used).objs;
    var top := Convert.Named(name, ts[0].node, parent);
    ForestSplits(ts, parent, used);
    hide NameForest;
    TopPart(objs, top, below, rest, j);
    if 0 < j <= |below| {
      ParentsFirst(ts[0].children, Some(name), used + {name}, j - 1);
      if below[j - 1].parent == Some(name) {
        assert objs[0].name == name;
      } else {
        var p: nat :| p < j - 1 && below[j - 1].parent == Some(below[p].name);
        TopPart(objs, top, below, rest, p + 1);
      }
    } else if j > |below| {
      var k := j - 1 - |below|;
      ParentsFirst(ts[1..], parent, NameForest(ts[0].children, Some(name), used + {name}).used, k);
      if rest[k].parent != parent {
        var p: nat :| p < k && rest[k].parent == Some(rest[p].name);
        TopPart(objs, top, below, rest, p + 1 + |below|);
      }
    }
  }

  // ----- placement ---------------------------------------------------------------------------

  /** From `at` on, `ts` is laid out in preorder and linked as it is nested. */
  ghost predicate Placed(nodes: seq<Node>, children: seq<seq<nat>>, ts: seq<Tree>, at: nat)
    decreases ts
  {
    ts == [] ||
    (&& at < |nodes| && at < |children| && nodes[at] == ts[0].node && children[at] == Tops(ts[0].children, at + 1)
     && Placed(nodes, children, ts[0].children, at + 1)
     && Placed(nodes, children, ts[1..], at + 1 + |Preorder(ts[0].children)|))
  }

  /** Links follow the parents' names. */
  ghost predicate LinksAre(all: seq<Convert.Named>, children: seq<seq<nat>>) {
    && |children| == |all|
    && (forall p :: 0 <= p < |all| ==> Ascending(children[p]))
    && (forall p: nat, c: nat :: p < |all| ==> LinkIff(all, children, p, c))
  }

  ghost predicate LinkIff(all: seq<Convert.Named>, children: seq<seq<nat>>, p: nat, c: nat)
    requires p < |all| && |children| == |all|
  {
    c in children[p] <==> c < |all| && all[c].parent == Some(all[p].name)
  }

  /** No object outside `[at, at + n)` hangs below a name first used between `used` and `used2`. */
  ghost predicate Sealed(all: seq<Convert.Named>, at: nat, n: nat, used: set<string>, used2: set<string>) {
    forall c :: 0 <= c < |all| && !(at <= c < at + n) && all[c].parent.Some? ==>
      !(all[c].parent.value in used2 && all[c].parent.value !in used)
  }

  /** The objects from `at` on are `objs`. */
  ghost predicate Holds(all: seq<Convert.Named>, at: nat, objs: seq<Convert.Named>) {
    at + |objs| <= |all| && forall j :: 0 <= j < |objs| ==> all[at + j] == objs[j]
  }

  lemma HoldsParts(all: seq<Convert.Named>, at: nat, top: Convert.Named, below: seq<Convert.Named>, rest: seq<Convert.Named>)
    requires Holds(all, at, [top] + below + rest)
    ensures at < |all| && all[at] == top && Holds(all, at + 1, below) && Holds(all, at + 1 + |below|, rest)
  {
    var objs := [top] + below + rest;
    HeldAt(all, at, objs, 0);
    forall j | 0 <= j < |below|
      ensures all[at + 1 + j] == below[j]
    {
      HeldAt(all, at, objs, j + 1);
      TopPart(objs, top, below, rest, j + 1);
    }
    forall j | 0 <= j < |rest|
      ensures all[at + 1 + |below| + j] == rest[j]
    {
      HeldAt(all, at, objs, j + 1 + |below|);
      TopPart(objs, top, below, rest, j + 1 + |below|);
    }
  }

  /** What is known where the first tree of a window is placed. */
  ghost predicate FirstTree(all: seq<Convert.Named>, at: nat, top: Convert.Named, below: Naming, rest: Naming, used: set<string>) {
    && top.name !in used
    && (top.parent.Some? ==> top.parent.value in used)
    && Holds(all, at, [top] + below.objs + rest.objs)
    && Window(below.objs, Some(top.name), used + {top.name}, below.used)
    && Window(rest.objs, top.parent, below.used, rest.used)
    && Sealed(all, at, 1 + |below.objs| + |rest.objs|, used, rest.used)
  }

  lemma SealedBelow(all: seq<Convert.Named>, at: nat, top: Convert.Named, below: Naming, rest: Naming, used: set<string>)
    requires FirstTree(all, at, top, below, rest, used)
    ensures Sealed(all, at + 1, |below.objs|, used, below.used)
  {
    hide NameOk, Holds;
    HoldsParts(all, at, top, below.objs, rest.objs);
    forall c | 0 <= c < |all| && !(at + 1 <= c < at + 1 + |below.objs|) && all[c].parent.Some?
      ensures !(all[c].parent.value in below.used && all[c].parent.value !in used)
    {
      var k := c - (at + 1 + |below.objs|);
      if 0 <= k < |rest.objs| {
        HeldAt(all, at + 1 + |below.objs|, rest.objs, k);
      }
    }
  }

  lemma SealedRest(all: seq<Convert.Named>, at: nat, top: Convert.Named, below: Naming, rest: Naming, used: set<string>)
    requires FirstTree(all, at, top, below, rest, used)
    ensures Sealed(all, at + 1 + |below.objs|, |rest.objs|, below.used, rest.used)
  {
    hide NameOk, Holds;
    HoldsParts(all, at, top, below.objs, rest.objs);
    forall c | 0 <= c < |all| && !(at + 1 + |below.objs| <= c < at + 1 + |below.objs| + |rest.objs|) && all[c].parent.Some?
      ensures !(all[c].parent.value in rest.used && all[c].parent.value !in below.used)
    {
      var k := c - (at + 1);
      if 0 <= k < |below.objs| {
        HeldAt(all, at + 1, below.objs, k);
      }
    }
  }

  lemma HeldAt(all: seq<Convert.Named>, at: nat, objs: seq<Convert.Named>, j: nat)
    requires Holds(all, at, objs) && j < |objs|
    ensures at + j < |all| && all[at + j] == objs[j]
  {
  }

  /** The links of the first node of a window are the roots of its children. */
  lemma FirstLinks(all: seq<Convert.Named>, children: seq<seq<nat>>, at: nat, top: Convert.Named, below: Naming, rest: Naming, used: set<string>, ts: seq<Tree>)
    requires FirstTree(all, at, top, below, rest, used) && LinksAre(all, children)
    requires below == NameForest(ts, Some(top.name), used + {top.name})
    ensures at < |children| && children[at] == Tops(ts, at + 1)
  {
    hide NameOk, Holds, Window, NameForest, Sealed, Preorder, Tops, LinksAre;
    HoldsParts(all, at, top, below.objs, rest.objs);
    LinkMeans(all, children, at, 0);
    SealedBelow(all, at, top, below, rest, used);
    NamedNodes(ts, Some(top.name), used + {top.name});
    WindowGrows(below.objs, Some(top.name), used + {top.name}, below.used);
    TopsAscend(ts, at + 1);
    forall c: nat
      ensures c in children[at] <==> c in Tops(ts, at + 1)
    {
      LinkMeans(all, children, at, c);
      if at + 1 <= c < at + 1 + |below.objs| {
        HeldAt(all, at + 1, below.objs, c - at - 1);
        assert at + 1 + (c - at - 1) == c;
        TopsHang(ts, Some(top.name), used + {top.name}, at + 1, c - at - 1);
      } else if c < |all| && all[c].parent == Some(top.name) {
        SealedMeans(all, at + 1, |below.objs|, used, below.used, c);
        assert false;
      } else {
        assert c !in Tops(ts, at + 1);
      }
    }
    AscendingUnique(children[at], Tops(ts, at + 1));
  }

  lemma LinkMeans(all: seq<Convert.Named>, children: seq<seq<nat>>, p: nat, c: nat)
    requires LinksAre(all, children) && p < |all|
    ensures p < |children| && Ascending(children[p])
    ensures c in children[p] <==> c < |all| && all[c].parent == Some(all[p].name)
  {
    assert LinkIff(all, children, p, c);
  }

  lemma SealedMeans(all: seq<Convert.Named>, at: nat, n: nat, used: set<string>, used2: set<string>, c: nat)
    requires Sealed(all, at, n, used, used2) && c < |all| && !(at <= c < at + n) && all[c].parent.Some?
    ensures !(all[c].parent.value in used2 && all[c].parent.value !in used)
  {
  }

  lemma SealedShrinks(all: seq<Convert.Named>, at: nat, n: nat, used: set<string>, more: set<string>, used2: set<string>)
    requires Sealed(all, at, n, used, used2) && used <= more
    ensures Sealed(all, at, n, more, used2)
  {
  }

  lemma {:induction false} PlaceForest(all: seq<Convert.Named>, children: seq<seq<nat>>, ts: seq<Tree>, parent: Option<string>, used: set<string>, at: nat)
    requires LinksAre(all, children) && (parent.Some? ==> parent.value in used)
    requires Holds(all, at, NameForest(ts, parent, used).objs)
    requires Sealed(all, at, |NameForest(ts, parent, used).objs|, used, NameForest(ts, parent, used).used)
    ensures Placed(NodesOf(all), children, ts, at)
    decreases ts
  {
    hide LinksAre, Holds, Sealed, NameFor, NameForest, Window, Tops, Preorder;
    if ts != [] {
      var name := NameFor(ts[0].node.hostname, used);
      NameForOk(ts[0].node.hostname, used);
      var below := NameForest(ts[0].children, Some(name), used + {name});
      var rest := NameForest(ts[1..], parent, below.used);
      var top := Convert.Named(name, ts[0].node, parent);
      ForestSplits(ts, parent, used);
      ForestWindow(ts[0].children, Some(name), used + {name});
      WindowGrows(below.objs, Some(name), used + {name}, below.used);
      ForestWindow(ts[1..], parent, below.used);
      assert FirstTree(all, at, top, below, rest, used);
      HoldsParts(all, at, top, below.objs, rest.objs);
      FirstLinks(all, children, at, top, below, rest, used, ts[0].children);
      SealedBelow(all, at, top, below, rest, used);
      SealedShrinks(all, at + 1, |below.objs|, used, used + {name}, below.used);
      SealedRest(all, at, top, below, rest, used);
      PlaceForest(all, children, ts[0].children, Some(name), used + {name}, at + 1);
      NamedNodes(ts[0].children, Some(name), used + {name});
      PlaceForest(all, children, ts[1..], parent, below.used, at + 1 + |below.objs|);
    }
  }

  // ----- unfolding ---------------------------------------------------------------------------

  /** Every link leads to a later object. */
  ghost predicate Downward(children: seq<seq<nat>>) {
    forall p, k :: 0 <= p < |children| && 0 <= k < |children[p]| ==> p < children[p][k] < |children|
  }

  /** The tree that hangs at object `at`. */
  ghost function Unfold(nodes: seq<Node>, children: seq<seq<nat>>, at: nat): Tree
    requires |nodes| == |children| && Downward(children) && at < |nodes|
    decreases |nodes| - at
  {
    Tree(nodes[at], seq(|children[at]|, k requires 0 <= k < |children[at]| => Unfold(nodes, children, children[at][k])))
  }

  /** The forest that hangs at the objects of `list`. */
  ghost function UnfoldAll(nodes: seq<Node>, children: seq<seq<nat>>, list: seq<nat>): seq<Tree>
    requires |nodes| == |children| && Downward(children) && forall i :: 0 <= i < |list| ==> list[i] < |nodes|
  {
    seq(|list|, k requires 0 <= k < |list| => Unfold(nodes, children, list[k]))
  }

  lemma UnfoldAllCons(nodes: seq<Node>, children: seq<seq<nat>>, x: nat, xs: seq<nat>)
    requires |nodes| == |children| && Downward(children) && x < |nodes| && forall i :: 0 <= i < |xs| ==> xs[i] < |nodes|
    ensures forall i :: 0 <= i < |[x] + xs| ==> ([x] + xs)[i] < |nodes|
    ensures UnfoldAll(nodes, children, [x] + xs) == [Unfold(nodes, children, x)] + UnfoldAll(nodes, children, xs)
  {
    hide Unfold, Downward;
  }

  lemma PlacedStep(nodes: seq<Node>, children: seq<seq<nat>>, ts: seq<Tree>, at: nat)
    requires Placed(nodes, children, ts, at) && ts != []
    ensures at < |nodes| && at < |children| && nodes[at] == ts[0].node && children[at] == Tops(ts[0].children, at + 1)
    ensures Placed(nodes, children, ts[0].children, at + 1)
    ensures Placed(nodes, children, ts[1..], at + 1 + |Preorder(ts[0].children)|)
    ensures Tops(ts, at) == [at] + Tops(ts[1..], at + 1 + |Preorder(ts[0].children)|)
  {
    hide Preorder;
  }

  lemma UnfoldNothing(nodes: seq<Node>, children: seq<seq<nat>>, at: nat)
    requires |nodes| == |children| && Downward(children)
    ensures Tops([], at) == [] && UnfoldAll(nodes, children, []) == []
  {
  }

  lemma {:induction false} PlacedUnfolds(nodes: seq<Node>, children: seq<seq<nat>>, ts: seq<Tree>, at: nat)
    requires |nodes| == |children| && Downward(children) && Placed(nodes, children, ts, at)
    ensures forall i :: 0 <= i < |Tops(ts, at)| ==> Tops(ts, at)[i] < |nodes|
    ensures UnfoldAll(nodes, children, Tops(ts, at)) == ts
    decreases ts
  {
    hide *;
    if ts == [] {
      UnfoldNothing(nodes, children, at);
    } else {
      var next := at + 1 + |Preorder(ts[0].children)|;
      PlacedStep(nodes, children, ts, at);
      PlacedUnfolds(nodes, children, ts[0].children, at + 1);
      PlacedUnfolds(nodes, children, ts[1..], next);
      UnfoldNode(nodes, children, at, ts[0]);
      UnfoldAllCons(nodes, children, at, Tops(ts[1..], next));
      assert ts == [ts[0]] + ts[1..];
    }
  }

  lemma UnfoldNode(nodes: seq<Node>, children: seq<seq<nat>>, at: nat, t: Tree)
    requires |nodes| == |children| && Downward(children) && at < |nodes| && nodes[at] == t.node
    requires (forall i :: 0 <= i < |children[at]| ==> children[at][i] < |nodes|) && UnfoldAll(nodes, children, children[at]) == t.children
    ensures Unfold(nodes, children, at) == t
  {
    assert Unfold(nodes, children, at).children == UnfoldAll(nodes, children, children[at]);
  }

  // ----- the loaded forest -------------------------------------------------------------------

  /** The loaded objects as the linker sees them. */
  function LinkObjs(objects: seq<Object>): seq<Obj> {
    seq(|objects|, i requires 0 <= i < |objects| => Obj(objects[i].name, objects[i].deps))
  }

  function LoadedNodes(objects: seq<Object>): seq<Node> {
    seq(|objects|, i requires 0 <= i < |objects| => objects[i].node)
  }

  /** What linking the objects of a file guarantees: as many of the known edges as fit without a cycle. */
  ghost predicate Linked(objs: seq<Obj>, children: seq<seq<nat>>, roots: seq<nat>, warnings: seq<DepWarning>) {
    && |children| == |objs| && Closed(children) && Acyclic(EdgesOf(children))
    && (forall p :: 0 <= p < |children| ==> Ascending(children[p]))
    && EdgesOf(children) <= Known(objs)
    && (forall p, c :: (p, c) in Known(objs) - EdgesOf(children) ==> !Acyclic(EdgesOf(children) + {(p, c)}))
    && (Acyclic(Known(objs)) ==> EdgesOf(children) == Known(objs))
    && IsRoots(EdgesOf(children), roots, |objs|)
    && Warned(objs, children, Asked(objs, |objs|, 0), warnings)
  }

  lemma {:induction false} PathRises(edges: Edges, p: seq<nat>, a: nat, b: nat)
    requires Connects(edges, p, a, b) && forall x, y :: (x, y) in edges ==> x < y
    ensures a <= b
  {
    if |p| > 1 {
      var rest := p[1..];
      assert (p[0], p[1]) in edges;
      forall i | 0 <= i < |rest| - 1
        ensures (rest[i], rest[i + 1]) in edges
      {
        assert (p[i + 1], p[i + 1 + 1]) in edges;
      }
      PathRises(edges, rest, p[1], b);
    }
  }

  lemma RisingAcyclic(edges: Edges)
    requires forall x, y :: (x, y) in edges ==> x < y
    ensures Acyclic(edges)
  {
    forall a, b | (a, b) in edges
      ensures !Connected(edges, b, a)
    {
      if Connected(edges, b, a) {
        var p :| Connects(edges, p, b, a);
        PathRises(edges, p, b, a);
      }
    }
  }

  /** The loaded objects have the names and the dependencies of the written ones. */
  ghost predicate SameNames(loaded: seq<Object>, objs: seq<Convert.Named>) {
    && |loaded| == |objs|
    && forall i :: 0 <= i < |objs| ==>
         loaded[i].name == objs[i].name && loaded[i].deps == if objs[i].parent.Some? then [objs[i].parent.value] else []
  }

  /** The objects asked for are the parents. */
  lemma AskedParents(loaded: seq<Object>, all: seq<Convert.Named>, c: nat, d: string)
    requires SameNames(loaded, all)
    ensures (c, d) in Asked(LinkObjs(loaded), |all|, 0) <==> c < |all| && all[c].parent == Some(d)
  {
    var objs := LinkObjs(loaded);
    if c < |all| && all[c].parent == Some(d) {
      assert objs[c].deps[0] == d;
    }
  }

  lemma KnownParents(loaded: seq<Object>, all: seq<Convert.Named>, p: nat, c: nat)
    requires SameNames(loaded, all)
    ensures (p, c) in Known(LinkObjs(loaded)) <==> p < |all| && c < |all| && all[c].parent == Some(all[p].name)
  {
    hide Asked, SameNames;
    Lengths(loaded, all);
    if p < |all| {
      AskedParents(loaded, all, c, all[p].name);
    }
  }

  lemma Lengths(loaded: seq<Object>, all: seq<Convert.Named>)
    requires SameNames(loaded, all)
    ensures |LinkObjs(loaded)| == |all| && forall i :: 0 <= i < |all| ==> LinkObjs(loaded)[i].name == all[i].name
  {
  }

  /** Every parent named is declared, and declared earlier; names are distinct. */
  ghost predicate InOrder(all: seq<Convert.Named>) {
    && (forall i, j :: 0 <= i < j < |all| ==> all[i].name != all[j].name)
    && (forall c :: 0 <= c < |all| && all[c].parent.Some? ==> exists p: nat :: p < c && all[c].parent == Some(all[p].name))
  }

  lemma NamedInOrder(forest: seq<Tree>)
    ensures InOrder(NamedObjects(forest))
  {
    hide NameOk, NameForest;
    var all := NamedObjects(forest);
    ForestWindow(forest, None, {});
    forall c | 0 <= c < |all| && all[c].parent.Some?
      ensures exists p: nat :: p < c && all[c].parent == Some(all[p].name)
    {
      ParentsFirst(forest, None, {}, c);
    }
  }

  lemma LinksKnown(loaded: seq<Object>, all: seq<Convert.Named>, children: seq<seq<nat>>, roots: seq<nat>, warnings: seq<DepWarning>)
    requires SameNames(loaded, all) && InOrder(all) && Linked(LinkObjs(loaded), children, roots, warnings)
    ensures EdgesOf(children) == Known(LinkObjs(loaded))
    ensures LinksAre(all, children) && Downward(children)
  {
    hide SameNames, Warned, Asked, Known, EdgesOf, Acyclic, IsRoots;
    Lengths(loaded, all);
    forall x, y | (x, y) in Known(LinkObjs(loaded))
      ensures x < y
    {
      KnownParents(loaded, all, x, y);
      var p: nat :| p < y && all[y].parent == Some(all[p].name);
    }
    RisingAcyclic(Known(LinkObjs(loaded)));
    forall p: nat, c: nat | p < |all|
      ensures LinkIff(all, children, p, c)
    {
      EdgeIffListed(children, p, c);
      KnownParents(loaded, all, p, c);
    }
    forall p, k | 0 <= p < |children| && 0 <= k < |children[p]|
      ensures p < children[p][k] < |children|
    {
      EdgeIffListed(children, p, children[p][k]);
    }
  }

  lemma RootsAreTops(forest: seq<Tree>, loaded: seq<Object>, children: seq<seq<nat>>, roots: seq<nat>)
    requires SameNames(loaded, NamedObjects(forest)) && InOrder(NamedObjects(forest))
    requires EdgesOf(children) == Known(LinkObjs(loaded)) && IsRoots(EdgesOf(children), roots, |NamedObjects(forest)|)
    ensures roots == Tops(forest, 0)
  {
    hide SameNames, Known, EdgesOf, NameForest, Tops, Preorder;
    var all := NamedObjects(forest);
    NamedAre(forest);
    NamedNodes(forest, None, {});
    TopsAscend(forest, 0);
    forall x: nat
      ensures x in roots <==> x in Tops(forest, 0)
    {
      if x < |all| {
        TopsHang(forest, None, {}, 0, x);
        if all[x].parent.Some? {
          var p: nat :| p < x && all[x].parent == Some(all[p].name);
          KnownParents(loaded, all, p, x);
          assert HasParent(EdgesOf(children), x);
        } else if HasParent(EdgesOf(children), x) {
          var p :| (p, x) in EdgesOf(children);
          KnownParents(loaded, all, p, x);
          assert false;
        }
      }
    }
    AscendingUnique(roots, Tops(forest, 0));
  }

  lemma NothingWarned(loaded: seq<Object>, all: seq<Convert.Named>, children: seq<seq<nat>>, warnings: seq<DepWarning>)
    requires SameNames(loaded, all) && InOrder(all) && EdgesOf(children) == Known(LinkObjs(loaded))
    requires Warned(LinkObjs(loaded), children, Asked(LinkObjs(loaded), |all|, 0), warnings)
    ensures warnings == []
  {
    hide SameNames, Known, EdgesOf, Asked;
    Lengths(loaded, all);
    if warnings != [] {
      var w := warnings[0];
      assert w in warnings;
      AskedParents(loaded, all, w.child, w.dep);
      var p: nat :| p < w.child && all[w.child].parent == Some(all[p].name);
      assert Forest.Named(LinkObjs(loaded), w.dep) by {
        assert LinkObjs(loaded)[p].name == w.dep;
      }
      if w.CycleDep? {
        var q: nat :| q < |LinkObjs(loaded)| && LinkObjs(loaded)[q].name == w.dep && (q, w.child) !in EdgesOf(children);
        KnownParents(loaded, all, q, w.child);
      }
      assert false;
    }
  }

  lemma WholeFile(all: seq<Convert.Named>)
    ensures Holds(all, 0, all)
  {
  }

  lemma NothingOutside(all: seq<Convert.Named>, used: set<string>, used2: set<string>)
    ensures Sealed(all, 0, |all|, used, used2)
  {
  }
}
