/** The whole forest through conversion and reparsing. */
module RoundTrip {
  import opened Model
  import opened Text
  import opened Lexer
  import opened ModernSyntax
  import opened ModernBuild
  import opened Convert
  import opened Emission
  import opened Reparse
  import opened NodeTrip

  // ----- names -------------------------------------------------------------------------------

  /** The objects named while the used names grow from `used` to `used2`: fresh distinct names, each object
      hanging below `parent` or below another of them. */
  ghost predicate Window(objs: seq<Convert.Named>, parent: Option<string>, used: set<string>, used2: set<string>) {
    && used <= used2
    && (forall i :: 0 <= i < |objs| ==> objs[i].name in used2 && objs[i].name !in used && NameOk(objs[i].name))
    && (forall i :: 0 <= i < |objs| ==> objs[i].parent == parent || NewName(objs[i].parent, used, used2))
    && (forall i, j :: 0 <= i < j < |objs| ==> objs[i].name != objs[j].name)
  }

  ghost predicate NewName(name: Option<string>, used: set<string>, used2: set<string>) {
    name.Some? && name.value in used2 && name.value !in used && NameOk(name.value)
  }

  lemma WindowJoin(a: seq<Convert.Named>, b: seq<Convert.Named>, parent: Option<string>, used: set<string>, mid: set<string>, used2: set<string>)
    requires Window(a, parent, used, mid) && Window(b, parent, mid, used2)
    ensures Window(a + b, parent, used, used2)
  {
    hide NameOk;
  }

  lemma WindowTop(top: Convert.Named, below: seq<Convert.Named>, used: set<string>, used2: set<string>)
    requires top.name !in used && NameOk(top.name) && Window(below, Some(top.name), used + {top.name}, used2)
    ensures Window([top] + below, top.parent, used, used2)
  {
    hide NameOk;
  }

  lemma {:induction false} TreeWindow(t: Tree, parent: Option<string>, used: set<string>)
    ensures Window(NameTree(t, parent, used).objs, parent, used, NameTree(t, parent, used).used)
    decreases t, 1
  {
    hide Window, NameFor;
    var name := NameFor(t.node.hostname, used);
    NameForOk(t.node.hostname, used);
    ForestWindow(t.children, Some(name), used + {name});
    WindowTop(Convert.Named(name, t.node, parent), NameForest(t.children, Some(name), used + {name}).objs, used, NameTree(t, parent, used).used);
  }

  lemma {:induction false} ForestWindow(ts: seq<Tree>, parent: Option<string>, used: set<string>)
    ensures Window(NameForest(ts, parent, used).objs, parent, used, NameForest(ts, parent, used).used)
    decreases ts, 0
  {
    hide NameTree;
    if ts != [] {
      hide Window;
      var first := NameTree(ts[0], parent, used);
      var rest := NameForest(ts[1..], parent, first.used);
      TreeWindow(ts[0], parent, used);
      ForestWindow(ts[1..], parent, first.used);
      WindowJoin(first.objs, rest.objs, parent, used, first.used, rest.used);
    }
  }

  // ----- nodes -------------------------------------------------------------------------------

  /** The nodes of a forest, parents before children, siblings in order. */
  function Preorder(ts: seq<Tree>): seq<Node>
    decreases ts
  {
    if ts == [] then [] else [ts[0].node] + Preorder(ts[0].children) + Preorder(ts[1..])
  }

  function NodesOf(all: seq<Convert.Named>): seq<Node> {
    seq(|all|, i requires 0 <= i < |all| => all[i].node)
  }

  lemma ForestSplits(ts: seq<Tree>, parent: Option<string>, used: set<string>)
    requires ts != []
    ensures var name := NameFor(ts[0].node.hostname, used);
      var below := NameForest(ts[0].children, Some(name), used + {name});
      var rest := NameForest(ts[1..], parent, below.used);
      && NameForest(ts, parent, used).objs == [Convert.Named(name, ts[0].node, parent)] + below.objs + rest.objs
      && NameForest(ts, parent, used).used == rest.used
  {
    hide NameFor;
  }

  lemma PreorderSplits(ts: seq<Tree>)
    requires ts != []
    ensures Preorder(ts) == [ts[0].node] + Preorder(ts[0].children) + Preorder(ts[1..])
  {
  }

  lemma NodesSplit(top: Convert.Named, below: seq<Convert.Named>, rest: seq<Convert.Named>)
    ensures NodesOf([top] + below + rest) == [top.node] + NodesOf(below) + NodesOf(rest)
  {
  }

  lemma NoForest(parent: Option<string>, used: set<string>)
    ensures NodesOf(NameForest([], parent, used).objs) == Preorder([])
  {
  }

  lemma NodesAt(all: seq<Convert.Named>)
    ensures |NodesOf(all)| == |all| && forall i :: 0 <= i < |all| ==> NodesOf(all)[i] == all[i].node
  {
  }

  /** Naming lays the nodes out in preorder. */
  lemma {:induction false} NamedNodes(ts: seq<Tree>, parent: Option<string>, used: set<string>)
    ensures var objs := NameForest(ts, parent, used).objs;
      NodesOf(objs) == Preorder(ts) && |objs| == |Preorder(ts)| && forall i :: 0 <= i < |objs| ==> objs[i].node == Preorder(ts)[i]
    decreases ts
  {
    hide NameFor, NameForest, Preorder, NodesOf;
    if ts == [] {
      NoForest(parent, used);
    } else {
      var name := NameFor(ts[0].node.hostname, used);
      var below := NameForest(ts[0].children, Some(name), used + {name});
      NamedNodes(ts[0].children, Some(name), used + {name});
      NamedNodes(ts[1..], parent, below.used);
      ForestSplits(ts, parent, used);
      PreorderSplits(ts);
      NodesSplit(Convert.Named(name, ts[0].node, parent), below.objs, NameForest(ts[1..], parent, below.used).objs);
    }
    NodesAt(NameForest(ts, parent, used).objs);
  }

  ghost predicate AllFromLegacy(lib: Lib, ts: seq<Tree>) {
    forall i :: 0 <= i < |Preorder(ts)| ==> FromLegacy(lib, Preorder(ts)[i])
  }

  ghost predicate AllClean(seed: int, ts: seq<Tree>) {
    forall i :: 0 <= i < |Preorder(ts)| ==> Clean(seed, Preorder(ts)[i])
  }

  // ----- the object list ---------------------------------------------------------------------

  function NamedObjects(forest: seq<Tree>): seq<Convert.Named> {
    NameForest(forest, None, {}).objs
  }

  /** What the modern parser makes of a text; a lexical error gives nothing. */
  function Loaded(lib: Lib, seed: int, text: string): seq<Object> {
    match Lex(text, true)
    case Tokens(ts) => Objects(lib, seed, Statements(ts))
    case _ => []
  }

  /** The loaded objects are the written ones: same names, same nodes, same dependencies, same order. */
  ghost predicate SameObjects(loaded: seq<Object>, objs: seq<Convert.Named>) {
    && |loaded| == |objs|
    && forall i :: 0 <= i < |objs| ==> SameObject(loaded[i], objs[i])
  }

  lemma {:induction false} ObjectsLinesGood(lib: Lib, seed: int, objs: seq<Convert.Named>)
    requires FloatsOk(lib)
    requires forall i :: 0 <= i < |objs| ==> NameOk(objs[i].name) && IntervalOk(lib, objs[i].node)
    ensures GoodLines(ObjectsLines(lib, seed, objs))
  {
    hide FloatsOk, IntervalOk, AttrLines, KeyOrder, AllPlain;
    if objs != [] {
      AttrLinesGood(lib, seed, objs[0], KeyOrder);
      ObjectsLinesGood(lib, seed, objs[1..]);
    }
  }

  lemma NamedOk(lib: Lib, forest: seq<Tree>)
    requires AllFromLegacy(lib, forest)
    ensures var objs := NamedObjects(forest);
      && Fresh(objs)
      && forall i :: 0 <= i < |objs| ==> NameOk(objs[i].name) && IntervalOk(lib, objs[i].node) && FromLegacy(lib, objs[i].node)
  {
    hide NameForest, NameOk, TypeFromLegacy, SourceFromLegacy, Field, Solid, IntervalOk;
    ForestWindow(forest, None, {});
    NamedNodes(forest, None, {});
  }

  lemma UngroupedStay(lib: Lib, objects: seq<Object>)
    ensures seq(|objects|, i requires 0 <= i < |objects| => Grouped(lib, map[], objects[i])) == objects
  {
  }

  lemma HeadTokens(lib: Lib, seed: int, head: seq<Line>, forest: seq<Tree>)
    requires HeadLines(head) && GoodLines(ObjectsLines(lib, seed, NamedObjects(forest)))
    ensures GoodLines(FileLines(lib, seed, head, forest))
    ensures AllToks(FileLines(lib, seed, head, forest)) == AllToks(head) + AllToks(ObjectsLines(lib, seed, NamedObjects(forest)))
  {
    hide GoodLine, ObjectsLines, NamedObjects, NameForest, AllToks;
    var body := ObjectsLines(lib, seed, NamedObjects(forest));
    assert NamedObjects(forest) == NameForest(forest, None, {}).objs by {
      NamedAre(forest);
    }
    if head != [] && head[|head| - 1] == Empty {
      AllToksSplit(head, body);
    } else {
      AllToksSplit(head + [Empty], body);
      AllToksSplit(head, [Empty]);
      OneLine(Empty);
      assert GoodLine(Empty) by {
        EmptyGood();
      }
    }
  }

  lemma NamedAre(forest: seq<Tree>)
    ensures NamedObjects(forest) == NameForest(forest, None, {}).objs
  {
  }

  lemma EmptyGood()
    ensures GoodLine(Empty)
  {
  }

  /** The loaded objects are exactly the written ones that survive, in order. */
  lemma LoadsKept(lib: Lib, seed: int, head: seq<Line>, forest: seq<Tree>)
    requires FloatsOk(lib) && AllFromLegacy(lib, forest) && HeadLines(head)
    ensures Lex(FileText(lib, seed, head, forest), true).Tokens?
    ensures Loaded(lib, seed, FileText(lib, seed, head, forest)) == Kept(lib, seed, NamedObjects(forest))
  {
    hide FloatsOk, AllFromLegacy, HeadLines, GoodLines, GoodLine, FileText, FileLines, Lex, Statements, Run, Kept, NamedObjects,
      ObjectsLines, AllToks, Fresh, NameOk, IntervalOk, FromLegacy, Grouped;
    var objs := NamedObjects(forest);
    NamedOk(lib, forest);
    ObjectsLinesGood(lib, seed, objs);
    HeadTokens(lib, seed, head, forest);
    FileTokens(lib, seed, head, forest);
    var body := AllToks(ObjectsLines(lib, seed, objs));
    HeadRead(lib, seed, head, body, EmptyEnv);
    ObjectsRead(lib, seed, objs, []);
    assert [] + Kept(lib, seed, objs) == Kept(lib, seed, objs);
    UngroupedStay(lib, Kept(lib, seed, objs));
  }

  ghost predicate SameObject(loaded: Object, o: Convert.Named) {
    loaded.name == o.name && loaded.node == o.node && loaded.deps == if o.parent.Some? then [o.parent.value] else []
  }

  lemma SameObjectsCons(l: Object, ls: seq<Object>, o: Convert.Named, os: seq<Convert.Named>)
    ensures SameObjects([l] + ls, [o] + os) <==> SameObject(l, o) && SameObjects(ls, os)
  {
    hide SameObject;
    if SameObjects([l] + ls, [o] + os) {
      assert SameObject(([l] + ls)[0], ([o] + os)[0]);
      forall i | 0 <= i < |os|
        ensures SameObject(ls[i], os[i])
      {
        assert SameObject(([l] + ls)[i + 1], ([o] + os)[i + 1]);
      }
    }
  }

  lemma SameLengths(ls: seq<Object>, os: seq<Convert.Named>)
    ensures SameObjects(ls, os) ==> |ls| == |os|
  {
  }

  ghost predicate AllBack(lib: Lib, seed: int, objs: seq<Convert.Named>) {
    forall i :: 0 <= i < |objs| ==> NodeBack(lib, seed, objs[i]) == Some(objs[i].node)
  }

  lemma AllBackCons(lib: Lib, seed: int, objs: seq<Convert.Named>)
    requires objs != []
    ensures AllBack(lib, seed, objs) <==> NodeBack(lib, seed, objs[0]) == Some(objs[0].node) && AllBack(lib, seed, objs[1..])
  {
    hide NodeBack;
    if NodeBack(lib, seed, objs[0]) == Some(objs[0].node) && AllBack(lib, seed, objs[1..]) {
      assert forall i :: 0 < i < |objs| ==> objs[i] == objs[1..][i - 1];
    }
  }

  lemma KeptHead(lib: Lib, seed: int, objs: seq<Convert.Named>)
    requires objs != []
    ensures NodeBack(lib, seed, objs[0]).None? ==> Kept(lib, seed, objs) == Kept(lib, seed, objs[1..])
    ensures NodeBack(lib, seed, objs[0]).Some? ==>
      && Kept(lib, seed, objs) != [] && Kept(lib, seed, objs) == [Kept(lib, seed, objs)[0]] + Kept(lib, seed, objs[1..])
      && (SameObject(Kept(lib, seed, objs)[0], objs[0]) <==> NodeBack(lib, seed, objs[0]) == Some(objs[0].node))
  {
    hide NodeBack, BlockOf;
  }

  lemma KeptNone(lib: Lib, seed: int)
    ensures Kept(lib, seed, []) == [] && SameObjects([], []) && AllBack(lib, seed, [])
  {
  }

  lemma {:induction false} KeptAll(lib: Lib, seed: int, objs: seq<Convert.Named>)
    ensures |Kept(lib, seed, objs)| <= |objs|
    ensures SameObjects(Kept(lib, seed, objs), objs) <==> AllBack(lib, seed, objs)
  {
    hide *;
    if objs == [] {
      KeptNone(lib, seed);
    } else {
      KeptAll(lib, seed, objs[1..]);
      KeptHead(lib, seed, objs);
      AllBackCons(lib, seed, objs);
      var all := Kept(lib, seed, objs);
      SameLengths(all, objs);
      if NodeBack(lib, seed, objs[0]).Some? {
        assert objs == [objs[0]] + objs[1..];
        SameObjectsCons(all[0], Kept(lib, seed, objs[1..]), objs[0], objs[1..]);
      }
    }
  }

  /** The written objects load back unchanged iff every node of the forest is clean. */
  lemma ObjectsRoundTrip(lib: Lib, seed: int, head: seq<Line>, forest: seq<Tree>)
    requires FloatsOk(lib) && AllFromLegacy(lib, forest) && HeadLines(head)
    ensures SameObjects(Loaded(lib, seed, FileText(lib, seed, head, forest)), NamedObjects(forest)) <==> AllClean(seed, forest)
  {
    hide FloatsOk, AllFromLegacy, HeadLines, FileText, Loaded, Kept, NameForest, Clean, FromLegacy, NodeBack, SameObjects, Preorder, Fresh;
    var objs := NamedObjects(forest);
    LoadsKept(lib, seed, head, forest);
    KeptAll(lib, seed, objs);
    NamedOk(lib, forest);
    NamedNodes(forest, None, {});
    forall i | 0 <= i < |objs|
      ensures NodeBack(lib, seed, objs[i]) == Some(objs[i].node) <==> Clean(seed, Preorder(forest)[i])
    {
      NodeRoundTrip(lib, seed, objs[i]);
    }
  }

  // ----- the converter's warnings ------------------------------------------------------------

  lemma {:induction false} AllSilent(lib: Lib, seed: int, objs: seq<Convert.Named>)
    ensures ObjectsNotices(lib, seed, objs) == [] <==> forall i :: 0 <= i < |objs| ==> !Warns(lib, seed, objs[i])
  {
    hide Notices, KeyOrder;
    if objs != [] {
      AllSilent(lib, seed, objs[1..]);
      assert forall i :: 0 <= i < |objs[1..]| ==> objs[1..][i] == objs[i + 1];
      if forall i :: 0 <= i < |objs[1..]| ==> !Warns(lib, seed, objs[1..][i]) {
        assert forall i :: 0 < i < |objs| ==> objs[i] == objs[1..][i - 1];
      }
    }
  }

  /** A forest comes back whole iff its conversion gave no warning and no node has its ping pair inverted. */
  lemma CleanIffSilent(lib: Lib, seed: int, forest: seq<Tree>)
    requires FloatsOk(lib) && AllFromLegacy(lib, forest)
    ensures AllClean(seed, forest) <==>
      && ObjectsNotices(lib, seed, NamedObjects(forest)) == []
      && forall i :: 0 <= i < |Preorder(forest)| ==> !PairInverted(Preorder(forest)[i])
  {
    hide FloatsOk, AllFromLegacy, ObjectsNotices, NameForest, Preorder, FromLegacy, Clean, Warns, PairInverted, NameOk;
    var objs := NamedObjects(forest);
    NamedOk(lib, forest);
    NamedNodes(forest, None, {});
    AllSilent(lib, seed, objs);
    forall i | 0 <= i < |objs|
      ensures Clean(seed, Preorder(forest)[i]) <==> !Warns(lib, seed, objs[i]) && !PairInverted(Preorder(forest)[i])
    {
      LostSilently(lib, seed, objs[i]);
    }
  }
}
