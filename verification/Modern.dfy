/** Reading a modern configuration from text to linked objects. */
module Modern {
  import opened Lexer
  import opened ModernSyntax
  import opened ModernBuild
  import opened Graphs
  import opened Forest
  import opened Convert
  import opened Reparse
  import opened NodeTrip
  import opened RoundTrip
  import opened Regrow
  import opened ForestTrip
  import opened GlobalsTrip
  import Emission
  import opened Lists

  datatype Outcome =
    | Failed
    | Parsed(objects: seq<Object>, children: seq<seq<nat>>, roots: seq<nat>, warnings: seq<DepWarning>, overrides: Globals)

  /** One object per name, no dep twice. */
  ghost predicate ObjectsOk(objects: seq<Object>) {
    && (forall i, j :: 0 <= i < j < |objects| ==> objects[i].name != objects[j].name)
    && (forall i :: 0 <= i < |objects| ==> Distinct(objects[i].deps))
  }

  lemma AddObjectOk(lib: Lib, numfailures: int, vars: map<string, string>, objects: seq<Object>, name: string, b: Block)
    requires ObjectsOk(objects)
    ensures ObjectsOk(AddObject(lib, numfailures, vars, objects, name, b))
  {
    hide BuildNode, Resolve;
    assert Distinct(DepNames(vars, b.deps));
  }

  lemma {:induction false} RunOk(lib: Lib, numfailures: int, e: Env, stmts: seq<Stmt>)
    requires ObjectsOk(e.objects)
    ensures ObjectsOk(Run(lib, numfailures, e, stmts).objects)
    decreases stmts
  {
    hide AddObject, AddGroup, AddVar, ObjectsOk;
    if stmts != [] {
      var e' := Step(lib, numfailures, e, stmts[0]);
      if stmts[0].ObjectStmt? {
        AddObjectOk(lib, numfailures, e.vars, e.objects, stmts[0].name, stmts[0].block);
      }
      RunOk(lib, numfailures, e', stmts[1..]);
    }
  }

  /** Whatever the file says, the objects handed to the linker are well named. */
  lemma ObjectsWellNamed(lib: Lib, numfailures: int, stmts: seq<Stmt>)
    ensures WellNamed(LinkObjs(Objects(lib, numfailures, stmts)))
  {
    hide Run, ApplyGroup;
    RunOk(lib, numfailures, EmptyEnv, stmts);
  }

  method IndexOf(objs: seq<Obj>) returns (index: map<string, nat>)
    requires WellNamed(objs)
    ensures IsIndex(objs, index)
  {
    index := map[];
    for i := 0 to |objs|
      invariant forall k :: 0 <= k < i ==> objs[k].name in index && index[objs[k].name] == k
      invariant forall d :: d in index ==> index[d] < i && objs[index[d]].name == d
    {
      index := index[objs[i].name := i];
    }
  }

  /** An unterminated string or an `include` fails the file; anything else yields linked objects and settings. */
  method Parse(lib: Lib, numfailures: int, text: string) returns (out: Outcome)
    requires Scanned(text, Code(true)) != Hang
    ensures out.Failed? <==> Scanned(text, Code(true)) == OpenString || (Lex(text, true).Tokens? && IncludeStmt in Statements(Lex(text, true).tokens))
    ensures out.Parsed? ==>
      && out.objects == Loaded(lib, numfailures, text) && Linked(LinkObjs(out.objects), out.children, out.roots, out.warnings)
      && out.overrides == LoadedGlobals(lib, text)
  {
    hide Lex, Statements, ReadGlobals, Objects, Scanned, WellNamed, IsIndex, Linked;
    HangsExactlyOnOddSpace(text, true);
    var lexed := Tokenize(text);
    if !lexed.Tokens? {
      return Failed;
    }
    var parser := new Parser(lexed.tokens);
    var stmts := parser.ParseTop();
    if IncludeStmt in stmts {
      return Failed;
    }
    var objects := Objects(lib, numfailures, stmts);
    ObjectsWellNamed(lib, numfailures, stmts);
    var index := IndexOf(LinkObjs(objects));
    var children, roots, warnings := BuildForest(LinkObjs(objects), index);
    assert Linked(LinkObjs(objects), children, roots, warnings) by {
      LinkedFrom(LinkObjs(objects), children, roots, warnings);
    }
    out := Parsed(objects, children, roots, warnings, ReadGlobals(lib, map[], map[], stmts));
  }

  lemma LinkedFrom(objs: seq<Obj>, children: seq<seq<nat>>, roots: seq<nat>, warnings: seq<DepWarning>)
    requires |children| == |objs| && Closed(children) && Acyclic(EdgesOf(children))
    requires forall p :: 0 <= p < |children| ==> Ascending(children[p])
    requires EdgesOf(children) <= Known(objs)
    requires forall p, c :: (p, c) in Known(objs) - EdgesOf(children) ==> !Acyclic(EdgesOf(children) + {(p, c)})
    requires Acyclic(Known(objs)) ==> EdgesOf(children) == Known(objs)
    requires IsRoots(EdgesOf(children), roots, |objs|) && Warned(objs, children, Asked(objs, |objs|, 0), warnings)
    ensures Linked(objs, children, roots, warnings)
  {
  }

  // ----- conversion and back -----------------------------------------------------------------

  ghost predicate NoInclude(stmts: seq<Stmt>) {
    IncludeStmt !in stmts
  }

  lemma {:induction false} ObjectsNoInclude(lib: Lib, seed: int, objs: seq<Convert.Named>)
    ensures NoInclude(Statements(Emission.AllToks(ObjectsLines(lib, seed, objs))))
  {
    hide ObjectLines, Statement, Emission.AllToks, BlockOf;
    if objs == [] {
      NoLine();
    } else {
      var rest := Emission.AllToks(ObjectsLines(lib, seed, objs[1..]));
      Emission.AllToksSplit(ObjectLines(lib, seed, objs[0]), ObjectsLines(lib, seed, objs[1..]));
      StatementReads(lib, seed, objs[0], rest);
      ObjectsNoInclude(lib, seed, objs[1..]);
    }
  }

  lemma NoIncludeCons(ts: seq<Token>, stmt: Stmt, rest: seq<Token>)
    requires ts != [] && Statement(ts) == (stmt, rest) && !stmt.IncludeStmt? && NoInclude(Statements(rest))
    ensures NoInclude(Statements(ts))
  {
    hide Statement;
  }

  lemma HeadLineNoInclude(l: Line, rest: seq<Token>)
    requires (l.Remark? || l.Empty? || l.Global?) && NoInclude(Statements(rest))
    ensures NoInclude(Statements(Emission.Toks(l) + rest))
  {
    hide Statement, Statements, NoInclude, Emission.ValueToks;
    if l.Global? {
      var ws := Emission.ValueToks(l.words);
      ValuesHaveNoSemi(l.words);
      ConfigReads(ws, rest);
      NoIncludeCons(Emission.Toks(l) + rest, ConfigStmt(ws), rest);
    } else {
      assert Emission.Toks(l) + rest == rest;
    }
  }

  lemma {:induction false} HeadNoInclude(head: seq<Line>, rest: seq<Token>)
    requires HeadLines(head) && NoInclude(Statements(rest))
    ensures NoInclude(Statements(Emission.AllToks(head) + rest))
  {
    hide Statements, NoInclude, Emission.GoodLine, Emission.Toks;
    if head == [] {
      assert Emission.AllToks(head) + rest == rest;
    } else {
      var more := Emission.AllToks(head[1..]) + rest;
      HeadNoInclude(head[1..], rest);
      assert Emission.AllToks(head) + rest == Emission.Toks(head[0]) + more;
      HeadLineNoInclude(head[0], more);
    }
  }

  /** A converted file never hangs the tokenizer and never fails. */
  lemma ConvertedIsSound(lib: Lib, seed: int, head: seq<Line>, forest: seq<Tree>)
    requires FloatsOk(lib) && AllFromLegacy(lib, forest) && HeadLines(head)
    ensures var lexed := Lex(FileText(lib, seed, head, forest), true);
      && Scanned(FileText(lib, seed, head, forest), Code(true)) == Fine
      && lexed.Tokens? && NoInclude(Statements(lexed.tokens))
  {
    hide FloatsOk, AllFromLegacy, HeadLines, FileText, FileLines, Lex, Scanned, Statements, Emission.GoodLines, Emission.AllToks, Fresh,
      NamedObjects, ObjectsLines, NameOk, IntervalOk, FromLegacy;
    var objs := NamedObjects(forest);
    NamedOk(lib, forest);
    ObjectsLinesGood(lib, seed, objs);
    HeadTokens(lib, seed, head, forest);
    Emission.FileTokens(lib, seed, head, forest);
    HangsExactlyOnOddSpace(FileText(lib, seed, head, forest), true);
    ObjectsNoInclude(lib, seed, objs);
    HeadNoInclude(head, Emission.AllToks(ObjectsLines(lib, seed, objs)));
  }

  /** Converts a forest and loads the result: a legacy forest comes back whole iff it is clean,
      and the settings iff they can be quoted. */
  method Reload(lib: Lib, seed: int, g: Globals, forest: seq<Tree>) returns (text: string, out: Outcome)
    requires FloatsOk(lib) && AllFromLegacy(lib, forest) && GoodGlobals(lib, g)
    ensures text == FileText(lib, seed, Head(lib, seed, g), forest) && out.Parsed?
    ensures out.overrides == Writable(g) <==> Representable(g)
    ensures out.overrides == g <==> Representable(g) && AllWritten(g)
    ensures SameObjects(out.objects, NamedObjects(forest)) <==> AllClean(seed, forest)
    ensures Downward(out.children) && (forall i :: 0 <= i < |out.roots| ==> out.roots[i] < |out.children|) && |out.objects| == |out.children|
    ensures UnfoldAll(LoadedNodes(out.objects), out.children, out.roots) == forest <==> AllClean(seed, forest)
    ensures AllClean(seed, forest) ==> out.warnings == []
  {
    hide FloatsOk, AllFromLegacy, GoodGlobals, HeadLines, FileText, Head, Lex, Scanned, Statements, Loaded, Linked, SameObjects, AllClean,
      NamedObjects, UnfoldAll, Downward, LoadedGlobals, Writable, Representable, AllWritten;
    var head := Head(lib, seed, g);
    HeadIsGood(lib, seed, g);
    GlobalsRoundTrip(lib, seed, g, forest);
    ConvertedIsSound(lib, seed, head, forest);
    var serializer := new Serializer(lib, seed);
    text := serializer.Run(g, forest);
    out := Parse(lib, seed, text);
    ObjectsRoundTrip(lib, seed, head, forest);
    ForestRoundTrip(lib, seed, head, forest, out.children, out.roots, out.warnings);
  }
}
