/** The objects that the modern parser finds in a converted file. */
module Reparse {
  import opened Model
  import opened Text
  import opened Lexer
  import opened Records
  import opened ModernSyntax
  import opened ModernBuild
  import opened Convert
  import opened Emission

  // ----- the written lines are well formed ---------------------------------------------------

  /** What the platform owes: a positive float survives being written and read. */
  ghost predicate FloatsOk(lib: Lib) {
    forall x: real :: lib.isFloat(x) && x > 0.0 ==>
      FmtNum(lib, x) != "" && AllPlain(FmtNum(lib, x)) && lib.read(FmtNum(lib, x)) == Some(x)
  }

  ghost predicate IntervalOk(lib: Lib, n: Node) {
    n.interval.Some? ==> lib.isFloat(n.interval.value) && n.interval.value > 0.0
  }

  /** Quoting goes character by character: quotes vanish, line breaks become blanks, everything else stays. */
  lemma {:induction false} QuoteMeans(a: string, b: string, c: char)
    ensures Quote(a + b) == Quote(a) + Quote(b)
    ensures Quote([c]) == if c == '"' then "" else if c == '\n' || c == '\r' then " " else [c]
  {
    assert [c][1..] == "";
    if a == "" {
      assert a + b == b;
    } else {
      assert (a + b)[1..] == a[1..] + b;
      QuoteMeans(a[1..], b, c);
    }
  }

  lemma {:induction false} QuoteGood(s: string)
    ensures Quotable(Quote(s))
  {
    if s != "" {
      QuoteGood(s[1..]);
    }
  }

  lemma IntGood(n: int)
    ensures DecInt(n) != "" && AllPlain(DecInt(n))
  {
    hide AllPlain, Dec;
    NoSpaceInLetters(DecInt(n));
  }

  lemma TypeGood(t: CheckType)
    ensures TypeName(t) != "" && AllPlain(TypeName(t))
  {
    hide AllPlain;
    NoSpaceInLetters(TypeName(t));
  }

  lemma WrittenGood(lib: Lib, seed: int, o: Named, k: AttrKey)
    requires FloatsOk(lib) && IntervalOk(lib, o.node)
    ensures Written(lib, seed, o, k).Some? ==> GoodValue(Written(lib, seed, o, k).value)
  {
    hide AllPlain, Quotable, Quote, DecInt, FmtNum, TypeName;
    var n := o.node;
    var v := AttrValue(lib, seed, o, k);
    if v.Some? {
      QuoteGood(v.value);
      match k
      case Type => TypeGood(n.checkType);
      case Port => IntGood(n.port);
      case NumFailures => IntGood(n.maxDown);
      case SendPings => IntGood(n.sendPings.value);
      case MinPings => IntGood(n.minPings.value);
      case _ =>
    }
  }

  lemma {:induction false} AttrLinesGood(lib: Lib, seed: int, o: Named, keys: seq<AttrKey>)
    requires FloatsOk(lib) && IntervalOk(lib, o.node)
    ensures GoodLines(AttrLines(lib, seed, o, keys))
  {
    hide Written, GoodValue, FloatsOk, IntervalOk;
    if keys != [] {
      WrittenGood(lib, seed, o, keys[0]);
      AttrLinesGood(lib, seed, o, keys[1..]);
    }
  }

  ghost predicate NameOk(name: string) {
    name != "" && AllPlain(name)
  }

  lemma CandidateOk(base: string, n: nat)
    requires NameOk(base)
    ensures NameOk(Candidate(base, n))
  {
    NoSpaceInLetters("-" + Dec(n));
    assert Candidate(base, n) == base + ("-" + Dec(n));
  }

  lemma NameForOk(host: string, used: set<string>)
    ensures NameOk(NameFor(host, used)) && NameFor(host, used) !in used
  {
    hide AllPlain, FirstFree, Candidate;
    var base := BaseName(host);
    assert NameOk(base) by {
      BaseOk(host);
    }
    if base in used {
      var k: nat :| k >= 2 && FirstFree(base, 2, used) == Candidate(base, k);
      CandidateOk(base, k);
    }
  }

  lemma BaseOk(host: string)
    ensures NameOk(BaseName(host))
  {
    NoSpaceInLetters("obj");
    assert IsPlain('_');
  }

  // ----- one object --------------------------------------------------------------------------

  /** The attributes collected from the lines for `keys`, on top of `b`. */
  function Collected(lib: Lib, seed: int, o: Named, keys: seq<AttrKey>, b: Block): Block {
    if keys == [] then b
    else
      var v := Written(lib, seed, o, keys[0]);
      Collected(lib, seed, o, keys[1..], if v.None? then b else WithAttr(b, InObject, KeyText(keys[0]), [ValueTok(v.value)]))
  }

  lemma BodyAttr(key: string, v: Value, rest: seq<Token>, b: Block)
    ensures Body([Word(key), ValueTok(v), Semi] + rest, InObject, b)
         == Body(rest, InObject, WithAttr(b, InObject, key, [ValueTok(v)]))
  {
    hide WithAttr;
    var ts := [Word(key), ValueTok(v), Semi] + rest;
    assert ts[1..][1..] == [Semi] + rest && ([Semi] + rest)[1..] == rest;
    assert AttrValues([Semi] + rest) == ([], rest);
    assert [ValueTok(v)] + [] == [ValueTok(v)];
    assert AttrValues(ts[1..]).0 == [ValueTok(v)] && AttrValues(ts[1..]).1 == rest;
  }

  /** The tokens of the attribute lines, key by key. */
  lemma AttrToksStep(lib: Lib, seed: int, o: Named, keys: seq<AttrKey>, tail: seq<Token>)
    requires keys != []
    ensures var v, more := Written(lib, seed, o, keys[0]), AllToks(AttrLines(lib, seed, o, keys[1..])) + tail;
      AllToks(AttrLines(lib, seed, o, keys)) + tail
      == if v.None? then more else [Word(KeyText(keys[0])), ValueTok(v.value), Semi] + more
  {
    hide Written, KeyText, ValueTok, AllToks;
    var line := AttrLine(lib, seed, o, keys[0]);
    AllToksSplit(line, AttrLines(lib, seed, o, keys[1..]));
    if line != [] {
      OneLine(line[0]);
    } else {
      NoLine();
    }
  }

  lemma OneLine(l: Line)
    ensures AllToks([l]) == Toks(l)
  {
    assert AllToks([l]) == Toks(l) + AllToks([]);
  }

  lemma NoLine()
    ensures AllToks([]) == []
  {
  }

  lemma {:induction false} BodyReads(lib: Lib, seed: int, o: Named, keys: seq<AttrKey>, b: Block, rest: seq<Token>)
    ensures Body(AllToks(AttrLines(lib, seed, o, keys)) + ([RBrace, Semi] + rest), InObject, b)
         == (Collected(lib, seed, o, keys, b).(closed := true), rest)
  {
    hide Written, WithAttr, KeyText, Body, AllToks, ValueTok;
    var tail := [RBrace, Semi] + rest;
    if keys == [] {
      NoLine();
      assert AllToks(AttrLines(lib, seed, o, keys)) + tail == tail;
      BodyEnd(rest, b);
    } else {
      var v := Written(lib, seed, o, keys[0]);
      var more := AllToks(AttrLines(lib, seed, o, keys[1..])) + tail;
      AttrToksStep(lib, seed, o, keys, tail);
      if v.None? {
        BodyReads(lib, seed, o, keys[1..], b, rest);
      } else {
        BodyAttr(KeyText(keys[0]), v.value, more, b);
        BodyReads(lib, seed, o, keys[1..], WithAttr(b, InObject, KeyText(keys[0]), [ValueTok(v.value)]), rest);
      }
    }
  }

  lemma BodyEnd(rest: seq<Token>, b: Block)
    ensures Body([RBrace, Semi] + rest, InObject, b) == (b.(closed := true), rest)
  {
    assert ([RBrace, Semi] + rest)[1..] == [Semi] + rest && ([Semi] + rest)[1..] == rest;
  }

  function Lookup(b: Block, k: AttrKey): Option<seq<Token>> {
    TextLookup(b, KeyText(k))
  }

  function WrittenToks(lib: Lib, seed: int, o: Named, k: AttrKey): Option<seq<Token>> {
    var v := Written(lib, seed, o, k);
    if v.None? then None else Some([ValueTok(v.value)])
  }

  function TextLookup(b: Block, k: string): Option<seq<Token>> {
    if k in b.attrs then Some(b.attrs[k]) else None
  }

  lemma TextLookupWith(b: Block, key: string, values: seq<Token>, k: string)
    requires k != "dep"
    ensures TextLookup(WithAttr(b, InObject, key, values), k)
         == if key == k && TextLookup(b, k).None? then Some(values) else TextLookup(b, k)
  {
  }

  lemma LookupWith(b: Block, key: AttrKey, values: seq<Token>, k: AttrKey)
    requires k != Dep
    ensures Lookup(WithAttr(b, InObject, KeyText(key), values), k)
         == if key == k && Lookup(b, k).None? then Some(values) else Lookup(b, k)
  {
    hide KeyText, WithAttr, TextLookup;
    DepText();
    if KeyText(k) == KeyText(Dep) {
      KeyTextInjective(k, Dep);
    }
    TextLookupWith(b, KeyText(key), values, KeyText(k));
    if KeyText(key) == KeyText(k) {
      KeyTextInjective(key, k);
    }
  }

  lemma DepsWith(b: Block, key: AttrKey, values: seq<Token>)
    ensures WithAttr(b, InObject, KeyText(key), values).deps == if key == Dep then b.deps + [values] else b.deps
  {
    hide KeyText;
    DepText();
    if KeyText(key) == KeyText(Dep) {
      KeyTextInjective(key, Dep);
    }
  }

  lemma DepText()
    ensures KeyText(Dep) == "dep"
  {
  }

  /** The collected block holds, for each key, what was written for it. */
  lemma {:induction false} CollectedLookup(lib: Lib, seed: int, o: Named, keys: seq<AttrKey>, b: Block, k: AttrKey)
    requires k != Dep
    ensures Lookup(Collected(lib, seed, o, keys, b), k)
         == if Lookup(b, k).Some? then Lookup(b, k) else if k in keys then WrittenToks(lib, seed, o, k) else None
  {
    hide Written, WithAttr, KeyText, Lookup;
    if keys != [] {
      var v := Written(lib, seed, o, keys[0]);
      var b' := if v.None? then b else WithAttr(b, InObject, KeyText(keys[0]), [ValueTok(v.value)]);
      if v.Some? {
        LookupWith(b, keys[0], [ValueTok(v.value)], k);
      }
      CollectedLookup(lib, seed, o, keys[1..], b', k);
    }
  }

  lemma {:induction false} CollectedDeps(lib: Lib, seed: int, o: Named, keys: seq<AttrKey>, b: Block)
    requires Dep !in keys
    ensures Collected(lib, seed, o, keys, b).deps == b.deps
  {
    hide Written, WithAttr, KeyText;
    if keys != [] {
      var v := Written(lib, seed, o, keys[0]);
      var b' := if v.None? then b else WithAttr(b, InObject, KeyText(keys[0]), [ValueTok(v.value)]);
      if v.Some? {
        DepsWith(b, keys[0], [ValueTok(v.value)]);
      }
      CollectedDeps(lib, seed, o, keys[1..], b');
    }
  }

  lemma {:induction false} CollectedSplit(lib: Lib, seed: int, o: Named, a: seq<AttrKey>, c: seq<AttrKey>, b: Block)
    ensures Collected(lib, seed, o, a + c, b) == Collected(lib, seed, o, c, Collected(lib, seed, o, a, b))
  {
    hide Written, WithAttr, KeyText;
    if a == [] {
      assert a + c == c;
    } else {
      assert (a + c)[1..] == a[1..] + c;
      var v := Written(lib, seed, o, a[0]);
      var b' := if v.None? then b else WithAttr(b, InObject, KeyText(a[0]), [ValueTok(v.value)]);
      CollectedSplit(lib, seed, o, a[1..], c, b');
    }
  }

  /** The block that an object's lines parse to. */
  function BlockOf(lib: Lib, seed: int, o: Named): Block {
    Collected(lib, seed, o, KeyOrder, EmptyBlock).(closed := true)
  }

  lemma KeyOrderCovers(k: AttrKey)
    requires k != Ip
    ensures k in KeyOrder
  {
    assert KeyOrder[0] == Host && KeyOrder[1] == Type && KeyOrder[2] == Port && KeyOrder[3] == Url && KeyOrder[4] == UrlText
        && KeyOrder[5] == Username && KeyOrder[6] == Password && KeyOrder[7] == DnsQuery && KeyOrder[8] == Desc
        && KeyOrder[9] == Contact && KeyOrder[10] == Group && KeyOrder[11] == ContactOn && KeyOrder[12] == NumFailures
        && KeyOrder[13] == QueueTime && KeyOrder[14] == SendPings && KeyOrder[15] == MinPings && KeyOrder[16] == Source
        && KeyOrder[17] == Dep;
  }

  lemma KeyOrderSplits()
    ensures |KeyOrder| == 18 && KeyOrder == KeyOrder[..17] + [Dep] && Dep !in KeyOrder[..17]
  {
  }

  /** What the parser resolves attribute `k` to. */
  function Read(lib: Lib, seed: int, o: Named, k: AttrKey): Option<string> {
    var v := Written(lib, seed, o, k);
    if v.None? then None else Some(v.value.text)
  }

  function ResolvedOf(lib: Lib, seed: int, o: Named): Resolved {
    Resolve(map[], BlockOf(lib, seed, o).attrs)
  }

  lemma ResolvedGet(lib: Lib, seed: int, o: Named, k: AttrKey)
    requires k != Dep
    ensures Get(ResolvedOf(lib, seed, o), k) == Read(lib, seed, o, k)
  {
    hide Collected, Written, KeyText, KeyOrder;
    CollectedLookup(lib, seed, o, KeyOrder, EmptyBlock, k);
    if k != Ip {
      KeyOrderCovers(k);
    } else {
      IpUnwritten(lib, seed, o);
    }
    var v := Written(lib, seed, o, k);
    if v.Some? {
      SubstUnset(v.value.text);
    }
  }

  lemma IpUnwritten(lib: Lib, seed: int, o: Named)
    ensures Written(lib, seed, o, Ip).None?
  {
  }

  /** The deps that the parser resolves: the parent's name, if there is a parent. */
  lemma DepsRead(lib: Lib, seed: int, o: Named)
    requires o.parent.Some? ==> NameOk(o.parent.value)
    ensures DepNames(map[], BlockOf(lib, seed, o).deps) == if o.parent.Some? then [o.parent.value] else []
  {
    hide Collected, KeyText, KeyOrder, AllPlain, Subst;
    KeyOrderSplits();
    var b := Collected(lib, seed, o, KeyOrder[..17], EmptyBlock);
    CollectedSplit(lib, seed, o, KeyOrder[..17], [Dep], EmptyBlock);
    CollectedDeps(lib, seed, o, KeyOrder[..17], EmptyBlock);
    LastDep(lib, seed, o, b);
    if o.parent.Some? {
      PlainQuote(o.parent.value);
      SubstUnset(o.parent.value);
      OneDep(Str(o.parent.value));
    }
  }

  lemma LastDep(lib: Lib, seed: int, o: Named, b: Block)
    ensures Collected(lib, seed, o, [Dep], b).deps
         == b.deps + if o.parent.Some? then [[Str(Quote(o.parent.value))]] else []
  {
    hide KeyText, WithAttr;
    if o.parent.Some? {
      var v := Literal(Quote(o.parent.value));
      assert Written(lib, seed, o, Dep) == Some(v);
      DepsWith(b, Dep, [ValueTok(v)]);
    }
  }

  lemma OneDep(t: Token)
    requires FirstValue(map[], [t]) != ""
    ensures DepNames(map[], [[t]]) == [FirstValue(map[], [t])]
  {
    assert [[t]][..0] == [];
    assert DepNames(map[], [[t]][..0]) == [];
  }

  lemma {:induction false} PlainQuote(s: string)
    requires AllPlain(s)
    ensures Quote(s) == s
  {
    if s != "" {
      PlainQuote(s[1..]);
      assert IsPlain(s[0]);
    }
  }

  lemma StatementReads(lib: Lib, seed: int, o: Named, rest: seq<Token>)
    ensures var ts := AllToks(ObjectLines(lib, seed, o)) + rest;
      ts != [] && Statement(ts) == (ObjectStmt(o.name, BlockOf(lib, seed, o)), rest)
  {
    hide AttrLines, Body, KeyOrder, Collected, AllToks, Statement, ToSemi;
    var attrs := AttrLines(lib, seed, o, KeyOrder);
    AllToksSplit([Open(o.name)] + attrs, [Close, Empty]);
    AllToksSplit([Open(o.name)], attrs);
    ShortToks(o.name);
    var inner := AllToks(attrs) + ([RBrace, Semi] + rest);
    assert AllToks(ObjectLines(lib, seed, o)) + rest == [Word("object"), Word(o.name), LBrace] + inner;
    BodyReads(lib, seed, o, KeyOrder, EmptyBlock, rest);
    ObjectReads(o.name, inner);
  }

  lemma ObjectReads(name: string, inner: seq<Token>)
    ensures var (block, rest) := Body(inner, InObject, EmptyBlock);
      Statement([Word("object"), Word(name), LBrace] + inner) == (ObjectStmt(name, block), rest)
  {
    hide Body, ToSemi;
    var ts := [Word("object"), Word(name), LBrace] + inner;
    assert ts[1..][2..] == inner;
  }

  lemma ShortToks(name: string)
    ensures AllToks([Open(name)]) == [Word("object"), Word(name), LBrace]
    ensures AllToks([Close, Empty]) == [RBrace, Semi]
  {
    assert AllToks([Open(name)]) == Toks(Open(name)) + AllToks([]);
    assert [Close, Empty][1..] == [Empty];
    assert AllToks([Empty]) == Toks(Empty) + AllToks([]);
  }

  // ----- the whole file ----------------------------------------------------------------------

  /** Head lines are remarks, blanks and `config` directives. */
  ghost predicate HeadLines(head: seq<Line>) {
    forall i :: 0 <= i < |head| ==> (head[i].Remark? || head[i].Empty? || head[i].Global?) && GoodLine(head[i])
  }

  /** The node that the parser builds for a written object. */
  function NodeBack(lib: Lib, seed: int, o: Named): Option<Node> {
    BuildNode(lib, seed, ResolvedOf(lib, seed, o))
  }

  /** The objects that survive reparsing. */
  function Kept(lib: Lib, seed: int, objs: seq<Named>): seq<Object> {
    if objs == [] then []
    else
      var node := NodeBack(lib, seed, objs[0]);
      (if node.None? then []
       else [Object(objs[0].name, node.value, if objs[0].parent.Some? then [objs[0].parent.value] else [],
                    BlockOf(lib, seed, objs[0]).attrs.Keys)])
      + Kept(lib, seed, objs[1..])
  }

  ghost predicate Fresh(objs: seq<Named>) {
    && (forall i, j :: 0 <= i < j < |objs| ==> objs[i].name != objs[j].name)
    && (forall i :: 0 <= i < |objs| && objs[i].parent.Some? ==> NameOk(objs[i].parent.value))
  }

  lemma StatementsCons(lib: Lib, seed: int, ts: seq<Token>, e: Env, stmt: Stmt, rest: seq<Token>)
    requires ts != [] && Statement(ts) == (stmt, rest)
    ensures Run(lib, seed, e, Statements(ts)) == Run(lib, seed, Step(lib, seed, e, stmt), Statements(rest))
  {
    hide Statement, Step;
    assert Statements(ts) == [stmt] + Statements(rest);
    assert ([stmt] + Statements(rest))[1..] == Statements(rest);
  }

  /** No object of `before` bears the name of one in `objs`. */
  ghost predicate Apart(before: seq<Object>, objs: seq<Named>) {
    forall i, j :: 0 <= i < |before| && 0 <= j < |objs| ==> before[i].name != objs[j].name
  }

  lemma FreshStep(lib: Lib, seed: int, before: seq<Object>, objs: seq<Named>)
    requires Fresh(objs) && Apart(before, objs) && objs != []
    ensures Fresh(objs[1..]) && !HasObject(before, objs[0].name) && (objs[0].parent.Some? ==> NameOk(objs[0].parent.value))
    ensures Apart(before + Kept(lib, seed, [objs[0]]), objs[1..])
  {
    hide NodeBack, BlockOf, NameOk;
    assert [objs[0]][1..] == [];
    assert Kept(lib, seed, []) == [];
  }

  /** The statements of the written objects add the kept objects, in order. */
  lemma {:induction false} ObjectsRead(lib: Lib, seed: int, objs: seq<Named>, before: seq<Object>)
    requires Fresh(objs) && Apart(before, objs)
    ensures Run(lib, seed, Env(map[], before, map[]), Statements(AllToks(ObjectsLines(lib, seed, objs))))
         == Env(map[], before + Kept(lib, seed, objs), map[])
  {
    hide *;
    if objs == [] {
      NoObjects(lib, seed, before);
    } else {
      var o := objs[0];
      var rest := AllToks(ObjectsLines(lib, seed, objs[1..]));
      FreshStep(lib, seed, before, objs);
      OneObjectRead(lib, seed, objs, before);
      ObjectsRead(lib, seed, objs[1..], before + Kept(lib, seed, [o]));
      KeptStep(lib, seed, objs);
      assert (before + Kept(lib, seed, [o])) + Kept(lib, seed, objs[1..]) == before + (Kept(lib, seed, [o]) + Kept(lib, seed, objs[1..]));
    }
  }

  lemma NoObjects(lib: Lib, seed: int, before: seq<Object>)
    ensures Run(lib, seed, Env(map[], before, map[]), Statements(AllToks(ObjectsLines(lib, seed, []))))
         == Env(map[], before + Kept(lib, seed, []), map[])
  {
    hide Run, Statements, AllToks;
    NoTokens(lib, seed, Env(map[], before, map[]));
    assert before + [] == before;
  }

  lemma OneObjectRead(lib: Lib, seed: int, objs: seq<Named>, before: seq<Object>)
    requires objs != [] && !HasObject(before, objs[0].name) && (objs[0].parent.Some? ==> NameOk(objs[0].parent.value))
    ensures Run(lib, seed, Env(map[], before, map[]), Statements(AllToks(ObjectsLines(lib, seed, objs))))
         == Run(lib, seed, Env(map[], before + Kept(lib, seed, [objs[0]]), map[]), Statements(AllToks(ObjectsLines(lib, seed, objs[1..]))))
  {
    hide ObjectLines, Statement, Statements, AllToks, Kept, BlockOf, NameOk, Run, Step, HasObject;
    var o, rest := objs[0], AllToks(ObjectsLines(lib, seed, objs[1..]));
    AllToksSplit(ObjectLines(lib, seed, o), ObjectsLines(lib, seed, objs[1..]));
    StatementReads(lib, seed, o, rest);
    StatementsCons(lib, seed, AllToks(ObjectsLines(lib, seed, objs)), Env(map[], before, map[]), ObjectStmt(o.name, BlockOf(lib, seed, o)), rest);
    AddedIsKept(lib, seed, o, before);
  }

  lemma NoTokens(lib: Lib, seed: int, e: Env)
    ensures Run(lib, seed, e, Statements(AllToks([]))) == e
  {
  }

  lemma KeptStep(lib: Lib, seed: int, objs: seq<Named>)
    requires objs != []
    ensures Kept(lib, seed, objs) == Kept(lib, seed, [objs[0]]) + Kept(lib, seed, objs[1..])
  {
    hide NodeBack, BlockOf;
    assert [objs[0]][1..] == [];
    assert Kept(lib, seed, []) == [];
  }

  lemma AddedIsKept(lib: Lib, seed: int, o: Named, before: seq<Object>)
    requires !HasObject(before, o.name) && (o.parent.Some? ==> NameOk(o.parent.value))
    ensures Step(lib, seed, Env(map[], before, map[]), ObjectStmt(o.name, BlockOf(lib, seed, o)))
         == Env(map[], before + Kept(lib, seed, [o]), map[])
    ensures forall i :: 0 <= i < |Kept(lib, seed, [o])| ==> Kept(lib, seed, [o])[i].name == o.name
  {
    hide BlockOf, BuildNode, DepNames, NameOk, Resolve;
    DepsRead(lib, seed, o);
    assert [o][1..] == [];
    assert Kept(lib, seed, []) == [];
  }

  lemma HeadLineRead(lib: Lib, seed: int, l: Line, rest: seq<Token>, e: Env)
    requires l.Remark? || l.Empty? || l.Global?
    ensures Run(lib, seed, e, Statements(Toks(l) + rest)) == Run(lib, seed, e, Statements(rest))
  {
    hide Statements, Run, ValueToks, Statement;
    if l.Global? {
      var ws := ValueToks(l.words);
      ValuesHaveNoSemi(l.words);
      ConfigReads(ws, rest);
      StatementsCons(lib, seed, Toks(l) + rest, e, ConfigStmt(ws), rest);
    } else {
      assert Toks(l) + rest == rest;
    }
  }

  lemma {:induction false} HeadRead(lib: Lib, seed: int, head: seq<Line>, rest: seq<Token>, e: Env)
    requires HeadLines(head)
    ensures Run(lib, seed, e, Statements(AllToks(head) + rest)) == Run(lib, seed, e, Statements(rest))
  {
    hide Statements, Run, GoodLine, Toks;
    if head == [] {
      assert AllToks(head) + rest == rest;
    } else {
      var more := AllToks(head[1..]) + rest;
      HeadRead(lib, seed, head[1..], rest, e);
      assert AllToks(head) + rest == Toks(head[0]) + more;
      HeadLineRead(lib, seed, head[0], more, e);
    }
  }

  ghost predicate NoSemi(ts: seq<Token>) {
    forall i :: 0 <= i < |ts| ==> !ts[i].Semi?
  }

  lemma {:induction false} ToSemiStops(ts: seq<Token>, rest: seq<Token>)
    requires NoSemi(ts)
    ensures ToSemi(ts + ([Semi] + rest)) == (ts, rest)
  {
    if ts == [] {
      assert ts + ([Semi] + rest) == [Semi] + rest && ([Semi] + rest)[1..] == rest;
    } else {
      assert (ts + ([Semi] + rest))[1..] == ts[1..] + ([Semi] + rest);
      ToSemiStops(ts[1..], rest);
      assert [ts[0]] + ts[1..] == ts;
    }
  }

  lemma {:induction false} ValuesHaveNoSemi(ws: seq<Value>)
    ensures NoSemi(ValueToks(ws))
  {
    if ws != [] {
      ValuesHaveNoSemi(ws[1..]);
    }
  }

  lemma ConfigReads(ws: seq<Token>, rest: seq<Token>)
    requires NoSemi(ws)
    ensures Statement([Word("config")] + ws + [Semi] + rest) == (ConfigStmt(ws), rest)
  {
    ToSemiStops(ws, rest);
    assert ([Word("config")] + ws + [Semi] + rest)[1..] == ws + ([Semi] + rest);
  }
}
