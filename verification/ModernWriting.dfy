/** Modern files written and read: every token however it is spaced, every statement however its block is written. */
module ModernWriting {
  import opened Text
  import opened Lexer
  import opened ModernSyntax

  // ----- tokens ------------------------------------------------------------------------------

  function Spell(t: Token): string {
    match t
    case Word(v) => v
    case Str(v) => "\"" + v + "\""
    case LBrace => "{"
    case RBrace => "}"
    case Equals => "="
    case Semi => ";"
  }

  /** A character of a bareword. */
  predicate WordChar(c: char) {
    c != '"' && c != '{' && c != '}' && c != '=' && c != ';' && c != '#' && !IsSpace(c)
  }

  ghost predicate Printable(t: Token) {
    match t
    case Word(v) => v != "" && forall i :: 0 <= i < |v| ==> WordChar(v[i])
    case Str(v) => forall i :: 0 <= i < |v| ==> v[i] != '"' && v[i] != '\n'
    case _ => true
  }

  /** Blanks and line breaks. */
  ghost predicate IsGap(g: string) {
    forall i :: 0 <= i < |g| ==> g[i] == ' ' || g[i] == '\t' || g[i] == '\r' || g[i] == '\n'
  }

  /** Each token behind its gap. */
  function TextOf(ts: seq<Token>, gaps: seq<string>): string
    requires |gaps| == |ts|
  {
    if ts == [] then "" else gaps[0] + Spell(ts[0]) + TextOf(ts[1..], gaps[1..])
  }

  /** Two words need a gap between them. A `;` at the start of a line, or behind another `;` or a `{`, would be a comment. */
  ghost predicate Fits(ts: seq<Token>, gaps: seq<string>, boundary: bool, afterWord: bool)
    requires |gaps| == |ts|
  {
    ts == [] ||
    (&& Printable(ts[0]) && IsGap(gaps[0])
     && (afterWord && ts[0].Word? ==> gaps[0] != "")
     && (ts[0].Semi? ==> !boundary && '\n' !in gaps[0])
     && Fits(ts[1..], gaps[1..], ts[0].Semi? || ts[0].LBrace?, ts[0].Word?))
  }

  lemma {:induction false} GapSkipped(g: string, t: string, b: bool)
    requires IsGap(g)
    ensures Lex(g + t, b) == Lex(t, b || '\n' in g)
    decreases g
  {
    if g == "" {
      assert g + t == t;
    } else {
      assert (g + t)[1..] == g[1..] + t && (g + t)[0] == g[0];
      GapSkipped(g[1..], t, b || g[0] == '\n');
      assert '\n' in g <==> g[0] == '\n' || '\n' in g[1..];
    }
  }

  lemma LexEquals(t: string, b: bool)
    ensures Lex("=" + t, b) == Cons(Equals, Lex(t, false))
  {
    assert ("=" + t)[1..] == t;
  }

  lemma {:induction false} TokenRead(t: Token, rest: string, b: bool)
    requires Printable(t) && (t.Semi? ==> !b) && (t.Word? && rest != "" ==> !WordChar(rest[0]))
    ensures Lex(Spell(t) + rest, b) == Cons(t, Lex(rest, t.Semi? || t.LBrace?))
  {
    hide Lex;
    match t
    case Word(v) =>
      assert forall i :: 0 <= i < |v| ==> IsPlain(v[i]);
      LexWord(v, rest, b);
    case Str(v) =>
      assert Spell(t) + rest == "\"" + v + "\"" + rest;
      LexString(v, rest, b);
    case LBrace => LexOpen(rest, b);
    case RBrace => LexClose(rest, b);
    case Equals => LexEquals(rest, b);
    case Semi => LexSemi(rest);
  }

  lemma {:induction false} StopsWord(ts: seq<Token>, gaps: seq<string>, b: bool)
    requires |gaps| == |ts| && Fits(ts, gaps, b, true)
    ensures TextOf(ts, gaps) != "" ==> !WordChar(TextOf(ts, gaps)[0])
  {
    if ts != [] {
      if gaps[0] != "" {
        assert TextOf(ts, gaps)[0] == gaps[0][0];
      } else {
        assert gaps[0] + Spell(ts[0]) == Spell(ts[0]);
        assert TextOf(ts, gaps)[0] == Spell(ts[0])[0];
      }
    }
  }

  /** Whatever tokens are written, with whatever gaps, are the tokens read. */
  lemma {:induction false} TokensRead(ts: seq<Token>, gaps: seq<string>, b: bool, afterWord: bool)
    requires |gaps| == |ts| && Fits(ts, gaps, b, afterWord)
    ensures Lex(TextOf(ts, gaps), b) == Tokens(ts)
    decreases ts
  {
    hide Lex, Spell, Printable;
    if ts == [] {
      NothingRead(b);
    } else {
      var rest := TextOf(ts[1..], gaps[1..]);
      assert gaps[0] + Spell(ts[0]) + rest == gaps[0] + (Spell(ts[0]) + rest);
      GapSkipped(gaps[0], Spell(ts[0]) + rest, b);
      if ts[0].Word? {
        StopsWord(ts[1..], gaps[1..], false);
      }
      TokenRead(ts[0], rest, b || '\n' in gaps[0]);
      TokensRead(ts[1..], gaps[1..], ts[0].Semi? || ts[0].LBrace?, ts[0].Word?);
      assert [ts[0]] + ts[1..] == ts;
    }
  }

  lemma NothingRead(b: bool)
    ensures Lex("", b) == Tokens([])
  {
  }

  /** A comment reaches to the end of its line: from `#` anywhere, from `;` where a statement could begin. */
  lemma CommentsSkipped(c: string, rest: string, b: bool)
    requires '\n' !in c
    ensures Lex("#" + c + "\n" + rest, b) == Lex(rest, true)
    ensures Lex(";" + c + "\n" + rest, true) == Lex(rest, true)
  {
    var t, u := "#" + c + "\n" + rest, ";" + c + "\n" + rest;
    LineEnds(c, rest);
    assert t[1..] == c + "\n" + rest && u[1..] == c + "\n" + rest;
    assert t[1 + |c|..] == "\n" + rest && u[1 + |c|..] == "\n" + rest;
    LexNewline(rest, b);
    LexNewline(rest, true);
  }

  lemma {:induction false} LineEnds(c: string, rest: string)
    requires '\n' !in c
    ensures LineLength(c + "\n" + rest) == |c|
  {
    if c != "" {
      assert (c + "\n" + rest)[1..] == c[1..] + "\n" + rest;
      assert (c + "\n" + rest)[0] == c[0];
      LineEnds(c[1..], rest);
    }
  }

  // ----- statements --------------------------------------------------------------------------

  /** One attribute of a block, written with or without an equals sign. */
  datatype Item = Item(key: string, equals: bool, values: seq<Token>)

  datatype Piece =
    | Config(args: seq<Token>)
    | Set(args: seq<Token>)
    | Root(args: seq<Token>)
    | Include
    | Object(name: string, items: seq<Item>)
    | Group(title: Token, items: seq<Item>)

  ghost predicate Values(ts: seq<Token>) {
    forall i :: 0 <= i < |ts| ==> ts[i].Word? || ts[i].Str?
  }

  ghost predicate Args(ts: seq<Token>) {
    forall i :: 0 <= i < |ts| ==> ts[i].Word? || ts[i].Str? || ts[i].Equals?
  }

  ghost predicate Written(p: Piece) {
    match p
    case Config(args) => Args(args)
    case Set(args) => Args(args)
    case Root(args) => Args(args)
    case Include => true
    case Object(_, items) => forall i :: 0 <= i < |items| ==> Values(items[i].values)
    case Group(name, items) => (name.Word? || name.Str?) && forall i :: 0 <= i < |items| ==> Values(items[i].values)
  }

  function ItemToks(it: Item): seq<Token> {
    [Word(it.key)] + (if it.equals then [Equals] else []) + it.values + [Semi]
  }

  function ItemsToks(items: seq<Item>): seq<Token> {
    if items == [] then [] else ItemToks(items[0]) + ItemsToks(items[1..])
  }

  function PieceToks(p: Piece): seq<Token> {
    match p
    case Config(args) => [Word("config")] + args + [Semi]
    case Set(args) => [Word("set")] + args + [Semi]
    case Root(args) => [Word("root")] + args + [Semi]
    case Include => [Word("include")]
    case Object(name, items) => [Word("object"), Word(name), LBrace] + (ItemsToks(items) + [RBrace, Semi])
    case Group(name, items) => [Word("group"), name, LBrace] + (ItemsToks(items) + [RBrace, Semi])
  }

  /** The values of the first attribute with this key. */
  function FirstValues(items: seq<Item>, key: string): seq<Token>
    requires exists i :: 0 <= i < |items| && items[i].key == key
  {
    if items[0].key == key then items[0].values else FirstValues(items[1..], key)
  }

  function KeysOf(items: seq<Item>): set<string> {
    set i | 0 <= i < |items| :: items[i].key
  }

  /** The values of all deps, in order; only objects have any. */
  function AllDeps(items: seq<Item>, kind: Kind): seq<seq<Token>> {
    if items == [] then []
    else (if kind == InObject && items[0].key == "dep" then [items[0].values] else []) + AllDeps(items[1..], kind)
  }

  /** What a block says: per key what was written first; an object's deps all together and apart. */
  ghost function Says(items: seq<Item>, kind: Kind): Block {
    Block(map k | k in KeysOf(items) && !(kind == InObject && k == "dep") :: FirstValues(items, k), AllDeps(items, kind), true)
  }

  ghost function Means(p: Piece): Stmt {
    match p
    case Config(args) => ConfigStmt(args)
    case Set(args) => SetStmt(args)
    case Root(args) => RootStmt(args)
    case Include => IncludeStmt
    case Object(name, items) => ObjectStmt(name, Says(items, InObject))
    case Group(name, items) => GroupStmt(ValueOf(name), Says(items, InGroup))
  }

  lemma {:induction false} ToSemiReads(args: seq<Token>, rest: seq<Token>)
    requires Args(args)
    ensures ToSemi(args + ([Semi] + rest)) == (args, rest)
  {
    var ts := args + ([Semi] + rest);
    if args == [] {
      assert ts == [Semi] + rest;
      assert ts[1..] == rest;
    } else {
      assert ts[0] == args[0] && ts[1..] == args[1..] + ([Semi] + rest);
      ToSemiReads(args[1..], rest);
      assert [args[0]] + args[1..] == args;
    }
  }

  lemma {:induction false} AttrReads(values: seq<Token>, rest: seq<Token>)
    requires Args(values)
    ensures AttrValues(values + ([Semi] + rest)) == (values, rest)
  {
    var ts := values + ([Semi] + rest);
    if values == [] {
      assert ts == [Semi] + rest;
      assert ts[1..] == rest;
    } else {
      assert ts[0] == values[0] && ts[1..] == values[1..] + ([Semi] + rest);
      AttrReads(values[1..], rest);
      assert [values[0]] + values[1..] == values;
    }
  }

  lemma {:induction false} ItemReads(it: Item, rest: seq<Token>, kind: Kind, b: Block)
    requires Values(it.values)
    ensures Body(ItemToks(it) + rest, kind, b) == Body(rest, kind, WithAttr(b, kind, it.key, it.values))
  {
    hide WithAttr, AttrValues;
    var written := (if it.equals then [Equals] else []) + it.values;
    var ts := ItemToks(it) + rest;
    assert ts[0] == Word(it.key) && ts[1..] == written + ([Semi] + rest);
    AttrReads(written, rest);
    assert DropEquals(written) == it.values by {
      if it.equals {
        assert written[1..] == it.values;
      } else {
        assert written == it.values;
      }
    }
  }

  /** The attributes read behind those read before. */
  ghost function Joined(b: Block, items: seq<Item>, kind: Kind): Block {
    Block(Says(items, kind).attrs + b.attrs, b.deps + AllDeps(items, kind), true)
  }

  predicate Kept(kind: Kind, k: string) {
    !(kind == InObject && k == "dep")
  }

  /** What a block that starts with `it` says of key `k`. */
  lemma {:induction false} SaysNext(items: seq<Item>, kind: Kind, k: string)
    requires items != []
    ensures var all, rest := Says(items, kind).attrs, Says(items[1..], kind).attrs;
            && (k in all <==> Kept(kind, k) && (k == items[0].key || k in rest))
            && (k in all ==> all[k] == if k == items[0].key then items[0].values else rest[k])
  {
    KeysNext(items);
    if k in KeysOf(items[1..]) && k != items[0].key {
      FirstElsewhere(items, k);
    }
  }

  lemma {:induction false} WithAttrMeans(b: Block, kind: Kind, key: string, values: seq<Token>, k: string)
    ensures var b' := WithAttr(b, kind, key, values);
            && (k in b'.attrs <==> k in b.attrs || (k == key && Kept(kind, k)))
            && (k in b.attrs ==> b'.attrs[k] == b.attrs[k])
            && (k !in b.attrs && k in b'.attrs ==> b'.attrs[k] == values)
            && b'.deps == b.deps + if Kept(kind, key) then [] else [values]
  {
  }

  lemma {:induction false} JoinedNext(b: Block, items: seq<Item>, kind: Kind)
    requires items != []
    ensures Joined(WithAttr(b, kind, items[0].key, items[0].values), items[1..], kind) == Joined(b, items, kind)
  {
    hide WithAttr, Says, Kept;
    var b' := WithAttr(b, kind, items[0].key, items[0].values);
    var left, right := Says(items[1..], kind).attrs + b'.attrs, Says(items, kind).attrs + b.attrs;
    forall k
      ensures (k in left <==> k in right) && (k in left ==> left[k] == right[k])
    {
      SaysNext(items, kind, k);
      WithAttrMeans(b, kind, items[0].key, items[0].values, k);
      RestIsKept(items[1..], kind, k);
    }
    assert left == right;
    WithAttrMeans(b, kind, items[0].key, items[0].values, "");
    DepsNext(b, items, kind);
  }

  lemma {:induction false} RestIsKept(items: seq<Item>, kind: Kind, k: string)
    ensures k in Says(items, kind).attrs ==> Kept(kind, k)
  {
  }

  lemma {:induction false} DepsNext(b: Block, items: seq<Item>, kind: Kind)
    requires items != []
    ensures b.deps + (if Kept(kind, items[0].key) then [] else [items[0].values]) + AllDeps(items[1..], kind) == b.deps + AllDeps(items, kind)
  {
  }

  lemma {:induction false} KeysNext(items: seq<Item>)
    requires items != []
    ensures KeysOf(items) == {items[0].key} + KeysOf(items[1..])
  {
    forall k | k in KeysOf(items[1..])
      ensures k in KeysOf(items)
    {
      var i :| 0 <= i < |items[1..]| && items[1..][i].key == k;
      assert items[i + 1].key == k;
    }
    forall k | k in KeysOf(items)
      ensures k in {items[0].key} + KeysOf(items[1..])
    {
      var i :| 0 <= i < |items| && items[i].key == k;
      if i > 0 {
        assert items[1..][i - 1].key == k;
      }
    }
  }

  lemma {:induction false} FirstElsewhere(items: seq<Item>, k: string)
    requires items != [] && k in KeysOf(items[1..]) && k != items[0].key
    ensures k in KeysOf(items) && FirstValues(items, k) == FirstValues(items[1..], k)
  {
    KeysNext(items);
  }

  lemma {:induction false} BodyReads(items: seq<Item>, rest: seq<Token>, kind: Kind, b: Block)
    requires forall i :: 0 <= i < |items| ==> Values(items[i].values)
    ensures Body(ItemsToks(items) + ([RBrace, Semi] + rest), kind, b) == (Joined(b, items, kind), rest)
    decreases items
  {
    hide Body, ItemToks, WithAttr, Joined;
    var tail := [RBrace, Semi] + rest;
    if items == [] {
      assert ItemsToks(items) + tail == tail;
      BodyEnds(rest, kind, b);
    } else {
      assert ItemsToks(items) + tail == ItemToks(items[0]) + (ItemsToks(items[1..]) + tail);
      ItemReads(items[0], ItemsToks(items[1..]) + tail, kind, b);
      BodyReads(items[1..], rest, kind, WithAttr(b, kind, items[0].key, items[0].values));
      JoinedNext(b, items, kind);
    }
  }

  lemma {:induction false} BodyEnds(rest: seq<Token>, kind: Kind, b: Block)
    ensures Body([RBrace, Semi] + rest, kind, b) == (Joined(b, [], kind), rest)
  {
    var tail := [RBrace, Semi] + rest;
    assert tail[1..] == [Semi] + rest && ([Semi] + rest)[1..] == rest;
    assert Says([], kind).attrs + b.attrs == b.attrs && b.deps + AllDeps([], kind) == b.deps;
  }

  lemma {:induction false} FreshBlock(items: seq<Item>, kind: Kind)
    ensures Joined(EmptyBlock, items, kind) == Says(items, kind)
  {
    assert Says(items, kind).attrs + map[] == Says(items, kind).attrs && [] + AllDeps(items, kind) == AllDeps(items, kind);
  }

  lemma {:induction false} BlockReads(word: string, name: Token, items: seq<Item>, rest: seq<Token>)
    requires forall i :: 0 <= i < |items| ==> Values(items[i].values)
    requires (word == "object" && name.Word?) || (word == "group" && (name.Word? || name.Str?))
    ensures Statement([Word(word), name, LBrace] + (ItemsToks(items) + [RBrace, Semi]) + rest)
         == (if word == "object" then ObjectStmt(ValueOf(name), Says(items, InObject)) else GroupStmt(ValueOf(name), Says(items, InGroup)), rest)
  {
    hide Body, ToSemi, Says, Joined;
    var inner := ItemsToks(items) + ([RBrace, Semi] + rest);
    var ts := [Word(word), name, LBrace] + (ItemsToks(items) + [RBrace, Semi]) + rest;
    assert ts == [Word(word), name, LBrace] + inner;
    assert ts[1..] == [name, LBrace] + inner && ts[1..][2..] == inner;
    var kind := if word == "object" then InObject else InGroup;
    BodyReads(items, rest, kind, EmptyBlock);
    FreshBlock(items, kind);
  }

  lemma {:induction false} LineReads(word: string, args: seq<Token>, rest: seq<Token>)
    requires Args(args)
    ensures word == "config" ==> Statement([Word(word)] + args + [Semi] + rest) == (ConfigStmt(args), rest)
    ensures word == "set" ==> Statement([Word(word)] + args + [Semi] + rest) == (SetStmt(args), rest)
    ensures word == "root" ==> Statement([Word(word)] + args + [Semi] + rest) == (RootStmt(args), rest)
  {
    hide ToSemi;
    assert ([Word(word)] + args + [Semi] + rest)[1..] == args + ([Semi] + rest);
    ToSemiReads(args, rest);
  }

  /** Every statement, however its block is written, is read as what it says, and what follows it is left. */
  lemma {:induction false} PieceReads(p: Piece, rest: seq<Token>)
    requires Written(p)
    ensures PieceToks(p) + rest != [] && Statement(PieceToks(p) + rest) == (Means(p), rest)
  {
    hide Says, ToSemi, Body;
    match p
    case Config(args) => LineReads("config", args, rest);
    case Set(args) => LineReads("set", args, rest);
    case Root(args) => LineReads("root", args, rest);
    case Include => assert ([Word("include")] + rest)[1..] == rest;
    case Object(name, items) => BlockReads("object", Word(name), items, rest);
    case Group(name, items) => BlockReads("group", name, items, rest);
  }

  // ----- malformed statements ----------------------------------------------------------------

  /** What is not a statement is skipped to its `;`: an unknown word, or a string or sign where a word should stand. */
  lemma {:induction false} StraysSkipped(t: Token, args: seq<Token>, rest: seq<Token>)
    requires Args(args) && (t.Word? || t.Str? || t.Equals?)
    requires t.Word? ==> t.value !in ["config", "set", "root", "object", "group", "include"]
    ensures Statement([t] + args + [Semi] + rest) == (Skipped, rest)
  {
    hide ToSemi, NamedBlock;
    assert [t] + args + [Semi] + rest == ([t] + args) + ([Semi] + rest);
    ToSemiReads([t] + args, rest);
  }

  /** So is an object or a group without a body. */
  lemma {:induction false} BodilessSkipped(word: string, name: Token, args: seq<Token>, rest: seq<Token>)
    requires Args(args) && ((word == "object" && name.Word?) || (word == "group" && (name.Word? || name.Str?)))
    ensures Statement([Word(word), name] + args + [Semi] + rest) == (Skipped, rest)
  {
    hide ToSemi, Body;
    var ts := [name] + args + [Semi] + rest;
    assert ([Word(word), name] + args + [Semi] + rest)[1..] == ts;
    assert ts[1..] == args + ([Semi] + rest);
    ToSemiReads(args, rest);
    assert !ts[1].LBrace? by {
      if args != [] {
        assert ts[1] == args[0];
      }
    }
  }

  /** The name of an object is a bareword: with a string in its place nothing is declared, and reading goes on behind the
      next `;`. */
  lemma {:induction false} QuotedObjectSkipped(v: string, ts: seq<Token>)
    ensures Statement([Word("object"), Str(v)] + ts) == (Skipped, ToSemi(ts).1)
  {
    var all := [Word("object"), Str(v)] + ts;
    assert all[1..] == [Str(v)] + ts && ([Str(v)] + ts)[1..] == ts;
  }

  /** A block without a name is skipped whole, and so is a `;` behind it. */
  lemma {:induction false} NamelessSkipped(word: string, inner: seq<Token>, rest: seq<Token>)
    requires (word == "object" || word == "group") && Balanced(inner)
    ensures Statement([Word(word), LBrace] + inner + [RBrace] + ([Semi] + rest)) == (Skipped, rest)
    ensures (rest != [] ==> !rest[0].Semi?) ==> Statement([Word(word), LBrace] + inner + [RBrace] + rest) == (Skipped, rest)
  {
    hide ToSemi, Body, SkipBalanced, Balanced;
    var a, b := [Word(word), LBrace] + inner + [RBrace] + ([Semi] + rest), [Word(word), LBrace] + inner + [RBrace] + rest;
    assert a[1..] == [LBrace] + (inner + [RBrace] + ([Semi] + rest)) && b[1..] == [LBrace] + (inner + [RBrace] + rest);
    assert a[1..][1..] == inner + [RBrace] + ([Semi] + rest) && b[1..][1..] == inner + [RBrace] + rest;
    SkipsToMatchingBrace(inner, [Semi] + rest);
    SkipsToMatchingBrace(inner, rest);
    assert ([Semi] + rest)[1..] == rest;
  }

  lemma {:induction false} ToSemiEnds(args: seq<Token>)
    requires Args(args)
    ensures ToSemi(args) == (args, [])
  {
    if args != [] {
      ToSemiEnds(args[1..]);
      assert [args[0]] + args[1..] == args;
    }
  }

  lemma {:induction false} BodyUnclosed(items: seq<Item>, kind: Kind, b: Block)
    requires forall i :: 0 <= i < |items| ==> Values(items[i].values)
    ensures Body(ItemsToks(items), kind, b) == (Joined(b, items, kind).(closed := b.closed), [])
    decreases items
  {
    hide Body, ItemToks, WithAttr, Joined;
    if items == [] {
      NothingInside(kind, b);
    } else {
      ItemReads(items[0], ItemsToks(items[1..]), kind, b);
      BodyUnclosed(items[1..], kind, WithAttr(b, kind, items[0].key, items[0].values));
      JoinedNext(b, items, kind);
      StaysOpen(b, kind, items[0].key, items[0].values);
    }
  }

  lemma {:induction false} NothingInside(kind: Kind, b: Block)
    ensures Body([], kind, b) == (Joined(b, [], kind).(closed := b.closed), [])
  {
    assert Says([], kind).attrs + b.attrs == b.attrs && b.deps + AllDeps([], kind) == b.deps;
  }

  lemma {:induction false} StaysOpen(b: Block, kind: Kind, key: string, values: seq<Token>)
    ensures WithAttr(b, kind, key, values).closed == b.closed
  {
  }

  /** At the end of the file a line needs no `;`, and a block that is not closed keeps what it has said, marked as unclosed. */
  lemma {:induction false} FileMayEnd(args: seq<Token>, name: string, items: seq<Item>)
    requires Args(args) && forall i :: 0 <= i < |items| ==> Values(items[i].values)
    ensures Statement([Word("config")] + args) == (ConfigStmt(args), []) && Statement([Word("set")] + args) == (SetStmt(args), [])
    ensures Statement([Word("object"), Word(name), LBrace] + ItemsToks(items)) == (ObjectStmt(name, Says(items, InObject).(closed := false)), [])
  {
    hide ToSemi, Body, Joined, Says;
    ToSemiEnds(args);
    assert ([Word("config")] + args)[1..] == args && ([Word("set")] + args)[1..] == args;
    var ts := [Word("object"), Word(name), LBrace] + ItemsToks(items);
    assert ts[1..] == [Word(name), LBrace] + ItemsToks(items) && ts[1..][2..] == ItemsToks(items);
    BodyUnclosed(items, InObject, EmptyBlock);
    FreshBlock(items, InObject);
  }

  function AllToks(ps: seq<Piece>): seq<Token> {
    if ps == [] then [] else PieceToks(ps[0]) + AllToks(ps[1..])
  }

  ghost function AllMean(ps: seq<Piece>): seq<Stmt> {
    if ps == [] then [] else [Means(ps[0])] + AllMean(ps[1..])
  }

  lemma {:induction false} PiecesRead(ps: seq<Piece>)
    requires forall i :: 0 <= i < |ps| ==> Written(ps[i])
    ensures Statements(AllToks(ps)) == AllMean(ps)
  {
    hide Statement, Means, PieceToks, Written;
    if ps != [] {
      PieceReads(ps[0], AllToks(ps[1..]));
      PiecesRead(ps[1..]);
    }
  }

  /** A file written statement by statement, its tokens spaced in any way that keeps them apart, is read as its statements. */
  lemma {:induction false} FileReads(ps: seq<Piece>, gaps: seq<string>)
    requires (forall i :: 0 <= i < |ps| ==> Written(ps[i])) && |gaps| == |AllToks(ps)| && Fits(AllToks(ps), gaps, true, false)
    ensures var lexed := Lex(TextOf(AllToks(ps), gaps), true);
            lexed.Tokens? && Statements(lexed.tokens) == AllMean(ps)
  {
    hide Lex, Fits, TextOf, Statements, AllMean, AllToks, Written;
    TokensRead(AllToks(ps), gaps, true, false);
    PiecesRead(ps);
  }
}
