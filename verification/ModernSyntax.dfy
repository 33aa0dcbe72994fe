/** The statement grammar of the modern format, with its recovery from malformed input. */
module ModernSyntax {
  import opened Lexer

  /** The attributes of a `{ ... }` body: first value wins per key, except that an object's deps accumulate. */
  datatype Block = Block(attrs: map<string, seq<Token>>, deps: seq<seq<Token>>, closed: bool)

  datatype Kind = InObject | InGroup

  datatype Stmt =
    | ConfigStmt(args: seq<Token>)
    | SetStmt(args: seq<Token>)
    | RootStmt(args: seq<Token>)
    | ObjectStmt(name: string, block: Block)
    | GroupStmt(name: string, block: Block)
    | IncludeStmt
    | Skipped

  // ----- the grammar, on the tokens still ahead ----------------------------------------------

  /** Tokens up to and without the next `;`, and what follows it. */
  function ToSemi(ts: seq<Token>): (r: (seq<Token>, seq<Token>))
    ensures |r.1| <= |ts| && (ts != [] ==> |r.1| < |ts|)
  {
    if ts == [] then ([], [])
    else if ts[0].Semi? then ([], ts[1..])
    else
      var (args, rest) := ToSemi(ts[1..]);
      ([ts[0]] + args, rest)
  }

  /** What follows the `}` that closes `depth` open braces. */
  function SkipBalanced(ts: seq<Token>, depth: nat): (rest: seq<Token>)
    ensures |rest| <= |ts|
  {
    if ts == [] || depth == 0 then ts
    else if ts[0].LBrace? then SkipBalanced(ts[1..], depth + 1)
    else if ts[0].RBrace? then SkipBalanced(ts[1..], depth - 1)
    else SkipBalanced(ts[1..], depth)
  }

  function SkipSemi(ts: seq<Token>): (rest: seq<Token>)
    ensures |rest| <= |ts|
  {
    if ts != [] && ts[0].Semi? then ts[1..] else ts
  }

  /** An attribute's value tokens: up to `;` (consumed), `}` (left), or an inner block (skipped whole). */
  function AttrValues(ts: seq<Token>): (r: (seq<Token>, seq<Token>))
    ensures |r.1| <= |ts| && (ts != [] && !ts[0].RBrace? ==> |r.1| < |ts|)
  {
    if ts == [] || ts[0].RBrace? then ([], ts)
    else if ts[0].Semi? then ([], ts[1..])
    else if ts[0].LBrace? then ([], SkipSemi(SkipBalanced(ts[1..], 1)))
    else
      var (values, rest) := AttrValues(ts[1..]);
      ([ts[0]] + values, rest)
  }

  /** `key = value` reads as `key value`. */
  function DropEquals(values: seq<Token>): seq<Token> {
    if values != [] && values[0].Equals? then values[1..] else values
  }

  function WithAttr(b: Block, kind: Kind, key: string, values: seq<Token>): Block {
    if key == "dep" && kind == InObject then b.(deps := b.deps + [values])
    else if key in b.attrs then b
    else b.(attrs := b.attrs[key := values])
  }

  /** The rest of a body whose attributes so far are `b`, and what follows its `}` (and a `;`, if there). */
  function Body(ts: seq<Token>, kind: Kind, b: Block): (r: (Block, seq<Token>))
    ensures |r.1| <= |ts|
    decreases |ts|
  {
    if ts == [] then (b, [])
    else if ts[0].RBrace? then (b.(closed := true), SkipSemi(ts[1..]))
    else if !ts[0].Word? then Body(AttrValues(ts).1, kind, b)
    else
      var (values, rest) := AttrValues(ts[1..]);
      Body(rest, kind, WithAttr(b, kind, ts[0].value, DropEquals(values)))
  }

  const EmptyBlock := Block(map[], [], false)

  /** After a missing name: skip a body if one follows, else run to the `;`. */
  function Recover(ts: seq<Token>): (rest: seq<Token>)
    ensures |rest| <= |ts|
  {
    if ts != [] && ts[0].LBrace? then SkipSemi(SkipBalanced(ts[1..], 1)) else ToSemi(ts).1
  }

  /** What follows the keyword `object` or `group`. */
  function NamedBlock(ts: seq<Token>, kind: Kind): (r: (Stmt, seq<Token>))
    ensures |r.1| <= |ts|
  {
    if ts == [] || !(ts[0].Word? || (kind == InGroup && ts[0].Str?)) then (Skipped, Recover(ts))
    else if |ts| == 1 || !ts[1].LBrace? then (Skipped, ToSemi(ts[1..]).1)
    else
      var (block, rest) := Body(ts[2..], kind, EmptyBlock);
      (if kind == InObject then ObjectStmt(ts[0].value, block) else GroupStmt(ts[0].value, block), rest)
  }

  /** The statement at the head, and the tokens after it: always at least one fewer. */
  function Statement(ts: seq<Token>): (r: (Stmt, seq<Token>))
    requires ts != []
    ensures |r.1| < |ts|
  {
    if !ts[0].Word? then (Skipped, ToSemi(ts).1)
    else
      var word, rest := ts[0].value, ts[1..];
      if word == "config" then (ConfigStmt(ToSemi(rest).0), ToSemi(rest).1)
      else if word == "set" then (SetStmt(ToSemi(rest).0), ToSemi(rest).1)
      else if word == "root" then (RootStmt(ToSemi(rest).0), ToSemi(rest).1)
      else if word == "object" then NamedBlock(rest, InObject)
      else if word == "group" then NamedBlock(rest, InGroup)
      else if word == "include" then (IncludeStmt, rest)
      else (Skipped, ToSemi(ts).1)
  }

  function Statements(ts: seq<Token>): seq<Stmt>
    decreases |ts|
  {
    if ts == [] then []
    else
      var (stmt, rest) := Statement(ts);
      [stmt] + Statements(rest)
  }

  // ----- the parser object -------------------------------------------------------------------

  class Parser {
    const toks: seq<Token>
    var i: nat

    constructor (toks: seq<Token>)
      ensures this.toks == toks && i == 0
    {
      this.toks := toks;
      i := 0;
    }

    ghost predicate Valid()
      reads this
    {
      i <= |toks|
    }

    /** The tokens not consumed yet. */
    ghost function Ahead(): seq<Token>
      reads this
      requires Valid()
    {
      toks[i..]
    }

    method CollectToSemi() returns (args: seq<Token>)
      requires Valid()
      modifies this
      ensures Valid() && args == ToSemi(old(Ahead())).0 && Ahead() == ToSemi(old(Ahead())).1
    {
      args := [];
      ghost var start := Ahead();
      while i < |toks|
        invariant Valid() && ToSemi(start).0 == args + ToSemi(Ahead()).0 && ToSemi(start).1 == ToSemi(Ahead()).1
        decreases |toks| - i
      {
        var tok := toks[i];
        assert Ahead()[0] == tok && Ahead()[1..] == toks[i + 1..];
        i := i + 1;
        if tok.Semi? {
          return;
        }
        assert args + ([tok] + ToSemi(Ahead()).0) == (args + [tok]) + ToSemi(Ahead()).0;
        args := args + [tok];
      }
    }

    method SkipToMatching()
      requires Valid()
      modifies this
      ensures Valid() && Ahead() == SkipBalanced(old(Ahead()), 1)
    {
      var depth: nat := 1;
      while i < |toks| && depth > 0
        invariant Valid() && SkipBalanced(old(Ahead()), 1) == SkipBalanced(Ahead(), depth)
        decreases |toks| - i
      {
        var tok := toks[i];
        assert Ahead()[0] == tok && Ahead()[1..] == toks[i + 1..];
        i := i + 1;
        if tok.LBrace? {
          depth := depth + 1;
        } else if tok.RBrace? {
          depth := depth - 1;
        }
      }
    }

    method TakeSemi()
      requires Valid()
      modifies this
      ensures Valid() && Ahead() == SkipSemi(old(Ahead()))
    {
      if i < |toks| && toks[i].Semi? {
        assert Ahead()[1..] == toks[i + 1..];
        i := i + 1;
      }
    }

    method CollectAttr() returns (values: seq<Token>)
      requires Valid()
      modifies this
      ensures Valid() && values == AttrValues(old(Ahead())).0 && Ahead() == AttrValues(old(Ahead())).1
    {
      values := [];
      ghost var start := Ahead();
      while i < |toks|
        invariant Valid() && AttrValues(start).0 == values + AttrValues(Ahead()).0 && AttrValues(start).1 == AttrValues(Ahead()).1
        decreases |toks| - i
      {
        var tok := toks[i];
        assert Ahead()[0] == tok && Ahead()[1..] == toks[i + 1..];
        if tok.RBrace? {
          return;
        }
        i := i + 1;
        if tok.Semi? {
          return;
        }
        if tok.LBrace? {
          SkipToMatching();
          TakeSemi();
          return;
        }
        assert values + ([tok] + AttrValues(Ahead()).0) == (values + [tok]) + AttrValues(Ahead()).0;
        values := values + [tok];
      }
    }

    method CollectBlockAttrs(kind: Kind) returns (block: Block)
      requires Valid()
      modifies this
      ensures Valid() && block == Body(old(Ahead()), kind, EmptyBlock).0 && Ahead() == Body(old(Ahead()), kind, EmptyBlock).1
    {
      hide AttrValues, WithAttr, SkipSemi, DropEquals;
      block := EmptyBlock;
      ghost var start := Ahead();
      while i < |toks|
        invariant Valid() && Body(start, kind, EmptyBlock) == Body(Ahead(), kind, block)
        decreases |toks| - i
      {
        var tok := toks[i];
        assert Ahead()[0] == tok && Ahead()[1..] == toks[i + 1..];
        if tok.RBrace? {
          i := i + 1;
          TakeSemi();
          block := block.(closed := true);
          return;
        }
        if !tok.Word? {
          var _ := CollectAttr();
          continue;
        }
        i := i + 1;
        var values := CollectAttr();
        block := WithAttr(block, kind, tok.value, DropEquals(values));
      }
    }

    /** Reads the statement at the head; at least one token is consumed. */
    method ParseStatement() returns (stmt: Stmt)
      requires Valid() && i < |toks|
      modifies this
      ensures Valid() && i > old(i)
      ensures stmt == Statement(old(Ahead())).0 && Ahead() == Statement(old(Ahead())).1
    {
      var tok := toks[i];
      ghost var start := Ahead();
      assert start[0] == tok && start[1..] == toks[i + 1..];
      if !tok.Word? {
        var _ := CollectToSemi();
        return Skipped;
      }
      if tok.value == "config" {
        i := i + 1;
        var args := CollectToSemi();
        return ConfigStmt(args);
      } else if tok.value == "set" {
        i := i + 1;
        var args := CollectToSemi();
        return SetStmt(args);
      } else if tok.value == "root" {
        i := i + 1;
        var args := CollectToSemi();
        return RootStmt(args);
      } else if tok.value == "object" {
        i := i + 1;
        stmt := ParseNamedBlock(InObject);
      } else if tok.value == "group" {
        i := i + 1;
        stmt := ParseNamedBlock(InGroup);
      } else if tok.value == "include" {
        i := i + 1;
        return IncludeStmt;
      } else {
        var _ := CollectToSemi();
        return Skipped;
      }
    }

    method ParseNamedBlock(kind: Kind) returns (stmt: Stmt)
      requires Valid()
      modifies this
      ensures Valid() && i >= old(i)
      ensures stmt == NamedBlock(old(Ahead()), kind).0 && Ahead() == NamedBlock(old(Ahead()), kind).1
    {
      ghost var start := Ahead();
      if i == |toks| || !(toks[i].Word? || (kind == InGroup && toks[i].Str?)) {
        if i < |toks| && toks[i].LBrace? {
          assert start[1..] == toks[i + 1..];
          i := i + 1;
          SkipToMatching();
          TakeSemi();
        } else {
          var _ := CollectToSemi();
        }
        return Skipped;
      }
      var name := toks[i].value;
      assert start[0] == toks[i] && start[1..] == toks[i + 1..];
      i := i + 1;
      if i == |toks| || !toks[i].LBrace? {
        var _ := CollectToSemi();
        return Skipped;
      }
      assert start[2..] == toks[i + 1..];
      i := i + 1;
      var block := CollectBlockAttrs(kind);
      stmt := if kind == InObject then ObjectStmt(name, block) else GroupStmt(name, block);
    }

    /** The whole file: every turn consumes a token, and no index runs past the end. */
    method ParseTop() returns (stmts: seq<Stmt>)
      requires i == 0
      modifies this
      ensures stmts == Statements(toks)
    {
      stmts := [];
      assert toks[0..] == toks;
      while i < |toks|
        invariant Valid() && Statements(toks) == stmts + Statements(Ahead())
        decreases |toks| - i
      {
        ghost var before := Ahead();
        var stmt := ParseStatement();
        assert stmts + ([stmt] + Statements(Ahead())) == (stmts + [stmt]) + Statements(Ahead());
        stmts := stmts + [stmt];
      }
    }
  }

  // ----- inner braces ------------------------------------------------------------------------

  /** Opening minus closing braces. */
  function Net(ts: seq<Token>): int {
    if ts == [] then 0
    else (if ts[0].LBrace? then 1 else if ts[0].RBrace? then -1 else 0) + Net(ts[1..])
  }

  /** Every `}` in `ts` closes a `{` in `ts`, and none stays open. */
  ghost predicate Balanced(ts: seq<Token>) {
    Net(ts) == 0 && forall k :: 0 <= k <= |ts| ==> Net(ts[..k]) >= 0
  }

  lemma {:induction false} SkipThrough(ts: seq<Token>, rest: seq<Token>, depth: nat)
    requires forall k :: 0 <= k <= |ts| ==> depth + Net(ts[..k]) > 0
    ensures depth + Net(ts) > 0 && SkipBalanced(ts + rest, depth) == SkipBalanced(rest, depth + Net(ts))
  {
    assert ts[..|ts|] == ts && ts[..0] == [];
    if ts == [] {
      assert ts + rest == rest;
    } else {
      var d := depth + Net(ts[..1]);
      assert Net(ts[..1]) == Net([ts[0]]) by {
        assert ts[..1] == [ts[0]];
      }
      forall k | 0 <= k <= |ts[1..]|
        ensures d + Net(ts[1..][..k]) > 0
      {
        assert ts[..k + 1][1..] == ts[1..][..k];
        assert Net(ts[..k + 1]) == Net([ts[0]]) + Net(ts[1..][..k]);
      }
      SkipThrough(ts[1..], rest, d);
      assert (ts + rest)[1..] == ts[1..] + rest;
    }
  }

  /** A skipped block ends at its matching brace, however deep its contents nest. */
  lemma SkipsToMatchingBrace(inner: seq<Token>, rest: seq<Token>)
    requires Balanced(inner)
    ensures SkipBalanced(inner + [RBrace] + rest, 1) == rest
  {
    SkipThrough(inner, [RBrace] + rest, 1);
    assert inner + [RBrace] + rest == inner + ([RBrace] + rest);
    assert ([RBrace] + rest)[1..] == rest;
  }

  /** Value tokens: no brace and no `;` among them. */
  ghost predicate PlainValues(vs: seq<Token>) {
    forall i :: 0 <= i < |vs| ==> !vs[i].Semi? && !vs[i].LBrace? && !vs[i].RBrace?
  }

  lemma {:induction false} ValuesThenRest(vs: seq<Token>, rest: seq<Token>)
    requires PlainValues(vs) && rest != [] && (rest[0].Semi? || rest[0].LBrace? || rest[0].RBrace?)
    ensures AttrValues(vs + rest) == (vs + AttrValues(rest).0, AttrValues(rest).1)
  {
    if vs == [] {
      assert vs + rest == rest;
    } else {
      assert (vs + rest)[1..] == vs[1..] + rest;
      ValuesThenRest(vs[1..], rest);
      assert [vs[0]] + (vs[1..] + AttrValues(rest).0) == vs + AttrValues(rest).0;
    }
  }

  /** An inner `{ ... }` in an object body is skipped through its matching brace: the attribute keeps the values
      before it, and the attributes after it still belong to the same object. */
  lemma InnerBlockStaysInside(key: string, vs: seq<Token>, inner: seq<Token>, rest: seq<Token>, kind: Kind, b: Block)
    requires PlainValues(vs) && Balanced(inner)
    ensures Body([Word(key)] + vs + [LBrace] + inner + [RBrace] + rest, kind, b) ==
            Body(SkipSemi(rest), kind, WithAttr(b, kind, key, DropEquals(vs)))
  {
    var tail := [LBrace] + inner + [RBrace] + rest;
    var ts := [Word(key)] + vs + [LBrace] + inner + [RBrace] + rest;
    assert ts[1..] == vs + tail;
    ValuesThenRest(vs, tail);
    assert tail[1..] == inner + [RBrace] + rest;
    SkipsToMatchingBrace(inner, rest);
    assert vs + [] == vs;
  }
}
