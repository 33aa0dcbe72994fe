/** What the tokenizer and the statement parser make of the text that the serializer writes. */
module Emission {
  import opened Text
  import opened Lexer
  import opened ModernBuild
  import opened Convert

  // ----- lines to tokens ---------------------------------------------------------------------

  function ValueTok(v: Value): Token {
    match v
    case Bareword(t) => Word(t)
    case Literal(t) => Str(t)
  }

  function ValueToks(ws: seq<Value>): seq<Token> {
    if ws == [] then [] else [ValueTok(ws[0])] + ValueToks(ws[1..])
  }

  /** The tokens a line stands for. */
  function Toks(l: Line): seq<Token> {
    match l
    case Remark(_) => []
    case Empty => []
    case Open(name) => [Word("object"), Word(name), LBrace]
    case Attr(k, v) => [Word(KeyText(k)), ValueTok(v), Semi]
    case Close => [RBrace, Semi]
    case Global(ws) => [Word("config")] + ValueToks(ws) + [Semi]
  }

  function AllToks(ls: seq<Line>): seq<Token> {
    if ls == [] then [] else Toks(ls[0]) + AllToks(ls[1..])
  }

  ghost predicate GoodValue(v: Value) {
    match v
    case Bareword(t) => t != "" && AllPlain(t)
    case Literal(t) => Quotable(t)
  }

  /** Names and barewords are barewords indeed, strings have no quote or line break, remarks stay on their line. */
  ghost predicate GoodLine(l: Line) {
    match l
    case Remark(t) => forall i :: 0 <= i < |t| ==> t[i] != '\n'
    case Open(name) => name != "" && AllPlain(name)
    case Attr(_, v) => GoodValue(v)
    case Global(ws) => forall i :: 0 <= i < |ws| ==> GoodValue(ws[i])
    case Empty => true
    case Close => true
  }

  ghost predicate GoodLines(ls: seq<Line>) {
    forall i :: 0 <= i < |ls| ==> GoodLine(ls[i])
  }

  lemma NoSpaceInLetters(s: string)
    requires forall i :: 0 <= i < |s| ==> 'a' <= s[i] <= 'z' || IsDigit(s[i]) || s[i] == '_' || s[i] == '-' || s[i] == '.'
    ensures AllPlain(s)
  {
  }

  lemma KeywordPlain(k: AttrKey)
    ensures KeyText(k) != "" && AllPlain(KeyText(k))
  {
    hide IsPlain, AllPlain;
    NoSpaceInLetters(KeyText(k));
  }

  lemma LexValue(v: Value, t: string, b: bool)
    requires GoodValue(v) && t != "" && !IsPlain(t[0])
    ensures Lex(ValueText(v) + t, b) == Cons(ValueTok(v), Lex(t, false))
  {
    hide Lex, IsPlain, AllPlain, Quotable;
    match v
    case Bareword(w) => LexWord(w, t, b);
    case Literal(s) =>
      LexString(s, t, b);
  }

  lemma {:induction false} LexWords(ws: seq<Value>, t: string)
    requires forall i :: 0 <= i < |ws| ==> GoodValue(ws[i])
    ensures Lex(WordsText(ws) + ";" + t, false) == Prepend(ValueToks(ws) + [Semi], Lex(t, true))
  {
    hide Lex, IsPlain, GoodValue, ValueText;
    if ws == [] {
      assert WordsText(ws) + ";" + t == ";" + t;
      LexSemi(t);
    } else {
      var rest := WordsText(ws[1..]) + ";" + t;
      assert WordsText(ws) + ";" + t == " " + (ValueText(ws[0]) + rest);
      LexBlank(ValueText(ws[0]) + rest, false);
      StopsWord(ws[1..], t);
      LexValue(ws[0], rest, false);
      LexWords(ws[1..], t);
      PrependTwice([ValueTok(ws[0])], ValueToks(ws[1..]) + [Semi], Lex(t, true));
      assert [ValueTok(ws[0])] + (ValueToks(ws[1..]) + [Semi]) == ValueToks(ws) + [Semi];
    }
  }

  lemma StopsWord(ws: seq<Value>, t: string)
    ensures WordsText(ws) + ";" + t != "" && !IsPlain((WordsText(ws) + ";" + t)[0])
  {
    if ws == [] {
      assert (WordsText(ws) + ";" + t)[0] == ';';
    } else {
      assert (WordsText(ws) + ";" + t)[0] == ' ';
    }
  }

  lemma PrependTwice(a: seq<Token>, b: seq<Token>, rest: Lexed)
    ensures Prepend(a, Prepend(b, rest)) == Prepend(a + b, rest)
    ensures |a| == 1 ==> Cons(a[0], rest) == Prepend(a, rest)
  {
    if rest.Tokens? {
      assert a + (b + rest.tokens) == (a + b) + rest.tokens;
    }
  }

  lemma SpecialsStop()
    ensures !IsPlain(';') && !IsPlain(' ') && !IsPlain('\n') && !IsPlain('{') && !IsPlain('}')
  {
  }

  lemma LexOpenLine(name: string, t: string)
    requires name != "" && AllPlain(name)
    ensures Lex(LineText(Open(name)) + "\n" + t, true) == Prepend(Toks(Open(name)), Lex(t, true))
  {
    hide Lex, IsPlain, AllPlain;
    SpecialsStop();
    var r1 := " {" + "\n" + t;
    var r2 := " " + name + r1;
    assert LineText(Open(name)) + "\n" + t == "object" + r2;
    NoSpaceInLetters("object");
    LexWord("object", r2, true);
    assert r2 == " " + (name + r1);
    LexBlank(name + r1, false);
    LexWord(name, r1, false);
    assert r1 == " " + ("{" + ("\n" + t));
    LexBlank("{" + ("\n" + t), false);
    LexOpen("\n" + t, false);
    LexNewline(t, true);
    PrependTwice([Word(name)], [LBrace], Lex(t, true));
    PrependTwice([Word("object")], [Word(name), LBrace], Lex(t, true));
    PrependTwice([LBrace], [], Lex(t, true));
  }

  lemma LexAttrLine(k: AttrKey, v: Value, t: string)
    requires GoodValue(v)
    ensures Lex(LineText(Attr(k, v)) + "\n" + t, true) == Prepend(Toks(Attr(k, v)), Lex(t, true))
  {
    hide Lex, IsPlain, AllPlain, GoodValue, ValueText, KeyText;
    SpecialsStop();
    KeywordPlain(k);
    var end := ";" + ("\n" + t);
    var value := " " + (ValueText(v) + end);
    assert LineText(Attr(k, v)) + "\n" + t == " " + (" " + (KeyText(k) + value));
    LexBlank(" " + (KeyText(k) + value), true);
    LexBlank(KeyText(k) + value, true);
    LexWord(KeyText(k), value, true);
    LexBlank(ValueText(v) + end, false);
    LexValue(v, end, false);
    LexSemi("\n" + t);
    LexNewline(t, true);
    PrependTwice([Semi], [], Lex(t, true));
    PrependTwice([ValueTok(v)], [Semi], Lex(t, true));
    PrependTwice([Word(KeyText(k))], [ValueTok(v), Semi], Lex(t, true));
  }

  lemma LexCloseLine(t: string)
    ensures Lex(LineText(Close) + "\n" + t, true) == Prepend(Toks(Close), Lex(t, true))
  {
    hide Lex;
    assert LineText(Close) + "\n" + t == "}" + (";" + ("\n" + t));
    LexClose(";" + ("\n" + t), true);
    LexSemi("\n" + t);
    LexNewline(t, true);
    PrependTwice([Semi], [], Lex(t, true));
    PrependTwice([RBrace], [Semi], Lex(t, true));
  }

  lemma LexGlobalLine(ws: seq<Value>, t: string)
    requires forall i :: 0 <= i < |ws| ==> GoodValue(ws[i])
    ensures Lex(LineText(Global(ws)) + "\n" + t, true) == Prepend(Toks(Global(ws)), Lex(t, true))
  {
    hide Lex, IsPlain, AllPlain, GoodValue, WordsText, ValueToks;
    var rest := WordsText(ws) + ";" + ("\n" + t);
    assert LineText(Global(ws)) + "\n" + t == "config" + rest;
    StopsWord(ws, "\n" + t);
    NoSpaceInLetters("config");
    LexWord("config", rest, true);
    LexWords(ws, "\n" + t);
    LexNewline(t, true);
    PrependTwice([Word("config")], ValueToks(ws) + [Semi], Lex(t, true));
    assert [Word("config")] + (ValueToks(ws) + [Semi]) == Toks(Global(ws));
  }

  /** Every line reads back as its tokens, whatever follows. */
  lemma LexLine(l: Line, t: string)
    requires GoodLine(l)
    ensures Lex(LineText(l) + "\n" + t, true) == Prepend(Toks(l), Lex(t, true))
  {
    hide Lex, GoodValue, AllPlain;
    match l
    case Open(name) => LexOpenLine(name, t);
    case Attr(k, v) => LexAttrLine(k, v, t);
    case Close => LexCloseLine(t);
    case Global(ws) => LexGlobalLine(ws, t);
    case Empty =>
      assert LineText(l) + "\n" + t == "\n" + t;
      LexNewline(t, true);
      PrependNothing(Lex(t, true));
    case Remark(s) =>
      LexComment(s, t, true);
      PrependNothing(Lex(t, true));
  }

  lemma {:induction false} LexLines(ls: seq<Line>)
    requires GoodLines(ls)
    ensures Lex(Join(ls) + "\n", true) == Tokens(AllToks(ls))
  {
    hide Lex, GoodLine, Toks, LineText;
    if |ls| <= 1 {
      LexNothing();
      if ls == [] {
        assert Join(ls) + "\n" == "\n" + "";
        LexNewline("", true);
      } else {
        LexLine(ls[0], "");
        assert LineText(ls[0]) + "\n" + "" == Join(ls) + "\n";
        assert AllToks(ls) == Toks(ls[0]);
      }
    } else {
      LexLine(ls[0], Join(ls[1..]) + "\n");
      assert LineText(ls[0]) + "\n" + (Join(ls[1..]) + "\n") == Join(ls) + "\n";
      LexLines(ls[1..]);
    }
  }

  lemma LexNothing()
    ensures Lex("", true) == Tokens([])
  {
  }

  // ----- trailing blank lines ----------------------------------------------------------------

  function DropBlank(ls: seq<Line>): seq<Line> {
    if ls != [] && ls[|ls| - 1].Empty? then DropBlank(ls[..|ls| - 1]) else ls
  }

  lemma {:induction false} AllToksSplit(a: seq<Line>, b: seq<Line>)
    ensures AllToks(a + b) == AllToks(a) + AllToks(b)
  {
    if a == [] {
      assert a + b == b;
    } else {
      assert (a + b)[1..] == a[1..] + b;
      AllToksSplit(a[1..], b);
    }
  }

  lemma {:induction false} JoinSplit(a: seq<Line>, l: Line)
    requires a != []
    ensures Join(a + [l]) == Join(a) + "\n" + LineText(l)
  {
    hide LineText;
    if |a| > 1 {
      assert (a + [l])[1..] == a[1..] + [l];
      JoinSplit(a[1..], l);
    } else {
      assert (a + [l])[1..] == [l];
    }
  }

  lemma LineEnd(l: Line)
    requires GoodLine(l) && !l.Empty?
    ensures var t := LineText(l); t != "" && t[|t| - 1] != '\n'
  {
  }

  lemma {:induction false} DropBlankKeeps(ls: seq<Line>)
    requires GoodLines(ls)
    ensures GoodLines(DropBlank(ls)) && AllToks(DropBlank(ls)) == AllToks(ls)
  {
    hide GoodLine;
    if ls != [] && ls[|ls| - 1].Empty? {
      var front := ls[..|ls| - 1];
      assert ls == front + [Empty];
      DropBlankKeeps(front);
      AllToksSplit(front, [Empty]);
      assert AllToks([Empty]) == [];
    }
  }

  /** Stripping the final newlines is dropping the final blank lines. */
  lemma {:induction false} StripIsDropBlank(ls: seq<Line>)
    requires GoodLines(ls)
    ensures StripNewlines(Join(ls)) == Join(DropBlank(ls))
  {
    hide GoodLine, LineText, AllToks, Join;
    JoinShort();
    if ls != [] {
      var front, last := ls[..|ls| - 1], ls[|ls| - 1];
      assert ls == front + [last];
      if front != [] {
        JoinSplit(front, last);
      } else {
        assert ls == [last];
        JoinOne(last);
      }
      if last.Empty? {
        EmptyText();
        StripIsDropBlank(front);
        if front != [] {
          assert Join(ls)[..|Join(ls)| - 1] == Join(front);
        }
      } else {
        LineEnd(last);
      }
    }
  }

  lemma JoinShort()
    ensures Join([]) == ""
  {
  }

  lemma JoinOne(l: Line)
    ensures Join([l]) == LineText(l)
  {
  }

  lemma EmptyText()
    ensures LineText(Empty) == ""
  {
  }

  /** The written file reads back as the tokens of its lines. */
  lemma FileTokens(lib: Lib, seed: int, head: seq<Line>, forest: seq<Tree>)
    requires GoodLines(FileLines(lib, seed, head, forest))
    ensures Lex(FileText(lib, seed, head, forest), true) == Tokens(AllToks(FileLines(lib, seed, head, forest)))
  {
    hide Lex, FileLines, GoodLines, Join, StripNewlines, DropBlank, AllToks;
    var ls := FileLines(lib, seed, head, forest);
    StripIsDropBlank(ls);
    DropBlankKeeps(ls);
    LexLines(DropBlank(ls));
  }
}
