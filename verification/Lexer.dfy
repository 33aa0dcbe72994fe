/** The tokenizer of the modern configuration grammar. */
module Lexer {
  import opened Text

  datatype Token = Word(value: string) | Str(value: string) | LBrace | RBrace | Equals | Semi

  /** The lexeme; punctuation has none. */
  function ValueOf(t: Token): string {
    match t
    case Word(v) => v
    case Str(v) => v
    case _ => ""
  }

  predicate IsSpecial(c: char) {
    c in ['"', '{', '}', '=', ';', '#']
  }

  predicate IsBlank(c: char) {
    c == ' ' || c == '\t' || c == '\r'
  }

  /** A character that a bareword may contain. */
  predicate IsPlain(c: char) {
    !IsSpecial(c) && !IsSpace(c)
  }

  /** Tokens; or a string that does not end on its line; or a position where the scanner makes no progress. */
  datatype Lexed = Tokens(tokens: seq<Token>) | Unterminated | Stuck

  function Cons(t: Token, rest: Lexed): Lexed {
    if rest.Tokens? then Tokens([t] + rest.tokens) else rest
  }

  function Prepend(ts: seq<Token>, rest: Lexed): Lexed {
    if rest.Tokens? then Tokens(ts + rest.tokens) else rest
  }

  /** How many characters precede the end of the line. */
  function LineLength(t: string): (n: nat)
    ensures n <= |t| && (n < |t| ==> t[n] == '\n') && forall i :: 0 <= i < n ==> t[i] != '\n'
  {
    if t == "" || t[0] == '\n' then 0 else 1 + LineLength(t[1..])
  }

  /** How many characters precede a closing quote or the end of the line. */
  function QuoteLength(t: string): (n: nat)
    ensures n <= |t| && (n < |t| ==> t[n] == '"' || t[n] == '\n') && forall i :: 0 <= i < n ==> t[i] != '"' && t[i] != '\n'
  {
    if t == "" || t[0] == '"' || t[0] == '\n' then 0 else 1 + QuoteLength(t[1..])
  }

  /** How long the bareword at the start is. */
  function WordLength(t: string): (n: nat)
    ensures n <= |t| && (n < |t| ==> !IsPlain(t[n])) && forall i :: 0 <= i < n ==> IsPlain(t[i])
  {
    if t == "" || !IsPlain(t[0]) then 0 else 1 + WordLength(t[1..])
  }

  /** The tokens of `t`; `boundary` says whether a `;` here would start a comment. */
  function Lex(t: string, boundary: bool): Lexed
    decreases |t|
  {
    if t == "" then Tokens([])
    else
      var c := t[0];
      if c == '\n' then Lex(t[1..], true)
      else if IsBlank(c) then Lex(t[1..], boundary)
      else if c == '#' || (c == ';' && boundary) then Lex(t[1 + LineLength(t[1..])..], boundary)
      else if c == '"' then
        var n := QuoteLength(t[1..]);
        if 1 + n >= |t| || t[1 + n] == '\n' then Unterminated
        else Cons(Str(t[1..1 + n]), Lex(t[2 + n..], false))
      else if c == ';' then Cons(Semi, Lex(t[1..], true))
      else if c == '{' then Cons(LBrace, Lex(t[1..], true))
      else if c == '}' then Cons(RBrace, Lex(t[1..], false))
      else if c == '=' then Cons(Equals, Lex(t[1..], false))
      else
        var n := WordLength(t);
        if n == 0 then Stuck else Cons(Word(t[..n]), Lex(t[n..], false))
  }

  // ----- when the scanner hangs --------------------------------------------------------------

  /** A one-character-at-a-time view: in code (at a boundary or not), in a comment, or in a string. */
  datatype Mode = Code(boundary: bool) | Comment | Quoted

  datatype Scan = Fine | OpenString | Hang

  /** Whitespace that the scanner does not skip. */
  predicate IsOddSpace(c: char) {
    IsSpace(c) && c != '\n' && !IsBlank(c)
  }

  function Scanned(t: string, m: Mode): Scan {
    if t == "" then (if m.Quoted? then OpenString else Fine)
    else
      var c := t[0];
      match m
      case Comment => Scanned(t[1..], if c == '\n' then Code(true) else Comment)
      case Quoted => if c == '\n' then OpenString else Scanned(t[1..], if c == '"' then Code(false) else Quoted)
      case Code(b) =>
        if IsOddSpace(c) then Hang
        else if c == '\n' then Scanned(t[1..], Code(true))
        else if IsBlank(c) then Scanned(t[1..], m)
        else if c == '#' || (c == ';' && b) then Scanned(t[1..], Comment)
        else if c == '"' then Scanned(t[1..], Quoted)
        else Scanned(t[1..], Code(c == ';' || c == '{'))
  }

  lemma {:induction false} CommentScanned(t: string)
    ensures Scanned(t, Comment) == Scanned(t[LineLength(t)..], Code(true))
  {
    if t != "" && t[0] != '\n' {
      CommentScanned(t[1..]);
      assert t[LineLength(t)..] == t[1..][LineLength(t[1..])..];
    } else if t != "" {
      assert t[0..] == t;
      assert !IsOddSpace(t[0]);
    }
  }

  lemma {:induction false} QuotedScanned(t: string)
    ensures var n := QuoteLength(t);
            Scanned(t, Quoted) == if n >= |t| || t[n] == '\n' then OpenString else Scanned(t[n + 1..], Code(false))
  {
    if t != "" && t[0] != '"' && t[0] != '\n' {
      QuotedScanned(t[1..]);
      var n := QuoteLength(t[1..]);
      if n < |t[1..]| {
        assert t[n + 2..] == t[1..][n + 1..];
      }
    }
  }

  lemma {:induction false} WordScanned(t: string, b: bool)
    ensures var n := WordLength(t); n > 0 ==> Scanned(t, Code(b)) == Scanned(t[n..], Code(false))
  {
    if t != "" && IsPlain(t[0]) {
      assert Scanned(t, Code(b)) == Scanned(t[1..], Code(false));
      if t[1..] != "" && IsPlain(t[1]) {
        WordScanned(t[1..], false);
        assert t[WordLength(t)..] == t[1..][WordLength(t[1..])..];
      }
    }
  }

  /** The tokenizer and the character scan come to the same end. */
  ghost predicate SameEnd(t: string, b: bool) {
    && (Lex(t, b).Stuck? <==> Scanned(t, Code(b)) == Hang)
    && (Lex(t, b).Unterminated? <==> Scanned(t, Code(b)) == OpenString)
  }

  lemma EndAtBlank(t: string, b: bool)
    requires t != "" && (t[0] == '\n' || IsBlank(t[0])) && SameEnd(t[1..], t[0] == '\n' || b)
    ensures SameEnd(t, b)
  {
  }

  lemma EndAtComment(t: string, b: bool)
    requires t != "" && (t[0] == '#' || (t[0] == ';' && b)) && SameEnd(t[1 + LineLength(t[1..])..], b)
    ensures SameEnd(t, b)
  {
    var n := LineLength(t[1..]);
    CommentScanned(t[1..]);
    assert t[1 + n..] == t[1..][n..];
    AfterComment(t[1 + n..], b);
  }

  lemma EndAtQuote(t: string, b: bool)
    requires t != "" && t[0] == '"'
    requires var n := QuoteLength(t[1..]); 1 + n < |t| && t[1 + n] != '\n' ==> SameEnd(t[2 + n..], false)
    ensures SameEnd(t, b)
  {
    var n := QuoteLength(t[1..]);
    QuotedScanned(t[1..]);
    if 1 + n < |t| && t[1 + n] != '\n' {
      assert t[2 + n..] == t[1..][n + 1..];
    }
  }

  lemma EndAtSpecial(t: string, b: bool)
    requires t != "" && IsSpecial(t[0]) && t[0] != '#' && t[0] != '"' && !(t[0] == ';' && b)
    requires SameEnd(t[1..], t[0] == ';' || t[0] == '{')
    ensures SameEnd(t, b)
  {
  }

  lemma EndAtWord(t: string, b: bool)
    requires t != "" && !IsSpecial(t[0]) && t[0] != '\n' && !IsBlank(t[0])
    requires WordLength(t) > 0 ==> SameEnd(t[WordLength(t)..], false)
    ensures SameEnd(t, b)
  {
    if WordLength(t) > 0 {
      WordScanned(t, b);
    }
  }

  lemma {:induction false} EndsAgree(t: string, b: bool)
    ensures SameEnd(t, b)
    decreases |t|
  {
    hide SameEnd;
    if t == "" {
      EndAtNothing(b);
    } else if t[0] == '\n' || IsBlank(t[0]) {
      EndsAgree(t[1..], t[0] == '\n' || b);
      EndAtBlank(t, b);
    } else if t[0] == '#' || (t[0] == ';' && b) {
      EndsAgree(t[1 + LineLength(t[1..])..], b);
      EndAtComment(t, b);
    } else if t[0] == '"' {
      var n := QuoteLength(t[1..]);
      if 1 + n < |t| && t[1 + n] != '\n' {
        EndsAgree(t[2 + n..], false);
      }
      EndAtQuote(t, b);
    } else if IsSpecial(t[0]) {
      EndsAgree(t[1..], t[0] == ';' || t[0] == '{');
      EndAtSpecial(t, b);
    } else {
      if WordLength(t) > 0 {
        EndsAgree(t[WordLength(t)..], false);
      }
      EndAtWord(t, b);
    }
  }

  lemma EndAtNothing(b: bool)
    ensures SameEnd("", b)
  {
  }

  /** The tokenizer comes to an end exactly on the texts in which no whitespace other than blank, tab, carriage
      return and newline stands outside strings and comments, up to the first unterminated string; and then it
      reports that string if there is one. */
  lemma HangsExactlyOnOddSpace(t: string, b: bool)
    ensures Lex(t, b).Stuck? <==> Scanned(t, Code(b)) == Hang
    ensures Lex(t, b).Unterminated? <==> Scanned(t, Code(b)) == OpenString
  {
    hide Lex, Scanned;
    EndsAgree(t, b);
  }

  /** After a comment only a newline or the end can follow, so the boundary flag does not matter. */
  lemma AfterComment(t: string, b: bool)
    requires t == "" || t[0] == '\n'
    ensures Lex(t, b) == Lex(t, true) && Scanned(t, Code(b)) == Scanned(t, Code(true))
  {
  }

  /** What one turn of the scanning loop consumes, and the boundary flag it leaves. */
  function Turn(t: string, b: bool): (r: (nat, bool))
    requires t != "" && !Lex(t, b).Unterminated?
    ensures r.0 <= |t|
  {
    var c := t[0];
    if c == '\n' then (1, true)
    else if IsBlank(c) then (1, b)
    else if c == '#' || (c == ';' && b) then (1 + LineLength(t[1..]), b)
    else if c == '"' then (2 + QuoteLength(t[1..]), false)
    else if IsSpecial(c) then (1, c == ';' || c == '{')
    else (WordLength(t), false)
  }

  /** A turn moves on unless it stands before odd whitespace, and passes the fate of the rest on. */
  lemma TurnMoves(t: string, b: bool)
    requires t != "" && !Lex(t, b).Unterminated?
    ensures var (n, b') := Turn(t, b);
            && (n == 0 <==> IsOddSpace(t[0]))
            && (Lex(t, b).Stuck? ==> Lex(t[n..], b').Stuck?)
  {
    hide LineLength, QuoteLength;
  }

  /** The text still ahead after `n` turns of the loop. */
  ghost function Ahead(t: string, b: bool, n: nat): string
    requires Lex(t, b).Stuck?
  {
    if n == 0 then t
    else
      TurnMoves(t, b);
      var (k, b') := Turn(t, b);
      Ahead(t[k..], b', n - 1)
  }

  /** On a text that gets it stuck, the loop never ends: after any number of turns there is text ahead. */
  lemma {:induction false} StuckLoopsForever(t: string, b: bool, n: nat)
    requires Lex(t, b).Stuck?
    ensures Ahead(t, b, n) != ""
  {
    if n > 0 {
      TurnMoves(t, b);
      var (k, b') := Turn(t, b);
      StuckLoopsForever(t[k..], b', n - 1);
    }
  }

  // The defining equation of `Lex` at position `i` of a text, one lexeme kind at a time.

  lemma LexAtSimple(text: string, i: nat, b: bool)
    requires i < |text|
    ensures var c, lexed := text[i], Lex(text[i..], b);
            && (c == '\n' ==> lexed == Lex(text[i + 1..], true))
            && (IsBlank(c) ==> lexed == Lex(text[i + 1..], b))
            && (c == ';' && !b ==> lexed == Cons(Semi, Lex(text[i + 1..], true)))
            && (c == '{' ==> lexed == Cons(LBrace, Lex(text[i + 1..], true)))
            && (c == '}' ==> lexed == Cons(RBrace, Lex(text[i + 1..], false)))
            && (c == '=' ==> lexed == Cons(Equals, Lex(text[i + 1..], false)))
  {
    hide LineLength, QuoteLength, WordLength, Cons;
    assert text[i..] != "" && text[i..][0] == text[i] && text[i..][1..] == text[i + 1..];
  }

  lemma LexAtComment(text: string, i: nat, b: bool)
    requires i < |text| && (text[i] == '#' || (text[i] == ';' && b))
    ensures Lex(text[i..], b) == Lex(text[i + 1 + LineLength(text[i + 1..])..], b)
  {
    hide LineLength, QuoteLength, WordLength, Cons;
    var t := text[i..];
    assert t != "" && t[0] == text[i] && t[1..] == text[i + 1..];
    assert t[1 + LineLength(text[i + 1..])..] == text[i + 1 + LineLength(text[i + 1..])..];
  }

  lemma LexAtQuote(text: string, i: nat, b: bool)
    requires i < |text| && text[i] == '"'
    ensures var n := i + 1 + QuoteLength(text[i + 1..]);
            if n >= |text| || text[n] == '\n' then Lex(text[i..], b) == Unterminated
            else Lex(text[i..], b) == Cons(Str(text[i + 1..n]), Lex(text[n + 1..], false))
  {
    hide LineLength, QuoteLength, WordLength, Cons;
    var t, n := text[i..], QuoteLength(text[i + 1..]);
    assert t != "" && t[0] == text[i] && t[1..] == text[i + 1..];
    assert t[1..1 + n] == text[i + 1..i + 1 + n];
    if 2 + n <= |t| {
      assert t[2 + n..] == text[i + 2 + n..];
    }
  }

  lemma LexAtWord(text: string, i: nat, b: bool)
    requires i < |text| && !IsSpecial(text[i]) && text[i] != '\n' && !IsBlank(text[i])
    ensures var n := i + WordLength(text[i..]);
            if n == i then Lex(text[i..], b) == Stuck
            else Lex(text[i..], b) == Cons(Word(text[i..n]), Lex(text[n..], false))
  {
    hide LineLength, QuoteLength, WordLength, Cons;
    var t, n := text[i..], WordLength(text[i..]);
    assert t != "" && t[0] == text[i];
    assert t[..n] == text[i..i + n] && t[n..] == text[i + n..];
  }

  /** The scanner: a loop over the text with one inner loop per kind of lexeme. */
  method Tokenize(text: string) returns (result: Lexed)
    requires Scanned(text, Code(true)) != Hang
    ensures result == Lex(text, true) && !result.Stuck?
  {
    hide *;
    HangsExactlyOnOddSpace(text, true);
    var tokens: seq<Token> := [];
    var i, boundary := 0, true;
    assert text[0..] == text;
    PrependNothing(Lex(text, true));
    while i < |text|
      invariant 0 <= i <= |text|
      invariant Lex(text, true) == Prepend(tokens, Lex(text[i..], boundary))
      decreases |text| - i
    {
      LexAtSimple(text, i, boundary);
      PrependFate(tokens, Lex(text[i..], boundary));
      var c := text[i];
      if c == '\n' {
        i, boundary := i + 1, true;
      } else if IsBlank(c) {
        i := i + 1;
      } else if c == '#' || (c == ';' && boundary) {
        LexAtComment(text, i, boundary);
        i := SkipLine(text, i + 1);
      } else if c == '"' {
        LexAtQuote(text, i, boundary);
        var n := SkipString(text, i + 1);
        if n >= |text| || text[n] == '\n' {
          return Unterminated;
        }
        PrependCons(tokens, Str(text[i + 1..n]), Lex(text[n + 1..], false));
        tokens := tokens + [Str(text[i + 1..n])];
        i, boundary := n + 1, false;
      } else if c == ';' {
        PrependCons(tokens, Semi, Lex(text[i + 1..], true));
        tokens := tokens + [Semi];
        i, boundary := i + 1, true;
      } else if c == '{' {
        PrependCons(tokens, LBrace, Lex(text[i + 1..], true));
        tokens := tokens + [LBrace];
        i, boundary := i + 1, true;
      } else if c == '}' {
        PrependCons(tokens, RBrace, Lex(text[i + 1..], false));
        tokens := tokens + [RBrace];
        i, boundary := i + 1, false;
      } else if c == '=' {
        PrependCons(tokens, Equals, Lex(text[i + 1..], false));
        tokens := tokens + [Equals];
        i, boundary := i + 1, false;
      } else {
        OtherChar(c);
        LexAtWord(text, i, boundary);
        var n := SkipWord(text, i);
        PrependCons(tokens, Word(text[i..n]), Lex(text[n..], false));
        tokens := tokens + [Word(text[i..n])];
        i, boundary := n, false;
      }
    }
    LexEnd(text[i..], boundary, tokens);
    result := Tokens(tokens);
  }

  lemma OtherChar(c: char)
    requires c != '#' && c != '"' && c != ';' && c != '{' && c != '}' && c != '='
    ensures !IsSpecial(c)
  {
  }

  lemma LexEnd(t: string, b: bool, ts: seq<Token>)
    requires t == ""
    ensures Prepend(ts, Lex(t, b)) == Tokens(ts)
  {
  }

  lemma PrependNothing(rest: Lexed)
    ensures Prepend([], rest) == rest
  {
  }

  /** Tokens already read do not change how the rest ends. */
  lemma PrependFate(ts: seq<Token>, rest: Lexed)
    ensures rest == Unterminated ==> Prepend(ts, rest) == Unterminated
    ensures Prepend(ts, rest).Stuck? <==> rest.Stuck?
  {
  }

  lemma PrependCons(ts: seq<Token>, t: Token, rest: Lexed)
    ensures Prepend(ts, Cons(t, rest)) == Prepend(ts + [t], rest)
  {
    if rest.Tokens? {
      assert ts + ([t] + rest.tokens) == (ts + [t]) + rest.tokens;
    }
  }

  method SkipLine(text: string, from: nat) returns (n: nat)
    requires from <= |text|
    ensures n == from + LineLength(text[from..])
  {
    n := from;
    while n < |text| && text[n] != '\n'
      invariant from <= n <= |text|
      invariant n + LineLength(text[n..]) == from + LineLength(text[from..])
    {
      assert text[n..][1..] == text[n + 1..];
      n := n + 1;
    }
  }

  method SkipString(text: string, from: nat) returns (n: nat)
    requires from <= |text|
    ensures n == from + QuoteLength(text[from..])
  {
    n := from;
    while n < |text| && text[n] != '"' && text[n] != '\n'
      invariant from <= n <= |text|
      invariant n + QuoteLength(text[n..]) == from + QuoteLength(text[from..])
    {
      assert text[n..][1..] == text[n + 1..];
      n := n + 1;
    }
  }

  method SkipWord(text: string, from: nat) returns (n: nat)
    requires from <= |text|
    ensures n == from + WordLength(text[from..])
  {
    n := from;
    while n < |text| && IsPlain(text[n])
      invariant from <= n <= |text|
      invariant n + WordLength(text[n..]) == from + WordLength(text[from..])
    {
      assert text[n..][1..] == text[n + 1..];
      n := n + 1;
    }
  }

  // ----- lexing what was written -------------------------------------------------------------

  ghost predicate AllPlain(w: string) {
    forall i :: 0 <= i < |w| ==> IsPlain(w[i])
  }

  /** A value that fits between quotes on one line. */
  ghost predicate Quotable(s: string) {
    forall i :: 0 <= i < |s| ==> s[i] != '"' && s[i] != '\n'
  }

  lemma {:induction false} WordLengthOf(w: string, t: string)
    requires AllPlain(w) && (t != "" ==> !IsPlain(t[0]))
    ensures WordLength(w + t) == |w|
  {
    if w == "" {
      assert w + t == t;
    } else {
      assert (w + t)[1..] == w[1..] + t;
      WordLengthOf(w[1..], t);
    }
  }

  lemma {:induction false} QuoteLengthOf(s: string, t: string)
    requires Quotable(s)
    ensures QuoteLength(s + "\"" + t) == |s|
  {
    if s == "" {
      assert s + "\"" + t == "\"" + t;
    } else {
      assert (s + "\"" + t)[1..] == s[1..] + "\"" + t;
      QuoteLengthOf(s[1..], t);
    }
  }

  lemma {:induction false} LineLengthOf(s: string, t: string)
    requires forall i :: 0 <= i < |s| ==> s[i] != '\n'
    ensures LineLength(s + "\n" + t) == |s|
  {
    if s == "" {
      assert s + "\n" + t == "\n" + t;
    } else {
      assert (s + "\n" + t)[1..] == s[1..] + "\n" + t;
      LineLengthOf(s[1..], t);
    }
  }

  lemma LexWord(w: string, t: string, b: bool)
    requires w != "" && AllPlain(w) && (t != "" ==> !IsPlain(t[0]))
    ensures Lex(w + t, b) == Cons(Word(w), Lex(t, false))
  {
    var u := w + t;
    WordLengthOf(w, t);
    assert u[0] == w[0] && IsPlain(u[0]);
    assert u[..|w|] == w && u[|w|..] == t;
    assert !IsBlank(u[0]) && u[0] != '\n';
  }

  lemma LexString(s: string, t: string, b: bool)
    requires Quotable(s)
    ensures Lex("\"" + s + "\"" + t, b) == Cons(Str(s), Lex(t, false))
  {
    var u := "\"" + s + "\"" + t;
    assert u[0] == '"' && u[1..] == s + "\"" + t;
    QuoteLengthOf(s, t);
    assert u[1..1 + |s|] == s && u[2 + |s|..] == t && u[1 + |s|] == '"';
  }

  lemma LexBlank(t: string, b: bool)
    ensures Lex(" " + t, b) == Lex(t, b)
  {
    assert (" " + t)[1..] == t;
  }

  lemma LexNewline(t: string, b: bool)
    ensures Lex("\n" + t, b) == Lex(t, true)
  {
    assert ("\n" + t)[1..] == t;
  }

  lemma LexSemi(t: string)
    ensures Lex(";" + t, false) == Cons(Semi, Lex(t, true))
  {
    assert (";" + t)[1..] == t;
  }

  lemma LexOpen(t: string, b: bool)
    ensures Lex("{" + t, b) == Cons(LBrace, Lex(t, true))
  {
    assert ("{" + t)[1..] == t;
  }

  lemma LexClose(t: string, b: bool)
    ensures Lex("}" + t, b) == Cons(RBrace, Lex(t, false))
  {
    assert ("}" + t)[1..] == t;
  }

  lemma LexComment(s: string, t: string, b: bool)
    requires forall i :: 0 <= i < |s| ==> s[i] != '\n'
    ensures Lex("#" + s + "\n" + t, b) == Lex(t, true)
  {
    var u := "#" + s + "\n" + t;
    assert u[0] == '#' && u[1..] == s + "\n" + t;
    LineLengthOf(s, t);
    assert u[1 + |s|..] == "\n" + t;
    LexNewline(t, b);
  }
}
