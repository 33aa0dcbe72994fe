/** Characters, whitespace and decimal numerals as the configuration readers treat them. */
module Text {
  import opened Model

  /** What Python's `str.isspace` accepts. */
  predicate IsSpace(c: char) {
    var n := c as int;
    || 9 <= n <= 13 || 28 <= n <= 32 || n == 0x85 || n == 0xA0 || n == 0x1680 || 0x2000 <= n <= 0x200A
    || n == 0x2028 || n == 0x2029 || n == 0x202F || n == 0x205F || n == 0x3000
  }

  predicate IsDigit(c: char) {
    '0' <= c <= '9'
  }

  // ----- trimming ----------------------------------------------------------------------------

  function StripLeft(s: string): string {
    if s != "" && IsSpace(s[0]) then StripLeft(s[1..]) else s
  }

  function StripRight(s: string): string {
    if s != "" && IsSpace(s[|s| - 1]) then StripRight(s[..|s| - 1]) else s
  }

  function Strip(s: string): string {
    StripRight(StripLeft(s))
  }

  /** `s` without the quotes at its ends. */
  function Unquoted(s: string): string {
    if s != "" && s[0] == '"' then Unquoted(s[1..])
    else if s != "" && s[|s| - 1] == '"' then Unquoted(s[..|s| - 1])
    else s
  }

  /** No character of `s` is whitespace. */
  ghost predicate Solid(s: string) {
    forall i :: 0 <= i < |s| ==> !IsSpace(s[i])
  }

  lemma SolidStrip(s: string)
    requires Solid(s)
    ensures Strip(s) == s
  {
  }

  /** Trimming never adds a character. */
  lemma {:induction false} StripRightFrom(s: string, c: char)
    requires c in StripRight(s)
    ensures c in s
  {
    if s != "" && IsSpace(s[|s| - 1]) {
      StripRightFrom(s[..|s| - 1], c);
    }
  }

  lemma {:induction false} StripLeftFrom(s: string, c: char)
    requires c in StripLeft(s)
    ensures c in s
  {
    if s != "" && IsSpace(s[0]) {
      StripLeftFrom(s[1..], c);
    }
  }

  lemma StripFrom(s: string, c: char)
    requires c in Strip(s)
    ensures c in s
  {
    StripRightFrom(StripLeft(s), c);
    StripLeftFrom(s, c);
  }

  lemma {:induction false} StripRightTight(s: string)
    ensures var t := StripRight(s); t != "" ==> !IsSpace(t[|t| - 1]) && t[0] == s[0]
  {
    if s != "" && IsSpace(s[|s| - 1]) {
      StripRightTight(s[..|s| - 1]);
    }
  }

  lemma {:induction false} StripLeftTight(s: string)
    ensures var t := StripLeft(s); t != "" ==> !IsSpace(t[0])
  {
    if s != "" && IsSpace(s[0]) {
      StripLeftTight(s[1..]);
    }
  }

  lemma StripTwice(s: string)
    ensures Strip(Strip(s)) == Strip(s)
  {
    StripLeftTight(s);
    StripRightTight(StripLeft(s));
  }

  // ----- numerals ----------------------------------------------------------------------------

  function Digit(n: nat): (c: char)
    requires n < 10
    ensures IsDigit(c)
  {
    '0' + n as char
  }

  function DigitValue(c: char): (n: nat)
    requires IsDigit(c)
    ensures n < 10
  {
    c as int - '0' as int
  }

  /** Decimal rendering of a natural number. */
  function Dec(n: nat): (s: string)
    ensures s != "" && forall i :: 0 <= i < |s| ==> IsDigit(s[i])
  {
    if n < 10 then [Digit(n)] else Dec(n / 10) + [Digit(n % 10)]
  }

  function DecInt(n: int): string {
    if n < 0 then "-" + Dec(-n) else Dec(n)
  }

  /** The number a nonempty run of digits denotes. */
  function ParseNat(s: string): Option<nat> {
    if s == "" then None
    else
      var last := s[|s| - 1];
      if !IsDigit(last) then None
      else if |s| == 1 then Some(DigitValue(last))
      else
        var front := ParseNat(s[..|s| - 1]);
        if front.None? then None else Some(10 * front.value + DigitValue(last))
  }

  /** Digits that single underscores may group, as Python's `int` reads them. */
  function ParseGrouped(s: string): Option<nat> {
    if s == "" || !IsDigit(s[|s| - 1]) then None
    else if |s| == 1 then Some(DigitValue(s[0]))
    else
      var n := |s| - 1;
      var front := ParseGrouped(if s[n - 1] == '_' then s[..n - 1] else s[..n]);
      if front.None? then None else Some(10 * front.value + DigitValue(s[n]))
  }

  lemma {:induction false} PlainDigitsGrouped(s: string)
    requires forall i :: 0 <= i < |s| ==> IsDigit(s[i])
    ensures ParseGrouped(s) == ParseNat(s)
  {
    if |s| > 1 {
      PlainDigitsGrouped(s[..|s| - 1]);
    }
  }

  /** An optionally signed number, blanks around it ignored. */
  function ParseInt(s: string): Option<int> {
    var t := Strip(s);
    var n := ParseGrouped(if t != "" && (t[0] == '-' || t[0] == '+') then t[1..] else t);
    if n.None? then None else Some(if t[0] == '-' then 0 - n.value else n.value)
  }

  /** A plus sign changes nothing, a minus sign negates, and an underscore between digits does not count. */
  lemma SignsAndGroups(a: string, b: string)
    requires a != "" && b != "" && (forall i :: 0 <= i < |a| ==> IsDigit(a[i])) && (forall i :: 0 <= i < |b| ==> IsDigit(b[i]))
    ensures ParseInt("+" + a) == ParseInt(a) && ParseInt(a).Some? && ParseInt("-" + a) == Some(0 - ParseInt(a).value)
    ensures ParseInt(a + "_" + b) == ParseInt(a + b)
  {
    hide ParseGrouped;
    assert forall c: char :: IsDigit(c) ==> !IsSpace(c);
    SolidStrip("+" + a);
    SolidStrip("-" + a);
    SolidStrip(a);
    SolidStrip(a + "_" + b);
    SolidStrip(a + b);
    assert ("+" + a)[1..] == a && ("-" + a)[1..] == a;
    PlainDigitsGrouped(a);
    DigitsParse(a);
    GroupedJoin(a, b);
    assert (a + b)[0] == a[0] && (a + "_" + b)[0] == a[0];
  }

  lemma {:induction false} DigitsParse(s: string)
    requires s != "" && forall i :: 0 <= i < |s| ==> IsDigit(s[i])
    ensures ParseNat(s).Some?
  {
    if |s| > 1 {
      DigitsParse(s[..|s| - 1]);
    }
  }

  lemma {:induction false} GroupedJoin(a: string, b: string)
    requires a != "" && b != "" && (forall i :: 0 <= i < |a| ==> IsDigit(a[i])) && (forall i :: 0 <= i < |b| ==> IsDigit(b[i]))
    ensures ParseGrouped(a + "_" + b) == ParseGrouped(a + b)
  {
    var s, t, n := a + "_" + b, a + b, |b| - 1;
    if n == 0 {
      assert s[..|s| - 2] == a && t[..|t| - 1] == a;
    } else {
      GroupedJoin(a, b[..n]);
      assert s[..|s| - 1] == a + "_" + b[..n] && t[..|t| - 1] == a + b[..n];
      assert s[|s| - 2] == b[n - 1] && t[|t| - 2] == b[n - 1];
    }
  }

  /** An optionally negative number in plain digits, blanks around it ignored. */
  function ParsePlain(s: string): Option<int> {
    var t := Strip(s);
    var negative := t != "" && t[0] == '-';
    var n := ParseNat(if negative then t[1..] else t);
    if n.None? then None else Some(if negative then 0 - n.value else n.value)
  }

  /** Only a minus sign and digits: a plus sign or an underscore makes it no number. */
  lemma PlainIsPlain(a: string, b: string)
    requires a != "" && b != "" && (forall i :: 0 <= i < |a| ==> IsDigit(a[i])) && (forall i :: 0 <= i < |b| ==> IsDigit(b[i]))
    ensures ParsePlain(a) == ParseInt(a) && ParsePlain(a).Some? && ParsePlain("-" + a) == Some(0 - ParsePlain(a).value)
    ensures ParsePlain("+" + a) == None && ParsePlain(a + "_" + b) == None
  {
    hide ParseGrouped;
    assert forall c: char :: IsDigit(c) ==> !IsSpace(c);
    SolidStrip("+" + a);
    SolidStrip("-" + a);
    SolidStrip(a);
    SolidStrip(a + "_" + b);
    assert ("-" + a)[1..] == a;
    PlainDigitsGrouped(a);
    DigitsParse(a);
    NoNumber("+" + a, 0);
    NoNumber(a + "_" + b, |a|);
  }

  lemma {:induction false} NoNumber(s: string, i: nat)
    requires i < |s| && !IsDigit(s[i])
    ensures ParseNat(s) == None
  {
    if i < |s| - 1 {
      NoNumber(s[..|s| - 1], i);
    }
  }

  lemma {:induction false} DecParses(n: nat)
    ensures ParseNat(Dec(n)) == Some(n)
  {
    var s := Dec(n);
    if n >= 10 {
      DecParses(n / 10);
      assert s[..|s| - 1] == Dec(n / 10);
      assert s[|s| - 1] == Digit(n % 10);
    }
  }

  lemma DecInjective(m: nat, n: nat)
    requires Dec(m) == Dec(n)
    ensures m == n
  {
    DecParses(m);
    DecParses(n);
  }

  lemma DigitsSolid(s: string)
    requires forall i :: 0 <= i < |s| ==> IsDigit(s[i]) || s[i] == '-'
    ensures Solid(s)
  {
  }

  /** Writing an integer and reading it back, either way, gives the integer. */
  lemma DecIntParses(n: int)
    ensures ParseInt(DecInt(n)) == Some(n) && ParsePlain(DecInt(n)) == Some(n)
  {
    hide IsSpace, Strip, Dec, ParseNat, ParseGrouped;
    var s := DecInt(n);
    assert Solid(s) by {
      DigitsSolid(s);
    }
    SolidStrip(s);
    if n < 0 {
      DecParses(-n);
      PlainDigitsGrouped(Dec(-n));
      assert s[1..] == Dec(-n);
    } else {
      DecParses(n);
      PlainDigitsGrouped(Dec(n));
      assert IsDigit(s[0]);
    }
  }
}
