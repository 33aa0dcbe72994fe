/** The positional legacy format: fields, sticky directives, nested blocks. */
module Legacy {
  import opened Model
  import opened Text
  import opened ModernBuild
  import opened Convert
  import opened NodeTrip
  import opened LegacyGlobals

  // ----- fields ------------------------------------------------------------------------------

  function SolidLength(s: string): (n: nat)
    ensures n <= |s| && (forall i :: 0 <= i < n ==> !IsSpace(s[i])) && (n < |s| ==> IsSpace(s[n]))
  {
    if s == "" || IsSpace(s[0]) then 0 else 1 + SolidLength(s[1..])
  }

  /** The maximal whitespace-free stretches of a line. */
  function Fields(s: string): (fs: seq<string>)
    ensures forall i :: 0 <= i < |fs| ==> Field(fs[i])
    decreases |s|
  {
    if s == "" then []
    else if IsSpace(s[0]) then Fields(s[1..])
    else [s[..SolidLength(s)]] + Fields(s[SolidLength(s)..])
  }

  const MAX_FIELDS := 7

  /** What a line is to the block structure: nothing, a `}`, or a stanza that may open a block. */
  datatype Shape = Nothing | Closing | Stanza(fields: seq<string>, opens: bool)

  function Capped(fs: seq<string>): seq<string> {
    if |fs| > MAX_FIELDS then fs[..MAX_FIELDS] else fs
  }

  /** A trailing `{` is split off before the fields are capped. */
  function ShapeOf(line: string): (r: Shape)
    ensures r.Stanza? ==> forall i :: 0 <= i < |r.fields| ==> Field(r.fields[i])
  {
    var fs := Fields(line);
    if fs == [] || fs[0][0] == ';' || fs[0][0] == '#' then Nothing
    else if fs[0] == "}" then Closing
    else if fs[|fs| - 1] == "{" then Stanza(Capped(fs[..|fs| - 1]), true)
    else Stanza(Capped(fs), false)
  }

  // ----- check types -------------------------------------------------------------------------

  /** Keywords in dispatch order; `None` marks a type that is recognised but no longer supported. */
  const Keywords: seq<(string, Option<CheckType>)> :=
    [("ping6", Some(Ping6)), ("pingv6", Some(Ping6)), ("icmp6", Some(Ping6)), ("ping", Some(Ping)),
     ("pop3s", Some(Pop3s)), ("imaps", Some(Imaps)), ("pop3", Some(Pop3)), ("imap", Some(Imap)),
     ("tcp", Some(Tcp)), ("udp", Some(Udp)), ("nntp", None), ("smtp", Some(Smtp)), ("umichx500", None),
     ("www", Some(Http)), ("authdns", Some(Dns)), ("radius", None), ("https", Some(Https)),
     ("ssh", Some(Ssh)), ("mysql", Some(Mysql)), ("ftps", Some(Ftps)), ("ftp", Some(Ftp)), ("telnet", Some(Telnet))]

  /** Position of the first keyword that the token starts with. */
  function FirstMatch(table: seq<(string, Option<CheckType>)>, token: string): (r: Option<nat>)
    ensures r.Some? ==> r.value < |table| && table[r.value].0 <= token
    ensures r.Some? ==> forall i :: 0 <= i < r.value ==> !(table[i].0 <= token)
    ensures r.None? ==> forall i :: 0 <= i < |table| ==> !(table[i].0 <= token)
  {
    if table == [] then None
    else if table[0].0 <= token then Some(0)
    else
      var r := FirstMatch(table[1..], token);
      if r.None? then None else Some(r.value + 1)
  }

  function MatchType(token: string): Option<CheckType> {
    var i := FirstMatch(Keywords, token);
    if i.None? then None else Keywords[i.value].1
  }

  /** No keyword swallows a longer one that stands after it. */
  ghost predicate LongerFirst(table: seq<(string, Option<CheckType>)>) {
    forall i, j :: 0 <= i < j < |table| ==> !(table[i].0 <= table[j].0)
  }

  lemma PrefixAgrees(a: string, b: string)
    requires a <= b && |a| >= 3
    ensures |b| >= |a| && a[0] == b[0] && a[1] == b[1] && a[|a| - 1] == b[|a| - 1]
  {
  }

  lemma KeywordsLongerFirst()
    ensures LongerFirst(Keywords)
  {
    forall i, j | 0 <= i < j < |Keywords|
      ensures !(Keywords[i].0 <= Keywords[j].0)
    {
      if Keywords[i].0 <= Keywords[j].0 {
        PrefixAgrees(Keywords[i].0, Keywords[j].0);
      }
    }
  }

  /** Dispatch order picks the longest matching keyword, so `pop3s` never reads as `pop3`. */
  lemma LongestMatch(token: string, k: nat)
    requires k < |Keywords| && Keywords[k].0 <= token
    ensures var i := FirstMatch(Keywords, token);
      i.Some? && Keywords[k].0 <= Keywords[i.value].0 && MatchType(token) == Keywords[i.value].1
  {
    hide FirstMatch, Keywords;
    KeywordsLongerFirst();
    var i := FirstMatch(Keywords, token);
    PrefixesCompare(Keywords[i.value].0, Keywords[k].0, token);
  }

  lemma PrefixesCompare(a: string, b: string, t: string)
    requires a <= t && b <= t
    ensures a <= b || b <= a
  {
  }

  // ----- sticky directives -------------------------------------------------------------------

  /** The per-node defaults in force at a point of the file. */
  datatype Sticky = Sticky(
    maxDown: int, contactOn: string, source: Option<string>, sendPings: Option<int>, minPings: Option<int>, interval: Option<real>)

  function Start(numfailures: int): Sticky {
    Sticky(numfailures, "", None, None, None, None)
  }

  datatype Kind = MaxDown | OnContact | Bind | Sends | Needs | Every

  datatype Change =
    | NoChange
    | SetMaxDown(n: int)
    | SetContactOn(s: string)
    | SetSource(src: string)
    | SetSend(send: int)
    | SetMin(low: int)
    | SetInterval(x: real)

  function SourceChange(lib: Lib, raw: string): Change {
    var val := Unquoted(Strip(raw));
    if Lower(val) == AUTO then SetSource(AUTO)
    else if lib.ipVersion(val).Some? then SetSource(val)
    else NoChange
  }

  /** A ping count: an integer of at least 1. */
  function StickyCount(raw: string): Option<int> {
    var n := ParseInt(raw);
    if n.Some? && n.value >= 1 then n else None
  }

  /** What a `config` line changes, if its directive is a sticky one and its value is acceptable. */
  function ConfigChange(lib: Lib, fs: seq<string>): Change {
    if |fs| < 3 then NoChange
    else
      var directive, raw := fs[1], fs[2];
      if "numfailures" <= directive then
        (if ParseInt(raw).Some? then SetMaxDown(ParseInt(raw).value) else NoChange)
      else if directive == "contact_on" then SetContactOn(if IsContactChoice(raw) then raw else "both")
      else if directive == "source" then SourceChange(lib, raw)
      else if directive == "queuetime" then
        (if lib.read(raw).Some? && lib.read(raw).value > 0.0 then SetInterval(lib.read(raw).value) else NoChange)
      else if directive == "send_pings" then (if StickyCount(raw).Some? then SetSend(StickyCount(raw).value) else NoChange)
      else if directive == "min_pings" then (if StickyCount(raw).Some? then SetMin(StickyCount(raw).value) else NoChange)
      else NoChange
  }

  function Changed(st: Sticky, c: Change): Sticky {
    match c
    case NoChange => st
    case SetMaxDown(n) => st.(maxDown := n)
    case SetContactOn(s) => st.(contactOn := s)
    case SetSource(s) => st.(source := Some(s))
    case SetSend(n) => st.(sendPings := Some(n))
    case SetMin(n) => st.(minPings := Some(n))
    case SetInterval(x) => st.(interval := Some(x))
  }

  predicate IsConfig(fs: seq<string>) {
    fs != [] && fs[0] == "config"
  }

  /** What a line changes, wherever it stands. */
  function LineChange(lib: Lib, line: string): Change {
    var shape := ShapeOf(line);
    if shape.Stanza? && IsConfig(shape.fields) then ConfigChange(lib, shape.fields) else NoChange
  }

  // ----- settings ----------------------------------------------------------------------------

  /** The settings a line makes, wherever it stands. */
  function LineSettings(lib: Lib, line: string): Globals {
    var shape := ShapeOf(line);
    if shape.Stanza? && IsConfig(shape.fields) then ConfigSettings(lib, shape.fields) else map[]
  }

  /** `g` with the settings of the lines in order. */
  function Overridden(lib: Lib, g: Globals, lines: seq<string>): Globals {
    if lines == [] then g else Overridden(lib, g, lines[..|lines| - 1]) + LineSettings(lib, lines[|lines| - 1])
  }

  // ----- hosts -------------------------------------------------------------------------------

  function SourceFor(lib: Lib, st: Sticky, t: CheckType): Option<string> {
    if st.source.Some? && !FamilyOk(lib, t, st.source.value) then None else st.source
  }

  function AsPort(s: string): Option<int> {
    var n := ParseInt(s);
    if n.Some? && 1 <= n.value <= 65535 then n else None
  }

  /** The node with the defaults in force, before its positional fields. */
  function Snapshot(lib: Lib, st: Sticky, host: string, t: CheckType): Node {
    Blank(host, t, st.maxDown).(contactOn := st.contactOn, source := SourceFor(lib, st, t), sendPings := st.sendPings,
                                minPings := st.minPings, interval := st.interval)
  }

  function At(fs: seq<string>, i: nat): string {
    if i < |fs| then fs[i] else ""
  }

  /** The positional fields after host and type, per check type; `None` when the line is too short or a port is bad. */
  function Positional(n: Node, fs: seq<string>): Option<Node>
    requires |fs| >= 3
  {
    if NeedsPort(n.checkType) then
      var port := ParseInt(fs[2]);
      if |fs| < 4 || port.None? || port.value <= 0 then None
      else Some(n.(port := port.value, desc := fs[3], contact := At(fs, 4)))
    else if IsWeb(n.checkType) then
      if |fs| < 4 then None
      else if |fs| == 4 then Some(n.(url := fs[2], desc := fs[3]))
      else Some(n.(url := fs[2], urlText := Some(fs[3]), desc := fs[4], contact := At(fs, 5)))
    else if IsMail(n.checkType) then
      Some(if |fs| < 5 then n.(desc := fs[2], contact := At(fs, 3))
           else n.(username := fs[2], password := fs[3], desc := fs[4], contact := At(fs, 5)))
    else if n.checkType == Dns then
      if |fs| < 4 then None else Some(n.(username := fs[2], contact := fs[3]))
    else if MayGivePort(n.checkType) then
      var port := AsPort(fs[2]);
      if port.None? then Some(n.(desc := fs[2], contact := At(fs, 3)))
      else if |fs| < 4 then None
      else Some(n.(port := port.value, desc := fs[3], contact := At(fs, 4)))
    else Some(n.(desc := fs[2], contact := At(fs, 3)))
  }

  /** The node of a stanza, if it is a host line with a supported type and enough fields. */
  function HostNode(lib: Lib, st: Sticky, fs: seq<string>): Option<Node> {
    if |fs| < 3 || IsConfig(fs) || MatchType(fs[1]).None? then None
    else Positional(Snapshot(lib, st, fs[0], MatchType(fs[1]).value), fs)
  }

  /** Types whose block holds dependents; any other block is read and discarded. */
  predicate PingLike(t: CheckType) {
    t == Ping || t == Ping6 || t == Smtp
  }

  predicate Parents(node: Option<Node>) {
    node.Some? && PingLike(node.value.checkType)
  }

  // ----- blocks by recursion -----------------------------------------------------------------

  const MAX_DEPTH := 64

  datatype BlockResult = TooDeep | Block(trees: seq<Tree>, rest: seq<string>, st: Sticky)

  function Planted(node: Option<Node>, children: seq<Tree>): seq<Tree> {
    if node.None? then [] else [Tree(node.value, if PingLike(node.value.checkType) then children else [])]
  }

  function Before(trees: seq<Tree>, r: BlockResult): BlockResult {
    if r.TooDeep? then r else r.(trees := trees + r.trees)
  }

  /** The stanzas up to the `}` that closes this block, or to the end of the file. */
  function ReadBlock(lib: Lib, lines: seq<string>, st: Sticky, depth: nat): (r: BlockResult)
    ensures r.Block? ==> |r.rest| <= |lines| && (depth == 0 ==> r.rest == [])
    decreases |lines|
  {
    if depth > MAX_DEPTH then TooDeep
    else if lines == [] then Block([], [], st)
    else
      match ShapeOf(lines[0])
      case Nothing => ReadBlock(lib, lines[1..], st, depth)
      case Closing => if depth > 0 then Block([], lines[1..], st) else ReadBlock(lib, lines[1..], st, depth)
      case Stanza(fs, opens) =>
        var node, st' := HostNode(lib, st, fs), Changed(st, LineChange(lib, lines[0]));
        if opens then
          var inner := ReadBlock(lib, lines[1..], st', depth + 1);
          if inner.TooDeep? then TooDeep
          else Before(Planted(node, inner.trees), ReadBlock(lib, inner.rest, inner.st, depth))
        else Before(Planted(node, []), ReadBlock(lib, lines[1..], st', depth))
  }

  // ----- the parser object -------------------------------------------------------------------

  class LegacyParser {
    const lib: Lib
    const lines: seq<string>
    var pos: nat
    var st: Sticky
    var overrides: Globals

    constructor (lib: Lib, lines: seq<string>, numfailures: int)
      ensures this.lib == lib && this.lines == lines && pos == 0 && st == Start(numfailures) && overrides == map[]
    {
      this.lib, this.lines := lib, lines;
      pos, st, overrides := 0, Start(numfailures), map[];
    }

    ghost predicate Valid()
      reads this
    {
      pos <= |lines|
    }

    ghost function Ahead(): seq<string>
      reads this
      requires Valid()
    {
      lines[pos..]
    }

    /** Reads sibling stanzas; `None` when blocks nest too deeply. */
    method ParseBlock(depth: nat) returns (siblings: Option<seq<Tree>>)
      requires Valid()
      modifies this
      ensures Valid() && pos >= old(pos)
      ensures var r := ReadBlock(lib, old(Ahead()), old(st), depth);
        if r.TooDeep? then siblings.None? else siblings == Some(r.trees) && Ahead() == r.rest && st == r.st
      ensures overrides == Overridden(lib, old(overrides), lines[old(pos)..pos])
      decreases |lines| - pos
    {
      hide ShapeOf, HostNode, LineChange, LineSettings, Overridden, Changed, Planted, ReadBlock;
      NoneOverridden(lib, overrides);
      assert lines[pos..pos] == [];
      ReadEnd(lib, st, depth);
      ReadTooDeep(lib, Ahead(), st, depth);
      if depth > MAX_DEPTH {
        return None;
      }
      var trees: seq<Tree> := [];
      ghost var whole := ReadBlock(lib, Ahead(), st, depth);
      while pos < |lines|
        invariant Valid() && pos >= old(pos)
        invariant whole == Before(trees, ReadBlock(lib, Ahead(), st, depth))
        invariant overrides == Overridden(lib, old(overrides), lines[old(pos)..pos])
        decreases |lines| - pos
      {
        var line := lines[pos];
        ghost var ahead, was := Ahead(), st;
        OverriddenNext(lib, old(overrides), lines[old(pos)..pos], line);
        assert lines[old(pos)..pos] + [line] == lines[old(pos)..pos + 1];
        pos, overrides := pos + 1, overrides + LineSettings(lib, line);
        assert ahead[0] == line && ahead[1..] == Ahead();
        ReadStep(lib, ahead, was, depth);
        match ShapeOf(line)
        case Nothing =>
        case Closing =>
          if depth > 0 {
            assert trees + [] == trees;
            return Some(trees);
          }
        case Stanza(fs, opens) =>
          var node := HostNode(lib, st, fs);
          st := Changed(st, LineChange(lib, line));
          var children: seq<Tree> := [];
          if opens {
            ghost var inside := pos;
            var block := ParseBlock(depth + 1);
            OverriddenSplit(lib, old(overrides), lines[old(pos)..inside], lines[inside..pos]);
            assert lines[old(pos)..inside] + lines[inside..pos] == lines[old(pos)..pos];
            if block.None? {
              return None;
            }
            children := block.value;
          }
          BeforeTwice(trees, Planted(node, children), ReadBlock(lib, Ahead(), st, depth));
          trees := trees + Planted(node, children);
      }
      assert Ahead() == [];
      ReadEnd(lib, st, depth);
      assert trees + [] == trees;
      return Some(trees);
    }
  }

  lemma NoneOverridden(lib: Lib, g: Globals)
    ensures Overridden(lib, g, []) == g
  {
  }

  lemma OverriddenNext(lib: Lib, g: Globals, lines: seq<string>, line: string)
    ensures Overridden(lib, g, lines + [line]) == Overridden(lib, g, lines) + LineSettings(lib, line)
  {
    hide LineSettings;
    assert (lines + [line])[..|lines|] == lines;
  }

  lemma {:induction false} OverriddenSplit(lib: Lib, g: Globals, a: seq<string>, b: seq<string>)
    ensures Overridden(lib, Overridden(lib, g, a), b) == Overridden(lib, g, a + b)
    decreases |b|
  {
    hide LineSettings, Overridden;
    if b == [] {
      assert a + b == a;
      NoneOverridden(lib, Overridden(lib, g, a));
    } else {
      var front, last := b[..|b| - 1], b[|b| - 1];
      OverriddenSplit(lib, g, a, front);
      OverriddenNext(lib, Overridden(lib, g, a), front, last);
      OverriddenNext(lib, g, a + front, last);
      assert front + [last] == b && (a + front) + [last] == a + b;
    }
  }

  lemma ReadTooDeep(lib: Lib, lines: seq<string>, st: Sticky, depth: nat)
    ensures depth > MAX_DEPTH ==> ReadBlock(lib, lines, st, depth) == TooDeep
  {
  }

  lemma ReadEnd(lib: Lib, st: Sticky, depth: nat)
    ensures depth <= MAX_DEPTH ==> ReadBlock(lib, [], st, depth) == Block([], [], st)
  {
  }

  lemma ReadStep(lib: Lib, lines: seq<string>, st: Sticky, depth: nat)
    requires lines != [] && depth <= MAX_DEPTH
    ensures var r, shape := ReadBlock(lib, lines, st, depth), ShapeOf(lines[0]);
      match shape
      case Nothing => r == ReadBlock(lib, lines[1..], st, depth)
      case Closing => r == if depth > 0 then Block([], lines[1..], st) else ReadBlock(lib, lines[1..], st, depth)
      case Stanza(fs, opens) =>
        var node, st' := HostNode(lib, st, fs), Changed(st, LineChange(lib, lines[0]));
        if opens then
          var inner := ReadBlock(lib, lines[1..], st', depth + 1);
          r == if inner.TooDeep? then TooDeep else Before(Planted(node, inner.trees), ReadBlock(lib, inner.rest, inner.st, depth))
        else r == Before(Planted(node, []), ReadBlock(lib, lines[1..], st', depth))
  {
    hide ShapeOf, HostNode, LineChange, Changed, Planted, Before;
  }

  lemma BeforeTwice(a: seq<Tree>, b: seq<Tree>, r: BlockResult)
    ensures Before(a, Before(b, r)) == Before(a + b, r)
  {
    if r.Block? {
      assert a + (b + r.trees) == (a + b) + r.trees;
    }
  }
}
