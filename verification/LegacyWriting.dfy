/** A forest written in the legacy format and read back: lines, running defaults, nested blocks. */
module LegacyWriting {
  import opened Model
  import opened Text
  import opened Lexer
  import opened ModernBuild
  import opened Convert
  import opened Reparse
  import opened NodeTrip
  import opened Legacy
  import opened LegacyGlobals
  import opened LegacyStanzas

  // ----- lines -------------------------------------------------------------------------------

  // A line is its fields, joined by blanks.

  lemma {:induction false} SolidPrefix(f: string, t: string)
    requires Solid(f)
    ensures SolidLength(f + " " + t) == |f|
  {
    if f != "" {
      assert (f + " " + t)[1..] == f[1..] + " " + t;
      assert (f + " " + t)[0] == f[0];
      SolidPrefix(f[1..], t);
    }
  }

  lemma {:induction false} SolidWhole(f: string)
    requires Solid(f)
    ensures SolidLength(f) == |f|
  {
    if f != "" {
      SolidWhole(f[1..]);
    }
  }

  /** Fields joined by blanks split into themselves. */
  lemma {:induction false} JoinedSplits(fs: seq<string>)
    requires forall i :: 0 <= i < |fs| ==> Field(fs[i])
    ensures Fields(Joined(fs)) == fs
  {
    if fs != [] {
      var f := fs[0];
      assert Field(f);
      if |fs| == 1 {
        SolidWhole(f);
        assert f[|f|..] == "";
        assert f[..|f|] == f;
        assert Fields(f) == [f] + Fields("");
      } else {
        var t := Joined(fs[1..]);
        SolidPrefix(f, t);
        var line := f + " " + t;
        assert line[..|f|] == f && line[|f|..] == " " + t;
        assert (" " + t)[1..] == t;
        assert Fields(line) == [f] + Fields(" " + t);
        JoinedSplits(fs[1..]);
        assert [f] + fs[1..] == fs;
      }
    }
  }

  /** Fields that make a stanza of their own: no comment, no closing brace, not too many. */
  ghost predicate Stanzaic(fs: seq<string>) {
    && fs != [] && |fs| <= MAX_FIELDS && (forall i :: 0 <= i < |fs| ==> Field(fs[i]))
    && fs[0][0] != ';' && fs[0][0] != '#' && fs[0] != "}"
  }

  lemma LineShape(fs: seq<string>)
    requires Stanzaic(fs) && fs[|fs| - 1] != "{"
    ensures ShapeOf(Joined(fs)) == Stanza(fs, false)
  {
    hide Fields, Joined;
    JoinedSplits(fs);
  }

  lemma OpeningShape(fs: seq<string>)
    requires Stanzaic(fs)
    ensures ShapeOf(Joined(fs + ["{"])) == Stanza(fs, true)
  {
    hide Fields, Joined;
    var all := fs + ["{"];
    assert Field("{");
    JoinedSplits(all);
    assert all[..|all| - 1] == fs;
  }

  /** Blank lines and comments are nothing, wherever they stand. */
  lemma CommentsAreNothing(fs: seq<string>)
    requires (forall i :: 0 <= i < |fs| ==> Field(fs[i])) && (fs != [] ==> fs[0] != "" && (fs[0][0] == ';' || fs[0][0] == '#'))
    ensures ShapeOf(Joined(fs)) == Nothing
  {
    hide Fields, Joined;
    JoinedSplits(fs);
  }

  /** Fields behind the seventh do not count; a brace at the end of the line does, however many come before it. */
  lemma SevenFieldsCount(fs: seq<string>)
    requires |fs| > 7 && (forall i :: 0 <= i < |fs| ==> Field(fs[i])) && fs[0] != "" && fs[0][0] != ';' && fs[0][0] != '#' && fs[0] != "}"
    ensures fs[|fs| - 1] != "{" ==> ShapeOf(Joined(fs)) == Stanza(fs[..7], false)
    ensures fs[|fs| - 1] == "{" ==> ShapeOf(Joined(fs)) == Stanza(fs[..7], true)
  {
    hide Fields, Joined;
    JoinedSplits(fs);
    assert fs[..|fs| - 1][..7] == fs[..7];
  }

  lemma ClosingShape()
    ensures ShapeOf("}") == Closing
  {
    SolidWhole("}");
    assert "}"[1..] == "" && "}"[..1] == "}";
    assert Fields("}") == ["}"] + Fields("");
  }

  // ----- running defaults --------------------------------------------------------------------

  /** The defaults under which a node is read as it is. */
  function Defaults(n: Node): Sticky {
    Sticky(n.maxDown, n.contactOn, n.source, n.sendPings, n.minPings, n.interval)
  }

  /** The `config` lines that put a node's settings in force. */
  function Directives(lib: Lib, n: Node): seq<seq<string>> {
    [["config", "numfailures", DecInt(n.maxDown)]]
    + (if n.contactOn == "" then [] else [["config", "contact_on", n.contactOn]])
    + (if n.source.None? then [] else [["config", "source", n.source.value]])
    + (if n.sendPings.None? then [] else [["config", "send_pings", DecInt(n.sendPings.value)]])
    + (if n.minPings.None? then [] else [["config", "min_pings", DecInt(n.minPings.value)]])
    + (if n.interval.None? then [] else [["config", "queuetime", FmtNum(lib, n.interval.value)]])
  }

  /** A source that the format can write: `auto`, or an address of the family that the check binds. */
  ghost predicate SourceWritable(lib: Lib, t: CheckType, src: string) {
    src == "auto" || (Field(src) && '"' !in src && src != "{" && Lower(src) != "auto" && lib.ipVersion(src) == Some(if t == Ping6 then 6 else 4))
  }

  ghost predicate SettingsWritable(lib: Lib, n: Node) {
    && n.group == ""
    && (n.contactOn == "" || n.contactOn == "down" || n.contactOn == "up" || n.contactOn == "both" || n.contactOn == "none")
    && (n.source.Some? ==> SourceWritable(lib, n.checkType, n.source.value))
    && (n.sendPings.Some? ==> n.sendPings.value >= 1) && (n.minPings.Some? ==> n.minPings.value >= 1)
    && (n.interval.Some? ==> lib.isFloat(n.interval.value) && n.interval.value > 0.0)
  }

  /** What is in force cannot be taken back, only replaced. */
  predicate Reachable(st: Sticky, n: Node) {
    && (n.contactOn == "" ==> st.contactOn == "") && (n.source.None? ==> st.source.None?)
    && (n.sendPings.None? ==> st.sendPings.None?) && (n.minPings.None? ==> st.minPings.None?) && (n.interval.None? ==> st.interval.None?)
  }

  function AllChanged(lib: Lib, st: Sticky, cs: seq<seq<string>>): Sticky
    decreases cs
  {
    if cs == [] then st else AllChanged(lib, Changed(st, ConfigChange(lib, cs[0])), cs[1..])
  }

  lemma {:induction false} AllChangedSplit(lib: Lib, st: Sticky, a: seq<seq<string>>, b: seq<seq<string>>)
    ensures AllChanged(lib, st, a + b) == AllChanged(lib, AllChanged(lib, st, a), b)
    decreases a
  {
    hide ConfigChange, Changed;
    if a == [] {
      assert a + b == b;
    } else {
      assert (a + b)[1..] == a[1..] + b;
      AllChangedSplit(lib, Changed(st, ConfigChange(lib, a[0])), a[1..], b);
    }
  }

  lemma OneChanged(lib: Lib, st: Sticky, c: seq<string>)
    ensures AllChanged(lib, st, [c]) == Changed(st, ConfigChange(lib, c)) && AllChanged(lib, st, []) == st
  {
    hide ConfigChange, Changed;
    assert [c][1..] == [];
  }

  lemma CountDirectives(lib: Lib, n: int)
    ensures ConfigChange(lib, ["config", "numfailures", DecInt(n)]) == SetMaxDown(n)
    ensures n >= 1 ==> ConfigChange(lib, ["config", "send_pings", DecInt(n)]) == SetSend(n)
    ensures n >= 1 ==> ConfigChange(lib, ["config", "min_pings", DecInt(n)]) == SetMin(n)
  {
    hide ParseInt, DecInt, SourceChange;
    DecIntParses(n);
    assert "numfailures"[0] != "send_pings"[0] && "numfailures"[0] != "min_pings"[0];
  }

  lemma ContactDirective(lib: Lib, c: string)
    requires c == "down" || c == "up" || c == "both" || c == "none"
    ensures ConfigChange(lib, ["config", "contact_on", c]) == SetContactOn(c)
  {
    hide ParseInt, SourceChange;
    assert "numfailures"[0] != "contact_on"[0];
  }

  lemma IntervalDirective(lib: Lib, x: real)
    requires FloatsOk(lib) && lib.isFloat(x) && x > 0.0
    ensures ConfigChange(lib, ["config", "queuetime", FmtNum(lib, x)]) == SetInterval(x)
  {
    hide ParseInt, SourceChange, FmtNum, AllPlain;
    assert "numfailures"[0] != "queuetime"[0];
  }

  lemma QuotelessStays(s: string)
    requires '"' !in s
    ensures Unquoted(s) == s
  {
  }

  lemma AutoStays()
    ensures Lower(AUTO) == AUTO && Strip(AUTO) == AUTO && Unquoted(AUTO) == AUTO
  {
    assert Lower("auto") == "auto";
    SolidStrip("auto");
  }

  lemma SourceDirective(lib: Lib, t: CheckType, src: string)
    requires SourceWritable(lib, t, src)
    ensures ConfigChange(lib, ["config", "source", src]) == SetSource(src)
  {
    hide ParseInt, Lower, Strip, Unquoted;
    AutoStays();
    if src != "auto" {
      SolidStrip(src);
      QuotelessStays(src);
    }
    assert "numfailures"[0] != "source"[0];
  }

  /** What a directive does not accept changes nothing, except that an unknown contact choice means both. */
  lemma BadValuesIgnored(lib: Lib, raw: string)
    ensures ParseInt(raw).None? ==> ConfigChange(lib, ["config", "numfailures", raw]) == NoChange
    ensures ParseInt(raw).None? || ParseInt(raw).value < 1 ==>
              ConfigChange(lib, ["config", "send_pings", raw]) == NoChange && ConfigChange(lib, ["config", "min_pings", raw]) == NoChange
    ensures lib.read(raw).None? || lib.read(raw).value <= 0.0 ==> ConfigChange(lib, ["config", "queuetime", raw]) == NoChange
    ensures raw !in ["down", "up", "both", "none"] ==> ConfigChange(lib, ["config", "contact_on", raw]) == SetContactOn("both")
    ensures lib.ipVersion(Unquoted(Strip(raw))).None? && Lower(Unquoted(Strip(raw))) != "auto" ==> ConfigChange(lib, ["config", "source", raw]) == NoChange
  {
    hide ParseInt, Lower, Strip, Unquoted;
    assert "numfailures"[0] != "send_pings"[0] && "numfailures"[0] != "min_pings"[0] && "numfailures"[0] != "queuetime"[0];
    assert "numfailures"[0] != "contact_on"[0] && "numfailures"[0] != "source"[0];
  }

  /** The directives of a node put its settings in force. */
  lemma DirectivesTake(lib: Lib, st: Sticky, n: Node)
    requires FloatsOk(lib) && SettingsWritable(lib, n) && Reachable(st, n)
    ensures AllChanged(lib, st, Directives(lib, n)) == Defaults(n)
  {
    hide ConfigChange, AllChanged, FloatsOk, SourceWritable, DecInt, FmtNum;
    var d := Directives(lib, n);
    var a := [["config", "numfailures", DecInt(n.maxDown)]];
    var b := if n.contactOn == "" then [] else [["config", "contact_on", n.contactOn]];
    var c := if n.source.None? then [] else [["config", "source", n.source.value]];
    var e := if n.sendPings.None? then [] else [["config", "send_pings", DecInt(n.sendPings.value)]];
    var f := if n.minPings.None? then [] else [["config", "min_pings", DecInt(n.minPings.value)]];
    var g := if n.interval.None? then [] else [["config", "queuetime", FmtNum(lib, n.interval.value)]];
    assert d == a + b + c + e + f + g;
    AllChangedSplit(lib, st, a + b + c + e + f, g);
    AllChangedSplit(lib, st, a + b + c + e, f);
    AllChangedSplit(lib, st, a + b + c, e);
    AllChangedSplit(lib, st, a + b, c);
    AllChangedSplit(lib, st, a, b);
    var s1 := st.(maxDown := n.maxDown);
    OneChanged(lib, st, a[0]);
    CountDirectives(lib, n.maxDown);
    var s2 := s1.(contactOn := n.contactOn);
    OneChanged(lib, s1, ["config", "contact_on", n.contactOn]);
    if n.contactOn != "" {
      ContactDirective(lib, n.contactOn);
    }
    var s3 := s2.(source := n.source);
    OneChanged(lib, s2, ["config", "source", Or(n.source, "")]);
    if n.source.Some? {
      SourceDirective(lib, n.checkType, n.source.value);
    }
    var s4 := s3.(sendPings := n.sendPings);
    OneChanged(lib, s3, ["config", "send_pings", DecInt(Or0(n.sendPings))]);
    if n.sendPings.Some? {
      CountDirectives(lib, n.sendPings.value);
    }
    var s5 := s4.(minPings := n.minPings);
    OneChanged(lib, s4, ["config", "min_pings", DecInt(Or0(n.minPings))]);
    if n.minPings.Some? {
      CountDirectives(lib, n.minPings.value);
    }
    if n.interval.Some? {
      OneChanged(lib, s5, ["config", "queuetime", FmtNum(lib, n.interval.value)]);
      IntervalDirective(lib, n.interval.value);
    } else {
      OneChanged(lib, s5, a[0]);
    }
  }

  lemma DefaultsTaken(lib: Lib, n: Node)
    requires SettingsWritable(lib, n)
    ensures SettingsTaken(lib, Defaults(n), n)
  {
    hide Lower, Field;
  }

  // ----- lines of directives -----------------------------------------------------------------

  ghost predicate IsDirective(c: seq<string>) {
    |c| == 3 && c[0] == "config" && Field(c[1]) && Field(c[2]) && c[2] != "{"
  }

  function Lines(cs: seq<seq<string>>): seq<string> {
    seq(|cs|, i requires 0 <= i < |cs| => Joined(cs[i]))
  }

  lemma DirectiveShape(c: seq<string>)
    requires IsDirective(c)
    ensures ShapeOf(Joined(c)) == Stanza(c, false)
  {
    assert Field("config");
    LineShape(c);
  }

  /** Lines of directives read as the defaults they set. */
  lemma {:induction false} DirectivesRead(lib: Lib, cs: seq<seq<string>>, rest: seq<string>, st: Sticky, depth: nat)
    requires depth <= MAX_DEPTH && forall i :: 0 <= i < |cs| ==> IsDirective(cs[i])
    ensures ReadBlock(lib, Lines(cs) + rest, st, depth) == ReadBlock(lib, rest, AllChanged(lib, st, cs), depth)
    decreases cs
  {
    hide ShapeOf, HostNode, ConfigChange, Changed, ReadBlock, Joined, IsDirective;
    if cs == [] {
      assert Lines(cs) + rest == rest;
    } else {
      var lines := Lines(cs) + rest;
      assert lines[0] == Joined(cs[0]) && lines[1..] == Lines(cs[1..]) + rest;
      DirectiveShape(cs[0]);
      ConfigIsNoHost(lib, st, cs[0]);
      ReadStep(lib, lines, st, depth);
      NothingPlanted(ReadBlock(lib, lines[1..], Changed(st, ConfigChange(lib, cs[0])), depth));
      DirectivesRead(lib, cs[1..], rest, Changed(st, ConfigChange(lib, cs[0])), depth);
    }
  }

  lemma ConfigIsNoHost(lib: Lib, st: Sticky, c: seq<string>)
    requires IsDirective(c)
    ensures IsConfig(c) && HostNode(lib, st, c) == None
  {
  }

  lemma NothingPlanted(r: BlockResult)
    ensures Before(Planted(None, []), r) == r
  {
    if r.Block? {
      assert [] + r.trees == r.trees;
    }
  }

  // ----- forests -----------------------------------------------------------------------------

  /** A node that a stanza can spell, with its settings. */
  ghost predicate Writable(lib: Lib, n: Node) {
    && SettingsWritable(lib, n) && FieldsFit(n) && PortSpelled(n, Spelling(n))
    && n.hostname[0] != ';' && n.hostname[0] != '#' && n.hostname != "}"
    && n.desc != "{" && n.contact != "{"
  }

  /** How the port is spelled: always, where a line may have one. */
  function Spelling(n: Node): Option<string> {
    match n.checkType
    case Tcp | Udp | Ssh | Mysql | Telnet => Some(DecInt(n.port))
    case _ => None
  }

  function HostFields(n: Node): seq<string> {
    StanzaOf(n, Keyword(n.checkType), Spelling(n))
  }

  function WriteForest(lib: Lib, ts: seq<Tree>): seq<string>
    decreases ts
  {
    if ts == [] then []
    else
      var n, below := ts[0].node, ts[0].children;
      Lines(Directives(lib, n))
      + (if below == [] then [Joined(HostFields(n))] else [Joined(HostFields(n) + ["{"])] + (WriteForest(lib, below) + ["}"]))
      + WriteForest(lib, ts[1..])
  }

  /** The defaults in force behind a forest. */
  function Behind(st: Sticky, ts: seq<Tree>): Sticky
    decreases ts
  {
    if ts == [] then st else Behind(Behind(Defaults(ts[0].node), ts[0].children), ts[1..])
  }

  /** Every node can be written where it stands; only pings and mail hosts have dependents, at most 64 levels deep. */
  ghost predicate ForestWritable(lib: Lib, st: Sticky, ts: seq<Tree>, depth: nat)
    decreases ts
  {
    ts == [] ||
    (var n, below := ts[0].node, ts[0].children;
     && Writable(lib, n) && Reachable(st, n)
     && (below != [] ==> depth < 64 && (n.checkType == Ping || n.checkType == Ping6 || n.checkType == Smtp))
     && ForestWritable(lib, Defaults(n), below, depth + 1)
     && ForestWritable(lib, Behind(Defaults(n), below), ts[1..], depth))
  }

  lemma KeywordField(t: CheckType)
    ensures Field(Keyword(t)) && Keyword(t) != "{"
  {
    assert forall i :: 0 <= i < |Keyword(t)| ==> 'a' <= Keyword(t)[i] <= 'z' || Keyword(t)[i] == '3' || Keyword(t)[i] == '6';
  }

  lemma NumberField(n: int)
    ensures Field(DecInt(n)) && DecInt(n) != "{"
  {
    hide DecInt, AllPlain, IsSpace;
    IntGood(n);
    PlainField(DecInt(n));
  }

  lemma PlainField(s: string)
    requires s != "" && AllPlain(s)
    ensures Field(s) && s != "{"
  {
    assert IsPlain(s[0]);
  }

  lemma HostShape(n: Node)
    requires FieldsFit(n) && PortSpelled(n, Spelling(n)) && n.desc != "{" && n.contact != "{"
    requires n.hostname[0] != ';' && n.hostname[0] != '#' && n.hostname != "}"
    ensures Stanzaic(HostFields(n)) && HostFields(n)[|HostFields(n)| - 1] != "{"
  {
    hide DecInt, Solid, ParseInt, Keyword, DefaultPort;
    KeywordField(n.checkType);
    NumberField(n.port);
  }

  lemma DirectivesAreSo(lib: Lib, n: Node)
    requires FloatsOk(lib) && SettingsWritable(lib, n)
    ensures forall i :: 0 <= i < |Directives(lib, n)| ==> IsDirective(Directives(lib, n)[i])
  {
    hide DecInt, FmtNum, Solid, AllPlain, Lower;
    NumberField(n.maxDown);
    NumberField(Or0(n.sendPings));
    NumberField(Or0(n.minPings));
    WordsAreFields();
    if n.interval.Some? {
      PlainField(FmtNum(lib, n.interval.value));
    }
  }

  lemma WordsAreFields()
    ensures Field("numfailures") && Field("contact_on") && Field("source") && Field("send_pings") && Field("min_pings") && Field("queuetime")
    ensures Field("down") && Field("up") && Field("both") && Field("none") && Field("auto")
  {
  }

  /** A node's directives and its host line, up to what its line opens. */
  lemma HostReads(lib: Lib, n: Node, line: string, opens: bool, rest: seq<string>, st: Sticky, depth: nat)
    requires FloatsOk(lib) && Writable(lib, n) && Reachable(st, n) && depth <= MAX_DEPTH
    requires ShapeOf(line) == Stanza(HostFields(n), opens)
    ensures var r := ReadBlock(lib, Lines(Directives(lib, n)) + ([line] + rest), st, depth);
            if opens then
              var inner := ReadBlock(lib, rest, Defaults(n), depth + 1);
              r == if inner.TooDeep? then TooDeep else Before(Planted(Some(n), inner.trees), ReadBlock(lib, inner.rest, inner.st, depth))
            else r == Before(Planted(Some(n), []), ReadBlock(lib, rest, Defaults(n), depth))
  {
    hide ShapeOf, HostNode, ConfigChange, Changed, ReadBlock, Joined, IsDirective, FloatsOk, SettingsWritable, FieldsFit, PortSpelled, Reachable,
      Directives, Lines, AllChanged, StanzaOf, Planted, SettingsTaken, MatchType;
    DirectivesAreSo(lib, n);
    DirectivesTake(lib, st, n);
    DirectivesRead(lib, Directives(lib, n), [line] + rest, st, depth);
    DefaultsTaken(lib, n);
    KeywordMeans(n.checkType);
    StanzaReads(lib, Defaults(n), n, Keyword(n.checkType), Spelling(n));
    assert ([line] + rest)[1..] == rest;
    ReadStep(lib, [line] + rest, Defaults(n), depth);
    HostSetsNothing(lib, line, n, opens);
  }

  lemma HostSetsNothing(lib: Lib, line: string, n: Node, opens: bool)
    requires ShapeOf(line) == Stanza(HostFields(n), opens) && FieldsFit(n)
    ensures LineChange(lib, line) == NoChange && forall st :: Changed(st, LineChange(lib, line)) == st
  {
    hide ShapeOf, ConfigChange;
    LongEnough(n, Keyword(n.checkType), Spelling(n));
  }

  /** A written forest reads as itself, whatever block it stands in and whatever follows it. */
  lemma {:induction false} ForestReads(lib: Lib, ts: seq<Tree>, rest: seq<string>, st: Sticky, depth: nat)
    requires FloatsOk(lib) && ForestWritable(lib, st, ts, depth) && depth <= MAX_DEPTH
    ensures ReadBlock(lib, WriteForest(lib, ts) + rest, st, depth) == Before(ts, ReadBlock(lib, rest, Behind(st, ts), depth))
    decreases ts
  {
    hide ReadBlock, Joined, FloatsOk, Writable, Reachable, Directives, Lines, HostFields, ShapeOf;
    if ts == [] {
      assert WriteForest(lib, ts) + rest == rest;
      BeforeNothing(ReadBlock(lib, rest, st, depth));
    } else {
      var n, below, more := ts[0].node, ts[0].children, WriteForest(lib, ts[1..]) + rest;
      WritableShape(lib, n);
      var st' := Behind(Defaults(n), below);
      if below == [] {
        var line := Joined(HostFields(n));
        assert WriteForest(lib, ts) + rest == Lines(Directives(lib, n)) + ([line] + more);
        LineShape(HostFields(n));
        HostReads(lib, n, line, false, more, st, depth);
      } else {
        var line := Joined(HostFields(n) + ["{"]);
        var inside := WriteForest(lib, below) + (["}"] + more);
        assert WriteForest(lib, ts) + rest == Lines(Directives(lib, n)) + ([line] + inside);
        OpeningShape(HostFields(n));
        HostReads(lib, n, line, true, inside, st, depth);
        ForestReads(lib, below, ["}"] + more, Defaults(n), depth + 1);
        CloseReads(lib, more, st', depth + 1);
        assert below + [] == below;
      }
      ForestReads(lib, ts[1..], rest, st', depth);
      PlantedTree(ts[0]);
      BeforeTwice([ts[0]], ts[1..], ReadBlock(lib, rest, Behind(st, ts), depth));
      assert [ts[0]] + ts[1..] == ts;
    }
  }

  lemma WritableShape(lib: Lib, n: Node)
    requires Writable(lib, n)
    ensures Stanzaic(HostFields(n)) && HostFields(n)[|HostFields(n)| - 1] != "{"
  {
    hide SettingsWritable, FieldsFit, PortSpelled, Stanzaic, HostFields;
    HostShape(n);
  }

  lemma BeforeNothing(r: BlockResult)
    ensures Before([], r) == r
  {
    if r.Block? {
      assert [] + r.trees == r.trees;
    }
  }

  lemma CloseReads(lib: Lib, more: seq<string>, st: Sticky, depth: nat)
    requires 0 < depth <= MAX_DEPTH
    ensures ReadBlock(lib, ["}"] + more, st, depth) == Block([], more, st)
  {
    hide ReadBlock;
    ClosingShape();
    assert (["}"] + more)[1..] == more;
    ReadStep(lib, ["}"] + more, st, depth);
  }

  lemma PlantedTree(t: Tree)
    requires t.children != [] ==> t.node.checkType == Ping || t.node.checkType == Ping6 || t.node.checkType == Smtp
    ensures Planted(Some(t.node), t.children) == [t]
  {
  }

  /** Every forest that can be written is what the parser makes of its file. */
  lemma WrittenForestReads(lib: Lib, ts: seq<Tree>, numfailures: int)
    requires FloatsOk(lib) && ForestWritable(lib, Start(numfailures), ts, 0)
    ensures ReadBlock(lib, WriteForest(lib, ts), Start(numfailures), 0) == Block(ts, [], Behind(Start(numfailures), ts))
  {
    hide ReadBlock, WriteForest, ForestWritable, FloatsOk, Behind;
    ForestReads(lib, ts, [], Start(numfailures), 0);
    assert WriteForest(lib, ts) + [] == WriteForest(lib, ts);
    ReadEnd(lib, Behind(Start(numfailures), ts), 0);
    assert ts + [] == ts;
  }
}
