/** Any legacy file through conversion and back. */
module LegacyTrip {
  import opened Model
  import opened Text
  import opened ModernBuild
  import opened Convert
  import opened Reparse
  import opened NodeTrip
  import opened RoundTrip
  import opened Regrow
  import opened GlobalsTrip
  import opened Modern
  import opened Legacy
  import opened LegacyGlobals
  import LegacyScan

  /** What the platform owes the legacy parser too: what it reads as a float is a float. */
  ghost predicate LibOk(lib: Lib) {
    FloatsOk(lib) && forall s: string :: lib.read(s).Some? ==> lib.isFloat(lib.read(s).value)
  }

  // ----- every node the legacy parser builds is a legacy node --------------------------------

  ghost predicate SourceOk(lib: Lib, src: string) {
    src == AUTO || (Solid(src) && Lower(src) != AUTO && lib.ipVersion(src).Some?)
  }

  ghost predicate StickyOk(lib: Lib, st: Sticky) {
    && (st.contactOn == "" || IsContactChoice(st.contactOn))
    && (st.sendPings.Some? ==> st.sendPings.value >= 1)
    && (st.minPings.Some? ==> st.minPings.value >= 1)
    && (st.interval.Some? ==> lib.isFloat(st.interval.value) && st.interval.value > 0.0)
    && (st.source.Some? ==> SourceOk(lib, st.source.value))
  }

  lemma {:induction false} UnquotedSolid(s: string)
    requires Solid(s)
    ensures Solid(Unquoted(s))
    decreases |s|
  {
    if s != "" && s[0] == '"' {
      UnquotedSolid(s[1..]);
    } else if s != "" && s[|s| - 1] == '"' {
      UnquotedSolid(s[..|s| - 1]);
    }
  }

  lemma SourceChangeOk(lib: Lib, raw: string)
    requires Field(raw)
    ensures SourceChange(lib, raw).SetSource? ==> SourceOk(lib, SourceChange(lib, raw).src)
    ensures SourceChange(lib, raw).SetSource? || SourceChange(lib, raw).NoChange?
  {
    hide Lower, Unquoted, Strip;
    SolidStrip(raw);
    UnquotedSolid(raw);
  }

  ghost predicate ChangeOk(lib: Lib, c: Change) {
    match c
    case NoChange => true
    case SetMaxDown(_) => true
    case SetContactOn(s) => IsContactChoice(s)
    case SetSource(s) => SourceOk(lib, s)
    case SetSend(n) => n >= 1
    case SetMin(n) => n >= 1
    case SetInterval(x) => lib.isFloat(x) && x > 0.0
  }

  lemma ConfigChangeOk(lib: Lib, fs: seq<string>)
    requires LibOk(lib) && AllFields(fs)
    ensures ChangeOk(lib, ConfigChange(lib, fs))
  {
    hide ParseInt, SourceChange, FloatsOk, SourceOk, Field;
    if |fs| >= 3 {
      SourceChangeOk(lib, fs[2]);
    }
  }

  lemma ChangeKeepsOk(lib: Lib, st: Sticky, c: Change)
    requires StickyOk(lib, st) && ChangeOk(lib, c)
    ensures StickyOk(lib, Changed(st, c))
  {
    hide SourceOk, IsContactChoice;
  }

  lemma LineKeepsOk(lib: Lib, st: Sticky, line: string)
    requires LibOk(lib) && StickyOk(lib, st)
    ensures StickyOk(lib, Changed(st, LineChange(lib, line)))
  {
    hide LibOk, StickyOk, ShapeOf, ConfigChange, AllFields;
    ShapeFields(line);
    if ShapeOf(line).Stanza? {
      ConfigChangeOk(lib, ShapeOf(line).fields);
    }
    ChangeKeepsOk(lib, st, LineChange(lib, line));
  }

  ghost predicate AllFields(fs: seq<string>) {
    forall i :: 0 <= i < |fs| ==> Field(fs[i])
  }

  lemma AtSolid(fs: seq<string>, i: nat)
    requires AllFields(fs)
    ensures Solid(At(fs, i)) && (i < |fs| ==> Field(fs[i]))
  {
  }

  lemma SnapshotOk(lib: Lib, st: Sticky, host: string, t: CheckType)
    requires StickyOk(lib, st) && Field(host)
    ensures SettingsFromLegacy(lib, Snapshot(lib, st, host, t))
  {
    hide Solid, Lower, IsContactChoice;
  }

  ghost predicate SameSettings(m: Node, n: Node) {
    && m.hostname == n.hostname && m.checkType == n.checkType && m.group == n.group && m.contactOn == n.contactOn
    && m.source == n.source && m.sendPings == n.sendPings && m.minPings == n.minPings && m.interval == n.interval
  }

  /** The settings are not touched by the positional fields. */
  lemma PositionalKeeps(n: Node, fs: seq<string>)
    requires |fs| >= 3 && Positional(n, fs).Some?
    ensures SameSettings(Positional(n, fs).value, n)
  {
    hide ParseInt, AsPort, At;
  }

  lemma SettingsCarry(lib: Lib, m: Node, n: Node)
    requires SameSettings(m, n) && SettingsFromLegacy(lib, n)
    ensures SettingsFromLegacy(lib, m)
  {
    hide Solid, Lower, IsContactChoice, FamilyOk;
  }

  ghost predicate Blankish(n: Node) {
    n.port == Or0(DefaultPort(n.checkType)) && n.desc == "" && n.contact == "" && n.username == "" && n.password == "" && n.url == "" && n.urlText == None
  }

  lemma NothingSolid()
    ensures Solid("")
  {
  }

  lemma PositionalFields(n: Node, fs: seq<string>)
    requires |fs| >= 3 && AllFields(fs) && Blankish(n) && Positional(n, fs).Some?
    ensures var m := Positional(n, fs).value; Solid(m.desc) && Solid(m.contact) && TypeFromLegacy(m)
  {
    hide ParseInt, Solid, AllFields, DefaultPort, At;
    NothingSolid();
    AtSolid(fs, 2);
    AtSolid(fs, 3);
    AtSolid(fs, 4);
    AtSolid(fs, 5);
  }

  lemma HostFromLegacy(lib: Lib, st: Sticky, fs: seq<string>)
    requires StickyOk(lib, st) && AllFields(fs) && HostNode(lib, st, fs).Some?
    ensures FromLegacy(lib, HostNode(lib, st, fs).value)
  {
    hide StickyOk, MatchType, Positional, SettingsFromLegacy, TypeFromLegacy, Solid;
    var n := Snapshot(lib, st, fs[0], MatchType(fs[1]).value);
    AtSolid(fs, 0);
    SnapshotOk(lib, st, fs[0], MatchType(fs[1]).value);
    PositionalKeeps(n, fs);
    SettingsCarry(lib, Positional(n, fs).value, n);
    PositionalFields(n, fs);
  }

  ghost predicate TreesOk(lib: Lib, ts: seq<Tree>)
    decreases ts
  {
    ts == [] || (FromLegacy(lib, ts[0].node) && TreesOk(lib, ts[0].children) && TreesOk(lib, ts[1..]))
  }

  lemma {:induction false} TreesJoin(lib: Lib, a: seq<Tree>, b: seq<Tree>)
    requires TreesOk(lib, a) && TreesOk(lib, b)
    ensures TreesOk(lib, a + b)
    decreases a
  {
    hide FromLegacy;
    if a == [] {
      assert a + b == b;
    } else {
      assert (a + b)[1..] == a[1..] + b;
      TreesJoin(lib, a[1..], b);
    }
  }

  lemma {:induction false} TreesPreorder(lib: Lib, ts: seq<Tree>)
    requires TreesOk(lib, ts)
    ensures AllFromLegacy(lib, ts)
    decreases ts
  {
    hide FromLegacy;
    if ts != [] {
      TreesPreorder(lib, ts[0].children);
      TreesPreorder(lib, ts[1..]);
      var all, below, rest := Preorder(ts), Preorder(ts[0].children), Preorder(ts[1..]);
      forall i | 0 <= i < |all|
        ensures FromLegacy(lib, all[i])
      {
        assert all[i] == if i == 0 then ts[0].node else if i <= |below| then below[i - 1] else rest[i - 1 - |below|];
      }
    }
  }

  lemma PlantedOk(lib: Lib, node: Option<Node>, children: seq<Tree>)
    requires (node.Some? ==> FromLegacy(lib, node.value)) && TreesOk(lib, children)
    ensures TreesOk(lib, Planted(node, children))
  {
    hide FromLegacy;
  }

  lemma ShapeFields(line: string)
    ensures ShapeOf(line).Stanza? ==> AllFields(ShapeOf(line).fields)
  {
    hide Field;
  }

  lemma {:induction false} BlockOk(lib: Lib, lines: seq<string>, st: Sticky, depth: nat)
    requires LibOk(lib) && StickyOk(lib, st)
    ensures var r := ReadBlock(lib, lines, st, depth); r.Block? ==> TreesOk(lib, r.trees) && StickyOk(lib, r.st)
    decreases |lines|
  {
    hide LibOk, StickyOk, ShapeOf, HostNode, LineChange, Changed, Planted, ReadBlock, FromLegacy, AllFields, TreesOk;
    ReadTooDeep(lib, lines, st, depth);
    ReadEnd(lib, st, depth);
    NoTreesOk(lib);
    if lines != [] && depth <= MAX_DEPTH {
      ReadStep(lib, lines, st, depth);
      match ShapeOf(lines[0])
      case Nothing => BlockOk(lib, lines[1..], st, depth);
      case Closing => BlockOk(lib, lines[1..], st, depth);
      case Stanza(fs, opens) =>
        var node, st' := HostNode(lib, st, fs), Changed(st, LineChange(lib, lines[0]));
        LineKeepsOk(lib, st, lines[0]);
        ShapeFields(lines[0]);
        if node.Some? {
          HostFromLegacy(lib, st, fs);
        }
        if opens {
          BlockOk(lib, lines[1..], st', depth + 1);
          var inner := ReadBlock(lib, lines[1..], st', depth + 1);
          if inner.Block? {
            BlockOk(lib, inner.rest, inner.st, depth);
            var after := ReadBlock(lib, inner.rest, inner.st, depth);
            if after.Block? {
              PlantedOk(lib, node, inner.trees);
              TreesJoin(lib, Planted(node, inner.trees), after.trees);
            }
          }
        } else {
          BlockOk(lib, lines[1..], st', depth);
          var after := ReadBlock(lib, lines[1..], st', depth);
          if after.Block? {
            PlantedOk(lib, node, []);
            TreesJoin(lib, Planted(node, []), after.trees);
          }
        }
    }
  }

  lemma NoTreesOk(lib: Lib)
    ensures TreesOk(lib, [])
  {
  }

  /** Whatever the file says, the parsed forest holds legacy nodes only. */
  lemma ParsedFromLegacy(lib: Lib, lines: seq<string>, numfailures: int)
    requires LibOk(lib)
    ensures var r := ReadBlock(lib, lines, Start(numfailures), 0); r.Block? ==> AllFromLegacy(lib, r.trees)
  {
    hide ReadBlock, AllFromLegacy, FromLegacy, FloatsOk;
    BlockOk(lib, lines, Start(numfailures), 0);
    var r := ReadBlock(lib, lines, Start(numfailures), 0);
    if r.Block? {
      TreesPreorder(lib, r.trees);
    }
  }

  // ----- who has dependents ------------------------------------------------------------------

  ghost predicate ParentsFit(ts: seq<Tree>)
    decreases ts
  {
    ts == [] ||
    (var t := ts[0].node.checkType;
     (ts[0].children != [] ==> t == Ping || t == Ping6 || t == Smtp) && ParentsFit(ts[0].children) && ParentsFit(ts[1..]))
  }

  lemma {:induction false} ParentsJoin(a: seq<Tree>, b: seq<Tree>)
    requires ParentsFit(a) && ParentsFit(b)
    ensures ParentsFit(a + b)
    decreases a
  {
    if a == [] {
      assert a + b == b;
    } else {
      assert (a + b)[1..] == a[1..] + b;
      ParentsJoin(a[1..], b);
    }
  }

  lemma PlantedFits(node: Option<Node>, children: seq<Tree>)
    requires ParentsFit(children)
    ensures ParentsFit(Planted(node, children))
  {
    NoParents();
  }

  lemma NoParents()
    ensures ParentsFit([])
  {
  }

  /** Whatever the file says, only pings and mail hosts have dependents: any other block is read and discarded. */
  lemma {:induction false} OnlyPingsParent(lib: Lib, lines: seq<string>, st: Sticky, depth: nat)
    ensures var r := ReadBlock(lib, lines, st, depth); r.Block? ==> ParentsFit(r.trees)
    decreases |lines|
  {
    hide ShapeOf, HostNode, LineChange, Changed, Planted, ReadBlock, ParentsFit;
    ReadTooDeep(lib, lines, st, depth);
    ReadEnd(lib, st, depth);
    NoParents();
    if lines != [] && depth <= MAX_DEPTH {
      ReadStep(lib, lines, st, depth);
      match ShapeOf(lines[0])
      case Nothing => OnlyPingsParent(lib, lines[1..], st, depth);
      case Closing => OnlyPingsParent(lib, lines[1..], st, depth);
      case Stanza(fs, opens) =>
        var node, st' := HostNode(lib, st, fs), Changed(st, LineChange(lib, lines[0]));
        if opens {
          OnlyPingsParent(lib, lines[1..], st', depth + 1);
          var inner := ReadBlock(lib, lines[1..], st', depth + 1);
          if inner.Block? {
            OnlyPingsParent(lib, inner.rest, inner.st, depth);
            var after := ReadBlock(lib, inner.rest, inner.st, depth);
            if after.Block? {
              PlantedFits(node, inner.trees);
              ParentsJoin(Planted(node, inner.trees), after.trees);
            }
          }
        } else {
          OnlyPingsParent(lib, lines[1..], st', depth);
          var after := ReadBlock(lib, lines[1..], st', depth);
          if after.Block? {
            PlantedFits(node, []);
            ParentsJoin(Planted(node, []), after.trees);
          }
        }
    }
  }

  // ----- conversion --------------------------------------------------------------------------

  /** The forest of a legacy file; `None` when it nests too deeply. */
  function LegacyForest(lib: Lib, lines: seq<string>, numfailures: int): Option<seq<Tree>> {
    var r := ReadBlock(lib, lines, Start(numfailures), 0);
    if r.TooDeep? then None else Some(r.trees)
  }

  /** The settings that a legacy file overrides. */
  function LegacySettings(lib: Lib, lines: seq<string>): Globals {
    Overridden(lib, map[], lines)
  }

  /** They all have the form that the converter writes. */
  lemma {:induction false} SettingsAreGood(lib: Lib, lines: seq<string>)
    ensures GoodGlobals(lib, LegacySettings(lib, lines))
  {
    hide GoodGlobals, ShapeOf, ConfigSettings;
    NothingGood(lib);
    if lines != [] {
      var last := lines[|lines| - 1];
      SettingsAreGood(lib, lines[..|lines| - 1]);
      if ShapeOf(last).Stanza? {
        ConfigGood(lib, ShapeOf(last).fields);
      }
      GoodTogether(lib, LegacySettings(lib, lines[..|lines| - 1]), LineSettings(lib, last));
    }
  }

  /** Parses a legacy file, converts it and loads the conversion. The loaded objects are the parsed ones, and link
      into the parsed forest, iff every node is clean. The loaded settings are those of the file that the converter can
      write iff none of them holds a quote, and all of the file's iff, besides, it can write them all. */
  method Migrate(lib: Lib, numfailures: int, lines: seq<string>) returns (forest: Option<seq<Tree>>, text: string, out: Outcome)
    requires LibOk(lib)
    ensures forest == LegacyForest(lib, lines, numfailures)
    ensures forest.Some? ==> text == FileText(lib, numfailures, Head(lib, numfailures, LegacySettings(lib, lines)), forest.value) && out.Parsed?
    ensures forest.Some? ==> (out.overrides == Writable(LegacySettings(lib, lines)) <==> Representable(LegacySettings(lib, lines)))
    ensures forest.Some? ==>
      (out.overrides == LegacySettings(lib, lines) <==> Representable(LegacySettings(lib, lines)) && AllWritten(LegacySettings(lib, lines)))
    ensures forest.Some? ==> (SameObjects(out.objects, NamedObjects(forest.value)) <==> AllClean(numfailures, forest.value))
    ensures forest.Some? ==>
      && Downward(out.children) && (forall i :: 0 <= i < |out.roots| ==> out.roots[i] < |out.children|) && |out.objects| == |out.children|
      && (UnfoldAll(LoadedNodes(out.objects), out.children, out.roots) == forest.value <==> AllClean(numfailures, forest.value))
      && (AllClean(numfailures, forest.value) ==> out.warnings == [])
  {
    hide FloatsOk, AllFromLegacy, GoodGlobals, FileText, Head, SameObjects, AllClean, NamedObjects, UnfoldAll, Downward, ReadBlock,
      Writable, Representable, AllWritten, Overridden;
    var parser := new LegacyParser(lib, lines, numfailures);
    assert parser.Ahead() == lines;
    forest := parser.ParseBlock(0);
    text, out := "", Failed;
    if forest.Some? {
      ParsedFromLegacy(lib, lines, numfailures);
      assert lines[..|lines|] == lines;
      SettingsAreGood(lib, lines);
      text, out := Reload(lib, numfailures, parser.overrides, forest.value);
    }
  }

  /** A file that turns the control server on has a setting that the converter does not write. */
  lemma ControlIsLost(lib: Lib, lines: seq<string>, i: nat)
    requires i < |lines| && ShapeOf(lines[i]).Stanza? && ShapeOf(lines[i]).fields == ["config", "control"]
    ensures LegacySettings(lib, lines) != Writable(LegacySettings(lib, lines)) && !AllWritten(LegacySettings(lib, lines))
  {
    hide ShapeOf, Overridden;
    var enabled := Control("control_enabled");
    assert ReadingOf("control") == ReadFlag(enabled, Flag(true));
    assert enabled in LineSettings(lib, lines[i]);
    LegacyScan.LastSettingWins(lib, lines, enabled);
    assert LegacyScan.Made(lib, lines, enabled);
    assert enabled !in Writable(LegacySettings(lib, lines));
  }

  // ----- a node lost without a warning -------------------------------------------------------

  lemma SmallNumerals()
    ensures ParseInt("1") == Some(1) && ParseInt("2") == Some(2)
  {
    hide ParseInt;
    assert DecInt(1) == "1" && DecInt(2) == "2";
    DecIntParses(1);
    DecIntParses(2);
  }

  lemma PairDirectives(lib: Lib)
    ensures ConfigChange(lib, ["config", "send_pings", "1"]) == SetSend(1)
    ensures ConfigChange(lib, ["config", "min_pings", "2"]) == SetMin(2)
  {
    hide ParseInt, SourceChange;
    SmallNumerals();
    assert "numfailures"[0] != "send_pings"[0] && "numfailures"[0] != "min_pings"[0];
  }

  lemma PingMatches()
    ensures MatchType("ping") == Some(Ping)
  {
    hide FirstMatch;
    assert Keywords[3].0 == "ping";
    assert |Keywords[0].0| > 4 && |Keywords[1].0| > 4 && |Keywords[2].0| > 4;
  }

  /** The node of a `ping` line below `config send_pings 1` and `config min_pings 2`. */
  function InvertedNode(host: string, seed: int): Node {
    Blank(host, Ping, seed).(desc := host, sendPings := Some(1), minPings := Some(2))
  }

  lemma InvertedHost(lib: Lib, host: string, seed: int)
    ensures var st := Changed(Changed(Start(seed), ConfigChange(lib, ["config", "send_pings", "1"])), ConfigChange(lib, ["config", "min_pings", "2"]));
      IsConfig([host, "ping", host]) || HostNode(lib, st, [host, "ping", host]) == Some(InvertedNode(host, seed))
  {
    hide ConfigChange, MatchType, ParseInt;
    PairDirectives(lib);
    PingMatches();
  }

  lemma InvertedFromLegacy(lib: Lib, host: string, seed: int)
    requires Field(host)
    ensures FromLegacy(lib, InvertedNode(host, seed))
  {
    hide Solid;
    NothingSolid();
  }

  lemma InvertedNoQuotes(host: string, seed: int)
    requires Quoteless(host)
    ensures NoQuotes(InvertedNode(host, seed)) && !Clean(seed, InvertedNode(host, seed))
  {
  }

  /** Two directives that are each valid give a node that the conversion changes without any warning. */
  lemma InvertedPairIsLost(lib: Lib, host: string, name: string, seed: int)
    requires FloatsOk(lib) && Field(host) && Quoteless(host) && host != "config"
    ensures var st := Changed(Changed(Start(seed), ConfigChange(lib, ["config", "send_pings", "1"])), ConfigChange(lib, ["config", "min_pings", "2"]));
      HostNode(lib, st, [host, "ping", host]) == Some(InvertedNode(host, seed))
    ensures var o := Convert.Named(name, InvertedNode(host, seed), None);
      !Warns(lib, seed, o) && NodeBack(lib, seed, o) != Some(o.node)
  {
    hide FloatsOk, NodeBack, HostNode, ConfigChange, Changed, FromLegacy, NoQuotes, Clean, WarnsQuote, Warns, Field, Quoteless;
    InvertedHost(lib, host, seed);
    var o := Convert.Named(name, InvertedNode(host, seed), None);
    InvertedFromLegacy(lib, host, seed);
    InvertedNoQuotes(host, seed);
    NodeRoundTrip(lib, seed, o);
    WarnsIff(lib, seed, o);
    forall k
      ensures !WarnsQuote(lib, seed, o, k)
    {
      QuoteWarning(lib, seed, o, k);
    }
  }
}
