/** The settings that a `config` line of a legacy file makes. */
module LegacyGlobals {
  import opened Model
  import opened Text
  import opened Lexer
  import opened ModernBuild
  import opened Convert
  import opened GlobalsTrip

  function Joined(fs: seq<string>): string {
    if fs == [] then "" else if |fs| == 1 then fs[0] else fs[0] + " " + Joined(fs[1..])
  }

  /** A path may have been split at blanks; quotes around it go. */
  function PathSetting(s: Setting, fs: seq<string>): Globals {
    TextSetting(s, Strip(Joined(fs)))
  }

  /** An empty value makes no setting. */
  function TextSetting(s: Setting, raw: string): Globals {
    if Unquoted(raw) == "" then map[] else map[s := Chars(Unquoted(raw))]
  }

  /** Directives that set a default for the nodes below them, not a setting of the daemon. */
  predicate IsSticky(name: string) {
    name == "contact_on" || name == "source" || name == "queuetime" || name == "send_pings" || name == "min_pings"
  }

  predicate IsPathName(name: string) {
    name == "control_token_file" || name == "control_tls_cert" || name == "control_tls_key"
  }

  /** A directive of the table that both formats share. */
  function TableSettings(lib: Lib, fs: seq<string>): Globals
    requires |fs| >= 3
  {
    match ReadingOf(fs[1])
    case ReadWhole(s) => WithValue(lib, map[], ReadWhole(s), fs[2])
    case ReadNumber(s) => WithValue(lib, map[], ReadNumber(s), fs[2])
    case ReadText(s) => if IsPathName(fs[1]) then PathSetting(s, fs[2..]) else TextSetting(s, fs[2])
    case ReadFlag(s, v) => map[s := v]
    case _ => map[]
  }

  /** The reading of a directive that the original format knew: by prefix, the first that matches. */
  function PrefixReading(name: string): Option<Reading> {
    if "pageinterval" <= name then Some(ReadWhole(PageIntervalMin))
    else if "logging" <= name then Some(ReadFacility)
    else if "loglevel" <= name then Some(ReadLevel)
    else if "dnslog" <= name then Some(ReadWhole(DnsLog))
    else if "dnsexpire" <= name then Some(ReadWhole(DnsExpire))
    else if "heartbeat" <= name then Some(ReadWhole(Heartbeat))
    else if "savestate" <= name then Some(ReadText(StatePath))
    else if "statusfile" <= name then Some(ReadStatus)
    else if "numfailures" <= name then Some(ReadWhole(NumFailuresGlobal))
    else if "sleeptime" <= name then Some(Ignored)
    else None
  }

  function PrefixSettings(lib: Lib, how: Reading, fs: seq<string>): Globals
    requires |fs| >= 3
  {
    match how
    case ReadText(s) => PathSetting(s, fs[2..])
    case ReadStatus => if |fs| != 4 then map[] else WithStatus(map[], fs[2], fs[3])
    case _ => WithValue(lib, map[], how, fs[2])
  }

  /** Only a flag may stand without a value. */
  function ConfigSettings(lib: Lib, fs: seq<string>): Globals {
    if |fs| < 2 then map[]
    else if |fs| < 3 then
      var how := ReadingOf(fs[1]);
      if how.ReadFlag? then map[how.flag := how.value] else map[]
    else
      var how := PrefixReading(fs[1]);
      if how.Some? then PrefixSettings(lib, how.value, fs)
      else if IsSticky(fs[1]) then map[]
      else TableSettings(lib, fs)
  }

  // ----- both formats mean the same by a directive --------------------------------------------

  /** The directives of the original format. */
  const Originals :=
    ["pageinterval", "logging", "loglevel", "dnslog", "dnsexpire", "heartbeat", "savestate", "statusfile", "numfailures", "sleeptime"]

  lemma SameLetters(a: string, b: string, name: string)
    requires a <= name && b <= name && |a| >= 4 && |b| >= 4
    ensures a[0] == b[0] && a[1] == b[1] && a[2] == b[2] && a[3] == b[3]
  {
  }

  /** No two of them start alike. */
  lemma OneOriginal(name: string, i: nat, j: nat)
    requires i < |Originals| && j < |Originals| && Originals[i] <= name && Originals[j] <= name
    ensures i == j
  {
    SameLetters(Originals[i], Originals[j], name);
  }

  lemma OriginalsWhole()
    ensures ReadingOf("pageinterval") == ReadWhole(PageIntervalMin) && ReadingOf("numfailures") == ReadWhole(NumFailuresGlobal)
    ensures ReadingOf("dnslog") == ReadWhole(DnsLog) && ReadingOf("dnsexpire") == ReadWhole(DnsExpire)
    ensures ReadingOf("heartbeat") == ReadWhole(Heartbeat)
  {
    hide TextDirective, OtherDirective;
  }

  lemma OriginalsNotWhole()
    ensures WholeDirective("savestate") == WholeDirective("logging") == WholeDirective("loglevel") == None
    ensures WholeDirective("statusfile") == WholeDirective("sleeptime") == None
  {
  }

  lemma OriginalsOther()
    ensures TextDirective("savestate") == Some(StatePath) && TextDirective("logging") == TextDirective("loglevel") == None
    ensures TextDirective("statusfile") == TextDirective("sleeptime") == None
    ensures OtherDirective("logging") == ReadFacility && OtherDirective("loglevel") == ReadLevel
    ensures OtherDirective("statusfile") == ReadStatus && OtherDirective("sleeptime") == Ignored
  {
  }

  /** What the original directives mean in the modern format. */
  lemma OriginalsMean()
    ensures ReadingOf("pageinterval") == ReadWhole(PageIntervalMin) && ReadingOf("numfailures") == ReadWhole(NumFailuresGlobal)
    ensures ReadingOf("dnslog") == ReadWhole(DnsLog) && ReadingOf("dnsexpire") == ReadWhole(DnsExpire)
    ensures ReadingOf("heartbeat") == ReadWhole(Heartbeat) && ReadingOf("savestate") == ReadText(StatePath)
    ensures ReadingOf("logging") == ReadFacility && ReadingOf("loglevel") == ReadLevel
    ensures ReadingOf("statusfile") == ReadStatus && ReadingOf("sleeptime") == Ignored
  {
    OriginalsWhole();
    OriginalsNotWhole();
    OriginalsOther();
    hide WholeDirective, TextDirective, OtherDirective;
  }

  lemma NoOther(name: string, i: nat)
    requires i < |Originals| && Originals[i] <= name
    ensures forall j :: 0 <= j < |Originals| && Originals[j] <= name ==> j == i
  {
    hide Originals;
    forall j | 0 <= j < |Originals| && Originals[j] <= name
      ensures j == i
    {
      OneOriginal(name, i, j);
    }
  }

  lemma Spelled()
    ensures |Originals| == 10
    ensures Originals[0] == "pageinterval" && Originals[1] == "logging" && Originals[2] == "loglevel" && Originals[3] == "dnslog"
    ensures Originals[4] == "dnsexpire" && Originals[5] == "heartbeat" && Originals[6] == "savestate" && Originals[7] == "statusfile"
    ensures Originals[8] == "numfailures" && Originals[9] == "sleeptime"
  {
  }

  /** A directive that starts with one of the original keywords means in a legacy file what that keyword means in a modern
      one, however it goes on; any other is not taken for an original one. */
  lemma PrefixMeans(name: string, i: nat)
    requires i < |Originals|
    ensures Originals[i] <= name ==> PrefixReading(name) == Some(ReadingOf(Originals[i]))
    ensures PrefixReading(name).Some? <==> exists j :: 0 <= j < |Originals| && Originals[j] <= name
  {
    hide ReadingOf, Originals;
    Spelled();
    OriginalsMean();
    if Originals[i] <= name {
      NoOther(name, i);
    }
  }

  lemma SamePlaces(a: string, name: string)
    requires a <= name && |a| >= 6
    ensures |name| >= |a| && name[0] == a[0] && name[1] == a[1] && name[2] == a[2] && name[3] == a[3] && name[4] == a[4]
    ensures |name| == |a| ==> name == a
  {
  }

  lemma KnownWhole(name: string, j: nat)
    requires j < |Originals| && Originals[j] <= name && WholeDirective(name).Some?
    ensures name == Originals[j]
  {
    Spelled();
    SamePlaces(Originals[j], name);
    hide Originals;
  }

  lemma KnownOther(name: string, j: nat)
    requires j < |Originals| && Originals[j] <= name && (TextDirective(name).Some? || OtherDirective(name) != Ignored)
    ensures name == Originals[j]
  {
    Spelled();
    SamePlaces(Originals[j], name);
    hide Originals;
  }

  /** The modern format knows no directive that goes on behind an original keyword. */
  lemma KnownIsExact(name: string, j: nat)
    requires j < |Originals| && Originals[j] <= name && ReadingOf(name) != Ignored
    ensures name == Originals[j]
  {
    hide WholeDirective, TextDirective, OtherDirective, Originals;
    if WholeDirective(name).Some? {
      KnownWhole(name, j);
    } else {
      KnownOther(name, j);
    }
  }

  /** Where both formats know a directive, they mean the same setting by it. */
  lemma FormatsAgree(name: string)
    requires PrefixReading(name).Some? && ReadingOf(name) != Ignored
    ensures PrefixReading(name) == Some(ReadingOf(name))
  {
    hide ReadingOf, Originals, PrefixReading;
    Spelled();
    PrefixMeans(name, 0);
    var j :| 0 <= j < |Originals| && Originals[j] <= name;
    PrefixMeans(name, j);
    KnownIsExact(name, j);
  }

  /** A value that is the same word in both formats. */
  ghost predicate PlainValue(v: string) {
    v != "" && Solid(v) && '"' !in v
  }

  lemma ValueKept(s: Setting, v: string)
    requires PlainValue(v)
    ensures TextSetting(s, v) == PathSetting(s, [v]) == map[s := Chars(v)] && Subst(map[], v) == v
  {
    SolidStrip(v);
    SubstUnset(v);
    assert Unquoted(v) == v;
  }

  /** One value: whatever a directive means, both formats read it alike. */
  lemma OneValueAgrees(lib: Lib, name: string, v: string, how: Reading)
    requires how == ReadingOf(name) && how != Ignored && !IsSticky(name) && PlainValue(v)
    ensures ConfigSettings(lib, ["config", name, v]) == ApplyConfig(lib, map[], map[], [Word(name), Word(v)])
  {
    hide ReadingOf, PrefixReading, PlainValue, IsSticky, TextSetting, PathSetting, Subst, ParseInt, AsLevel, AsFacility, WithStatus;
    if PrefixReading(name).Some? {
      FormatsAgree(name);
    }
    var fs := ["config", name, v];
    assert fs[2..] == [v];
    if how.ReadText? {
      ValueKept(how.chars, v);
    } else {
      ValueKept(StatePath, v);
    }
    OnlyStickyLeft(name);
  }

  /** Directives with a reading of their own are original ones, flags, or sticky. */
  lemma OnlyStickyLeft(name: string)
    ensures var how := ReadingOf(name);
            how.ReadLevel? || how.ReadFacility? || how.ReadStatus? || how.ReadContactOn? || how.ReadNumber? ==> PrefixReading(name).Some? || IsSticky(name)
    ensures ReadingOf(name).ReadFlag? ==> PrefixReading(name).None? && !IsSticky(name)
  {
    hide WholeDirective, TextDirective;
    if OtherDirective(name).ReadFlag? {
      FlagsAreNew(name);
    }
  }

  lemma FlagsAreNew(name: string)
    requires OtherDirective(name).ReadFlag?
    ensures PrefixReading(name).None? && !IsSticky(name)
  {
    Spelled();
    hide Originals, PrefixReading, ReadingOf;
    PrefixMeans(name, 0);
    if PrefixReading(name).Some? {
      var j :| 0 <= j < |Originals| && Originals[j] <= name;
      SamePlaces(Originals[j], name);
    }
  }

  /** In both formats only a flag may stand without a value, and the status file takes exactly two. */
  lemma OtherValuesAgree(lib: Lib, name: string, fmt: string, path: string)
    requires PlainValue(path)
    ensures ConfigSettings(lib, ["config", name]) == ApplyConfig(lib, map[], map[], [Word(name)])
    ensures ConfigSettings(lib, ["config", "statusfile", fmt, path]) == ApplyConfig(lib, map[], map[], [Word("statusfile"), Word(fmt), Word(path)])
  {
    hide ReadingOf, PrefixReading, PlainValue, TextSetting, PathSetting, Subst, ParseInt, AsLevel, AsFacility, WithStatus;
    ValueKept(StatusPath, path);
    OriginalsMean();
    Spelled();
    hide Originals;
    PrefixMeans("statusfile", 7);
  }

  /** A path that was split at blanks is put together again. */
  lemma PathsAreJoined(s: Setting, ws: seq<string>)
    requires ws != [] && forall i :: 0 <= i < |ws| ==> PlainValue(ws[i])
    ensures PathSetting(s, ws) == map[s := Chars(Joined(ws))]
  {
    hide Strip, Unquoted, Joined, PlainValue;
    JoinedClean(ws);
  }

  /** It loses the quotes around it. */
  lemma QuotedPathsAreJoined(s: Setting, a: string, b: string)
    requires PlainValue(a) && PlainValue(b)
    ensures PathSetting(s, ["\"" + a, b + "\""]) == map[s := Chars(a + " " + b)]
  {
    var q := "\"" + a + " " + b + "\"";
    assert ["\"" + a, b + "\""][1..] == [b + "\""];
    assert Joined(["\"" + a, b + "\""]) == ("\"" + a) + " " + (b + "\"");
    assert ("\"" + a) + " " + (b + "\"") == "\"" + (a + " " + b) + "\"";
    hide Strip, Unquoted, Joined;
    QuotedPath(a + " " + b);
  }

  lemma {:induction false} JoinedClean(ws: seq<string>)
    requires ws != [] && forall i :: 0 <= i < |ws| ==> PlainValue(ws[i])
    ensures var p := Joined(ws); p != "" && '"' !in p && !IsSpace(p[0]) && !IsSpace(p[|p| - 1]) && Strip(p) == p && Unquoted(p) == p
  {
    if |ws| > 1 {
      JoinedClean(ws[1..]);
      var p := ws[0] + " " + Joined(ws[1..]);
      assert p[0] == ws[0][0] && p[|p| - 1] == Joined(ws[1..])[|Joined(ws[1..])| - 1];
    } else {
      assert PlainValue(ws[0]);
    }
  }

  lemma QuotedPath(p: string)
    requires p != "" && '"' !in p
    ensures Unquoted(Strip("\"" + p + "\"")) == p
  {
    var q := "\"" + p + "\"";
    assert q[0] == '"' && q[|q| - 1] == '"' && !IsSpace('"');
    assert Strip(q) == q;
    assert q[1..] == p + "\"";
    assert (p + "\"")[0] == p[0] && (p + "\"")[|p|] == '"';
    assert (p + "\"")[..|p|] == p;
    assert Unquoted(p) == p;
  }

  // ----- they are settings a converter can write ---------------------------------------------

  /** Settings that are whole numbers, or that the converter does not write. */
  predicate TakesWhole(s: Setting) {
    match s
    case SourceIp | OrgHostname | MailFrom | StatePath | StatusPath | IntervalS | LogLevel | PageOnDegraded | StatusHtml | SyslogFacility => false
    case _ => true
  }

  /** Settings that are texts of their own, or that the converter does not write. */
  predicate TakesText(s: Setting) {
    s == SourceIp || s == OrgHostname || s == MailFrom || s == StatePath || s.Control?
  }

  lemma WholeDirectives(name: string)
    ensures WholeDirective(name).Some? ==> TakesWhole(WholeDirective(name).value)
  {
  }

  lemma TextDirectives(name: string)
    ensures TextDirective(name).Some? ==> TakesText(TextDirective(name).value)
  {
  }

  lemma OtherDirectives(name: string)
    ensures var how := OtherDirective(name);
      && !how.ReadWhole? && !how.ReadText? && (how.ReadNumber? ==> name == "queuetime")
      && (how.ReadFlag? ==> how == ReadFlag(PageOnDegraded, Flag(true)) || (TakesWhole(how.flag) && (how.value.Whole? || how.flag.Control?)))
  {
  }

  /** What the directives of the shared table may set. */
  lemma TableReadings(name: string)
    ensures var how := ReadingOf(name);
      && (how.ReadWhole? ==> TakesWhole(how.whole))
      && (how.ReadText? ==> TakesText(how.chars))
      && (how.ReadNumber? ==> name == "queuetime")
      && (how.ReadFlag? ==> how == ReadFlag(PageOnDegraded, Flag(true)) || (TakesWhole(how.flag) && (how.value.Whole? || how.flag.Control?)))
  {
    hide WholeDirective, TextDirective, OtherDirective, TakesWhole, TakesText;
    WholeDirectives(name);
    TextDirectives(name);
    OtherDirectives(name);
  }

  lemma PrefixReadings(name: string)
    requires PrefixReading(name).Some?
    ensures var how := PrefixReading(name).value;
      && (how.ReadWhole? ==> TakesWhole(how.whole))
      && (how.ReadText? ==> TakesText(how.chars))
      && !how.ReadNumber? && !how.ReadContactOn?
  {
  }

  lemma OneSettingGood(lib: Lib, s: Setting, v: SettingValue)
    requires WellTyped(lib, s, v) && s != StatusPath && s != StatusHtml
    ensures GoodGlobals(lib, map[s := v])
  {
    hide WellTyped;
  }

  lemma NothingGood(lib: Lib)
    ensures GoodGlobals(lib, map[])
  {
  }

  lemma TextGood(lib: Lib, s: Setting, raw: string)
    requires TakesText(s)
    ensures GoodGlobals(lib, TextSetting(s, raw))
  {
    hide Unquoted, GoodGlobals;
    NothingGood(lib);
    OneSettingGood(lib, s, Chars(Unquoted(raw)));
  }

  lemma WholeGood(lib: Lib, s: Setting, raw: string)
    requires TakesWhole(s)
    ensures GoodGlobals(lib, WithValue(lib, map[], ReadWhole(s), raw))
  {
    hide ParseInt, GoodGlobals;
    NothingGood(lib);
    if ParseInt(raw).Some? {
      OneSettingGood(lib, s, Whole(ParseInt(raw).value));
    }
  }

  lemma FlagGood(lib: Lib, name: string)
    requires ReadingOf(name).ReadFlag?
    ensures GoodGlobals(lib, map[ReadingOf(name).flag := ReadingOf(name).value])
  {
    hide ReadingOf, GoodGlobals;
    TableReadings(name);
    OneSettingGood(lib, ReadingOf(name).flag, ReadingOf(name).value);
  }

  lemma LevelGood(lib: Lib, raw: string)
    ensures GoodGlobals(lib, WithValue(lib, map[], ReadLevel, raw))
  {
    hide Lower;
    OneSettingGood(lib, LogLevel, Chars(AsLevel(raw)));
  }

  lemma FacilityGood(lib: Lib, raw: string)
    ensures GoodGlobals(lib, WithValue(lib, map[], ReadFacility, raw))
  {
    OneSettingGood(lib, SyslogFacility, AsFacility(raw));
  }

  lemma StatusGood(lib: Lib, fmt: string, path: string)
    ensures GoodGlobals(lib, WithStatus(map[], fmt, path))
  {
  }

  lemma PrefixGood(lib: Lib, name: string, fs: seq<string>)
    requires |fs| >= 3 && PrefixReading(name).Some?
    ensures GoodGlobals(lib, PrefixSettings(lib, PrefixReading(name).value, fs))
  {
    hide GoodGlobals, PrefixReading, Strip, Joined, TextSetting, ParseInt, AsLevel, AsFacility, WithStatus, TakesWhole, TakesText;
    NothingGood(lib);
    PrefixReadings(name);
    match PrefixReading(name).value
    case ReadText(s) => TextGood(lib, s, Strip(Joined(fs[2..])));
    case ReadStatus =>
      if |fs| == 4 {
        StatusGood(lib, fs[2], fs[3]);
      }
    case ReadWhole(s) => WholeGood(lib, s, fs[2]);
    case ReadLevel => LevelGood(lib, fs[2]);
    case ReadFacility => FacilityGood(lib, fs[2]);
    case _ =>
  }

  lemma TableGood(lib: Lib, fs: seq<string>)
    requires |fs| >= 3 && !IsSticky(fs[1])
    ensures GoodGlobals(lib, TableSettings(lib, fs))
  {
    hide GoodGlobals, ReadingOf, Strip, Joined, TextSetting, ParseInt, TakesWhole, TakesText;
    NothingGood(lib);
    TableReadings(fs[1]);
    match ReadingOf(fs[1])
    case ReadText(s) =>
      TextGood(lib, s, Strip(Joined(fs[2..])));
      TextGood(lib, s, fs[2]);
    case ReadWhole(s) => WholeGood(lib, s, fs[2]);
    case ReadFlag(s, v) => FlagGood(lib, fs[1]);
    case _ =>
  }

  /** Whatever a line says, the settings it makes have the form that the converter writes. */
  lemma ConfigGood(lib: Lib, fs: seq<string>)
    ensures GoodGlobals(lib, ConfigSettings(lib, fs))
  {
    hide GoodGlobals, ReadingOf, PrefixReading, PrefixSettings, TableSettings;
    NothingGood(lib);
    if |fs| >= 3 {
      if PrefixReading(fs[1]).Some? {
        PrefixGood(lib, fs[1], fs);
      } else if !IsSticky(fs[1]) {
        TableGood(lib, fs);
      }
    } else if |fs| == 2 && ReadingOf(fs[1]).ReadFlag? {
      FlagGood(lib, fs[1]);
    }
  }

  lemma GoodTogether(lib: Lib, g: Globals, h: Globals)
    requires GoodGlobals(lib, g) && GoodGlobals(lib, h)
    ensures GoodGlobals(lib, g + h)
  {
    hide WellTyped;
  }
}
