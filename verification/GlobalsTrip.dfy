/** The overridden settings of a converted file, read back. */
module GlobalsTrip {
  import opened Model
  import opened Text
  import opened Lexer
  import opened ModernSyntax
  import opened ModernBuild
  import opened Convert
  import opened Emission
  import opened Reparse
  import opened RoundTrip
  import opened Lists

  // ----- reading `config` statements ---------------------------------------------------------

  /** How the value of a directive is read, and into which setting. */
  datatype Reading =
    | ReadWhole(whole: Setting)
    | ReadNumber(number: Setting)
    | ReadText(chars: Setting)
    | ReadFlag(flag: Setting, value: SettingValue)
    | ReadLevel
    | ReadFacility
    | ReadContactOn
    | ReadStatus
    | Ignored

  /** Directives whose value is an integer. */
  function WholeDirective(name: string): Option<Setting> {
    if name == "pageinterval" then Some(PageIntervalMin)
    else if name == "numfailures" then Some(NumFailuresGlobal)
    else if name == "dnsexpire" then Some(DnsExpire)
    else if name == "dnslog" then Some(DnsLog)
    else if name == "heartbeat" then Some(Heartbeat)
    else if name == "send_pings" then Some(PingsSent)
    else if name == "min_pings" then Some(PingsNeeded)
    else if name == "statesave_interval" then Some(StateSave)
    else if name == "state_max_age" then Some(StateMaxAge)
    else if name == "maxqueued" then Some(MaxConcurrency)
    else if name == "control_port" then Some(Control("control_port"))
    else None
  }

  /** Directives whose value is a text. */
  function TextDirective(name: string): Option<Setting> {
    if name == "savestate" then Some(StatePath)
    else if name == "source_ip" then Some(SourceIp)
    else if name == "hostname" then Some(OrgHostname)
    else if name == "sender" || name == "from" then Some(MailFrom)
    else if name == "control_bind" || name == "control_token_file" || name == "control_tls_cert" || name == "control_tls_key"
    then Some(Control(name))
    else None
  }

  /** Directives without a value, and those with a reading of their own. */
  function OtherDirective(name: string): Reading {
    if name == "queuetime" then ReadNumber(IntervalS)
    else if name == "page_on_degraded" then ReadFlag(PageOnDegraded, Flag(true))
    else if name == "noheartbeat" then ReadFlag(Heartbeat, Whole(0))
    else if name == "control" then ReadFlag(Control("control_enabled"), Flag(true))
    else if name == "loglevel" then ReadLevel
    else if name == "logging" then ReadFacility
    else if name == "contact_on" then ReadContactOn
    else if name == "statusfile" then ReadStatus
    else Ignored
  }

  function ReadingOf(name: string): Reading {
    if WholeDirective(name).Some? then ReadWhole(WholeDirective(name).value)
    else if TextDirective(name).Some? then ReadText(TextDirective(name).value)
    else OtherDirective(name)
  }

  const LEVELS := ["warning", "info", "debug"]

  const FACILITIES :=
    ["kern", "user", "mail", "daemon", "auth", "syslog", "lpr", "news", "uucp", "cron", "authpriv",
     "local0", "local1", "local2", "local3", "local4", "local5", "local6", "local7"]

  function AsLevel(raw: string): string {
    if Lower(raw) in LEVELS then Lower(raw) else "info"
  }

  function AsFacility(raw: string): SettingValue {
    if raw == "none" then Unset else if raw in FACILITIES then Chars(raw) else Chars("daemon")
  }

  /** The status file: a format, then a path. */
  function WithStatus(g: Globals, fmt: string, path: string): Globals {
    if "html" <= fmt then g[StatusHtml := Flag(true)][StatusPath := Chars(path)]
    else if "text" <= fmt then g[StatusHtml := Flag(false)][StatusPath := Chars(path)]
    else g
  }

  /** A directive that takes one value; without any value it is skipped, and so is a malformed number. */
  function WithValue(lib: Lib, g: Globals, how: Reading, raw: string): Globals {
    match how
    case ReadWhole(s) => if ParseInt(raw).Some? then g[s := Whole(ParseInt(raw).value)] else g
    case ReadNumber(s) => if lib.read(raw).Some? then g[s := Number(lib.read(raw).value)] else g
    case ReadText(s) => g[s := Chars(raw)]
    case ReadLevel => g[LogLevel := Chars(AsLevel(raw))]
    case ReadFacility => g[SyslogFacility := AsFacility(raw)]
    case ReadContactOn => g[ContactOnGlobal := Chars(if IsContactChoice(raw) then raw else "both")]
    case _ => g
  }

  function ApplyConfig(lib: Lib, vars: map<string, string>, g: Globals, args: seq<Token>): Globals {
    if args == [] || !args[0].Word? then g
    else
      var how, values := ReadingOf(args[0].value), args[1..];
      match how
      case Ignored => g
      case ReadFlag(s, v) => g[s := v]
      case ReadStatus => if |values| != 2 then g else WithStatus(g, ValueOf(values[0]), Subst(vars, ValueOf(values[1])))
      case _ => if values == [] then g else WithValue(lib, g, how, Subst(vars, ValueOf(values[0])))
  }

  /** The settings that the statements of a file override. */
  function ReadGlobals(lib: Lib, vars: map<string, string>, g: Globals, stmts: seq<Stmt>): Globals
    decreases stmts
  {
    if stmts == [] then g
    else
      match stmts[0]
      case ConfigStmt(args) => ReadGlobals(lib, vars, ApplyConfig(lib, vars, g, args), stmts[1..])
      case SetStmt(args) => ReadGlobals(lib, AddVar(vars, args), g, stmts[1..])
      case _ => ReadGlobals(lib, vars, g, stmts[1..])
  }

  /** The settings that a text overrides; a lexical error gives none. */
  function LoadedGlobals(lib: Lib, text: string): Globals {
    match Lex(text, true)
    case Tokens(ts) => ReadGlobals(lib, map[], map[], Statements(ts))
    case _ => map[]
  }

  /** Values that a directive does not know: an unknown level means info, an unknown facility daemon, an unknown contact choice
      both; `none` switches logging off; a malformed number is skipped, and so is any directive without a value. */
  lemma UnknownValues(lib: Lib, g: Globals, raw: string)
    ensures Lower(raw) !in ["warning", "info", "debug"] ==> WithValue(lib, g, ReadLevel, raw) == g[LogLevel := Chars("info")]
    ensures Lower(raw) in ["warning", "info", "debug"] ==> WithValue(lib, g, ReadLevel, raw) == g[LogLevel := Chars(Lower(raw))]
    ensures WithValue(lib, g, ReadFacility, "none") == g[SyslogFacility := Unset]
    ensures raw != "none" && raw !in FACILITIES ==> WithValue(lib, g, ReadFacility, raw) == g[SyslogFacility := Chars("daemon")]
    ensures raw !in ["down", "up", "both", "none"] ==> WithValue(lib, g, ReadContactOn, raw) == g[ContactOnGlobal := Chars("both")]
    ensures raw in ["down", "up", "both", "none"] ==> WithValue(lib, g, ReadContactOn, raw) == g[ContactOnGlobal := Chars(raw)]
    ensures forall s :: ParseInt(raw).None? ==> WithValue(lib, g, ReadWhole(s), raw) == g
    ensures forall s :: lib.read(raw).None? ==> WithValue(lib, g, ReadNumber(s), raw) == g
  {
    hide ParseInt, Lower;
  }

  /** Directives that say the same: `noheartbeat` and `heartbeat 0`, `from` and `sender`. */
  lemma Synonyms(lib: Lib, g: Globals, v: Token)
    ensures ApplyConfig(lib, map[], g, [Word("noheartbeat")]) == ApplyConfig(lib, map[], g, [Word("heartbeat"), Word("0")])
    ensures ReadingOf("from") == ReadingOf("sender") && ApplyConfig(lib, map[], g, [Word("from"), v]) == ApplyConfig(lib, map[], g, [Word("sender"), v])
  {
    assert WholeDirective("heartbeat") == Some(Heartbeat);
    NoHeartbeat();
    Senders();
    hide ReadingOf, Subst;
    SubstUnset("0");
    assert DecInt(0) == "0";
    DecIntParses(0);
  }

  lemma NoHeartbeat()
    ensures ReadingOf("noheartbeat") == ReadFlag(Heartbeat, Whole(0)) && ReadingOf("heartbeat") == ReadWhole(Heartbeat)
  {
    hide OtherDirective;
    assert OtherDirective("noheartbeat") == ReadFlag(Heartbeat, Whole(0)) by {
      NoHeartbeatFlag();
    }
  }

  lemma NoHeartbeatFlag()
    ensures OtherDirective("noheartbeat") == ReadFlag(Heartbeat, Whole(0))
  {
  }

  lemma Senders()
    ensures ReadingOf("from") == ReadingOf("sender") == ReadText(MailFrom)
  {
    hide OtherDirective;
  }

  // ----- what a file may override ------------------------------------------------------------

  /** The form in which a parser leaves a setting. */
  ghost predicate WellTyped(lib: Lib, s: Setting, v: SettingValue) {
    match s
    case SourceIp | OrgHostname | MailFrom | StatePath | StatusPath => v.Chars?
    case IntervalS => v.Number? && lib.isFloat(v.x) && v.x > 0.0
    case LogLevel => v.Chars? && v.s in LEVELS
    case PageOnDegraded => v == Flag(true)
    case StatusHtml => v.Flag?
    case SyslogFacility => v.Unset? || (v.Chars? && v.s in FACILITIES)
    case NumFailuresGlobal | ContactOnGlobal | Control(_) => true
    case _ => v.Whole?
  }

  ghost predicate GoodGlobals(lib: Lib, g: Globals) {
    && (forall s :: s in g ==> WellTyped(lib, s, g[s]))
    && (StatusPath in g <==> StatusHtml in g)
  }

  /** The settings that the converter writes; the others have no place in its output. */
  predicate IsWritten(s: Setting) {
    !(s.NumFailuresGlobal? || s.ContactOnGlobal? || s.Control?)
  }

  predicate AllWritten(g: Globals) {
    forall s :: s in g ==> IsWritten(s)
  }

  function Writable(g: Globals): Globals {
    map s | s in g && IsWritten(s) :: g[s]
  }

  predicate IsTextual(s: Setting) {
    s == SourceIp || s == OrgHostname || s == MailFrom || s == StatePath || s == StatusPath
  }

  /** No text setting holds a character that quoting changes. */
  predicate Representable(g: Globals) {
    forall s :: s in g && IsTextual(s) && g[s].Chars? ==> !Unrepresentable(g[s].s)
  }

  /** What a setting reads back as. */
  function Back(s: Setting, v: SettingValue): SettingValue {
    if IsTextual(s) && v.Chars? then Chars(Quote(v.s)) else v
  }

  // ----- the lines are well formed -----------------------------------------------------------

  lemma DirectivePlain(s: Setting)
    requires DirectiveText(s) != ""
    ensures AllPlain(DirectiveText(s))
  {
    hide IsPlain, AllPlain;
    NoSpaceInLetters(DirectiveText(s));
  }

  lemma LevelPlain(t: string)
    requires t in LEVELS
    ensures t != "" && AllPlain(t)
  {
    hide IsPlain, AllPlain;
    NoSpaceInLetters(t);
  }

  lemma FacilityPlain(t: string)
    requires t in FACILITIES
    ensures t != "" && AllPlain(t)
  {
    hide IsPlain, AllPlain;
    var i :| 0 <= i < |FACILITIES| && FACILITIES[i] == t;
    NoSpaceInLetters(FACILITIES[i]);
  }

  lemma SettingLineGood(lib: Lib, g: Globals, s: Setting)
    requires FloatsOk(lib) && GoodGlobals(lib, g) && DirectiveText(s) != ""
    ensures HeadLines(SettingLine(lib, g, s))
  {
    hide AllPlain, Quote, DecInt, FmtNum, Quotable;
    DirectivePlain(s);
    if s in g {
      match g[s]
      case Chars(t) =>
        QuoteGood(t);
        if s.LogLevel? {
          LevelPlain(t);
        }
      case Whole(n) => IntGood(n);
      case _ =>
    }
  }

  lemma OrderNamed(i: nat)
    requires i < |GlobalOrder|
    ensures DirectiveText(GlobalOrder[i]) != "" && IsWritten(GlobalOrder[i])
    ensures GlobalOrder[i] != StatusPath && GlobalOrder[i] != StatusHtml && GlobalOrder[i] != SyslogFacility
  {
  }

  ghost predicate AllNamed(order: seq<Setting>) {
    forall i :: 0 <= i < |order| ==> DirectiveText(order[i]) != ""
  }

  lemma {:induction false} SettingLinesGood(lib: Lib, g: Globals, order: seq<Setting>)
    requires FloatsOk(lib) && GoodGlobals(lib, g) && AllNamed(order)
    ensures HeadLines(SettingLines(lib, g, order))
  {
    hide FloatsOk, GoodGlobals, SettingLine, GoodLine, DirectiveText;
    if order != [] {
      SettingLineGood(lib, g, order[0]);
      SettingLinesGood(lib, g, order[1..]);
    }
  }

  lemma HeadJoin(a: seq<Line>, b: seq<Line>)
    requires HeadLines(a) && HeadLines(b)
    ensures HeadLines(a + b)
  {
    hide GoodLine;
  }

  lemma StatusLineGood(lib: Lib, g: Globals)
    requires GoodGlobals(lib, g)
    ensures HeadLines(StatusLine(g))
  {
    hide IsPlain, AllPlain, Quote, Quotable;
    NoSpaceInLetters("statusfile");
    NoSpaceInLetters("html");
    NoSpaceInLetters("text");
    if StatusPath in g {
      assert WellTyped(lib, StatusPath, g[StatusPath]);
      QuoteGood(g[StatusPath].s);
    }
  }

  lemma LoggingLineGood(lib: Lib, g: Globals)
    requires GoodGlobals(lib, g)
    ensures HeadLines(LoggingLine(g))
  {
    hide IsPlain, AllPlain;
    NoSpaceInLetters("logging");
    NoSpaceInLetters("none");
    if SyslogFacility in g {
      assert WellTyped(lib, SyslogFacility, g[SyslogFacility]);
      if g[SyslogFacility].Chars? {
        FacilityPlain(g[SyslogFacility].s);
      }
    }
  }

  lemma RemarksJoin(a: string, b: string)
    requires GoodLine(Remark(a)) && GoodLine(Remark(b))
    ensures GoodLine(Remark(a + b))
  {
  }

  lemma NumberRemark(n: int)
    ensures GoodLine(Remark(DecInt(n)))
  {
    hide DecInt;
    IntGood(n);
    forall i | 0 <= i < |DecInt(n)|
      ensures DecInt(n)[i] != '\n'
    {
      assert IsPlain(DecInt(n)[i]);
    }
  }

  lemma HeaderStart()
    ensures GoodLine(Remark(" Converted from a legacy sysmon.conf")) && GoodLine(Remark(" by psysmon.config.convert (#3)."))
  {
  }

  lemma HeaderMiddle()
    ensures GoodLine(Remark(" Per-object 'numfailures' is emitted")) && GoodLine(Remark(" only where it differs from the assumed"))
  {
  }

  lemma HeaderEnd()
    ensures GoodLine(Remark(" default of ")) && GoodLine(Remark("; '{}' nesting becomes named 'dep' edges."))
  {
  }

  lemma HeaderGood(seed: int)
    ensures HeadLines(Header(seed))
  {
    assert GoodLine(Empty);
    hide GoodLine, DecInt;
    HeaderStart();
    RemarksJoin(" Converted from a legacy sysmon.conf", " by psysmon.config.convert (#3).");
    HeaderMiddle();
    RemarksJoin(" Per-object 'numfailures' is emitted", " only where it differs from the assumed");
    HeaderEnd();
    NumberRemark(seed);
    RemarksJoin(" default of ", DecInt(seed));
    RemarksJoin(" default of " + DecInt(seed), "; '{}' nesting becomes named 'dep' edges.");
  }

  /** The header and the settings that the converter writes are lines that the tokenizer reads as they are meant. */
  lemma HeadIsGood(lib: Lib, seed: int, g: Globals)
    requires FloatsOk(lib) && GoodGlobals(lib, g)
    ensures HeadLines(Head(lib, seed, g))
  {
    hide FloatsOk, GoodGlobals, HeadLines, Header, StatusLine, LoggingLine, SettingLines;
    HeaderGood(seed);
    StatusLineGood(lib, g);
    LoggingLineGood(lib, g);
    assert AllNamed(GlobalOrder) by {
      forall i | 0 <= i < |GlobalOrder|
        ensures DirectiveText(GlobalOrder[i]) != ""
      {
        OrderNamed(i);
      }
    }
    SettingLinesGood(lib, g, GlobalOrder);
    HeadJoin(StatusLine(g), LoggingLine(g));
    HeadJoin(StatusLine(g) + LoggingLine(g), SettingLines(lib, g, GlobalOrder));
    HeadJoin(Header(seed), GlobalLines(lib, g));
  }

  // ----- reading them back -------------------------------------------------------------------

  /** The settings after the lines of a head have been read. */
  function ReadLines(lib: Lib, g: Globals, lines: seq<Line>): Globals
    decreases lines
  {
    if lines == [] then g
    else if lines[0].Global? then ReadLines(lib, ApplyConfig(lib, map[], g, ValueToks(lines[0].words)), lines[1..])
    else ReadLines(lib, g, lines[1..])
  }

  lemma ConfigCons(lib: Lib, vars: map<string, string>, g: Globals, ts: seq<Token>, stmt: Stmt, rest: seq<Token>)
    requires ts != [] && Statement(ts) == (stmt, rest) && !stmt.SetStmt?
    ensures ReadGlobals(lib, vars, g, Statements(ts))
         == ReadGlobals(lib, vars, if stmt.ConfigStmt? then ApplyConfig(lib, vars, g, stmt.args) else g, Statements(rest))
  {
    hide Statement, ApplyConfig;
    assert Statements(ts) == [stmt] + Statements(rest);
    assert ([stmt] + Statements(rest))[1..] == Statements(rest);
  }

  lemma {:induction false} HeadReadsGlobals(lib: Lib, g: Globals, head: seq<Line>, rest: seq<Token>)
    requires HeadLines(head)
    ensures ReadGlobals(lib, map[], g, Statements(AllToks(head) + rest)) == ReadGlobals(lib, map[], ReadLines(lib, g, head), Statements(rest))
    decreases head
  {
    hide Statements, Statement, ReadGlobals, GoodLine, ApplyConfig, ValueToks;
    if head == [] {
      assert AllToks(head) + rest == rest;
    } else {
      var more := AllToks(head[1..]) + rest;
      assert AllToks(head) + rest == Toks(head[0]) + more;
      if head[0].Global? {
        var ws := ValueToks(head[0].words);
        ValuesHaveNoSemi(head[0].words);
        ConfigReads(ws, more);
        ConfigCons(lib, map[], g, Toks(head[0]) + more, ConfigStmt(ws), more);
        HeadReadsGlobals(lib, ApplyConfig(lib, map[], g, ws), head[1..], rest);
      } else {
        assert Toks(head[0]) + more == more;
        HeadReadsGlobals(lib, g, head[1..], rest);
      }
    }
  }

  lemma {:induction false} ObjectsReadNoGlobals(lib: Lib, seed: int, g: Globals, objs: seq<Convert.Named>)
    ensures ReadGlobals(lib, map[], g, Statements(AllToks(ObjectsLines(lib, seed, objs)))) == g
  {
    hide ObjectLines, Statement, Statements, AllToks, BlockOf, ReadGlobals;
    if objs == [] {
      NoStatements(lib, g);
    } else {
      var rest := AllToks(ObjectsLines(lib, seed, objs[1..]));
      AllToksSplit(ObjectLines(lib, seed, objs[0]), ObjectsLines(lib, seed, objs[1..]));
      StatementReads(lib, seed, objs[0], rest);
      ConfigCons(lib, map[], g, AllToks(ObjectsLines(lib, seed, objs)), ObjectStmt(objs[0].name, BlockOf(lib, seed, objs[0])), rest);
      ObjectsReadNoGlobals(lib, seed, g, objs[1..]);
    }
  }

  lemma NoStatements(lib: Lib, g: Globals)
    ensures ReadGlobals(lib, map[], g, Statements(AllToks([]))) == g
  {
  }

  lemma {:induction false} ReadLinesSplit(lib: Lib, g: Globals, a: seq<Line>, b: seq<Line>)
    ensures ReadLines(lib, g, a + b) == ReadLines(lib, ReadLines(lib, g, a), b)
    decreases a
  {
    hide ApplyConfig, ValueToks;
    if a == [] {
      assert a + b == b;
    } else {
      assert (a + b)[1..] == a[1..] + b;
      ReadLinesSplit(lib, if a[0].Global? then ApplyConfig(lib, map[], g, ValueToks(a[0].words)) else g, a[1..], b);
    }
  }

  lemma HeaderReads(lib: Lib, seed: int)
    ensures ReadLines(lib, map[], Header(seed)) == map[]
  {
    hide ApplyConfig, DecInt;
    var h := Header(seed);
    assert h[1..][1..] == [h[2], h[3]] && h[1..][1..][1..] == [h[3]] && [h[3]][1..] == [];
    assert ReadLines(lib, map[], [h[3]]) == ReadLines(lib, map[], []);
    assert ReadLines(lib, map[], [h[2], h[3]]) == ReadLines(lib, map[], [h[3]]);
  }

  lemma OneGlobal(lib: Lib, g: Globals, words: seq<Value>)
    ensures ReadLines(lib, g, [Global(words)]) == ApplyConfig(lib, map[], g, ValueToks(words))
  {
    hide ApplyConfig, ValueToks;
    assert [Global(words)][1..] == [];
  }

  lemma TwoWords(a: Value, b: Value)
    ensures ValueToks([a, b]) == [ValueTok(a), ValueTok(b)] && ValueToks([a]) == [ValueTok(a)]
  {
    assert [a, b][1..] == [b] && [b][1..] == [] && [a][1..] == [];
    assert ValueToks([b]) == [ValueTok(b)] + ValueToks([]);
    assert ValueToks([a]) == [ValueTok(a)] + ValueToks([]);
  }

  lemma WholeReads(s: Setting)
    requires DirectiveText(s) != "" && FormOf(s).AsWhole?
    ensures ReadingOf(DirectiveText(s)) == ReadWhole(s)
  {
  }

  lemma TextReads(s: Setting)
    requires DirectiveText(s) != "" && FormOf(s).AsText?
    ensures ReadingOf(DirectiveText(s)) == ReadText(s)
  {
  }

  lemma KeywordReads()
    ensures ReadingOf("queuetime") == ReadNumber(IntervalS)
    ensures ReadingOf("loglevel") == ReadLevel
    ensures ReadingOf("page_on_degraded") == ReadFlag(PageOnDegraded, Flag(true))
  {
  }

  /** The reading of a directive that the converter writes. */
  lemma DirectiveReads(s: Setting)
    requires DirectiveText(s) != ""
    ensures ReadingOf(DirectiveText(s)) == match FormOf(s)
              case AsText => ReadText(s)
              case AsNumber => ReadNumber(s)
              case AsWord => ReadLevel
              case AsFlag => ReadFlag(s, Flag(true))
              case AsWhole => ReadWhole(s)
  {
    hide ReadingOf;
    if FormOf(s).AsWhole? {
      WholeReads(s);
    } else if FormOf(s).AsText? {
      TextReads(s);
    } else {
      KeywordReads();
    }
  }

  lemma FormFits(s: Setting)
    requires DirectiveText(s) != ""
    ensures FormOf(s).AsWord? <==> s == LogLevel
    ensures FormOf(s).AsFlag? <==> s == PageOnDegraded
    ensures FormOf(s).AsNumber? <==> s == IntervalS
    ensures FormOf(s).AsText? <==> IsTextual(s)
  {
  }

  lemma LevelReads(t: string)
    requires t in LEVELS
    ensures AsLevel(t) == t
  {
    assert Lower("warning") == "warning" && Lower("info") == "info" && Lower("debug") == "debug";
  }

  lemma FacilityReads(v: SettingValue)
    requires v.Unset? || (v.Chars? && v.s in FACILITIES)
    ensures AsFacility(if v.Chars? then v.s else "none") == v
  {
  }

  lemma TypedForm(lib: Lib, s: Setting, v: SettingValue)
    requires WellTyped(lib, s, v) && DirectiveText(s) != ""
    ensures match FormOf(s)
            case AsText => v.Chars?
            case AsNumber => v.Number? && lib.isFloat(v.x) && v.x > 0.0
            case AsWord => v.Chars? && v.s in LEVELS
            case AsFlag => v == Flag(true)
            case AsWhole => v.Whole?
  {
  }

  /** A written setting reads back into itself, apart from what quoting takes away. */
  lemma SettingReads(lib: Lib, g: Globals, acc: Globals, s: Setting)
    requires FloatsOk(lib) && GoodGlobals(lib, g) && DirectiveText(s) != ""
    ensures ReadLines(lib, acc, SettingLine(lib, g, s)) == if s in g then acc[s := Back(s, g[s])] else acc
  {
    hide DirectiveText, ReadingOf, AllPlain, Quote, ParseInt, DecInt, FmtNum, WellTyped, AsLevel, Subst, ReadLines, ValueToks, IsTextual, FormOf;
    NoLines(lib, acc);
    if s in g {
      assert WellTyped(lib, s, g[s]);
      TypedForm(lib, s, g[s]);
      FormFits(s);
      DirectiveReads(s);
      var kw := Bareword(DirectiveText(s));
      match g[s]
      case Flag(_) =>
        TwoWords(kw, kw);
        OneGlobal(lib, acc, [kw]);
      case Chars(t) =>
        var v := if FormOf(s).AsText? then Literal(Quote(t)) else Bareword(t);
        TwoWords(kw, v);
        OneGlobal(lib, acc, [kw, v]);
        SubstUnset(v.text);
        if FormOf(s).AsWord? {
          LevelReads(t);
        }
      case Number(x) =>
        TwoWords(kw, Bareword(FmtNum(lib, x)));
        OneGlobal(lib, acc, [kw, Bareword(FmtNum(lib, x))]);
        SubstUnset(FmtNum(lib, x));
      case Whole(n) =>
        TwoWords(kw, Bareword(DecInt(n)));
        OneGlobal(lib, acc, [kw, Bareword(DecInt(n))]);
        SubstUnset(DecInt(n));
        DecIntParses(n);
      case Unset =>
    }
  }

  lemma NoLines(lib: Lib, g: Globals)
    ensures ReadLines(lib, g, []) == g
  {
  }

  /** The settings of `order` as they read back. */
  function BackFrom(g: Globals, ss: set<Setting>): Globals {
    map s | s in g && s in ss :: Back(s, g[s])
  }

  lemma NothingBack(g: Globals, acc: Globals)
    ensures acc + BackFrom(g, Elements([])) == acc
  {
  }

  lemma BackGrows(g: Globals, acc: Globals, s: Setting, order: seq<Setting>)
    ensures (if s in g then acc[s := Back(s, g[s])] else acc) + BackFrom(g, Elements(order)) == acc + BackFrom(g, Elements([s] + order))
  {
    hide Back;
    assert Elements([s] + order) == {s} + Elements(order);
  }

  lemma {:induction false} SettingsRead(lib: Lib, g: Globals, acc: Globals, order: seq<Setting>)
    requires FloatsOk(lib) && GoodGlobals(lib, g) && AllNamed(order)
    ensures ReadLines(lib, acc, SettingLines(lib, g, order)) == acc + BackFrom(g, Elements(order))
    decreases order
  {
    hide FloatsOk, GoodGlobals, SettingLine, DirectiveText, ReadLines, Back, BackFrom, Elements;
    if order == [] {
      NoLines(lib, acc);
      NothingBack(g, acc);
    } else {
      var s := order[0];
      ReadLinesSplit(lib, acc, SettingLine(lib, g, s), SettingLines(lib, g, order[1..]));
      SettingReads(lib, g, acc, s);
      SettingsRead(lib, g, if s in g then acc[s := Back(s, g[s])] else acc, order[1..]);
      BackGrows(g, acc, s, order[1..]);
      assert [s] + order[1..] == order;
    }
  }

  /** What reading one more `config` line does. */
  lemma ConfigReadsStatus(lib: Lib, acc: Globals, html: bool, path: string)
    ensures ApplyConfig(lib, map[], acc, [Word("statusfile"), Word(if html then "html" else "text"), Str(path)])
         == acc[StatusHtml := Flag(html)][StatusPath := Chars(path)]
  {
    hide Subst;
    SubstUnset(path);
    assert "html"[0] != "text"[0];
  }

  lemma ConfigReadsLogging(lib: Lib, acc: Globals, facility: string)
    ensures ApplyConfig(lib, map[], acc, [Word("logging"), Word(facility)]) == acc[SyslogFacility := AsFacility(facility)]
  {
    hide Subst, AsFacility;
    SubstUnset(facility);
  }

  lemma StatusReads(lib: Lib, g: Globals, acc: Globals)
    requires GoodGlobals(lib, g)
    ensures ReadLines(lib, acc, StatusLine(g)) == acc + BackFrom(g, {StatusPath, StatusHtml})
  {
    hide ApplyConfig, Quote, ReadLines, ValueToks;
    NoLines(lib, acc);
    if StatusPath in g {
      assert WellTyped(lib, StatusPath, g[StatusPath]) && WellTyped(lib, StatusHtml, g[StatusHtml]);
      var html, path := g[StatusHtml].b, Quote(g[StatusPath].s);
      ThreeWords(Bareword("statusfile"), Bareword(if html then "html" else "text"), Literal(path));
      OneGlobal(lib, acc, [Bareword("statusfile"), Bareword(if html then "html" else "text"), Literal(path)]);
      ConfigReadsStatus(lib, acc, html, path);
      assert acc + BackFrom(g, {StatusPath, StatusHtml}) == acc[StatusHtml := g[StatusHtml]][StatusPath := Chars(path)];
    } else {
      assert acc + BackFrom(g, {StatusPath, StatusHtml}) == acc;
    }
  }

  lemma ThreeWords(a: Value, b: Value, c: Value)
    ensures ValueToks([a, b, c]) == [ValueTok(a), ValueTok(b), ValueTok(c)]
  {
    assert [a, b, c][1..] == [b, c];
    TwoWords(b, c);
  }

  lemma LoggingReads(lib: Lib, g: Globals, acc: Globals)
    requires GoodGlobals(lib, g)
    ensures ReadLines(lib, acc, LoggingLine(g)) == acc + BackFrom(g, {SyslogFacility})
  {
    hide ApplyConfig, ReadLines, ValueToks, AsFacility;
    NoLines(lib, acc);
    if SyslogFacility in g {
      assert WellTyped(lib, SyslogFacility, g[SyslogFacility]);
      var facility := if g[SyslogFacility].Chars? then g[SyslogFacility].s else "none";
      TwoWords(Bareword("logging"), Bareword(facility));
      OneGlobal(lib, acc, [Bareword("logging"), Bareword(facility)]);
      ConfigReadsLogging(lib, acc, facility);
      FacilityReads(g[SyslogFacility]);
      assert acc + BackFrom(g, {SyslogFacility}) == acc[SyslogFacility := g[SyslogFacility]];
    } else {
      assert acc + BackFrom(g, {SyslogFacility}) == acc;
    }
  }

  /** Where a setting stands in the output. */
  function PlaceOf(s: Setting): nat {
    match s
    case SourceIp => 0 case OrgHostname => 1 case MailFrom => 2 case PageIntervalMin => 3 case IntervalS => 4
    case PingsSent => 5 case PingsNeeded => 6 case DnsExpire => 7 case DnsLog => 8 case Heartbeat => 9
    case StateSave => 10 case StateMaxAge => 11 case MaxConcurrency => 12 case StatePath => 13 case LogLevel => 14
    case _ => 15
  }

  lemma Placed(s: Setting)
    requires IsWritten(s) && s != StatusPath && s != StatusHtml && s != SyslogFacility
    ensures s in GlobalOrder
  {
    assert GlobalOrder[PlaceOf(s)] == s;
  }

  lemma OrderCovers(s: Setting)
    ensures IsWritten(s) <==> s in GlobalOrder || s == StatusPath || s == StatusHtml || s == SyslogFacility
  {
    hide GlobalOrder, PlaceOf;
    if s in GlobalOrder {
      var i :| 0 <= i < |GlobalOrder| && GlobalOrder[i] == s;
      OrderNamed(i);
    } else if IsWritten(s) && s != StatusPath && s != StatusHtml && s != SyslogFacility {
      Placed(s);
    }
  }

  /** Every written setting, as it reads back. */
  function AllBack(g: Globals): Globals {
    map s | s in g && IsWritten(s) :: Back(s, g[s])
  }

  lemma BackCovers(g: Globals)
    ensures map[] + BackFrom(g, {StatusPath, StatusHtml}) + BackFrom(g, {SyslogFacility}) + BackFrom(g, Elements(GlobalOrder)) == AllBack(g)
  {
    hide Back, GlobalOrder, IsWritten;
    forall s
      ensures IsWritten(s) <==> s in Elements(GlobalOrder) || s in {StatusPath, StatusHtml} || s in {SyslogFacility}
    {
      OrderCovers(s);
    }
  }

  lemma HeadReads(lib: Lib, seed: int, g: Globals)
    requires FloatsOk(lib) && GoodGlobals(lib, g)
    ensures ReadLines(lib, map[], Head(lib, seed, g)) == AllBack(g)
  {
    hide FloatsOk, GoodGlobals, ReadLines, Header, StatusLine, LoggingLine, SettingLines, AllBack, BackFrom, GlobalOrder;
    var a, b, c := StatusLine(g), LoggingLine(g), SettingLines(lib, g, GlobalOrder);
    ReadLinesSplit(lib, map[], Header(seed), a + b + c);
    HeaderReads(lib, seed);
    ReadLinesSplit(lib, map[], a + b, c);
    ReadLinesSplit(lib, map[], a, b);
    StatusReads(lib, g, map[]);
    LoggingReads(lib, g, map[] + BackFrom(g, {StatusPath, StatusHtml}));
    NamedOrder();
    SettingsRead(lib, g, map[] + BackFrom(g, {StatusPath, StatusHtml}) + BackFrom(g, {SyslogFacility}), GlobalOrder);
    BackCovers(g);
  }

  lemma NamedOrder()
    ensures AllNamed(GlobalOrder)
  {
    forall i | 0 <= i < |GlobalOrder|
      ensures DirectiveText(GlobalOrder[i]) != ""
    {
      OrderNamed(i);
    }
  }

  lemma {:induction false} QuoteKeepsIff(s: string)
    ensures Quote(s) == s <==> !Unrepresentable(s)
  {
    if s != "" {
      QuoteKeepsIff(s[1..]);
      QuoteShorter(s);
      assert s == [s[0]] + s[1..];
    }
  }

  lemma {:induction false} QuoteShorter(s: string)
    ensures |Quote(s)| <= |s| && ('"' in s ==> |Quote(s)| < |s|)
  {
    if s != "" {
      QuoteShorter(s[1..]);
    }
  }

  lemma BackKeepsIff(g: Globals)
    ensures AllBack(g) == Writable(g) <==> Representable(g)
  {
    hide Quote, Unrepresentable;
    forall s | s in g && IsWritten(s)
      ensures AllBack(g)[s] == Writable(g)[s] <==> (IsTextual(s) && g[s].Chars? ==> !Unrepresentable(g[s].s))
    {
      if IsTextual(s) && g[s].Chars? {
        QuoteKeepsIff(g[s].s);
      }
    }
    if AllBack(g) == Writable(g) {
      forall s | s in g && IsTextual(s) && g[s].Chars?
        ensures !Unrepresentable(g[s].s)
      {
        assert AllBack(g)[s] == Writable(g)[s];
      }
    }
  }

  lemma {:induction false} NoticesSilentIff(g: Globals, order: seq<Setting>)
    ensures SettingNotices(g, order) == [] <==> forall i :: 0 <= i < |order| ==> SettingNotice(g, order[i]) == []
  {
    hide SettingNotice;
    if order != [] {
      NoticesSilentIff(g, order[1..]);
      assert forall i :: 0 < i < |order| ==> order[i] == order[1..][i - 1];
    }
  }

  /** Setting `s` is a text that loses characters. */
  predicate Strips(g: Globals, s: Setting) {
    s in g && IsTextual(s) && g[s].Chars? && Unrepresentable(g[s].s)
  }

  lemma NoticeIff(g: Globals, s: Setting)
    requires s == StatusPath || s in GlobalOrder
    ensures SettingNotice(g, s) == if Strips(g, s) then [StrippedSetting(s)] else []
  {
    hide GlobalOrder;
    if s in GlobalOrder {
      var i :| 0 <= i < |GlobalOrder| && GlobalOrder[i] == s;
      OrderNamed(i);
      FormFits(s);
    }
  }

  /** The converter warns about the settings iff some text among them loses characters. */
  lemma SettingsWarnIff(g: Globals)
    ensures GlobalNotices(g) == [] <==> Representable(g)
  {
    hide SettingNotice, SettingNotices, GlobalOrder, Unrepresentable;
    NoticesSilentIff(g, GlobalOrder);
    NoticeIff(g, StatusPath);
    forall i | 0 <= i < |GlobalOrder|
      ensures SettingNotice(g, GlobalOrder[i]) == [] <==> !Strips(g, GlobalOrder[i])
    {
      NoticeIff(g, GlobalOrder[i]);
    }
    forall s | IsTextual(s) && s != StatusPath
      ensures s in GlobalOrder
    {
      OrderCovers(s);
    }
  }

  lemma WritableIsAllIff(g: Globals)
    ensures AllBack(g) == g <==> AllBack(g) == Writable(g) && AllWritten(g)
  {
    hide IsWritten, Back;
    if AllBack(g) == g {
      forall s | s in g
        ensures IsWritten(s)
      {
        assert s in AllBack(g);
      }
    }
  }

  /** The settings of a converted file, read back, are those that were converted and have a place in the converter's
      output, iff no text among them holds a quote or a line break. They are all that were converted iff, besides,
      nothing was left without a place: the failure threshold, the contact choice and the control settings are. */
  lemma GlobalsRoundTrip(lib: Lib, seed: int, g: Globals, forest: seq<Tree>)
    requires FloatsOk(lib) && GoodGlobals(lib, g) && AllFromLegacy(lib, forest)
    ensures LoadedGlobals(lib, FileText(lib, seed, Head(lib, seed, g), forest)) == Writable(g) <==> Representable(g)
    ensures LoadedGlobals(lib, FileText(lib, seed, Head(lib, seed, g), forest)) == g
       <==> Representable(g) && AllWritten(g)
  {
    hide FloatsOk, AllFromLegacy, GoodGlobals, HeadLines, GoodLines, FileText, FileLines, Lex, Statements, ReadGlobals, ReadLines, Head,
      AllToks, ObjectsLines, NamedObjects, Fresh, NameOk, IntervalOk, AllBack, Writable, Representable, AllWritten;
    var head, objs := Head(lib, seed, g), NamedObjects(forest);
    HeadIsGood(lib, seed, g);
    NamedOk(lib, forest);
    ObjectsLinesGood(lib, seed, objs);
    HeadTokens(lib, seed, head, forest);
    FileTokens(lib, seed, head, forest);
    HeadReadsGlobals(lib, map[], head, AllToks(ObjectsLines(lib, seed, objs)));
    HeadReads(lib, seed, g);
    ObjectsReadNoGlobals(lib, seed, AllBack(g), objs);
    BackKeepsIff(g);
    WritableIsAllIff(g);
  }
}
