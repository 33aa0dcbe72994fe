/** Writing a forest of nodes in the modern grammar. */
module Convert {
  import opened Model
  import opened Text
  import opened Lexer
  import opened Records
  import opened ModernBuild
  import Graphs

  /** A configured tree, as the legacy format nests it. */
  datatype Tree = Tree(node: Node, children: seq<Tree>)

  // ----- names -------------------------------------------------------------------------------

  /** A host name with everything a bareword cannot hold replaced. */
  function Sanitized(host: string): string {
    seq(|host|, i requires 0 <= i < |host| => if IsPlain(host[i]) then host[i] else '_')
  }

  function BaseName(host: string): string {
    if host == "" then "obj" else Sanitized(host)
  }

  function Candidate(base: string, n: nat): string {
    base + "-" + Dec(n)
  }

  lemma CandidateInjective(base: string, m: nat, n: nat)
    requires Candidate(base, m) == Candidate(base, n)
    ensures m == n
  {
    var p := base + "-";
    assert Candidate(base, m)[|p|..] == Dec(m) && Candidate(base, n)[|p|..] == Dec(n);
    DecInjective(m, n);
  }

  /** The used names among the candidates from `n` on. */
  ghost function Taken(base: string, n: nat, used: set<string>): set<string> {
    set x | x in used && exists k: nat :: k >= n && x == Candidate(base, k)
  }

  /** Passing a used candidate leaves one fewer to meet, since no candidate comes twice. */
  lemma OneFewerTaken(base: string, n: nat, used: set<string>)
    requires Candidate(base, n) in used
    ensures |Taken(base, n + 1, used)| < |Taken(base, n, used)|
  {
    var x := Candidate(base, n);
    forall k: nat | k >= n + 1
      ensures x != Candidate(base, k)
    {
      if x == Candidate(base, k) {
        CandidateInjective(base, n, k);
      }
    }
    Graphs.SubsetSmaller(Taken(base, n + 1, used), Taken(base, n, used), x);
  }

  /** The first candidate from `n` on that is not used. */
  function FirstFree(base: string, n: nat, used: set<string>): (name: string)
    ensures name !in used
    ensures exists k: nat :: k >= n && name == Candidate(base, k) && forall j: nat :: n <= j < k ==> Candidate(base, j) in used
    decreases |Taken(base, n, used)|
  {
    if Candidate(base, n) in used then
      OneFewerTaken(base, n, used);
      FirstFree(base, n + 1, used)
    else Candidate(base, n)
  }

  function NameFor(host: string, used: set<string>): string {
    var base := BaseName(host);
    if base in used then FirstFree(base, 2, used) else base
  }

  /** `host-k` is not used, and every `host-2`, `host-3`, ... before it is. */
  ghost predicate FirstNumber(host: string, k: nat, used: set<string>) {
    k >= 2 && host + "-" + Dec(k) !in used && forall j: nat {:trigger Dec(j)} :: 2 <= j < k ==> host + "-" + Dec(j) in used
  }

  /** A host is written under its own name where that is a bareword and free, else under the first free `name-2`, `name-3`, ...;
      characters that a bareword cannot hold become underscores. */
  lemma NamesAreKept(host: string, used: set<string>)
    requires host != ""
    ensures host !in used && (forall i :: 0 <= i < |host| ==> IsPlain(host[i])) ==> NameFor(host, used) == host
    ensures host in used && (forall i :: 0 <= i < |host| ==> IsPlain(host[i])) ==>
              exists k: nat :: FirstNumber(host, k, used) && NameFor(host, used) == host + "-" + Dec(k)
    ensures var base := Sanitized(host);
            |base| == |host| && forall i :: 0 <= i < |host| ==> base[i] == if IsPlain(host[i]) then host[i] else '_'
  {
    if forall i :: 0 <= i < |host| ==> IsPlain(host[i]) {
      assert Sanitized(host) == host;
      if host in used {
        var k: nat :| k >= 2 && NameFor(host, used) == Candidate(host, k) && forall j: nat :: 2 <= j < k ==> Candidate(host, j) in used;
        forall j: nat | 2 <= j < k
          ensures host + "-" + Dec(j) in used
        {
          assert Candidate(host, j) in used;
        }
        assert NameFor(host, used) == FirstFree(host, 2, used);
        assert Candidate(host, k) == host + "-" + Dec(k);
        assert Candidate(host, k) !in used;
        assert FirstNumber(host, k, used);
      }
    }
  }

  // ----- objects -----------------------------------------------------------------------------

  /** A node with the name it is written under and the name of its parent. */
  datatype Named = Named(name: string, node: Node, parent: Option<string>)

  datatype Naming = Naming(objs: seq<Named>, used: set<string>)

  /** Parents before children, siblings in order. */
  function NameTree(t: Tree, parent: Option<string>, used: set<string>): Naming
    decreases t, 1
  {
    var name := NameFor(t.node.hostname, used);
    var below := NameForest(t.children, Some(name), used + {name});
    Naming([Named(name, t.node, parent)] + below.objs, below.used)
  }

  function NameForest(ts: seq<Tree>, parent: Option<string>, used: set<string>): Naming
    decreases ts, 0
  {
    if ts == [] then Naming([], used)
    else
      var first := NameTree(ts[0], parent, used);
      var rest := NameForest(ts[1..], parent, first.used);
      Naming(first.objs + rest.objs, rest.used)
  }

  /** Strings have no escapes: quotes are stripped, line breaks become blanks. */
  function Quote(s: string): string {
    if s == "" then ""
    else if s[0] == '"' then Quote(s[1..])
    else [if s[0] == '\n' || s[0] == '\r' then ' ' else s[0]] + Quote(s[1..])
  }

  /** Whole numbers are written without a fraction. */
  function FmtNum(lib: Lib, x: real): string {
    if x == x.Floor as real then DecInt(x.Floor) else lib.show(x)
  }

  function When(b: bool, v: string): Option<string> {
    if b then Some(v) else None
  }

  function OptInt(v: Option<int>): Option<string> {
    if v.Some? then Some(DecInt(v.value)) else None
  }

  /** The value written for attribute `k`, if it is written at all. */
  function AttrValue(lib: Lib, seed: int, o: Named, k: AttrKey): Option<string> {
    var n := o.node;
    match k
    case Host => Some(n.hostname)
    case Ip => None
    case Type => Some(TypeName(n.checkType))
    case Port => When(n.port != 0 && Some(n.port) != DefaultPort(n.checkType), DecInt(n.port))
    case Url => When(n.checkType == Http || n.checkType == Https, n.url)
    case UrlText => if n.checkType == Http || n.checkType == Https then n.urlText else None
    case Username => When(IsMail(n.checkType) && n.username != "" && n.password != "", n.username)
    case Password => When(IsMail(n.checkType) && n.username != "" && n.password != "", n.password)
    case DnsQuery => When(n.checkType == Dns, n.username)
    case Desc => When(n.desc != "", n.desc)
    case Contact => When(n.contact != "", n.contact)
    case Group => When(n.group != "", n.group)
    case ContactOn => When(n.contactOn != "", n.contactOn)
    case NumFailures => When(n.maxDown != seed, DecInt(n.maxDown))
    case QueueTime => if n.interval.Some? then Some(FmtNum(lib, n.interval.value)) else None
    case SendPings => OptInt(n.sendPings)
    case MinPings => OptInt(n.minPings)
    case Source => n.source
    case Dep => o.parent
  }

  /** The attributes whose values are written in quotes. */
  predicate IsQuoted(k: AttrKey) {
    !(k.Type? || k.Port? || k.NumFailures? || k.QueueTime? || k.SendPings? || k.MinPings?)
  }

  /** The order in which attributes are written. */
  const KeyOrder: seq<AttrKey> :=
    [Host, Type, Port, Url, UrlText, Username, Password, DnsQuery, Desc, Contact, Group, ContactOn,
     NumFailures, QueueTime, SendPings, MinPings, Source, Dep]

  datatype Value = Bareword(text: string) | Literal(text: string)

  datatype Line =
    | Remark(text: string)
    | Empty
    | Open(name: string)
    | Attr(key: AttrKey, value: Value)
    | Close
    | Global(words: seq<Value>)

  function ValueText(v: Value): string {
    match v
    case Bareword(t) => t
    case Literal(t) => "\"" + t + "\""
  }

  function WordsText(ws: seq<Value>): string {
    if ws == [] then "" else " " + ValueText(ws[0]) + WordsText(ws[1..])
  }

  function LineText(l: Line): string {
    match l
    case Remark(t) => "#" + t
    case Empty => ""
    case Open(name) => "object " + name + " {"
    case Attr(k, v) => "  " + KeyText(k) + " " + ValueText(v) + ";"
    case Close => "};"
    case Global(ws) => "config" + WordsText(ws) + ";"
  }

  /** How the value of attribute `k` is written, if it is. */
  function Written(lib: Lib, seed: int, o: Named, k: AttrKey): Option<Value> {
    var v := AttrValue(lib, seed, o, k);
    if v.None? then None
    else Some(if IsQuoted(k) then Literal(Quote(v.value)) else Bareword(v.value))
  }

  function AttrLine(lib: Lib, seed: int, o: Named, k: AttrKey): seq<Line> {
    var v := Written(lib, seed, o, k);
    if v.None? then [] else [Attr(k, v.value)]
  }

  function AttrLines(lib: Lib, seed: int, o: Named, keys: seq<AttrKey>): seq<Line> {
    if keys == [] then [] else AttrLine(lib, seed, o, keys[0]) + AttrLines(lib, seed, o, keys[1..])
  }

  lemma {:induction false} AttrLinesSplit(lib: Lib, seed: int, o: Named, a: seq<AttrKey>, b: seq<AttrKey>)
    ensures AttrLines(lib, seed, o, a + b) == AttrLines(lib, seed, o, a) + AttrLines(lib, seed, o, b)
  {
    hide AttrLine;
    if a == [] {
      assert a + b == b;
    } else {
      assert (a + b)[1..] == a[1..] + b;
      AttrLinesSplit(lib, seed, o, a[1..], b);
    }
  }

  lemma AttrLinesGrow(lib: Lib, seed: int, o: Named, keys: seq<AttrKey>, i: nat)
    requires i < |keys|
    ensures AttrLines(lib, seed, o, keys[..i + 1]) == AttrLines(lib, seed, o, keys[..i]) + AttrLine(lib, seed, o, keys[i])
  {
    hide AttrLine;
    assert keys[..i + 1] == keys[..i] + [keys[i]];
    AttrLinesSplit(lib, seed, o, keys[..i], [keys[i]]);
    assert AttrLines(lib, seed, o, [keys[i]]) == AttrLine(lib, seed, o, keys[i]);
  }

  function ObjectLines(lib: Lib, seed: int, o: Named): seq<Line> {
    [Open(o.name)] + AttrLines(lib, seed, o, KeyOrder) + [Close, Empty]
  }

  function ObjectsLines(lib: Lib, seed: int, objs: seq<Named>): seq<Line> {
    if objs == [] then [] else ObjectLines(lib, seed, objs[0]) + ObjectsLines(lib, seed, objs[1..])
  }

  function Join(lines: seq<Line>): string {
    if lines == [] then ""
    else if |lines| == 1 then LineText(lines[0])
    else LineText(lines[0]) + "\n" + Join(lines[1..])
  }

  function StripNewlines(s: string): string {
    if s != "" && s[|s| - 1] == '\n' then StripNewlines(s[..|s| - 1]) else s
  }

  /** The lines of a whole file; a blank line separates head and objects. */
  function FileLines(lib: Lib, seed: int, head: seq<Line>, forest: seq<Tree>): seq<Line> {
    (if head != [] && head[|head| - 1] == Empty then head else head + [Empty])
    + ObjectsLines(lib, seed, NameForest(forest, None, {}).objs)
  }

  function FileText(lib: Lib, seed: int, head: seq<Line>, forest: seq<Tree>): string {
    StripNewlines(Join(FileLines(lib, seed, head, forest))) + "\n"
  }

  // ----- globals -----------------------------------------------------------------------------

  /** The settings a configuration file may override. `Control` stands for those of the control plane. */
  datatype Setting =
    | SourceIp | OrgHostname | MailFrom | PageIntervalMin | IntervalS | PingsSent | PingsNeeded | DnsExpire | DnsLog | Heartbeat
    | StateSave | StateMaxAge | MaxConcurrency | StatePath | LogLevel | PageOnDegraded | StatusPath | StatusHtml | SyslogFacility
    | NumFailuresGlobal | ContactOnGlobal | Control(field: string)

  datatype SettingValue = Whole(n: int) | Number(x: real) | Chars(s: string) | Flag(b: bool) | Unset

  type Globals = map<Setting, SettingValue>

  /** How a setting is written. */
  datatype Form = AsText | AsWhole | AsNumber | AsWord | AsFlag

  const GlobalOrder: seq<Setting> :=
    [SourceIp, OrgHostname, MailFrom, PageIntervalMin, IntervalS, PingsSent, PingsNeeded, DnsExpire, DnsLog, Heartbeat,
     StateSave, StateMaxAge, MaxConcurrency, StatePath, LogLevel, PageOnDegraded]

  function DirectiveText(s: Setting): string {
    match s
    case SourceIp => "source_ip"
    case OrgHostname => "hostname"
    case MailFrom => "sender"
    case PageIntervalMin => "pageinterval"
    case IntervalS => "queuetime"
    case PingsSent => "send_pings"
    case PingsNeeded => "min_pings"
    case DnsExpire => "dnsexpire"
    case DnsLog => "dnslog"
    case Heartbeat => "heartbeat"
    case StateSave => "statesave_interval"
    case StateMaxAge => "state_max_age"
    case MaxConcurrency => "maxqueued"
    case StatePath => "savestate"
    case LogLevel => "loglevel"
    case PageOnDegraded => "page_on_degraded"
    case _ => ""
  }

  function FormOf(s: Setting): Form {
    match s
    case SourceIp | OrgHostname | MailFrom | StatePath => AsText
    case IntervalS => AsNumber
    case LogLevel => AsWord
    case PageOnDegraded => AsFlag
    case _ => AsWhole
  }

  /** The line for a setting, if it is overridden; a flag is written only when set. */
  function SettingLine(lib: Lib, g: Globals, s: Setting): seq<Line> {
    if s !in g then []
    else
      match g[s]
      case Flag(b) => if FormOf(s).AsFlag? && b then [Global([Bareword(DirectiveText(s))])] else []
      case Chars(t) =>
        if FormOf(s).AsText? then [Global([Bareword(DirectiveText(s)), Literal(Quote(t))])]
        else if FormOf(s).AsWord? then [Global([Bareword(DirectiveText(s)), Bareword(t)])] else []
      case Number(x) => if FormOf(s).AsNumber? then [Global([Bareword(DirectiveText(s)), Bareword(FmtNum(lib, x))])] else []
      case Whole(n) => if FormOf(s).AsWhole? then [Global([Bareword(DirectiveText(s)), Bareword(DecInt(n))])] else []
      case Unset => []
  }

  /** Format and path of the status file go on one line. */
  function StatusLine(g: Globals): seq<Line> {
    if StatusPath in g && g[StatusPath].Chars? then
      var text := StatusHtml in g && g[StatusHtml] == Flag(false);
      [Global([Bareword("statusfile"), Bareword(if text then "text" else "html"), Literal(Quote(g[StatusPath].s))])]
    else []
  }

  function LoggingLine(g: Globals): seq<Line> {
    if SyslogFacility !in g then []
    else [Global([Bareword("logging"), Bareword(if g[SyslogFacility].Chars? then g[SyslogFacility].s else "none")])]
  }

  function SettingLines(lib: Lib, g: Globals, order: seq<Setting>): seq<Line> {
    if order == [] then [] else SettingLine(lib, g, order[0]) + SettingLines(lib, g, order[1..])
  }

  function GlobalLines(lib: Lib, g: Globals): seq<Line> {
    StatusLine(g) + LoggingLine(g) + SettingLines(lib, g, GlobalOrder)
  }

  function Header(seed: int): seq<Line> {
    [Remark(" Converted from a legacy sysmon.conf" + " by psysmon.config.convert (#3)."),
     Remark(" Per-object 'numfailures' is emitted" + " only where it differs from the assumed"),
     Remark(" default of " + DecInt(seed) + "; '{}' nesting becomes named 'dep' edges."),
     Empty]
  }

  lemma HeaderSize(seed: int)
    ensures |Header(seed)| == 4
  {
  }

  /** What stands above the objects. */
  function Head(lib: Lib, seed: int, g: Globals): seq<Line> {
    Header(seed) + GlobalLines(lib, g)
  }

  lemma {:induction false} SettingLinesSplit(lib: Lib, g: Globals, a: seq<Setting>, b: seq<Setting>)
    ensures SettingLines(lib, g, a + b) == SettingLines(lib, g, a) + SettingLines(lib, g, b)
  {
    hide SettingLine;
    if a == [] {
      assert a + b == b;
    } else {
      assert (a + b)[1..] == a[1..] + b;
      SettingLinesSplit(lib, g, a[1..], b);
    }
  }

  lemma SettingLinesGrow(lib: Lib, g: Globals, order: seq<Setting>, i: nat)
    requires i < |order|
    ensures SettingLines(lib, g, order[..i + 1]) == SettingLines(lib, g, order[..i]) + SettingLine(lib, g, order[i])
  {
    hide SettingLine;
    assert order[..i + 1] == order[..i] + [order[i]];
    SettingLinesSplit(lib, g, order[..i], [order[i]]);
    assert SettingLines(lib, g, [order[i]]) == SettingLine(lib, g, order[i]);
  }

  // ----- warnings ----------------------------------------------------------------------------

  /** What the serializer warns about, and for which object. */
  datatype Notice =
    | Stripped(name: string, key: AttrKey)
    | BadPort(name: string)
    | BadThreshold(name: string)
    | StrippedSetting(setting: Setting)
    | NoObjects

  predicate NeedsPort(t: CheckType) {
    t == Tcp || t == Udp
  }

  predicate Unrepresentable(s: string) {
    '"' in s || '\n' in s || '\r' in s
  }

  /** The warnings given while attribute `k` is written. */
  function KeyNotices(lib: Lib, seed: int, o: Named, k: AttrKey): seq<Notice> {
    var v := AttrValue(lib, seed, o, k);
    if v.None? then []
    else if IsQuoted(k) then (if Unrepresentable(v.value) then [Stripped(o.name, k)] else [])
    else if k == Port && NeedsPort(o.node.checkType) && !(1 <= o.node.port <= 65535) then [BadPort(o.name)]
    else if k == NumFailures && o.node.maxDown < 1 then [BadThreshold(o.name)]
    else []
  }

  function Notices(lib: Lib, seed: int, o: Named, keys: seq<AttrKey>): seq<Notice> {
    if keys == [] then [] else KeyNotices(lib, seed, o, keys[0]) + Notices(lib, seed, o, keys[1..])
  }

  function ObjectsNotices(lib: Lib, seed: int, objs: seq<Named>): seq<Notice> {
    if objs == [] then [] else Notices(lib, seed, objs[0], KeyOrder) + ObjectsNotices(lib, seed, objs[1..])
  }

  /** A setting written as text loses what quoting cannot carry, with a warning. */
  function SettingNotice(g: Globals, s: Setting): seq<Notice> {
    if s in g && g[s].Chars? && (FormOf(s).AsText? || s == StatusPath) && Unrepresentable(g[s].s) then [StrippedSetting(s)] else []
  }

  function SettingNotices(g: Globals, order: seq<Setting>): seq<Notice> {
    if order == [] then [] else SettingNotice(g, order[0]) + SettingNotices(g, order[1..])
  }

  function GlobalNotices(g: Globals): seq<Notice> {
    SettingNotice(g, StatusPath) + SettingNotices(g, GlobalOrder)
  }

  predicate HasGlobals(ls: seq<Line>) {
    exists i :: 0 <= i < |ls| && ls[i].Global?
  }

  lemma {:induction false} SettingNoticesSplit(g: Globals, a: seq<Setting>, b: seq<Setting>)
    ensures SettingNotices(g, a + b) == SettingNotices(g, a) + SettingNotices(g, b)
  {
    hide SettingNotice;
    if a == [] {
      assert a + b == b;
    } else {
      assert (a + b)[1..] == a[1..] + b;
      SettingNoticesSplit(g, a[1..], b);
    }
  }

  lemma SettingNoticesGrow(g: Globals, order: seq<Setting>, i: nat)
    requires i < |order|
    ensures SettingNotices(g, order[..i + 1]) == SettingNotices(g, order[..i]) + SettingNotice(g, order[i])
  {
    hide SettingNotice;
    assert order[..i + 1] == order[..i] + [order[i]];
    SettingNoticesSplit(g, order[..i], [order[i]]);
    assert SettingNotices(g, [order[i]]) == SettingNotice(g, order[i]);
  }

  lemma {:induction false} NoticesSplit(lib: Lib, seed: int, o: Named, a: seq<AttrKey>, b: seq<AttrKey>)
    ensures Notices(lib, seed, o, a + b) == Notices(lib, seed, o, a) + Notices(lib, seed, o, b)
  {
    hide KeyNotices;
    if a == [] {
      assert a + b == b;
    } else {
      assert (a + b)[1..] == a[1..] + b;
      NoticesSplit(lib, seed, o, a[1..], b);
    }
  }

  lemma NoticesGrow(lib: Lib, seed: int, o: Named, keys: seq<AttrKey>, i: nat)
    requires i < |keys|
    ensures Notices(lib, seed, o, keys[..i + 1]) == Notices(lib, seed, o, keys[..i]) + KeyNotices(lib, seed, o, keys[i])
  {
    hide KeyNotices;
    assert keys[..i + 1] == keys[..i] + [keys[i]];
    NoticesSplit(lib, seed, o, keys[..i], [keys[i]]);
    assert Notices(lib, seed, o, [keys[i]]) == KeyNotices(lib, seed, o, keys[i]);
  }

  lemma {:induction false} ObjectsNoticesSplit(lib: Lib, seed: int, a: seq<Named>, b: seq<Named>)
    ensures ObjectsNotices(lib, seed, a + b) == ObjectsNotices(lib, seed, a) + ObjectsNotices(lib, seed, b)
  {
    hide Notices, KeyOrder;
    if a == [] {
      assert a + b == b;
    } else {
      assert (a + b)[1..] == a[1..] + b;
      ObjectsNoticesSplit(lib, seed, a[1..], b);
    }
  }

  lemma OneMore(lib: Lib, seed: int, o: Named, below: seq<Named>)
    ensures ObjectsLines(lib, seed, [o] + below) == ObjectLines(lib, seed, o) + ObjectsLines(lib, seed, below)
    ensures ObjectsNotices(lib, seed, [o] + below) == Notices(lib, seed, o, KeyOrder) + ObjectsNotices(lib, seed, below)
  {
    hide ObjectLines, Notices, KeyOrder;
    assert ([o] + below)[1..] == below;
  }

  // ----- the serializer object ---------------------------------------------------------------

  class Serializer {
    const lib: Lib
    const seed: int
    var lines: seq<Line>
    var used: set<string>
    var warnings: seq<Notice>

    constructor (lib: Lib, seed: int)
      ensures this.lib == lib && this.seed == seed && lines == [] && used == {} && warnings == []
    {
      this.lib, this.seed := lib, seed;
      lines, used, warnings := [], {}, [];
    }

    /** Writes the overridden settings in their fixed order. */
    method EmitGlobals(g: Globals)
      modifies this`lines, this`warnings
      ensures lines == old(lines) + GlobalLines(lib, g)
      ensures warnings == old(warnings) + GlobalNotices(g)
    {
      hide SettingLine, SettingNotice, GlobalOrder, StatusLine, LoggingLine;
      lines, warnings := lines + StatusLine(g) + LoggingLine(g), warnings + SettingNotice(g, StatusPath);
      var order := GlobalOrder;
      for i := 0 to |order|
        invariant lines == old(lines) + StatusLine(g) + LoggingLine(g) + SettingLines(lib, g, order[..i])
        invariant warnings == old(warnings) + SettingNotice(g, StatusPath) + SettingNotices(g, order[..i])
      {
        SettingLinesGrow(lib, g, order, i);
        SettingNoticesGrow(g, order, i);
        lines, warnings := lines + SettingLine(lib, g, order[i]), warnings + SettingNotice(g, order[i]);
      }
      assert order[..|order|] == order;
    }

    /** Picks an unused name. The loop ends because the candidates are all different. */
    method Assign(host: string) returns (name: string)
      modifies this`used
      ensures name == NameFor(host, old(used)) && name !in old(used)
      ensures used == old(used) + {name}
    {
      var base := BaseName(host);
      name := base;
      var n := 2;
      while name in used
        invariant n >= 2 && used == old(used)
        invariant n == 2 ==> name == base
        invariant n > 2 ==> base in used && name == Candidate(base, n - 1) && FirstFree(base, 2, used) == FirstFree(base, n - 1, used)
        decreases if n == 2 then 1 else 0, |Taken(base, n - 1, used)|
      {
        if n > 2 {
          OneFewerTaken(base, n - 1, used);
        }
        name := Candidate(base, n);
        n := n + 1;
      }
      used := used + {name};
    }

    method EmitObject(o: Named)
      modifies this`lines, this`warnings
      ensures lines == old(lines) + ObjectLines(lib, seed, o)
      ensures warnings == old(warnings) + Notices(lib, seed, o, KeyOrder)
    {
      hide AttrLine, KeyNotices, KeyOrder;
      lines := lines + [Open(o.name)];
      var keys := KeyOrder;
      for i := 0 to |keys|
        invariant lines == old(lines) + [Open(o.name)] + AttrLines(lib, seed, o, keys[..i])
        invariant warnings == old(warnings) + Notices(lib, seed, o, keys[..i])
      {
        AttrLinesGrow(lib, seed, o, keys, i);
        NoticesGrow(lib, seed, o, keys, i);
        lines := lines + AttrLine(lib, seed, o, keys[i]);
        warnings := warnings + KeyNotices(lib, seed, o, keys[i]);
      }
      assert keys[..|keys|] == keys;
      lines := lines + [Close, Empty];
    }

    method Walk(t: Tree, parent: Option<string>)
      modifies this
      ensures used == NameTree(t, parent, old(used)).used
      ensures lines == old(lines) + ObjectsLines(lib, seed, NameTree(t, parent, old(used)).objs)
      ensures warnings == old(warnings) + ObjectsNotices(lib, seed, NameTree(t, parent, old(used)).objs)
      decreases t, 1
    {
      hide ObjectsLines, ObjectsNotices, ObjectLines, Notices, NameFor, KeyOrder;
      var name := Assign(t.node.hostname);
      var o := Named(name, t.node, parent);
      OneMore(lib, seed, o, NameForest(t.children, Some(name), used).objs);
      EmitObject(o);
      WalkAll(t.children, Some(name));
    }

    method WalkAll(ts: seq<Tree>, parent: Option<string>)
      modifies this
      ensures used == NameForest(ts, parent, old(used)).used
      ensures lines == old(lines) + ObjectsLines(lib, seed, NameForest(ts, parent, old(used)).objs)
      ensures warnings == old(warnings) + ObjectsNotices(lib, seed, NameForest(ts, parent, old(used)).objs)
      decreases ts, 0
    {
      hide ObjectLines, Notices, NameTree, KeyOrder;
      if ts != [] {
        ghost var first := NameTree(ts[0], parent, used);
        ghost var rest := NameForest(ts[1..], parent, first.used);
        ObjectsLinesSplit(lib, seed, first.objs, rest.objs);
        ObjectsNoticesSplit(lib, seed, first.objs, rest.objs);
        hide ObjectsLines, ObjectsNotices;
        Walk(ts[0], parent);
        WalkAll(ts[1..], parent);
      }
    }

    /** Writes the whole file: header, settings, a blank line, the objects. */
    method Run(g: Globals, roots: seq<Tree>) returns (text: string)
      requires lines == [] && used == {} && warnings == []
      modifies this
      ensures text == FileText(lib, seed, Head(lib, seed, g), roots)
      ensures warnings == GlobalNotices(g) + ObjectsNotices(lib, seed, NameForest(roots, None, {}).objs)
                        + (if roots == [] && HasGlobals(Head(lib, seed, g)) then [NoObjects] else [])
    {
      hide Header, GlobalLines, GlobalNotices, ObjectsLines, NameForest, Join, StripNewlines, ObjectsNotices, HasGlobals;
      HeaderSize(seed);
      lines := Header(seed);
      EmitGlobals(g);
      var configured := HasGlobals(lines);
      if lines[|lines| - 1] != Empty {
        lines := lines + [Empty];
      }
      WalkAll(roots, None);
      if roots == [] && configured {
        warnings := warnings + [NoObjects];
      }
      text := StripNewlines(Join(lines)) + "\n";
    }
  }

  lemma {:induction false} ObjectsLinesSplit(lib: Lib, seed: int, a: seq<Named>, b: seq<Named>)
    ensures ObjectsLines(lib, seed, a + b) == ObjectsLines(lib, seed, a) + ObjectsLines(lib, seed, b)
  {
    if a == [] {
      assert a + b == b;
    } else {
      assert (a + b)[1..] == a[1..] + b;
      ObjectsLinesSplit(lib, seed, a[1..], b);
    }
  }
}
