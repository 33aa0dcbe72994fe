/** From statements to monitored objects: substitution, validation, overrides and group defaults. */
module ModernBuild {
  import opened Model
  import opened Text
  import opened Lexer
  import opened ModernSyntax
  import opened Records

  /** Conversions the parsers leave to the platform: float literals and IP addresses. `isFloat` says which reals
      are floats at all. */
  datatype Lib = Lib(isFloat: real -> bool, show: real -> string, read: string -> Option<real>, ipVersion: string -> Option<int>)

  datatype AttrKey =
    | Host | Ip | Type | Port | Desc | Contact | Url | UrlText | Username | Password | DnsQuery | Dep
    | QueueTime | SendPings | MinPings | NumFailures | Group | ContactOn | Source

  function KeyText(k: AttrKey): string {
    match k
    case Host => "host"
    case Ip => "ip"
    case Type => "type"
    case Port => "port"
    case Desc => "desc"
    case Contact => "contact"
    case Url => "url"
    case UrlText => "urltext"
    case Username => "username"
    case Password => "password"
    case DnsQuery => "dns-query"
    case Dep => "dep"
    case QueueTime => "queuetime"
    case SendPings => "send_pings"
    case MinPings => "min_pings"
    case NumFailures => "numfailures"
    case Group => "group"
    case ContactOn => "contact_on"
    case Source => "source"
  }

  lemma KeyTextInjective(a: AttrKey, b: AttrKey)
    requires KeyText(a) == KeyText(b)
    ensures a == b
  {
    assert |KeyText(a)| == |KeyText(b)| && KeyText(a)[0] == KeyText(b)[0] && KeyText(a)[1] == KeyText(b)[1];
    match a
    case Host | Ip | Type | Port | Desc | Contact | Url | UrlText | Username | Password | DnsQuery | Dep =>
    case QueueTime | SendPings | MinPings | NumFailures | Group | ContactOn | Source =>
  }

  /** A block's scalar attributes with variables expanded. */
  type Resolved = map<string, string>

  function Get(r: Resolved, k: AttrKey): Option<string> {
    if KeyText(k) in r then Some(r[KeyText(k)]) else None
  }

  // ----- values ------------------------------------------------------------------------------

  predicate IsNameStart(c: char) {
    'a' <= c <= 'z' || 'A' <= c <= 'Z' || c == '_'
  }

  predicate IsNameChar(c: char) {
    IsNameStart(c) || IsDigit(c)
  }

  function NameLength(s: string): (n: nat)
    ensures n <= |s|
  {
    if s == "" || !IsNameChar(s[0]) then 0 else 1 + NameLength(s[1..])
  }

  /** Expands `$NAME` where the variable is set; an unset one stays as written. */
  function Subst(vars: map<string, string>, s: string): string {
    if s == "" then ""
    else if s[0] == '$' && |s| > 1 && IsNameStart(s[1]) then
      var n := 1 + NameLength(s[1..]);
      (if s[1..n] in vars then vars[s[1..n]] else s[..n]) + Subst(vars, s[n..])
    else [s[0]] + Subst(vars, s[1..])
  }

  lemma {:induction false} SubstUnset(s: string)
    ensures Subst(map[], s) == s
    decreases |s|
  {
    if s != "" {
      if s[0] == '$' && |s| > 1 && IsNameStart(s[1]) {
        var n := 1 + NameLength(s[1..]);
        SubstUnset(s[n..]);
        assert s == s[..n] + s[n..];
      } else {
        SubstUnset(s[1..]);
        assert s == [s[0]] + s[1..];
      }
    }
  }

  lemma {:induction false} SubstDollarless(vars: map<string, string>, s: string)
    requires '$' !in s
    ensures Subst(vars, s) == s
    decreases |s|
  {
    if s != "" {
      SubstDollarless(vars, s[1..]);
      assert s == [s[0]] + s[1..];
    }
  }

  function LowerChar(c: char): char {
    if 'A' <= c <= 'Z' then (c as int + 32) as char else c
  }

  function Lower(s: string): string {
    seq(|s|, i requires 0 <= i < |s| => LowerChar(s[i]))
  }

  const AUTO := "auto"

  predicate IsContactChoice(s: string) {
    s == "down" || s == "up" || s == "both" || s == "none"
  }

  /** `auto`, or an IP literal of either family. */
  function ParseSource(lib: Lib, raw: string): Option<string> {
    var val := Strip(raw);
    if Lower(val) == AUTO then Some(AUTO)
    else if lib.ipVersion(val).Some? then Some(val)
    else None
  }

  /** A `ping6` check binds an IPv6 source, every other check an IPv4 one. */
  predicate FamilyOk(lib: Lib, t: CheckType, src: string) {
    src == AUTO || lib.ipVersion(src) == Some(if t == Ping6 then 6 else 4)
  }

  function ParsePort(raw: string): Option<int> {
    var n := ParseNat(Strip(raw));
    if n.Some? && 0 < n.value <= 65535 then Some(n.value) else None
  }

  // ----- overrides ---------------------------------------------------------------------------

  function IntervalAfter(lib: Lib, was: Option<real>, raw: Option<string>): Option<real> {
    if raw.Some? && lib.read(raw.value).Some? && lib.read(raw.value).value > 0.0 then lib.read(raw.value) else was
  }

  function MaxDownAfter(was: int, raw: Option<string>): int {
    if raw.Some? && ParsePlain(raw.value).Some? && ParsePlain(raw.value).value >= 1 then ParsePlain(raw.value).value else was
  }

  function GroupAfter(was: string, raw: Option<string>): string {
    if raw.Some? then Strip(raw.value) else was
  }

  function ContactOnAfter(was: string, raw: Option<string>): string {
    if raw.Some? && IsContactChoice(raw.value) then raw.value else was
  }

  function SourceAfter(lib: Lib, t: CheckType, was: Option<string>, raw: Option<string>): Option<string> {
    if raw.Some? && ParseSource(lib, raw.value).Some? && FamilyOk(lib, t, ParseSource(lib, raw.value).value)
    then ParseSource(lib, raw.value) else was
  }

  /** A ping count as given, if it is given and at least 1. */
  function Count(raw: Option<string>): Option<int> {
    if raw.Some? && ParsePlain(raw.value).Some? && ParsePlain(raw.value).value >= 1 then ParsePlain(raw.value) else None
  }

  /** The pair stands or falls together: a rejected leg drops its partner, and so does asking for more replies
      than probes. */
  predicate PairRejected(rawSend: Option<string>, rawMin: Option<string>) {
    var send, low := Count(rawSend), Count(rawMin);
    || (send.Some? && low.Some? && low.value > send.value)
    || (rawSend.Some? && send.None?) || (rawMin.Some? && low.None?)
  }

  function PingAfter(was: Option<int>, raw: Option<string>, rejected: bool): Option<int> {
    if !rejected && Count(raw).Some? then Count(raw) else was
  }

  /** The override attributes of a block. */
  datatype Overrides = Overrides(
    queueTime: Option<string>, numFailures: Option<string>, group: Option<string>, contactOn: Option<string>,
    source: Option<string>, sendPings: Option<string>, minPings: Option<string>)

  function OverridesOf(r: Resolved): Overrides {
    Overrides(Get(r, QueueTime), Get(r, NumFailures), Get(r, Group), Get(r, ContactOn), Get(r, Source), Get(r, SendPings), Get(r, MinPings))
  }

  function ApplyOverrides(lib: Lib, n: Node, o: Overrides): Node {
    var rejected := PairRejected(o.sendPings, o.minPings);
    n.(interval := IntervalAfter(lib, n.interval, o.queueTime),
       maxDown := MaxDownAfter(n.maxDown, o.numFailures),
       group := GroupAfter(n.group, o.group),
       contactOn := ContactOnAfter(n.contactOn, o.contactOn),
       source := SourceAfter(lib, n.checkType, n.source, o.source),
       sendPings := PingAfter(n.sendPings, o.sendPings, rejected),
       minPings := PingAfter(n.minPings, o.minPings, rejected))
  }

  // ----- objects -----------------------------------------------------------------------------

  function NonEmpty(v: Option<string>): Option<string> {
    if v == Some("") then None else v
  }

  function Or(v: Option<string>, w: string): string {
    if v.Some? then v.value else w
  }

  predicate IsMail(t: CheckType) {
    t == Pop3 || t == Pop3s || t == Imap || t == Imaps || t == Ftp || t == Ftps
  }

  /** The node before per-type fields: everything else at its default. */
  function Blank(host: string, t: CheckType, maxDown: int): Node {
    Node(host, t, Or0(DefaultPort(t)), "", "", "", "", None, "", "", "", None, maxDown, None, None, None)
  }

  function Or0(v: Option<int>): int {
    if v.Some? then v.value else 0
  }

  /** The attributes that some check types require or read. */
  datatype TypeAttrs = TypeAttrs(
    port: Option<string>, url: Option<string>, urlText: Option<string>, username: Option<string>,
    password: Option<string>, dnsQuery: Option<string>, contact: Option<string>)

  function TypeAttrsOf(r: Resolved): TypeAttrs {
    TypeAttrs(Get(r, Port), Get(r, Url), Get(r, UrlText), Get(r, Username), Get(r, Password), Get(r, DnsQuery), Get(r, Contact))
  }

  /** The fields that depend on the check type; `None` when a required one is missing. */
  function TypeFields(n: Node, a: TypeAttrs): Option<Node> {
    if n.checkType == Tcp || n.checkType == Udp then
      var port := if a.port.Some? then ParsePort(a.port.value) else None;
      if port.Some? then Some(n.(port := port.value)) else None
    else if n.checkType == Http || n.checkType == Https then
      if NonEmpty(a.url).None? then None else Some(n.(url := a.url.value, urlText := a.urlText))
    else if IsMail(n.checkType) then
      var u, p := NonEmpty(a.username), NonEmpty(a.password);
      Some(if u.Some? && p.Some? then n.(username := u.value, password := p.value) else n)
    else if n.checkType == Dns then
      if NonEmpty(a.dnsQuery).None? || NonEmpty(a.contact).None? then None else Some(n.(username := a.dnsQuery.value))
    else
      var port := if a.port.Some? then ParsePort(a.port.value) else None;
      Some(if port.Some? then n.(port := port.value) else n)
  }

  /** The node as it is before the common attributes and the overrides. */
  function BareNode(numfailures: int, r: Resolved): Option<Node> {
    var host := if NonEmpty(Get(r, Host)).Some? then Get(r, Host) else NonEmpty(Get(r, Ip));
    var t := if Get(r, Type).Some? then TypeNamed(Get(r, Type).value) else None;
    if host.None? || t.None? then None else TypeFields(Blank(host.value, t.value, numfailures), TypeAttrsOf(r))
  }

  /** A node from an object's attributes, or nothing if a required one is missing or malformed. */
  function BuildNode(lib: Lib, numfailures: int, r: Resolved): Option<Node> {
    var bare := BareNode(numfailures, r);
    if bare.None? then None
    else
      var n := bare.value.(desc := Or(Get(r, Desc), ""), contact := Or(Get(r, Contact), ""));
      Some(ApplyOverrides(lib, n, OverridesOf(r)))
  }

  /** A declared object: its node, its distinct dep names in order, and the attributes it wrote itself. */
  datatype Object = Object(name: string, node: Node, deps: seq<string>, keys: set<string>)

  /** What the statements so far have defined. */
  datatype Env = Env(vars: map<string, string>, objects: seq<Object>, groups: map<string, Resolved>)

  function FirstValue(vars: map<string, string>, values: seq<Token>): string {
    if values == [] then "" else Subst(vars, ValueOf(values[0]))
  }

  function Resolve(vars: map<string, string>, attrs: map<string, seq<Token>>): Resolved {
    map k | k in attrs :: FirstValue(vars, attrs[k])
  }

  function DepNames(vars: map<string, string>, deps: seq<seq<Token>>): (names: seq<string>)
    ensures forall i, j :: 0 <= i < j < |names| ==> names[i] != names[j]
    ensures "" !in names
  {
    if deps == [] then []
    else
      var names := DepNames(vars, deps[..|deps| - 1]);
      var dep := FirstValue(vars, deps[|deps| - 1]);
      if dep == "" || dep in names then names else names + [dep]
  }

  predicate HasObject(objects: seq<Object>, name: string) {
    exists i :: 0 <= i < |objects| && objects[i].name == name
  }

  /** Objects that fail validation, and second objects of a name, are dropped. */
  function AddObject(lib: Lib, numfailures: int, vars: map<string, string>, objects: seq<Object>, name: string, b: Block): seq<Object> {
    var node := BuildNode(lib, numfailures, Resolve(vars, b.attrs));
    if node.None? || HasObject(objects, name) then objects
    else objects + [Object(name, node.value, DepNames(vars, b.deps), b.attrs.Keys)]
  }

  /** The settings that a group block may carry. */
  predicate IsGroupKey(k: AttrKey) {
    k.Source? || k.Contact? || k.ContactOn? || k.NumFailures? || k.QueueTime? || k.SendPings? || k.MinPings?
  }

  function GroupTexts(): set<string> {
    {KeyText(Source), KeyText(Contact), KeyText(ContactOn), KeyText(NumFailures), KeyText(QueueTime), KeyText(SendPings), KeyText(MinPings)}
  }

  /** The usable settings of a group block; a malformed `source` is left out. */
  function GroupSettings(lib: Lib, r: Resolved): Resolved {
    var settings := map k | k in r && k in GroupTexts() :: r[k];
    if Get(settings, Source).None? then settings
    else
      var src := ParseSource(lib, Get(settings, Source).value);
      if src.None? then settings - {KeyText(Source)} else settings[KeyText(Source) := src.value]
  }

  function AddGroup(lib: Lib, vars: map<string, string>, groups: map<string, Resolved>, name: string, b: Block): map<string, Resolved> {
    var who := Strip(Subst(vars, name));
    if who == "" || who in groups then groups else groups[who := GroupSettings(lib, Resolve(vars, b.attrs))]
  }

  function AddVar(vars: map<string, string>, args: seq<Token>): map<string, string> {
    if |args| >= 3 && args[0].Word? && args[1].Equals? && (args[2].Str? || args[2].Word?)
    then vars[args[0].value := Subst(vars, args[2].value)] else vars
  }

  function Step(lib: Lib, numfailures: int, e: Env, s: Stmt): Env {
    match s
    case SetStmt(args) => e.(vars := AddVar(e.vars, args))
    case ObjectStmt(name, b) => e.(objects := AddObject(lib, numfailures, e.vars, e.objects, name, b))
    case GroupStmt(name, b) => e.(groups := AddGroup(lib, e.vars, e.groups, name, b))
    case _ => e
  }

  function Run(lib: Lib, numfailures: int, e: Env, stmts: seq<Stmt>): Env
    decreases stmts
  {
    if stmts == [] then e else Run(lib, numfailures, Step(lib, numfailures, e, stmts[0]), stmts[1..])
  }

  const EmptyEnv := Env(map[], [], map[])

  // ----- group defaults ----------------------------------------------------------------------

  /** The group settings an object takes over: those it did not write, and the ping pair only if it wrote neither. */
  function Inherited(grp: Resolved, keys: set<string>): Resolved {
    var rest := grp - keys;
    if KeyText(SendPings) in keys || KeyText(MinPings) in keys then rest - {KeyText(SendPings), KeyText(MinPings)} else rest
  }

  function ApplyGroup(lib: Lib, o: Object, grp: Resolved): Node {
    var inherited := Inherited(grp, o.keys);
    var src, contact := Get(inherited, Source), Get(inherited, Contact);
    var n1 := if src.Some? && FamilyOk(lib, o.node.checkType, src.value) then o.node.(source := src) else o.node;
    var n2 := if contact.Some? then n1.(contact := contact.value) else n1;
    ApplyOverrides(lib, n2, OverridesOf(inherited - {KeyText(Source), KeyText(Contact)}))
  }

  function Grouped(lib: Lib, groups: map<string, Resolved>, o: Object): Object {
    if o.node.group != "" && o.node.group in groups then o.(node := ApplyGroup(lib, o, groups[o.node.group])) else o
  }

  /** The final objects of a file: the statements in order, then the group defaults. */
  function Objects(lib: Lib, numfailures: int, stmts: seq<Stmt>): seq<Object> {
    var e := Run(lib, numfailures, EmptyEnv, stmts);
    seq(|e.objects|, i requires 0 <= i < |e.objects| => Grouped(lib, e.groups, e.objects[i]))
  }
}
