/** The persisted form of a host's runtime state, and its validation on the way back in. */
module Records {
  import opened Model
  import opened StateMachine

  /** A scalar of a decoded state file. */
  datatype Json = JNull | JBool(b: bool) | JInt(i: int) | JFloat(r: real) | JStr(s: string)

  type Record = map<string, Json>

  const MAX_NOTE := 1024

  /** The state fields that survive a restart; `lastcontacted` is rebased instead. */
  datatype Carried = Carried(
    lastcheck: int,
    downct: int,
    contacted: bool,
    deathtime: real,
    lastUp: real,
    acked: bool,
    note: Option<string>)

  function CarriedOf(st: HostState): Carried {
    Carried(st.lastcheck, st.downct, st.contacted, st.deathtime, st.lastUp, st.acked, st.note)
  }

  function Restore(st: HostState, c: Carried): HostState {
    st.(lastcheck := c.lastcheck, downct := c.downct, contacted := c.contacted, deathtime := c.deathtime,
        lastUp := c.lastUp, acked := c.acked, note := c.note)
  }

  function Truncated(text: string): string {
    if |text| > MAX_NOTE then text[..MAX_NOTE] else text
  }

  /** The configuration keyword of a check type. */
  function TypeName(t: CheckType): string {
    match t
    case Ping => "ping"
    case Ping6 => "ping6"
    case Tcp => "tcp"
    case Udp => "udp"
    case Smtp => "smtp"
    case Pop3 => "pop3"
    case Pop3s => "pop3s"
    case Imap => "imap"
    case Imaps => "imaps"
    case Dns => "dns"
    case Http => "http"
    case Https => "https"
    case Ssh => "ssh"
    case Mysql => "mysql"
    case Ftp => "ftp"
    case Ftps => "ftps"
    case Telnet => "telnet"
  }

  /** The check type a modern `type` keyword names, input-only aliases included. */
  function TypeNamed(name: string): Option<CheckType> {
    if name == "ping" then Some(Ping)
    else if name == "ping6" || name == "pingv6" || name == "icmp6" then Some(Ping6)
    else if name == "tcp" then Some(Tcp)
    else if name == "udp" then Some(Udp)
    else if name == "smtp" then Some(Smtp)
    else if name == "pop3" then Some(Pop3)
    else if name == "pop3s" then Some(Pop3s)
    else if name == "imap" then Some(Imap)
    else if name == "imaps" then Some(Imaps)
    else if name == "dns" || name == "authdns" then Some(Dns)
    else if name == "http" || name == "www" then Some(Http)
    else if name == "https" then Some(Https)
    else if name == "ssh" then Some(Ssh)
    else if name == "mysql" then Some(Mysql)
    else if name == "ftp" then Some(Ftp)
    else if name == "ftps" then Some(Ftps)
    else if name == "telnet" then Some(Telnet)
    else None
  }

  lemma TypeNameInverts(t: CheckType)
    ensures TypeNamed(TypeName(t)) == Some(t)
  {
    match t
    case Ping | Ping6 | Tcp | Udp | Smtp | Pop3 | Pop3s | Imap =>
    case Imaps | Dns | Http | Https | Ssh | Mysql | Ftp | Ftps | Telnet =>
  }

  function ExportRecord(node: Node, st: HostState): Record {
    map["hostname" := JStr(node.hostname), "type" := JStr(TypeName(node.checkType)), "port" := JInt(node.port),
        "lastcheck" := JInt(st.lastcheck), "downct" := JInt(st.downct), "contacted" := JBool(st.contacted),
        "lastcontacted" := JFloat(st.lastcontacted), "deathtime" := JFloat(st.deathtime),
        "last_up" := JFloat(st.lastUp), "acked" := JBool(st.acked),
        "note" := if st.note.Some? then JStr(st.note.value) else JNull]
  }

  function IntField(r: Record, name: string): Option<int> {
    if name in r && r[name].JInt? then Some(r[name].i) else None
  }

  function FloatField(r: Record, name: string): Option<real> {
    if name !in r then None
    else match r[name]
      case JFloat(x) => Some(x)
      case JInt(i) => Some(i as real)
      case _ => None
  }

  function BoolField(r: Record, name: string): Option<bool> {
    if name in r && r[name].JBool? then Some(r[name].b) else None
  }

  function NoteField(r: Record, name: string): Option<Option<string>> {
    if name !in r then None
    else match r[name]
      case JNull => Some(None)
      case JStr(s) => Some(Some(Truncated(s)))
      case _ => None
  }

  /** All carried fields, or nothing at all when one is missing or wrongly typed. */
  function ValidatedCarry(r: Record): Option<Carried> {
    var lastcheck, downct := IntField(r, "lastcheck"), IntField(r, "downct");
    var contacted, acked := BoolField(r, "contacted"), BoolField(r, "acked");
    var deathtime, lastUp := FloatField(r, "deathtime"), FloatField(r, "last_up");
    var note := NoteField(r, "note");
    if lastcheck.Some? && downct.Some? && contacted.Some? && deathtime.Some? && lastUp.Some? && acked.Some? && note.Some?
    then Some(Carried(lastcheck.value, downct.value, contacted.value, deathtime.value, lastUp.value, acked.value, note.value))
    else None
  }

  /** Python's dictionary equality between a JSON scalar and a port. */
  predicate IsPort(j: Json, port: int) {
    match j
    case JInt(i) => i == port
    case JFloat(r) => r == port as real
    case JBool(b) => port == if b then 1 else 0
    case _ => false
  }

  /** The record carries the key `(hostname, type, port)`. */
  predicate Keyed(r: Record, key: Key) {
    && "hostname" in r && r["hostname"] == JStr(key.hostname)
    && "type" in r && r["type"] == JStr(TypeName(key.checkType))
    && "port" in r && IsPort(r["port"], key.port)
  }

  ghost predicate NoteFits(st: HostState) {
    st.note.Some? ==> |st.note.value| <= MAX_NOTE
  }

  /** An exported record is keyed by its own node only, and passes validation with every carried field intact. */
  lemma ExportValidates(node: Node, st: HostState)
    requires NoteFits(st)
    ensures ValidatedCarry(ExportRecord(node, st)) == Some(CarriedOf(st))
    ensures forall key :: Keyed(ExportRecord(node, st), key) <==> key == KeyOf(node)
  {
    hide TypeName, TypeNamed;
    var r := ExportRecord(node, st);
    forall key
      ensures Keyed(r, key) <==> key == KeyOf(node)
    {
      TypeNameInverts(node.checkType);
      TypeNameInverts(key.checkType);
    }
  }
}
