/** Host lines of the legacy format, written and read: the layout of the fields per check type. */
module LegacyStanzas {
  import opened Model
  import opened Text
  import opened Records
  import opened ModernBuild
  import opened NodeTrip
  import opened Legacy

  // ----- keywords ----------------------------------------------------------------------------

  /** The keyword under which the format documents a check type. */
  function Keyword(t: CheckType): string {
    match t
    case Ping => "ping"
    case Ping6 => "ping6"
    case Tcp => "tcp"
    case Udp => "udp"
    case Smtp => "smtp"
    case Pop3 => "pop3"
    case Pop3s => "pop3s"
    case Imap => "imap"
    case Imaps => "imaps"
    case Dns => "authdns"
    case Http => "www"
    case Https => "https"
    case Ssh => "ssh"
    case Mysql => "mysql"
    case Ftp => "ftp"
    case Ftps => "ftps"
    case Telnet => "telnet"
  }

  /** A keyword that stands in the table is found there. */
  lemma InTable(word: string, k: nat)
    requires k < |Keywords| && Keywords[k].0 == word
    ensures MatchType(word) == Keywords[k].1
  {
    hide FirstMatch, Keywords;
    LongestMatch(word, k);
    KeywordsLongerFirst();
    var i := FirstMatch(Keywords, word);
    assert Keywords[i.value].0 == word;
  }

  /** Every documented keyword means its type, and the types that were dropped mean none. */
  lemma KeywordMeans(t: CheckType)
    ensures MatchType(Keyword(t)) == Some(t)
    ensures MatchType("nntp") == None && MatchType("umichx500") == None && MatchType("radius") == None
  {
    hide MatchType;
    InTable("nntp", 10);
    InTable("umichx500", 12);
    InTable("radius", 15);
    match t
    case Ping => InTable("ping", 3);
    case Ping6 => InTable("ping6", 0);
    case Tcp => InTable("tcp", 8);
    case Udp => InTable("udp", 9);
    case Smtp => InTable("smtp", 11);
    case Pop3 => InTable("pop3", 6);
    case Pop3s => InTable("pop3s", 4);
    case Imap => InTable("imap", 7);
    case Imaps => InTable("imaps", 5);
    case Dns => InTable("authdns", 14);
    case Http => InTable("www", 13);
    case Https => InTable("https", 16);
    case Ssh => InTable("ssh", 17);
    case Mysql => InTable("mysql", 18);
    case Ftp => InTable("ftp", 20);
    case Ftps => InTable("ftps", 19);
    case Telnet => InTable("telnet", 21);
  }

  lemma ModernNames(t: CheckType)
    ensures t == Ping || t == Ping6 || t == Tcp || t == Udp || t == Smtp ==> TypeNamed(Keyword(t)) == Some(t)
  {
  }

  lemma ModernMailNames(t: CheckType)
    ensures t == Pop3 || t == Pop3s || t == Imap || t == Imaps || t == Dns || t == Http ==> TypeNamed(Keyword(t)) == Some(t)
  {
  }

  lemma ModernOtherNames(t: CheckType)
    ensures t == Https || t == Ssh || t == Mysql || t == Ftp || t == Ftps || t == Telnet ==> TypeNamed(Keyword(t)) == Some(t)
  {
  }

  lemma ModernAliases()
    ensures TypeNamed("pingv6") == Some(Ping6) && TypeNamed("icmp6") == Some(Ping6)
    ensures TypeNamed("nntp") == None && TypeNamed("umichx500") == None && TypeNamed("radius") == None
  {
  }

  /** The modern format accepts every keyword of the legacy one, and means the same by it. */
  lemma KeywordsShared(t: CheckType)
    ensures TypeNamed(Keyword(t)) == Some(t)
    ensures TypeNamed("pingv6") == MatchType("pingv6") == Some(Ping6) && TypeNamed("icmp6") == MatchType("icmp6") == Some(Ping6)
    ensures TypeNamed("nntp") == None && TypeNamed("umichx500") == None && TypeNamed("radius") == None
  {
    hide MatchType, TypeNamed, Keyword;
    InTable("pingv6", 1);
    InTable("icmp6", 2);
    ModernNames(t);
    ModernMailNames(t);
    ModernOtherNames(t);
    ModernAliases();
  }

  // ----- the layout --------------------------------------------------------------------------

  function Ending(desc: string, contact: string): seq<string> {
    if contact == "" then [desc] else [desc, contact]
  }

  /** The fields behind host and keyword; `port` is how the port is spelled, where the line has one. */
  function Layout(n: Node, port: Option<string>): seq<string> {
    match n.checkType
    case Tcp | Udp => [Or(port, "")] + Ending(n.desc, n.contact)
    case Http | Https => if n.urlText.Some? then [n.url, n.urlText.value] + Ending(n.desc, n.contact) else [n.url, n.desc]
    case Pop3 | Pop3s | Imap | Imaps | Ftp | Ftps =>
      if n.username == "" then Ending(n.desc, n.contact) else [n.username, n.password] + Ending(n.desc, n.contact)
    case Dns => [n.username, n.contact]
    case Ssh | Mysql | Telnet => (if port.Some? then [port.value] else []) + Ending(n.desc, n.contact)
    case Ping | Ping6 | Smtp => Ending(n.desc, n.contact)
  }

  function StanzaOf(n: Node, word: string, port: Option<string>): seq<string> {
    [n.hostname, word] + Layout(n, port)
  }

  predicate ReadsAsPort(s: string) {
    ParseInt(s).Some? && 1 <= ParseInt(s).value <= 65535
  }

  /** A port is spelled where one is needed, and may be where it has a default; left out, the label must not look like one. */
  predicate PortSpelled(n: Node, port: Option<string>) {
    match n.checkType
    case Tcp | Udp => port.Some? && ParseInt(port.value) == Some(n.port)
    case Ssh | Mysql | Telnet =>
      if port.Some? then ParseInt(port.value) == Some(n.port) && 1 <= n.port <= 65535
      else Some(n.port) == DefaultPort(n.checkType) && !ReadsAsPort(n.desc)
    case _ => port == None && n.port == Or0(DefaultPort(n.checkType))
  }

  /** The texts of a node fit into fields; what its type does not have is empty. */
  ghost predicate FieldsFit(n: Node) {
    && Field(n.hostname) && n.hostname != "config" && (n.contact == "" || Field(n.contact))
    && match n.checkType
       case Dns => n.desc == "" && Field(n.username) && Field(n.contact) && n.password == "" && n.url == "" && n.urlText == None
       case Http | Https =>
         && Field(n.desc) && Field(n.url) && n.username == "" && n.password == ""
         && if n.urlText.Some? then Field(n.urlText.value) else n.contact == ""
       case Pop3 | Pop3s | Imap | Imaps | Ftp | Ftps =>
         && Field(n.desc) && n.url == "" && n.urlText == None
         && ((n.username == "" && n.password == "") || (Field(n.username) && Field(n.password)))
       case Tcp | Udp => Field(n.desc) && n.port > 0 && n.username == "" && n.password == "" && n.url == "" && n.urlText == None
       case _ => Field(n.desc) && n.username == "" && n.password == "" && n.url == "" && n.urlText == None
  }

  /** The source in force binds a node unless it is of the other family. */
  ghost predicate SourceTaken(lib: Lib, st: Sticky, n: Node) {
    n.source == if st.source.Some? && st.source.value != "auto" && lib.ipVersion(st.source.value) != Some(if n.checkType == Ping6 then 6 else 4)
                then None else st.source
  }

  /** The node's settings are those in force. */
  ghost predicate SettingsTaken(lib: Lib, st: Sticky, n: Node) {
    && n.group == "" && n.maxDown == st.maxDown && n.contactOn == st.contactOn && n.interval == st.interval
    && n.sendPings == st.sendPings && n.minPings == st.minPings && SourceTaken(lib, st, n)
  }

  lemma SnapshotTakes(lib: Lib, st: Sticky, host: string, t: CheckType)
    ensures SettingsTaken(lib, st, Snapshot(lib, st, host, t))
    ensures var n := Snapshot(lib, st, host, t); n.hostname == host && n.checkType == t && Bare(n)
  {
  }

  /** Two nodes with the same settings in force differ in their positional fields only. */
  lemma SettingsDetermine(lib: Lib, st: Sticky, m: Node, n: Node)
    requires SettingsTaken(lib, st, m) && SettingsTaken(lib, st, n)
    requires m.hostname == n.hostname && m.checkType == n.checkType && SamePlaces(m, n)
    ensures m == n
  {
  }

  /** Nothing but the defaults of its type. */
  predicate Bare(n: Node) {
    && n.port == Or0(DefaultPort(n.checkType)) && n.desc == "" && n.contact == "" && n.username == "" && n.password == ""
    && n.url == "" && n.urlText == None
  }

  /** `n` differs from `n0` in its positional fields only. */
  predicate SameHost(n0: Node, n: Node) {
    n == n0.(port := n.port, desc := n.desc, contact := n.contact, username := n.username, password := n.password,
             url := n.url, urlText := n.urlText)
  }

  predicate SamePlaces(m: Node, n: Node) {
    && m.port == n.port && m.desc == n.desc && m.contact == n.contact && m.username == n.username && m.password == n.password
    && m.url == n.url && m.urlText == n.urlText
  }

  predicate Reads(n0: Node, n: Node, fs: seq<string>) {
    |fs| >= 3 && var r := Positional(n0, fs); r.Some? && SameHost(n0, r.value) && SamePlaces(r.value, n)
  }

  lemma PortsRead(n0: Node, n: Node, word: string, port: Option<string>)
    requires FieldsFit(n) && PortSpelled(n, port) && n0.checkType == n.checkType && Bare(n0)
    requires n.checkType == Tcp || n.checkType == Udp || n.checkType == Ssh || n.checkType == Mysql || n.checkType == Telnet
    ensures Reads(n0, n, StanzaOf(n, word, port))
  {
    hide ParseInt, Field, DefaultPort;
  }

  lemma OthersRead(n0: Node, n: Node, word: string, port: Option<string>)
    requires FieldsFit(n) && PortSpelled(n, port) && n0.checkType == n.checkType && Bare(n0)
    requires !(n.checkType == Tcp || n.checkType == Udp || n.checkType == Ssh || n.checkType == Mysql || n.checkType == Telnet)
    ensures Reads(n0, n, StanzaOf(n, word, port))
  {
    hide ParseInt, Solid, DefaultPort;
  }

  lemma PositionalReads(n0: Node, n: Node, word: string, port: Option<string>)
    requires FieldsFit(n) && PortSpelled(n, port) && n0.checkType == n.checkType && Bare(n0)
    ensures Reads(n0, n, StanzaOf(n, word, port))
  {
    hide FieldsFit, PortSpelled, Bare, Reads, StanzaOf;
    if n.checkType == Tcp || n.checkType == Udp || n.checkType == Ssh || n.checkType == Mysql || n.checkType == Telnet {
      PortsRead(n0, n, word, port);
    } else {
      OthersRead(n0, n, word, port);
    }
  }

  /** What is written as a stanza reads as the node it was written for. */
  lemma StanzaReads(lib: Lib, st: Sticky, n: Node, word: string, port: Option<string>)
    requires MatchType(word) == Some(n.checkType) && FieldsFit(n) && PortSpelled(n, port) && SettingsTaken(lib, st, n)
    ensures HostNode(lib, st, StanzaOf(n, word, port)) == Some(n)
  {
    hide FieldsFit, PortSpelled, SettingsTaken, MatchType, Positional, Snapshot, Bare, StanzaOf, SamePlaces;
    var n0 := Snapshot(lib, st, n.hostname, n.checkType);
    SnapshotTakes(lib, st, n.hostname, n.checkType);
    LongEnough(n, word, port);
    PositionalReads(n0, n, word, port);
    SettingsCarried(lib, st, n0, Positional(n0, StanzaOf(n, word, port)).value);
    SettingsDetermine(lib, st, Positional(n0, StanzaOf(n, word, port)).value, n);
  }

  lemma LongEnough(n: Node, word: string, port: Option<string>)
    requires FieldsFit(n)
    ensures |StanzaOf(n, word, port)| >= 3 && StanzaOf(n, word, port)[0] == n.hostname && StanzaOf(n, word, port)[1] == word && n.hostname != "config"
  {
  }

  lemma SettingsCarried(lib: Lib, st: Sticky, n0: Node, m: Node)
    requires SettingsTaken(lib, st, n0) && SameHost(n0, m)
    ensures SettingsTaken(lib, st, m)
  {
  }

  // ----- the converse ------------------------------------------------------------------------

  /** How the port of an accepted line is spelled. */
  function PortIn(t: CheckType, fs: seq<string>): Option<string>
    requires |fs| >= 3
  {
    match t
    case Tcp | Udp => Some(fs[2])
    case Ssh | Mysql | Telnet => if ReadsAsPort(fs[2]) then Some(fs[2]) else None
    case _ => None
  }

  ghost predicate LaidOut(n0: Node, fs: seq<string>)
    requires |fs| >= 3 && Positional(n0, fs).Some?
  {
    var n, port := Positional(n0, fs).value, PortIn(n0.checkType, fs);
    && FieldsFit(n) && PortSpelled(n, port) && SameHost(n0, n)
    && StanzaOf(n, fs[1], port) <= fs && (n.contact == "" ==> StanzaOf(n, fs[1], port) == fs)
  }

  ghost predicate Line(n0: Node, fs: seq<string>) {
    |fs| >= 3 && (forall i :: 0 <= i < |fs| ==> Field(fs[i])) && fs[0] == n0.hostname && fs[0] != "config" && Bare(n0) && Positional(n0, fs).Some?
  }

  lemma FieldAt(fs: seq<string>)
    requires forall i :: 0 <= i < |fs| ==> Field(fs[i])
    ensures |fs| > 0 ==> Field(fs[0])
    ensures |fs| > 2 ==> Field(fs[2]) && fs[2] != ""
    ensures |fs| > 3 ==> Field(fs[3]) && fs[3] != ""
    ensures |fs| > 4 ==> Field(fs[4]) && fs[4] != ""
    ensures |fs| > 5 ==> Field(fs[5]) && fs[5] != ""
  {
  }

  lemma NeedsPortLaidOut(n0: Node, fs: seq<string>)
    requires Line(n0, fs) && (n0.checkType == Tcp || n0.checkType == Udp)
    ensures LaidOut(n0, fs)
  {
    FieldAt(fs);
    hide ParseInt, Field, DefaultPort;
  }

  /** The label stands at `at`, and the contact behind it. */
  predicate LabelledAt(n0: Node, n: Node, fs: seq<string>, at: nat) {
    && at < |fs| && SameHost(n0, n) && n.desc == fs[at] && n.contact == At(fs, at + 1)
    && n.username == "" && n.password == "" && n.url == "" && n.urlText == None
  }

  lemma OptionalPortReads(n0: Node, fs: seq<string>)
    requires Line(n0, fs) && (n0.checkType == Ssh || n0.checkType == Mysql || n0.checkType == Telnet)
    ensures var n := Positional(n0, fs).value;
            if ReadsAsPort(fs[2]) then LabelledAt(n0, n, fs, 3) && n.port == ParseInt(fs[2]).value
            else LabelledAt(n0, n, fs, 2) && n.port == n0.port
  {
    hide ParseInt, Field, DefaultPort;
  }

  lemma OptionalPortStanza(n0: Node, n: Node, fs: seq<string>, port: Option<string>)
    requires (n.checkType == Ssh || n.checkType == Mysql || n.checkType == Telnet) && |fs| >= 3 && fs[0] == n.hostname
    requires forall i :: 0 <= i < |fs| ==> fs[i] != ""
    requires if port.Some? then LabelledAt(n0, n, fs, 3) && port.value == fs[2] else LabelledAt(n0, n, fs, 2)
    ensures StanzaOf(n, fs[1], port) <= fs && (n.contact == "" ==> StanzaOf(n, fs[1], port) == fs)
  {
    var at := if port.Some? then 3 else 2;
    if n.contact == "" {
      assert |fs| == at + 1;
      assert StanzaOf(n, fs[1], port) == fs;
    } else {
      assert StanzaOf(n, fs[1], port) == fs[..at + 2];
    }
  }

  lemma LineHas(n0: Node, fs: seq<string>)
    requires Line(n0, fs)
    ensures |fs| >= 3 && Field(fs[0]) && fs[0] == n0.hostname && fs[0] != "config" && Bare(n0) && Positional(n0, fs).Some?
    ensures forall i :: 0 <= i < |fs| ==> Field(fs[i]) && fs[i] != ""
  {
  }

  lemma OptionalPortFits(n0: Node, n: Node, fs: seq<string>, at: nat)
    requires (n.checkType == Ssh || n.checkType == Mysql || n.checkType == Telnet) && LabelledAt(n0, n, fs, at)
    requires Field(n.hostname) && n.hostname != "config" && forall i :: 0 <= i < |fs| ==> Field(fs[i])
    ensures FieldsFit(n)
  {
    hide Field;
  }

  lemma OptionalPortLaidOut(n0: Node, fs: seq<string>)
    requires Line(n0, fs) && (n0.checkType == Ssh || n0.checkType == Mysql || n0.checkType == Telnet)
    ensures LaidOut(n0, fs)
  {
    assert DefaultPort(n0.checkType) == Some(Or0(DefaultPort(n0.checkType)));
    hide ParseInt, Field, DefaultPort, Positional, StanzaOf, FieldsFit, Line;
    LineHas(n0, fs);
    OptionalPortReads(n0, fs);
    var n, port := Positional(n0, fs).value, PortIn(n0.checkType, fs);
    OptionalPortFits(n0, n, fs, if ReadsAsPort(fs[2]) then 3 else 2);
    OptionalPortStanza(n0, n, fs, port);
  }

  lemma WebLaidOut(n0: Node, fs: seq<string>)
    requires Line(n0, fs) && (n0.checkType == Http || n0.checkType == Https)
    ensures LaidOut(n0, fs)
  {
    FieldAt(fs);
    hide ParseInt, Field, DefaultPort;
  }

  lemma MailLaidOut(n0: Node, fs: seq<string>)
    requires Line(n0, fs) && IsMail(n0.checkType)
    ensures LaidOut(n0, fs)
  {
    FieldAt(fs);
    hide ParseInt, Field, DefaultPort;
  }

  lemma DnsLaidOut(n0: Node, fs: seq<string>)
    requires Line(n0, fs) && n0.checkType == Dns
    ensures LaidOut(n0, fs)
  {
    FieldAt(fs);
    hide ParseInt, Field, DefaultPort;
  }

  lemma PlainReads(n0: Node, fs: seq<string>)
    requires Line(n0, fs) && (n0.checkType == Ping || n0.checkType == Ping6 || n0.checkType == Smtp)
    ensures LabelledAt(n0, Positional(n0, fs).value, fs, 2) && Positional(n0, fs).value.port == n0.port
  {
    hide ParseInt, Field, DefaultPort;
  }

  lemma PlainStanza(n0: Node, n: Node, fs: seq<string>)
    requires (n.checkType == Ping || n.checkType == Ping6 || n.checkType == Smtp) && |fs| >= 3 && fs[0] == n.hostname && LabelledAt(n0, n, fs, 2)
    requires forall i :: 0 <= i < |fs| ==> Field(fs[i]) && fs[i] != ""
    ensures StanzaOf(n, fs[1], None) <= fs && (n.contact == "" ==> StanzaOf(n, fs[1], None) == fs)
    ensures n.hostname != "config" ==> FieldsFit(n)
  {
    hide Field;
    if n.contact == "" {
      assert |fs| == 3;
      assert StanzaOf(n, fs[1], None) == fs;
    } else {
      assert StanzaOf(n, fs[1], None) == fs[..4];
    }
  }

  lemma PlainLaidOut(n0: Node, fs: seq<string>)
    requires Line(n0, fs) && (n0.checkType == Ping || n0.checkType == Ping6 || n0.checkType == Smtp)
    ensures LaidOut(n0, fs)
  {
    hide ParseInt, Field, DefaultPort, Positional, StanzaOf, FieldsFit, Line;
    LineHas(n0, fs);
    PlainReads(n0, fs);
    PlainStanza(n0, Positional(n0, fs).value, fs);
  }

  lemma PositionalIsLayout(n0: Node, fs: seq<string>)
    requires Line(n0, fs)
    ensures LaidOut(n0, fs)
  {
    hide Line, LaidOut;
    match n0.checkType
    case Tcp | Udp => NeedsPortLaidOut(n0, fs);
    case Ssh | Mysql | Telnet => OptionalPortLaidOut(n0, fs);
    case Http | Https => WebLaidOut(n0, fs);
    case Pop3 | Pop3s | Imap | Imaps | Ftp | Ftps => MailLaidOut(n0, fs);
    case Dns => DnsLaidOut(n0, fs);
    case Ping | Ping6 | Smtp => PlainLaidOut(n0, fs);
  }

  /** An accepted line is, up to fields behind the contact, the stanza of the node it yields. */
  lemma AcceptedIsStanza(lib: Lib, st: Sticky, fs: seq<string>)
    requires (forall i :: 0 <= i < |fs| ==> Field(fs[i])) && HostNode(lib, st, fs).Some?
    ensures |fs| >= 3
    ensures var n, port := HostNode(lib, st, fs).value, PortIn(HostNode(lib, st, fs).value.checkType, fs);
            && MatchType(fs[1]) == Some(n.checkType) && FieldsFit(n) && PortSpelled(n, port) && SettingsTaken(lib, st, n)
            && StanzaOf(n, fs[1], port) <= fs && (n.contact == "" ==> StanzaOf(n, fs[1], port) == fs)
  {
    hide FieldsFit, PortSpelled, SettingsTaken, MatchType, Positional, Snapshot, StanzaOf, Field, Bare;
    var n0 := Snapshot(lib, st, fs[0], MatchType(fs[1]).value);
    SnapshotTakes(lib, st, fs[0], MatchType(fs[1]).value);
    PositionalIsLayout(n0, fs);
    SettingsCarried(lib, st, n0, Positional(n0, fs).value);
  }

  /** A host whose line spells no port is checked on the port of its service; pings have none. */
  lemma ServicePorts(lib: Lib, st: Sticky, fs: seq<string>)
    requires (forall i :: 0 <= i < |fs| ==> Field(fs[i])) && HostNode(lib, st, fs).Some? && |fs| >= 3
    requires PortIn(HostNode(lib, st, fs).value.checkType, fs) == None
    ensures HostNode(lib, st, fs).value.port == match HostNode(lib, st, fs).value.checkType
              case Smtp => 25 case Pop3 => 110 case Pop3s => 995 case Imap => 143 case Imaps => 993 case Dns => 53
              case Http => 80 case Https => 443 case Ssh => 22 case Mysql => 3306 case Ftp => 21 case Ftps => 990
              case Telnet => 23 case _ => 0
  {
    hide HostNode, Field, FieldsFit, SettingsTaken, StanzaOf, MatchType;
    AcceptedIsStanza(lib, st, fs);
  }
}
