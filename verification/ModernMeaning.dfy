/** What the attributes of a modern object mean, one by one. */
module ModernMeaning {
  import opened Model
  import opened Text
  import opened Lexer
  import opened ModernSyntax
  import opened Records
  import opened ModernBuild

  // ----- values ------------------------------------------------------------------------------

  predicate IsLetter(c: char) {
    'a' <= c <= 'z' || 'A' <= c <= 'Z' || c == '_'
  }

  /** A variable's name: letters, digits and underscores, not starting with a digit. */
  predicate IsIdentifier(name: string) {
    name != "" && IsLetter(name[0]) && forall i :: 0 <= i < |name| ==> IsLetter(name[i]) || '0' <= name[i] <= '9'
  }

  lemma {:induction false} NameEnds(name: string, rest: string)
    requires forall i :: 0 <= i < |name| ==> IsLetter(name[i]) || '0' <= name[i] <= '9'
    requires rest != "" ==> !IsLetter(rest[0]) && !('0' <= rest[0] <= '9')
    ensures NameLength(name + rest) == |name|
  {
    if name == "" {
      assert name + rest == rest;
    } else {
      assert (name + rest)[1..] == name[1..] + rest;
      assert (name + rest)[0] == name[0];
      NameEnds(name[1..], rest);
    }
  }

  /** A reference to a variable expands to its value, and stays as written if the variable is not set; any other text stays. */
  lemma ReferencesExpand(vars: map<string, string>, name: string, rest: string, c: char)
    requires IsIdentifier(name) && (rest != "" ==> !IsLetter(rest[0]) && !('0' <= rest[0] <= '9'))
    ensures Subst(vars, "$" + name + rest) == (if name in vars then vars[name] else "$" + name) + Subst(vars, rest)
    ensures c != '$' ==> Subst(vars, [c] + rest) == [c] + Subst(vars, rest)
    ensures Subst(vars, "") == ""
  {
    var s := "$" + name + rest;
    NameEnds(name, rest);
    assert s[1..] == name + rest;
    assert s[1..1 + |name|] == name && s[..1 + |name|] == "$" + name && s[1 + |name|..] == rest;
    assert ([c] + rest)[1..] == rest;
  }

  /** An attribute has the value of its first word or string; without any it is empty. */
  lemma AttributeValue(vars: map<string, string>, attrs: map<string, seq<Token>>, k: string, v: string, more: seq<Token>)
    requires k in attrs
    ensures k in Resolve(vars, attrs)
    ensures attrs[k] == [] ==> Resolve(vars, attrs)[k] == ""
    ensures attrs[k] == [Word(v)] + more || attrs[k] == [Str(v)] + more ==> Resolve(vars, attrs)[k] == Subst(vars, v)
  {
    hide Subst;
  }

  // ----- which objects are kept --------------------------------------------------------------

  predicate Has(r: Resolved, k: string) {
    k in r && r[k] != ""
  }

  function Val(r: Resolved, k: string): string {
    if k in r then r[k] else ""
  }

  /** A port in plain digits, blanks around it ignored. */
  function PortGiven(r: Resolved): Option<int> {
    if "port" !in r || ParseNat(Strip(r["port"])).None? then None
    else
      var n := ParseNat(Strip(r["port"])).value;
      if 1 <= n <= 65535 then Some(n) else None
  }

  /** The attributes that a check type needs. */
  predicate HasNeeds(t: CheckType, r: Resolved) {
    match t
    case Tcp | Udp => PortGiven(r).Some?
    case Http | Https => Has(r, "url")
    case Dns => Has(r, "dns-query") && Has(r, "contact")
    case _ => true
  }

  predicate Complete(r: Resolved) {
    && (Has(r, "host") || Has(r, "ip")) && "type" in r && TypeNamed(r["type"]).Some?
    && HasNeeds(TypeNamed(r["type"]).value, r)
  }

  lemma Keys()
    ensures KeyText(Host) == "host" && KeyText(Ip) == "ip" && KeyText(Type) == "type" && KeyText(Port) == "port" && KeyText(Desc) == "desc"
    ensures KeyText(Contact) == "contact" && KeyText(Url) == "url" && KeyText(UrlText) == "urltext" && KeyText(Username) == "username"
    ensures KeyText(Password) == "password" && KeyText(DnsQuery) == "dns-query" && KeyText(QueueTime) == "queuetime"
    ensures KeyText(SendPings) == "send_pings" && KeyText(MinPings) == "min_pings" && KeyText(NumFailures) == "numfailures"
    ensures KeyText(Group) == "group" && KeyText(ContactOn) == "contact_on" && KeyText(Source) == "source"
  {
  }

  /** The type-dependent attributes, in words. */
  ghost predicate TypeMeans(t: CheckType, r: Resolved, n: Node) {
    && n.port == (match t
                  case Http | Https | Pop3 | Pop3s | Imap | Imaps | Ftp | Ftps | Dns => Or0(DefaultPort(t))
                  case _ => if PortGiven(r).Some? then PortGiven(r).value else Or0(DefaultPort(t)))
    && n.url == (if t == Http || t == Https then Val(r, "url") else "")
    && n.urlText == (if (t == Http || t == Https) && "urltext" in r then Some(r["urltext"]) else None)
    && (match t
        case Pop3 | Pop3s | Imap | Imaps | Ftp | Ftps =>
          if Has(r, "username") && Has(r, "password") then n.username == r["username"] && n.password == r["password"]
          else n.username == "" && n.password == ""
        case Dns => n.username == Val(r, "dns-query") && n.password == ""
        case _ => n.username == "" && n.password == "")
  }

  /** Nothing set yet but the host, the type and the default threshold. */
  ghost predicate Unset(n: Node, numfailures: int, host: string, t: CheckType) {
    && n.hostname == host && n.checkType == t && n.desc == "" && n.contact == "" && n.group == "" && n.contactOn == "" && n.source == None
    && n.maxDown == numfailures && n.interval == None && n.sendPings == None && n.minPings == None
  }

  ghost predicate Fills(numfailures: int, host: string, t: CheckType, r: Resolved) {
    var n := TypeFields(Blank(host, t, numfailures), TypeAttrsOf(r));
    && (n.Some? <==> HasNeeds(t, r))
    && (n.Some? ==> TypeMeans(t, r, n.value) && Unset(n.value, numfailures, host, t))
  }

  lemma AttrsAre(r: Resolved)
    ensures var a := TypeAttrsOf(r);
            && (a.port == if "port" in r then Some(r["port"]) else None) && (a.url == if "url" in r then Some(r["url"]) else None)
            && (a.urlText == if "urltext" in r then Some(r["urltext"]) else None)
            && (a.username == if "username" in r then Some(r["username"]) else None)
            && (a.password == if "password" in r then Some(r["password"]) else None)
            && (a.dnsQuery == if "dns-query" in r then Some(r["dns-query"]) else None)
            && (a.contact == if "contact" in r then Some(r["contact"]) else None)
  {
    Keys();
    hide KeyText;
  }

  lemma PortRead(r: Resolved)
    ensures PortGiven(r) == if TypeAttrsOf(r).port.Some? then ParsePort(TypeAttrsOf(r).port.value) else None
  {
    AttrsAre(r);
    hide ParseNat, Strip, TypeAttrsOf;
  }

  lemma PortTypesFill(numfailures: int, host: string, t: CheckType, r: Resolved)
    requires t == Tcp || t == Udp || t == Ping || t == Ping6 || t == Smtp || t == Ssh || t == Mysql || t == Telnet
    ensures Fills(numfailures, host, t, r)
  {
    PortRead(r);
    hide TypeAttrsOf, PortGiven, ParsePort, DefaultPort;
  }

  lemma WebTypesFill(numfailures: int, host: string, t: CheckType, r: Resolved)
    requires t == Http || t == Https
    ensures Fills(numfailures, host, t, r)
  {
    AttrsAre(r);
    hide TypeAttrsOf, PortGiven, ParsePort, DefaultPort;
  }

  lemma MailTypesFill(numfailures: int, host: string, t: CheckType, r: Resolved)
    requires IsMail(t)
    ensures Fills(numfailures, host, t, r)
  {
    AttrsAre(r);
    hide TypeAttrsOf, PortGiven, ParsePort, DefaultPort;
  }

  lemma DnsTypeFills(numfailures: int, host: string, r: Resolved)
    ensures Fills(numfailures, host, Dns, r)
  {
    AttrsAre(r);
    hide TypeAttrsOf, PortGiven, ParsePort, DefaultPort;
  }

  lemma TypeFieldsMean(numfailures: int, host: string, t: CheckType, r: Resolved)
    ensures Fills(numfailures, host, t, r)
  {
    hide Fills;
    match t
    case Http | Https => WebTypesFill(numfailures, host, t, r);
    case Pop3 | Pop3s | Imap | Imaps | Ftp | Ftps => MailTypesFill(numfailures, host, t, r);
    case Dns => DnsTypeFills(numfailures, host, r);
    case _ => PortTypesFill(numfailures, host, t, r);
  }

  // ----- settings ----------------------------------------------------------------------------

  /** A whole number of at least 1, if the attribute gives one. */
  function AtLeastOne(r: Resolved, k: string): Option<int> {
    if k in r && ParsePlain(r[k]).Some? && ParsePlain(r[k]).value >= 1 then ParsePlain(r[k]) else None
  }

  /** A source that the check can bind: `auto`, or an address of its family. */
  function Bindable(lib: Lib, t: CheckType, r: Resolved): Option<string> {
    if "source" !in r then None
    else
      var src := Strip(r["source"]);
      if Lower(src) == "auto" then Some("auto")
      else if lib.ipVersion(src) == Some(if t == Ping6 then 6 else 4) then Some(src)
      else None
  }

  /** Both ping counts, as far as they are given, are taken; or neither, if one is no count or more replies are asked for than
      probes are sent. */
  predicate CountsTaken(r: Resolved) {
    && ("send_pings" in r ==> AtLeastOne(r, "send_pings").Some?) && ("min_pings" in r ==> AtLeastOne(r, "min_pings").Some?)
    && ("send_pings" in r && "min_pings" in r && AtLeastOne(r, "send_pings").Some? && AtLeastOne(r, "min_pings").Some? ==>
          AtLeastOne(r, "min_pings").value <= AtLeastOne(r, "send_pings").value)
  }

  ghost predicate SettingsMean(lib: Lib, numfailures: int, t: CheckType, r: Resolved, n: Node) {
    && n.maxDown == (if AtLeastOne(r, "numfailures").Some? then AtLeastOne(r, "numfailures").value else numfailures)
    && n.group == Strip(Val(r, "group"))
    && n.contactOn == (if Val(r, "contact_on") in ["down", "up", "both", "none"] then r["contact_on"] else "")
    && n.source == Bindable(lib, t, r)
    && n.interval == (if "queuetime" in r && lib.read(r["queuetime"]).Some? && lib.read(r["queuetime"]).value > 0.0 then lib.read(r["queuetime"]) else None)
    && n.sendPings == (if CountsTaken(r) then AtLeastOne(r, "send_pings") else None)
    && n.minPings == (if CountsTaken(r) then AtLeastOne(r, "min_pings") else None)
  }

  lemma OverridesMean(lib: Lib, numfailures: int, n0: Node, r: Resolved)
    requires n0.group == "" && n0.contactOn == "" && n0.source == None && n0.maxDown == numfailures && n0.interval == None
    requires n0.sendPings == None && n0.minPings == None
    ensures SettingsMean(lib, numfailures, n0.checkType, r, ApplyOverrides(lib, n0, OverridesOf(r)))
  {
    hide KeyText, ParsePlain, Strip, Lower;
    Keys();
    NothingStrips();
    SourceMeans(lib, n0.checkType, r);
    PingsMean(r);
    ChoiceMeans(r);
    hide SourceAfter, PairRejected, PingAfter, ContactOnAfter, Bindable, CountsTaken;
  }

  lemma NothingStrips()
    ensures Strip("") == ""
  {
  }

  lemma ChoiceMeans(r: Resolved)
    ensures ContactOnAfter("", Get(r, ContactOn)) == if Val(r, "contact_on") in ["down", "up", "both", "none"] then r["contact_on"] else ""
  {
  }

  lemma SourceMeans(lib: Lib, t: CheckType, r: Resolved)
    ensures SourceAfter(lib, t, None, Get(r, Source)) == Bindable(lib, t, r)
  {
    assert Lower("auto") == "auto";
    hide Strip, Lower;
  }

  lemma PingsMean(r: Resolved)
    ensures var rejected := PairRejected(Get(r, SendPings), Get(r, MinPings));
            && PingAfter(None, Get(r, SendPings), rejected) == (if CountsTaken(r) then AtLeastOne(r, "send_pings") else None)
            && PingAfter(None, Get(r, MinPings), rejected) == (if CountsTaken(r) then AtLeastOne(r, "min_pings") else None)
  {
    hide ParsePlain;
  }

  /** An object is kept iff it names a host, a known type, and what that type needs. Its node then has, field by field, what its
      attributes say: `host` before `ip`; a port only where the type takes one; credentials only as a pair; a setting only
      if it is acceptable, and otherwise as if it were not written. */
  lemma NodeMeans(lib: Lib, numfailures: int, r: Resolved)
    ensures BuildNode(lib, numfailures, r).Some? <==> Complete(r)
    ensures Complete(r) ==>
              var n := BuildNode(lib, numfailures, r).value;
              && n.hostname == (if Has(r, "host") then r["host"] else r["ip"]) && Some(n.checkType) == TypeNamed(r["type"])
              && TypeMeans(n.checkType, r, n) && n.desc == Val(r, "desc") && n.contact == Val(r, "contact")
              && SettingsMean(lib, numfailures, n.checkType, r, n)
  {
    hide TypeFields, TypeAttrsOf, TypeNamed, KeyText, ApplyOverrides, OverridesOf, HasNeeds, TypeMeans, SettingsMean;
    Keys();
    var host := if Has(r, "host") then r["host"] else Val(r, "ip");
    if "type" in r && TypeNamed(r["type"]).Some? {
      var t := TypeNamed(r["type"]).value;
      TypeFieldsMean(numfailures, host, t, r);
      var made := TypeFields(Blank(host, t, numfailures), TypeAttrsOf(r));
      if made.Some? {
        var n0 := made.value.(desc := Val(r, "desc"), contact := Val(r, "contact"));
        OverridesMean(lib, numfailures, n0, r);
        OverridesKeep(lib, n0, OverridesOf(r));
        TypeStays(t, r, made.value, ApplyOverrides(lib, n0, OverridesOf(r)));
      }
    }
  }

  lemma OverridesKeep(lib: Lib, n: Node, o: Overrides)
    ensures var m := ApplyOverrides(lib, n, o);
            && m.hostname == n.hostname && m.checkType == n.checkType && m.port == n.port && m.desc == n.desc && m.contact == n.contact
            && m.url == n.url && m.urlText == n.urlText && m.username == n.username && m.password == n.password
  {
  }

  lemma TypeStays(t: CheckType, r: Resolved, n: Node, m: Node)
    requires TypeMeans(t, r, n) && m.port == n.port && m.url == n.url && m.urlText == n.urlText && m.username == n.username && m.password == n.password
    ensures TypeMeans(t, r, m)
  {
    hide PortGiven, DefaultPort;
  }

  // ----- dependencies ------------------------------------------------------------------------

  /** Where a name is first asked for. */
  ghost predicate FirstAsked(vars: map<string, string>, deps: seq<seq<Token>>, i: nat, name: string) {
    && i < |deps| && FirstValue(vars, deps[i]) == name
    && forall j :: 0 <= j < i ==> FirstValue(vars, deps[j]) != name
  }

  ghost predicate IsAsked(vars: map<string, string>, deps: seq<seq<Token>>, name: string) {
    exists i: nat :: FirstAsked(vars, deps, i, name)
  }

  /** Name `a` is first asked for before name `b`. */
  ghost predicate AskedBefore(vars: map<string, string>, deps: seq<seq<Token>>, a: string, b: string) {
    exists i: nat :: FirstAsked(vars, deps, i, a) && forall j :: 0 <= j <= i ==> FirstValue(vars, deps[j]) != b
  }

  ghost predicate InOrder(vars: map<string, string>, deps: seq<seq<Token>>, names: seq<string>) {
    forall a, b :: 0 <= a < b < |names| ==> AskedBefore(vars, deps, names[a], names[b])
  }

  /** The deps of an object are the names it asks for, each once, in the order in which they are first asked for. */
  lemma {:induction false} DepsMean(vars: map<string, string>, deps: seq<seq<Token>>)
    ensures forall name :: name in DepNames(vars, deps) <==> name != "" && IsAsked(vars, deps, name)
    ensures InOrder(vars, deps, DepNames(vars, deps))
  {
    hide FirstValue, IsAsked, AskedBefore;
    if deps == [] {
      NothingAsked(vars);
    } else {
      var last := |deps| - 1;
      var front := deps[..last];
      DepsMean(vars, front);
      var names, dep := DepNames(vars, front), FirstValue(vars, deps[last]);
      forall name
        ensures IsAsked(vars, deps, name) <==> IsAsked(vars, front, name) || name == dep
      {
        AskedNext(vars, deps, name);
      }
      var all := DepNames(vars, deps);
      forall a, b | 0 <= a < b < |all|
        ensures AskedBefore(vars, deps, all[a], all[b])
      {
        if b < |names| {
          assert all[a] == names[a] && all[b] == names[b];
          assert AskedBefore(vars, front, names[a], names[b]);
          BeforeStays(vars, deps, all[a], all[b]);
        } else {
          NewIsLast(vars, deps, all[a]);
        }
      }
    }
  }

  lemma NothingAsked(vars: map<string, string>)
    ensures forall name :: !IsAsked(vars, [], name)
  {
  }

  lemma {:induction false} SomeFirst(vars: map<string, string>, deps: seq<seq<Token>>, i: nat) returns (j: nat)
    requires i < |deps|
    ensures j <= i && FirstAsked(vars, deps, j, FirstValue(vars, deps[i]))
  {
    hide FirstValue;
    if k :| 0 <= k < i && FirstValue(vars, deps[k]) == FirstValue(vars, deps[i]) {
      j := SomeFirst(vars, deps, k);
    } else {
      j := i;
    }
  }

  lemma AskedNext(vars: map<string, string>, deps: seq<seq<Token>>, name: string)
    requires deps != []
    ensures IsAsked(vars, deps, name) <==> IsAsked(vars, deps[..|deps| - 1], name) || name == FirstValue(vars, deps[|deps| - 1])
  {
    hide FirstValue;
    var last, front := |deps| - 1, deps[..|deps| - 1];
    assert forall j :: 0 <= j < |front| ==> front[j] == deps[j];
    if IsAsked(vars, deps, name) {
      var i: nat :| FirstAsked(vars, deps, i, name);
      assert i < last ==> FirstAsked(vars, front, i, name);
    }
    if IsAsked(vars, front, name) {
      var i: nat :| FirstAsked(vars, front, i, name);
      assert FirstAsked(vars, deps, i, name);
    }
    if name == FirstValue(vars, deps[last]) {
      var i := SomeFirst(vars, deps, last);
    }
  }

  lemma BeforeStays(vars: map<string, string>, deps: seq<seq<Token>>, a: string, b: string)
    requires deps != [] && AskedBefore(vars, deps[..|deps| - 1], a, b)
    ensures AskedBefore(vars, deps, a, b)
  {
    hide FirstValue;
    var front := deps[..|deps| - 1];
    assert forall j :: 0 <= j < |front| ==> front[j] == deps[j];
    var i: nat :| FirstAsked(vars, front, i, a) && forall j :: 0 <= j <= i ==> FirstValue(vars, front[j]) != b;
    assert FirstAsked(vars, deps, i, a);
  }

  lemma NewIsLast(vars: map<string, string>, deps: seq<seq<Token>>, a: string)
    requires deps != [] && IsAsked(vars, deps[..|deps| - 1], a) && !IsAsked(vars, deps[..|deps| - 1], FirstValue(vars, deps[|deps| - 1]))
    ensures AskedBefore(vars, deps, a, FirstValue(vars, deps[|deps| - 1]))
  {
    hide FirstValue;
    var front, dep := deps[..|deps| - 1], FirstValue(vars, deps[|deps| - 1]);
    assert forall j :: 0 <= j < |front| ==> front[j] == deps[j];
    var i: nat :| FirstAsked(vars, front, i, a);
    assert FirstAsked(vars, deps, i, a);
    forall j | 0 <= j <= i
      ensures FirstValue(vars, deps[j]) != dep
    {
      var first := SomeFirst(vars, front, j);
    }
  }
}
