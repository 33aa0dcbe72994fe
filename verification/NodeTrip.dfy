/** One node through conversion and reparsing: exactly which nodes come back unchanged. */
module NodeTrip {
  import opened Model
  import opened Text
  import opened Lexer
  import opened Records
  import opened ModernBuild
  import opened Convert
  import opened Reparse

  // ----- the nodes that the legacy format can express ----------------------------------------

  /** A whitespace-delimited field. */
  ghost predicate Field(s: string) {
    s != "" && Solid(s)
  }

  predicate IsWeb(t: CheckType) {
    t == Http || t == Https
  }

  predicate MayGivePort(t: CheckType) {
    t == Ssh || t == Mysql || t == Telnet
  }

  ghost predicate PortFromLegacy(n: Node) {
    if NeedsPort(n.checkType) then n.port > 0
    else n.port == Or0(DefaultPort(n.checkType)) || (MayGivePort(n.checkType) && 1 <= n.port <= 65535)
  }

  ghost predicate TypeFromLegacy(n: Node) {
    && (if IsWeb(n.checkType) then Field(n.url) && (n.urlText.Some? ==> Field(n.urlText.value)) else n.url == "" && n.urlText == None)
    && (if IsMail(n.checkType) then (n.username == "" && n.password == "") || (Field(n.username) && Field(n.password))
        else n.password == "" && if n.checkType == Dns then Field(n.username) && Field(n.contact) else n.username == "")
    && PortFromLegacy(n)
  }

  ghost predicate SourceFromLegacy(lib: Lib, n: Node) {
    n.source.Some? && n.source.value != AUTO ==>
      Solid(n.source.value) && Lower(n.source.value) != AUTO && FamilyOk(lib, n.checkType, n.source.value)
  }

  ghost predicate SettingsFromLegacy(lib: Lib, n: Node) {
    && n.group == ""
    && (n.contactOn == "" || IsContactChoice(n.contactOn))
    && (n.sendPings.Some? ==> n.sendPings.value >= 1)
    && (n.minPings.Some? ==> n.minPings.value >= 1)
    && IntervalOk(lib, n)
    && SourceFromLegacy(lib, n)
  }

  /** Every node that the legacy parser builds has this form. */
  ghost predicate FromLegacy(lib: Lib, n: Node) {
    Field(n.hostname) && Solid(n.desc) && Solid(n.contact) && TypeFromLegacy(n) && SettingsFromLegacy(lib, n)
  }

  // ----- the exact condition -----------------------------------------------------------------

  ghost predicate Quoteless(s: string) {
    '"' !in s
  }

  ghost predicate NoQuotes(n: Node) {
    && Quoteless(n.hostname) && Quoteless(n.desc) && Quoteless(n.contact)
    && Quoteless(n.url) && Quoteless(n.username) && Quoteless(n.password)
    && (n.urlText.Some? ==> Quoteless(n.urlText.value)) && (n.source.Some? ==> Quoteless(n.source.value))
  }

  ghost predicate PortFits(n: Node) {
    NeedsPort(n.checkType) ==> n.port <= 65535
  }

  ghost predicate ThresholdFits(seed: int, n: Node) {
    n.maxDown == seed || n.maxDown >= 1
  }

  /** More replies are required than probes sent. */
  ghost predicate PairInverted(n: Node) {
    n.sendPings.Some? && n.minPings.Some? && n.minPings.value > n.sendPings.value
  }

  ghost predicate Clean(seed: int, n: Node) {
    NoQuotes(n) && PortFits(n) && ThresholdFits(seed, n) && !PairInverted(n)
  }

  // ----- values ------------------------------------------------------------------------------

  lemma {:induction false} QuoteKeeps(s: string)
    requires Solid(s) && Quoteless(s)
    ensures Quote(s) == s
  {
    if s != "" {
      QuoteKeeps(s[1..]);
    }
  }

  lemma QuoteFixes(s: string)
    requires Solid(s)
    ensures Quote(s) == s <==> Quoteless(s)
  {
    hide Quote;
    QuoteGood(s);
    if Quoteless(s) {
      QuoteKeeps(s);
    }
  }

  lemma PortReads(p: int)
    requires p > 0
    ensures ParsePort(DecInt(p)) == if p <= 65535 then Some(p) else None
  {
    hide Dec, ParseNat, Strip, IsSpace;
    DigitsSolid(Dec(p));
    SolidStrip(Dec(p));
    DecParses(p);
  }

  // ----- the per-type fields -----------------------------------------------------------------

  /** The fields that depend on the check type, and the host. */
  ghost predicate Agree(m: Node, n: Node) {
    && m.hostname == n.hostname && m.checkType == n.checkType && m.port == n.port && m.url == n.url
    && m.urlText == n.urlText && m.username == n.username && m.password == n.password
  }

  /** What the parser reads for the type-dependent attributes of `o`. */
  function AttrsBack(lib: Lib, seed: int, o: Named): TypeAttrs {
    TypeAttrs(Read(lib, seed, o, Port), Read(lib, seed, o, Url), Read(lib, seed, o, UrlText), Read(lib, seed, o, Username),
              Read(lib, seed, o, Password), Read(lib, seed, o, DnsQuery), Read(lib, seed, o, Contact))
  }

  ghost predicate TypeClean(n: Node) {
    && Quoteless(n.url) && Quoteless(n.username) && Quoteless(n.password) && PortFits(n)
    && (n.urlText.Some? ==> Quoteless(n.urlText.value))
  }

  lemma NothingQuoteless()
    ensures Quoteless("") && Quote("") == ""
  {
  }

  lemma ReadsPort(lib: Lib, seed: int, o: Named)
    ensures Read(lib, seed, o, Port)
         == if o.node.port != 0 && Some(o.node.port) != DefaultPort(o.node.checkType) then Some(DecInt(o.node.port)) else None
  {
  }

  /** Types that take a port: the node comes back iff the port is in range. */
  lemma PortBack(lib: Lib, seed: int, o: Named, m: Node)
    requires TypeFromLegacy(o.node) && !IsWeb(o.node.checkType) && !IsMail(o.node.checkType) && o.node.checkType != Dns
    requires m == Blank(o.node.hostname, o.node.checkType, seed)
    ensures var back := TypeFields(m, AttrsBack(lib, seed, o));
      (back.Some? && Agree(back.value, o.node)) <==> TypeClean(o.node)
  {
    hide DecInt, ParsePort, Read, Quoteless, Field;
    NothingQuoteless();
    ReadsPort(lib, seed, o);
    if o.node.port > 0 {
      PortReads(o.node.port);
    }
  }

  lemma WebBack(lib: Lib, seed: int, o: Named, m: Node)
    requires TypeFromLegacy(o.node) && IsWeb(o.node.checkType)
    requires m == Blank(o.node.hostname, o.node.checkType, seed)
    ensures var back := TypeFields(m, AttrsBack(lib, seed, o));
      (back.Some? && Agree(back.value, o.node)) <==> TypeClean(o.node)
  {
    hide Quote, Quoteless;
    NothingQuoteless();
    QuoteFixes(o.node.url);
    if o.node.urlText.Some? {
      QuoteFixes(o.node.urlText.value);
    }
  }

  lemma FieldSolid(s: string)
    ensures Field(s) ==> Solid(s)
  {
  }

  lemma MailBack(lib: Lib, seed: int, o: Named, m: Node)
    requires TypeFromLegacy(o.node) && IsMail(o.node.checkType)
    requires m == Blank(o.node.hostname, o.node.checkType, seed)
    ensures var back := TypeFields(m, AttrsBack(lib, seed, o));
      (back.Some? && Agree(back.value, o.node)) <==> TypeClean(o.node)
  {
    hide Quote, Quoteless, DecInt, FmtNum, TypeName, Solid;
    NothingQuoteless();
    FieldSolid(o.node.username);
    FieldSolid(o.node.password);
    if o.node.username != "" {
      QuoteFixes(o.node.username);
      QuoteFixes(o.node.password);
    }
  }

  lemma DnsBack(lib: Lib, seed: int, o: Named, m: Node)
    requires TypeFromLegacy(o.node) && o.node.checkType == Dns && Quoteless(o.node.contact)
    requires m == Blank(o.node.hostname, o.node.checkType, seed)
    ensures var back := TypeFields(m, AttrsBack(lib, seed, o));
      (back.Some? && Agree(back.value, o.node)) <==> TypeClean(o.node)
  {
    hide Quote, Quoteless;
    NothingQuoteless();
    QuoteFixes(o.node.username);
    QuoteFixes(o.node.contact);
  }

  lemma FieldsBack(lib: Lib, seed: int, o: Named)
    requires TypeFromLegacy(o.node) && (o.node.checkType == Dns ==> Quoteless(o.node.contact))
    ensures var back := TypeFields(Blank(o.node.hostname, o.node.checkType, seed), AttrsBack(lib, seed, o));
      (back.Some? && Agree(back.value, o.node)) <==> TypeClean(o.node)
  {
    hide TypeFromLegacy, TypeFields, AttrsBack, Agree, TypeClean, Quoteless;
    var m := Blank(o.node.hostname, o.node.checkType, seed);
    if IsWeb(o.node.checkType) {
      WebBack(lib, seed, o, m);
    } else if IsMail(o.node.checkType) {
      MailBack(lib, seed, o, m);
    } else if o.node.checkType == Dns {
      DnsBack(lib, seed, o, m);
    } else {
      PortBack(lib, seed, o, m);
    }
  }

  lemma HostAndType(lib: Lib, seed: int, o: Named)
    ensures Read(lib, seed, o, Host) == Some(Quote(o.node.hostname)) && Read(lib, seed, o, Ip) == None
    ensures Read(lib, seed, o, Type) == Some(TypeName(o.node.checkType))
  {
  }

  lemma BareIs(lib: Lib, seed: int, o: Named)
    ensures var host := Quote(o.node.hostname);
      BareNode(seed, ResolvedOf(lib, seed, o))
      == if host == "" then None else TypeFields(Blank(host, o.node.checkType, seed), AttrsBack(lib, seed, o))
  {
    hide Read, ResolvedOf, Quote, TypeName, TypeNamed, TypeFields, KeyText;
    ResolvedGet(lib, seed, o, Host);
    ResolvedGet(lib, seed, o, Ip);
    ResolvedGet(lib, seed, o, Type);
    HostAndType(lib, seed, o);
    TypeNameInverts(o.node.checkType);
    AttrsRead(lib, seed, o);
  }

  lemma AttrsRead(lib: Lib, seed: int, o: Named)
    ensures TypeAttrsOf(ResolvedOf(lib, seed, o)) == AttrsBack(lib, seed, o)
  {
    hide Read, ResolvedOf, Get;
    ResolvedGet(lib, seed, o, Port);
    ResolvedGet(lib, seed, o, Url);
    ResolvedGet(lib, seed, o, UrlText);
    ResolvedGet(lib, seed, o, Username);
    ResolvedGet(lib, seed, o, Password);
    ResolvedGet(lib, seed, o, DnsQuery);
    ResolvedGet(lib, seed, o, Contact);
  }

  lemma KeepsHost(n: Node, a: TypeAttrs)
    ensures TypeFields(n, a).Some? ==>
      var m := TypeFields(n, a).value;
      m.hostname == n.hostname && m.maxDown == n.maxDown && m.group == n.group && m.contactOn == n.contactOn && m.source == n.source
      && m.interval == n.interval && m.sendPings == n.sendPings && m.minPings == n.minPings && m.checkType == n.checkType
  {
  }

  lemma BareBack(lib: Lib, seed: int, o: Named)
    requires Field(o.node.hostname) && TypeFromLegacy(o.node) && Quoteless(o.node.contact)
    ensures var back := BareNode(seed, ResolvedOf(lib, seed, o));
      (back.Some? && Agree(back.value, o.node)) <==> Quoteless(o.node.hostname) && TypeClean(o.node)
  {
    hide BareNode, ResolvedOf, TypeFields, AttrsBack, TypeClean, TypeFromLegacy, Quote, Quoteless;
    BareIs(lib, seed, o);
    QuoteFixes(o.node.hostname);
    KeepsHost(Blank(Quote(o.node.hostname), o.node.checkType, seed), AttrsBack(lib, seed, o));
    FieldsBack(lib, seed, o);
  }

  // ----- the settings ------------------------------------------------------------------------

  function SettingsBack(lib: Lib, seed: int, o: Named): Overrides {
    Overrides(Read(lib, seed, o, QueueTime), Read(lib, seed, o, NumFailures), Read(lib, seed, o, Group), Read(lib, seed, o, ContactOn),
              Read(lib, seed, o, Source), Read(lib, seed, o, SendPings), Read(lib, seed, o, MinPings))
  }

  lemma SettingsRead(lib: Lib, seed: int, o: Named)
    ensures OverridesOf(ResolvedOf(lib, seed, o)) == SettingsBack(lib, seed, o)
  {
    hide Read, ResolvedOf, Get;
    ResolvedGet(lib, seed, o, QueueTime);
    ResolvedGet(lib, seed, o, NumFailures);
    ResolvedGet(lib, seed, o, Group);
    ResolvedGet(lib, seed, o, ContactOn);
    ResolvedGet(lib, seed, o, Source);
    ResolvedGet(lib, seed, o, SendPings);
    ResolvedGet(lib, seed, o, MinPings);
  }

  lemma IntervalBack(lib: Lib, seed: int, o: Named)
    requires FloatsOk(lib) && IntervalOk(lib, o.node)
    ensures IntervalAfter(lib, None, Read(lib, seed, o, QueueTime)) == o.node.interval
  {
    hide FmtNum, AllPlain;
  }

  lemma ThresholdBack(lib: Lib, seed: int, o: Named)
    ensures MaxDownAfter(seed, Read(lib, seed, o, NumFailures)) == o.node.maxDown <==> ThresholdFits(seed, o.node)
  {
    hide DecInt, ParsePlain;
    DecIntParses(o.node.maxDown);
  }

  lemma GroupBack(lib: Lib, seed: int, o: Named)
    requires o.node.group == ""
    ensures GroupAfter("", Read(lib, seed, o, Group)) == ""
  {
  }

  lemma ChoiceQuoteless(s: string)
    requires IsContactChoice(s)
    ensures Solid(s) && Quoteless(s)
  {
  }

  lemma ContactOnBack(lib: Lib, seed: int, o: Named)
    requires o.node.contactOn == "" || IsContactChoice(o.node.contactOn)
    ensures ContactOnAfter("", Read(lib, seed, o, ContactOn)) == o.node.contactOn
  {
    hide Quote, IsContactChoice;
    if o.node.contactOn != "" {
      ChoiceQuoteless(o.node.contactOn);
      QuoteFixes(o.node.contactOn);
    }
  }

  lemma AutoIsAuto()
    ensures Solid(AUTO) && Quoteless(AUTO) && Lower(AUTO) == AUTO
  {
    assert Lower(AUTO) == AUTO;
  }

  lemma SourceBack(lib: Lib, seed: int, o: Named)
    requires SourceFromLegacy(lib, o.node)
    ensures SourceAfter(lib, o.node.checkType, None, Read(lib, seed, o, Source)) == o.node.source
       <==> (o.node.source.Some? ==> Quoteless(o.node.source.value))
  {
    hide Quote, Lower, Strip, Solid;
    if o.node.source.Some? {
      var src := o.node.source.value;
      AutoIsAuto();
      QuoteFixes(src);
      QuoteGood(src);
      if Quoteless(src) {
        SolidStrip(src);
      } else if '"' in Strip(Quote(src)) {
        StripFrom(Quote(src), '"');
        assert false;
      }
    }
  }

  lemma CountReads(raw: Option<string>, v: Option<int>)
    requires raw == OptInt(v) && (v.Some? ==> v.value >= 1)
    ensures Count(raw) == v
  {
    hide DecInt, ParsePlain;
    if v.Some? {
      DecIntParses(v.value);
    }
  }

  lemma PingsBack(lib: Lib, seed: int, o: Named)
    requires o.node.sendPings.Some? ==> o.node.sendPings.value >= 1
    requires o.node.minPings.Some? ==> o.node.minPings.value >= 1
    ensures var send, low := Read(lib, seed, o, SendPings), Read(lib, seed, o, MinPings);
      var rejected := PairRejected(send, low);
      (PingAfter(None, send, rejected) == o.node.sendPings && PingAfter(None, low, rejected) == o.node.minPings)
      <==> !PairInverted(o.node)
  {
    hide Count, DecInt;
    CountReads(Read(lib, seed, o, SendPings), o.node.sendPings);
    CountReads(Read(lib, seed, o, MinPings), o.node.minPings);
  }

  lemma SettingsTrip(lib: Lib, seed: int, o: Named, m: Node)
    requires FloatsOk(lib) && SettingsFromLegacy(lib, o.node)
    requires m.checkType == o.node.checkType && m.maxDown == seed && m.interval == None && m.group == "" && m.contactOn == ""
    requires m.source == None && m.sendPings == None && m.minPings == None
    ensures var back, n := ApplyOverrides(lib, m, SettingsBack(lib, seed, o)), o.node;
      && back == m.(interval := back.interval, maxDown := back.maxDown, group := back.group, contactOn := back.contactOn,
                    source := back.source, sendPings := back.sendPings, minPings := back.minPings)
      && ((back.interval == n.interval && back.maxDown == n.maxDown && back.group == n.group && back.contactOn == n.contactOn
           && back.source == n.source && back.sendPings == n.sendPings && back.minPings == n.minPings)
          <==> ((n.source.Some? ==> Quoteless(n.source.value)) && ThresholdFits(seed, n) && !PairInverted(n)))
  {
    hide Read, Quoteless, IntervalAfter, MaxDownAfter, GroupAfter, ContactOnAfter, SourceAfter, PingAfter, PairRejected,
      ThresholdFits, PairInverted, FloatsOk, IntervalOk, SourceFromLegacy, IsContactChoice;
    IntervalBack(lib, seed, o);
    ThresholdBack(lib, seed, o);
    GroupBack(lib, seed, o);
    ContactOnBack(lib, seed, o);
    SourceBack(lib, seed, o);
    PingsBack(lib, seed, o);
  }

  // ----- the whole node ----------------------------------------------------------------------

  lemma TextBack(lib: Lib, seed: int, o: Named)
    requires Solid(o.node.desc) && Solid(o.node.contact)
    ensures Or(Read(lib, seed, o, Desc), "") == o.node.desc <==> Quoteless(o.node.desc)
    ensures Or(Read(lib, seed, o, Contact), "") == o.node.contact <==> Quoteless(o.node.contact)
  {
    hide Quote, Solid, Quoteless;
    NothingQuoteless();
    QuoteFixes(o.node.desc);
    QuoteFixes(o.node.contact);
  }

  lemma BareDefaults(lib: Lib, seed: int, o: Named)
    ensures BareNode(seed, ResolvedOf(lib, seed, o)).Some? ==>
      var m := BareNode(seed, ResolvedOf(lib, seed, o)).value;
      && m.checkType == o.node.checkType && m.maxDown == seed && m.interval == None && m.group == "" && m.contactOn == ""
      && m.source == None && m.sendPings == None && m.minPings == None
  {
    hide BareNode, ResolvedOf, TypeFields, AttrsBack, Quote;
    BareIs(lib, seed, o);
    KeepsHost(Blank(Quote(o.node.hostname), o.node.checkType, seed), AttrsBack(lib, seed, o));
  }

  lemma CleanParts(seed: int, n: Node)
    ensures Clean(seed, n) <==>
      && Quoteless(n.hostname) && TypeClean(n) && Quoteless(n.desc) && Quoteless(n.contact)
      && (n.source.Some? ==> Quoteless(n.source.value)) && ThresholdFits(seed, n) && !PairInverted(n)
  {
    hide Quoteless;
  }

  lemma NodeBackIs(lib: Lib, seed: int, o: Named)
    ensures var bare := BareNode(seed, ResolvedOf(lib, seed, o));
      NodeBack(lib, seed, o)
      == if bare.None? then None
         else Some(ApplyOverrides(lib, bare.value.(desc := Or(Read(lib, seed, o, Desc), ""), contact := Or(Read(lib, seed, o, Contact), "")),
                                  SettingsBack(lib, seed, o)))
  {
    hide BareNode, ResolvedOf, Read, ApplyOverrides, OverridesOf, SettingsBack, Get;
    ResolvedGet(lib, seed, o, Desc);
    ResolvedGet(lib, seed, o, Contact);
    SettingsRead(lib, seed, o);
  }

  /** A legacy node comes back as it was iff it is clean. */
  lemma NodeRoundTrip(lib: Lib, seed: int, o: Named)
    requires FloatsOk(lib) && FromLegacy(lib, o.node)
    ensures NodeBack(lib, seed, o) == Some(o.node) <==> Clean(seed, o.node)
  {
    hide BareNode, ResolvedOf, Read, ApplyOverrides, SettingsBack, Clean, NodeBack, FloatsOk, TypeFromLegacy, SettingsFromLegacy,
      Quoteless, TypeClean, ThresholdFits, PairInverted, Field, Solid;
    NodeBackIs(lib, seed, o);
    CleanParts(seed, o.node);
    TextBack(lib, seed, o);
    BareDefaults(lib, seed, o);
    if Quoteless(o.node.contact) {
      BareBack(lib, seed, o);
    }
    var bare := BareNode(seed, ResolvedOf(lib, seed, o));
    if bare.Some? {
      var m := bare.value.(desc := Or(Read(lib, seed, o, Desc), ""), contact := Or(Read(lib, seed, o, Contact), ""));
      SettingsTrip(lib, seed, o, m);
    }
  }

  // ----- the converter's warnings ------------------------------------------------------------

  /** The value of `k` loses characters in quoting, and the converter says so. */
  ghost predicate WarnsQuote(lib: Lib, seed: int, o: Named, k: AttrKey) {
    var v := AttrValue(lib, seed, o, k);
    IsQuoted(k) && v.Some? && Unrepresentable(v.value)
  }

  /** The converter warns while it writes the object. */
  ghost predicate Warns(lib: Lib, seed: int, o: Named) {
    Notices(lib, seed, o, KeyOrder) != []
  }

  lemma {:induction false} NoticesIff(lib: Lib, seed: int, o: Named, keys: seq<AttrKey>)
    ensures Notices(lib, seed, o, keys) != [] <==> exists k :: k in keys && KeyNotices(lib, seed, o, k) != []
  {
    hide KeyNotices;
    if keys != [] {
      NoticesIff(lib, seed, o, keys[1..]);
      assert forall k :: k in keys <==> k == keys[0] || k in keys[1..];
    }
  }

  lemma KeyWarns(lib: Lib, seed: int, o: Named, k: AttrKey)
    ensures KeyNotices(lib, seed, o, k) != [] <==>
      || WarnsQuote(lib, seed, o, k)
      || (k == Port && NeedsPort(o.node.checkType) && o.node.port != 0 && !(1 <= o.node.port <= 65535))
      || (k == NumFailures && o.node.maxDown != seed && o.node.maxDown < 1)
  {
    hide DecInt, TypeName, FmtNum, Unrepresentable;
  }

  /** The converter warns about characters it strips, ports out of range and thresholds below 1, and nothing else. */
  lemma WarnsIff(lib: Lib, seed: int, o: Named)
    ensures Warns(lib, seed, o) <==>
      || (exists k :: WarnsQuote(lib, seed, o, k))
      || (NeedsPort(o.node.checkType) && o.node.port != 0 && !(1 <= o.node.port <= 65535))
      || (o.node.maxDown != seed && o.node.maxDown < 1)
  {
    hide KeyNotices, WarnsQuote, KeyOrder, Notices;
    NoticesIff(lib, seed, o, KeyOrder);
    forall k
      ensures KeyNotices(lib, seed, o, k) != [] <==>
        || WarnsQuote(lib, seed, o, k)
        || (k == Port && NeedsPort(o.node.checkType) && o.node.port != 0 && !(1 <= o.node.port <= 65535))
        || (k == NumFailures && o.node.maxDown != seed && o.node.maxDown < 1)
      ensures k in KeyOrder || KeyNotices(lib, seed, o, k) == []
    {
      KeyWarns(lib, seed, o, k);
      if k != Ip {
        KeyOrderCovers(k);
      } else {
        IpSilent(lib, seed, o);
      }
    }
    KeyOrderCovers(Port);
    KeyOrderCovers(NumFailures);
  }

  lemma IpSilent(lib: Lib, seed: int, o: Named)
    ensures KeyNotices(lib, seed, o, Ip) == []
  {
  }

  lemma SolidHasNoBreak(s: string)
    requires Solid(s)
    ensures '\n' !in s && '\r' !in s
  {
  }

  lemma PlainWarnsNot(s: string)
    requires NameOk(s)
    ensures '"' !in s && '\n' !in s && '\r' !in s
  {
  }

  lemma QuoteWarning(lib: Lib, seed: int, o: Named, k: AttrKey)
    requires FromLegacy(lib, o.node) && (o.parent.Some? ==> NameOk(o.parent.value)) && NoQuotes(o.node)
    ensures !WarnsQuote(lib, seed, o, k)
  {
    hide Solid, NameOk, DecInt, TypeName, FmtNum, PortFromLegacy, IntervalOk, SourceFromLegacy;
    var n := o.node;
    match k
    case Host => SolidHasNoBreak(n.hostname);
    case Url => SolidOr(n.url);
    case UrlText => if n.urlText.Some? { SolidOr(n.urlText.value); }
    case Username => SolidOr(n.username);
    case Password => SolidOr(n.password);
    case DnsQuery => SolidOr(n.username);
    case Desc => SolidHasNoBreak(n.desc);
    case Contact => SolidHasNoBreak(n.contact);
    case ContactOn => if n.contactOn != "" { ChoiceQuoteless(n.contactOn); SolidHasNoBreak(n.contactOn); }
    case Source => if n.source.Some? { SourceSolid(lib, n); SolidHasNoBreak(n.source.value); }
    case Dep => if o.parent.Some? { PlainWarnsNot(o.parent.value); }
    case _ =>
  }

  lemma SolidOr(s: string)
    ensures Solid(s) ==> '\n' !in s && '\r' !in s
  {
  }

  lemma SourceSolid(lib: Lib, n: Node)
    requires SourceFromLegacy(lib, n) && n.source.Some?
    ensures Solid(n.source.value)
  {
    AutoIsAuto();
  }

  lemma QuoteWarned(lib: Lib, seed: int, o: Named)
    requires FromLegacy(lib, o.node) && !NoQuotes(o.node)
    ensures exists k :: WarnsQuote(lib, seed, o, k)
  {
    hide Solid, PortFromLegacy, IntervalOk, SourceFromLegacy;
    var n := o.node;
    NothingQuoteless();
    var k :=
      if !Quoteless(n.hostname) then Host else if !Quoteless(n.desc) then Desc else if !Quoteless(n.contact) then Contact
      else if !Quoteless(n.url) then Url else if !Quoteless(n.password) then Password
      else if !Quoteless(n.username) then (if n.checkType == Dns then DnsQuery else Username)
      else if n.urlText.Some? && !Quoteless(n.urlText.value) then UrlText else Source;
    assert WarnsQuote(lib, seed, o, k);
  }

  /** A node is changed or dropped without a warning iff its ping pair is inverted and nothing else is wrong. */
  lemma LostSilently(lib: Lib, seed: int, o: Named)
    requires FloatsOk(lib) && FromLegacy(lib, o.node) && (o.parent.Some? ==> NameOk(o.parent.value))
    ensures !Warns(lib, seed, o) && NodeBack(lib, seed, o) != Some(o.node) <==> !Warns(lib, seed, o) && PairInverted(o.node)
    ensures Clean(seed, o.node) <==> !Warns(lib, seed, o) && !PairInverted(o.node)
  {
    hide NodeBack, FloatsOk, TypeFromLegacy, SettingsFromLegacy, NoQuotes, WarnsQuote, PairInverted, NameOk, Warns;
    NodeRoundTrip(lib, seed, o);
    WarnsIff(lib, seed, o);
    GivenPort(lib, o.node);
    if NoQuotes(o.node) {
      forall k
        ensures !WarnsQuote(lib, seed, o, k)
      {
        QuoteWarning(lib, seed, o, k);
      }
    } else {
      QuoteWarned(lib, seed, o);
    }
  }

  lemma GivenPort(lib: Lib, n: Node)
    requires FromLegacy(lib, n)
    ensures NeedsPort(n.checkType) ==> n.port > 0
  {
  }
}
