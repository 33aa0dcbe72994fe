/** Group inheritance is the same as writing the group's settings on each member. */
module Groups {
  import opened Model
  import opened Text
  import opened Lexer
  import opened ModernSyntax
  import opened ModernBuild
  import opened Records

  /** What a recorded group holds: group keys only, and a source already in its normal form. */
  ghost predicate GroupOk(lib: Lib, grp: Resolved) {
    && (forall k :: k in grp ==> k in GroupTexts())
    && (Get(grp, Source).Some? ==> ParseSource(lib, Get(grp, Source).value) == Get(grp, Source))
  }

  lemma SettingsOk(lib: Lib, r: Resolved)
    ensures GroupOk(lib, GroupSettings(lib, r))
  {
    hide KeyText;
    if KeyText(Source) in r {
      StripTwice(r[KeyText(Source)]);
      assert Lower(AUTO) == AUTO;
      assert Strip(AUTO) == AUTO;
    }
    var settings := map k | k in r && k in GroupTexts() :: r[k];
    if Get(settings, Source).Some? {
      assert KeyText(Source) in GroupTexts();
    }
  }

  lemma GroupTextIs(k: AttrKey)
    ensures KeyText(k) in GroupTexts() <==> IsGroupKey(k)
  {
    hide KeyText;
    if KeyText(k) in GroupTexts() {
      var g :| IsGroupKey(g) && KeyText(g) == KeyText(k);
      KeyTextInjective(g, k);
    }
  }

  /** The object's attributes with the inherited ones written in. */
  function Inlined(grp: Resolved, r: Resolved): Resolved {
    r + Inherited(grp, r.Keys)
  }

  /** Attributes that groups do not carry read as before. */
  lemma IdentityKept(lib: Lib, grp: Resolved, r: Resolved, k: AttrKey)
    requires GroupOk(lib, grp) && !IsGroupKey(k)
    ensures Get(Inlined(grp, r), k) == Get(r, k) && Get(Inherited(grp, r.Keys), k) == None
  {
    hide KeyText, GroupTexts;
    GroupTextIs(k);
  }

  /** Settings other than the ping pair: the object's own, else the group's. */
  lemma SettingInlined(grp: Resolved, r: Resolved, k: AttrKey)
    requires k != SendPings && k != MinPings
    ensures Get(Inherited(grp, r.Keys), k) == if Get(r, k).Some? then None else Get(grp, k)
    ensures Get(Inlined(grp, r), k) == if Get(r, k).Some? then Get(r, k) else Get(grp, k)
  {
    hide KeyText;
    if KeyText(k) == KeyText(SendPings) {
      KeyTextInjective(k, SendPings);
    }
    if KeyText(k) == KeyText(MinPings) {
      KeyTextInjective(k, MinPings);
    }
  }

  /** The ping pair: the object's own legs if it wrote either, else the group's. */
  lemma PingsInlined(grp: Resolved, r: Resolved, k: AttrKey)
    requires k == SendPings || k == MinPings
    ensures var own := Get(r, SendPings).Some? || Get(r, MinPings).Some?;
            && Get(Inherited(grp, r.Keys), k) == (if own then None else Get(grp, k))
            && Get(Inlined(grp, r), k) == (if own then Get(r, k) else Get(grp, k))
  {
    hide KeyText;
  }

  /** What is passed on to the override path: the inherited settings without source and contact. */
  lemma RestGet(inherited: Resolved, k: AttrKey)
    ensures Get(inherited - {KeyText(Source), KeyText(Contact)}, k) ==
            if k == Source || k == Contact then None else Get(inherited, k)
  {
    hide KeyText;
    if k != Source && KeyText(k) == KeyText(Source) {
      KeyTextInjective(k, Source);
    }
    if k != Contact && KeyText(k) == KeyText(Contact) {
      KeyTextInjective(k, Contact);
    }
  }

  function Pick(own: Option<string>, grp: Option<string>): Option<string> {
    if own.Some? then own else grp
  }

  function Left(own: Option<string>, grp: Option<string>): Option<string> {
    if own.Some? then None else grp
  }

  /** The overrides that count for a member, and those its group contributes to it. */
  function Merged(own: Overrides, grp: Overrides): Overrides {
    var pings := own.sendPings.Some? || own.minPings.Some?;
    Overrides(Pick(own.queueTime, grp.queueTime), Pick(own.numFailures, grp.numFailures), own.group,
              Pick(own.contactOn, grp.contactOn), Pick(own.source, grp.source),
              if pings then own.sendPings else grp.sendPings, if pings then own.minPings else grp.minPings)
  }

  function Contributed(own: Overrides, grp: Overrides): Overrides {
    var pings := own.sendPings.Some? || own.minPings.Some?;
    Overrides(Left(own.queueTime, grp.queueTime), Left(own.numFailures, grp.numFailures), None,
              Left(own.contactOn, grp.contactOn), None,
              if pings then None else grp.sendPings, if pings then None else grp.minPings)
  }

  lemma OverridesInlined(lib: Lib, grp: Resolved, r: Resolved)
    requires GroupOk(lib, grp)
    ensures OverridesOf(Inlined(grp, r)) == Merged(OverridesOf(r), OverridesOf(grp))
  {
    hide Inlined, Inherited, KeyText, Get, GroupOk;
    IdentityKept(lib, grp, r, Group);
    SettingInlined(grp, r, QueueTime);
    SettingInlined(grp, r, NumFailures);
    SettingInlined(grp, r, ContactOn);
    SettingInlined(grp, r, Source);
    PingsInlined(grp, r, SendPings);
    PingsInlined(grp, r, MinPings);
  }

  lemma OverridesContributed(lib: Lib, grp: Resolved, r: Resolved)
    requires GroupOk(lib, grp)
    ensures OverridesOf(Inherited(grp, r.Keys) - {KeyText(Source), KeyText(Contact)}) == Contributed(OverridesOf(r), OverridesOf(grp))
  {
    hide Inlined, Inherited, KeyText, Get, GroupOk;
    var inherited := Inherited(grp, r.Keys);
    IdentityKept(lib, grp, r, Group);
    SettingInlined(grp, r, QueueTime);
    SettingInlined(grp, r, NumFailures);
    SettingInlined(grp, r, ContactOn);
    PingsInlined(grp, r, SendPings);
    PingsInlined(grp, r, MinPings);
    RestGet(inherited, Group);
    RestGet(inherited, QueueTime);
    RestGet(inherited, NumFailures);
    RestGet(inherited, ContactOn);
    RestGet(inherited, Source);
    RestGet(inherited, SendPings);
    RestGet(inherited, MinPings);
  }

  // ----- own settings first, inherited ones second -------------------------------------------

  // Applying an object's own value and then, if it has none, the group's, is applying the one that counts.

  lemma IntervalTwice(lib: Lib, own: Option<string>, grp: Option<string>)
    ensures IntervalAfter(lib, IntervalAfter(lib, None, own), Left(own, grp)) == IntervalAfter(lib, None, Pick(own, grp))
  {
  }

  lemma MaxDownTwice(numfailures: int, own: Option<string>, grp: Option<string>)
    ensures MaxDownAfter(MaxDownAfter(numfailures, own), Left(own, grp)) == MaxDownAfter(numfailures, Pick(own, grp))
  {
    hide ParsePlain;
  }

  lemma ContactOnTwice(own: Option<string>, grp: Option<string>)
    ensures ContactOnAfter(ContactOnAfter("", own), Left(own, grp)) == ContactOnAfter("", Pick(own, grp))
  {
    hide IsContactChoice;
  }

  lemma SourceTwice(lib: Lib, t: CheckType, own: Option<string>, grp: Option<string>)
    requires grp.Some? ==> ParseSource(lib, grp.value) == grp
    ensures var rest, was := Left(own, grp), SourceAfter(lib, t, None, own);
            SourceAfter(lib, t, None, Pick(own, grp)) == if rest.Some? && FamilyOk(lib, t, rest.value) then rest else was
  {
    hide ParseSource, FamilyOk;
  }

  lemma PingsTwice(ownSend: Option<string>, ownMin: Option<string>, grpSend: Option<string>, grpMin: Option<string>)
    ensures var own := ownSend.Some? || ownMin.Some?;
            var restSend, restMin := if own then None else grpSend, if own then None else grpMin;
            var send, low := if own then ownSend else grpSend, if own then ownMin else grpMin;
            var r1, r2, r := PairRejected(ownSend, ownMin), PairRejected(restSend, restMin), PairRejected(send, low);
            && PingAfter(PingAfter(None, ownSend, r1), restSend, r2) == PingAfter(None, send, r)
            && PingAfter(PingAfter(None, ownMin, r1), restMin, r2) == PingAfter(None, low, r)
  {
    hide ParsePlain;
  }

  /** A node on which nothing has been overridden yet. */
  predicate Untouched(n: Node, numfailures: int) {
    n.interval == None && n.maxDown == numfailures && n.contactOn == "" && n.source == None && n.sendPings == None && n.minPings == None
  }

  /** The override path taken twice, own settings first, is the path taken once with the merged settings. */
  lemma OverridesTwice(lib: Lib, n: Node, own: Overrides, grp: Overrides, numfailures: int, ownContact: Option<string>, grpContact: Option<string>)
    requires Untouched(n, numfailures) && (grp.source.Some? ==> ParseSource(lib, grp.source.value) == grp.source)
    ensures var first := ApplyOverrides(lib, n.(contact := Or(ownContact, "")), own);
            var src, contact := Left(own.source, grp.source), Left(ownContact, grpContact);
            var n1 := if src.Some? && FamilyOk(lib, first.checkType, src.value) then first.(source := src) else first;
            var n2 := if contact.Some? then n1.(contact := contact.value) else n1;
            ApplyOverrides(lib, n2, Contributed(own, grp)) ==
            ApplyOverrides(lib, n.(contact := Or(Pick(ownContact, grpContact), "")), Merged(own, grp))
  {
    hide FamilyOk, IntervalAfter, MaxDownAfter, GroupAfter, ContactOnAfter, SourceAfter, PairRejected, PingAfter, ParseSource;
    IntervalTwice(lib, own.queueTime, grp.queueTime);
    MaxDownTwice(numfailures, own.numFailures, grp.numFailures);
    ContactOnTwice(own.contactOn, grp.contactOn);
    SourceTwice(lib, n.checkType, own.source, grp.source);
    PingsTwice(own.sendPings, own.minPings, grp.sendPings, grp.minPings);
    UnsetKeeps(lib, n.checkType);
  }

  lemma UnsetKeeps(lib: Lib, t: CheckType)
    ensures forall was :: SourceAfter(lib, t, was, None) == was
    ensures forall was :: GroupAfter(was, None) == was
  {
  }

  /** Type-specific fields after inlining: the same, except that a group contact can satisfy what a dns object
      requires. */
  lemma BareInlined(lib: Lib, numfailures: int, grp: Resolved, r: Resolved)
    requires GroupOk(lib, grp)
    ensures BareNode(numfailures, r).Some? ==> BareNode(numfailures, Inlined(grp, r)) == BareNode(numfailures, r)
    ensures Get(r, Type).None? || TypeNamed(Get(r, Type).value) != Some(Dns) ==>
              BareNode(numfailures, Inlined(grp, r)) == BareNode(numfailures, r)
  {
    hide Inlined, Inherited, KeyText, Get, GroupOk, TypeNamed, TypeAttrsOf, TypeFields;
    IdentityKept(lib, grp, r, Host);
    IdentityKept(lib, grp, r, Ip);
    IdentityKept(lib, grp, r, Type);
    InlinedTypeAttrs(lib, grp, r);
    var host := if NonEmpty(Get(r, Host)).Some? then Get(r, Host) else NonEmpty(Get(r, Ip));
    var t := if Get(r, Type).Some? then TypeNamed(Get(r, Type).value) else None;
    if host.Some? && t.Some? {
      ContactMatters(Blank(host.value, t.value, numfailures), TypeAttrsOf(r), Get(grp, Contact));
    }
  }

  lemma ContactMatters(n: Node, a: TypeAttrs, grp: Option<string>)
    ensures n.checkType != Dns || TypeFields(n, a).Some? ==> TypeFields(n, a.(contact := Pick(a.contact, grp))) == TypeFields(n, a)
  {
    hide ParsePort;
  }

  lemma InlinedTypeAttrs(lib: Lib, grp: Resolved, r: Resolved)
    requires GroupOk(lib, grp)
    ensures TypeAttrsOf(r).contact == Get(r, Contact) && TypeAttrsOf(r).dnsQuery == Get(r, DnsQuery)
    ensures TypeAttrsOf(Inlined(grp, r)) == TypeAttrsOf(r).(contact := Pick(Get(r, Contact), Get(grp, Contact)))
  {
    hide Inlined, Inherited, KeyText, Get, GroupOk;
    IdentityKept(lib, grp, r, Port);
    IdentityKept(lib, grp, r, Url);
    IdentityKept(lib, grp, r, UrlText);
    IdentityKept(lib, grp, r, Username);
    IdentityKept(lib, grp, r, Password);
    IdentityKept(lib, grp, r, DnsQuery);
    SettingInlined(grp, r, Contact);
  }

  lemma BareUntouched(numfailures: int, r: Resolved)
    ensures BareNode(numfailures, r).Some? ==> Untouched(BareNode(numfailures, r).value, numfailures)
  {
    hide Get, TypeNamed, ParsePort;
  }

  /** For every object that stands on its own, taking over its group's settings gives exactly the node that the
      object would have had with those settings written in its own block. */
  lemma InheritanceIsInlining(lib: Lib, numfailures: int, grp: Resolved, r: Resolved, name: string, deps: seq<string>)
    requires GroupOk(lib, grp) && BuildNode(lib, numfailures, r).Some?
    ensures var o := Object(name, BuildNode(lib, numfailures, r).value, deps, r.Keys);
            BuildNode(lib, numfailures, Inlined(grp, r)) == Some(ApplyGroup(lib, o, grp))
  {
    hide BareNode, Inlined, KeyText, Get, GroupOk, FamilyOk, Inherited, ApplyOverrides, OverridesOf, Merged, Contributed;
    BareInlined(lib, numfailures, grp, r);
    BareUntouched(numfailures, r);
    OverridesInlined(lib, grp, r);
    OverridesContributed(lib, grp, r);
    SettingInlined(grp, r, Contact);
    SettingInlined(grp, r, Source);
    IdentityKept(lib, grp, r, Desc);
    SourceRead(lib, grp, r);
    var n := BareNode(numfailures, r).value.(desc := Or(Get(r, Desc), ""));
    OverridesTwice(lib, n, OverridesOf(r), OverridesOf(grp), numfailures, Get(r, Contact), Get(grp, Contact));
  }

  lemma SourceRead(lib: Lib, grp: Resolved, r: Resolved)
    requires GroupOk(lib, grp)
    ensures OverridesOf(r).source == Get(r, Source) && OverridesOf(grp).source == Get(grp, Source)
    ensures Get(grp, Source).Some? ==> ParseSource(lib, Get(grp, Source).value) == Get(grp, Source)
  {
    hide ParseSource;
  }

  /** An object that fails on its own fails with the settings written in as well, unless it is a dns object
      whose only lack is a contact that its group has. */
  lemma FailureIsNotInherited(lib: Lib, numfailures: int, grp: Resolved, r: Resolved)
    requires GroupOk(lib, grp) && BuildNode(lib, numfailures, r).None?
    ensures BuildNode(lib, numfailures, Inlined(grp, r)).Some? <==>
              && Get(r, Type).Some? && TypeNamed(Get(r, Type).value) == Some(Dns)
              && (NonEmpty(Get(r, Host)).Some? || NonEmpty(Get(r, Ip)).Some?)
              && NonEmpty(Get(r, DnsQuery)).Some? && Get(r, Contact).None? && NonEmpty(Get(grp, Contact)).Some?
  {
    hide Inlined, Inherited, KeyText, Get, GroupOk, TypeNamed, ParsePort, ApplyOverrides, OverridesOf, TypeAttrsOf;
    BareInlined(lib, numfailures, grp, r);
    InlinedTypeAttrs(lib, grp, r);
    IdentityKept(lib, grp, r, Host);
    IdentityKept(lib, grp, r, Ip);
    IdentityKept(lib, grp, r, Type);
  }

  // ----- whole files -------------------------------------------------------------------------

  ghost predicate AllGroupsOk(lib: Lib, groups: map<string, Resolved>) {
    forall g :: g in groups ==> GroupOk(lib, groups[g])
  }

  /** Every group recorded by any file is in the form the inheritance theorem needs. */
  lemma {:induction false} RunKeepsGroupsOk(lib: Lib, numfailures: int, e: Env, stmts: seq<Stmt>)
    requires AllGroupsOk(lib, e.groups)
    ensures AllGroupsOk(lib, Run(lib, numfailures, e, stmts).groups)
    decreases stmts
  {
    hide GroupOk, GroupSettings, AddObject, AddVar;
    if stmts != [] {
      if stmts[0].GroupStmt? {
        SettingsOk(lib, Resolve(e.vars, stmts[0].block.attrs));
      }
      RunKeepsGroupsOk(lib, numfailures, Step(lib, numfailures, e, stmts[0]), stmts[1..]);
    }
  }

  /** No value in the block refers to a variable. */
  ghost predicate NoRefs(b: Block) {
    && (forall k :: k in b.attrs && b.attrs[k] != [] ==> '$' !in ValueOf(b.attrs[k][0]))
    && (forall i :: 0 <= i < |b.deps| && b.deps[i] != [] ==> '$' !in ValueOf(b.deps[i][0]))
  }

  ghost predicate Dollarless(s: Stmt) {
    match s
    case ObjectStmt(_, b) => NoRefs(b)
    case GroupStmt(name, b) => '$' !in name && NoRefs(b)
    case _ => true
  }

  lemma FirstValueFixed(v: map<string, string>, w: map<string, string>, values: seq<Token>)
    requires values != [] ==> '$' !in ValueOf(values[0])
    ensures FirstValue(v, values) == FirstValue(w, values)
  {
    if values != [] {
      SubstDollarless(v, ValueOf(values[0]));
      SubstDollarless(w, ValueOf(values[0]));
    }
  }

  lemma ResolveFixed(v: map<string, string>, w: map<string, string>, b: Block)
    requires NoRefs(b)
    ensures Resolve(v, b.attrs) == Resolve(w, b.attrs)
  {
    forall k | k in b.attrs
      ensures FirstValue(v, b.attrs[k]) == FirstValue(w, b.attrs[k])
    {
      FirstValueFixed(v, w, b.attrs[k]);
    }
  }

  lemma {:induction false} DepNamesFixed(v: map<string, string>, w: map<string, string>, deps: seq<seq<Token>>)
    requires forall i :: 0 <= i < |deps| && deps[i] != [] ==> '$' !in ValueOf(deps[i][0])
    ensures DepNames(v, deps) == DepNames(w, deps)
  {
    if deps != [] {
      DepNamesFixed(v, w, deps[..|deps| - 1]);
      FirstValueFixed(v, w, deps[|deps| - 1]);
    }
  }

  function ObjectsIn(stmts: seq<Stmt>): seq<Stmt> {
    if stmts == [] then []
    else (if stmts[0].ObjectStmt? then [stmts[0]] else []) + ObjectsIn(stmts[1..])
  }

  function GroupsIn(stmts: seq<Stmt>): seq<Stmt> {
    if stmts == [] then []
    else (if stmts[0].GroupStmt? then [stmts[0]] else []) + GroupsIn(stmts[1..])
  }

  lemma StepFixed(lib: Lib, numfailures: int, e: Env, f: Env, s: Stmt)
    requires Dollarless(s)
    ensures e.objects == f.objects ==> Step(lib, numfailures, e, s).objects == Step(lib, numfailures, f, s).objects
    ensures e.groups == f.groups ==> Step(lib, numfailures, e, s).groups == Step(lib, numfailures, f, s).groups
  {
    hide BuildNode, GroupSettings, NoRefs;
    match s
    case ObjectStmt(_, b) =>
      ResolveFixed(e.vars, f.vars, b);
      BlockDepsFixed(e.vars, f.vars, b);
    case GroupStmt(name, b) =>
      ResolveFixed(e.vars, f.vars, b);
      SubstDollarless(e.vars, name);
      SubstDollarless(f.vars, name);
    case _ =>
  }

  lemma BlockDepsFixed(v: map<string, string>, w: map<string, string>, b: Block)
    requires NoRefs(b)
    ensures DepNames(v, b.deps) == DepNames(w, b.deps)
  {
    DepNamesFixed(v, w, b.deps);
  }

  /** Without variable references a file's objects depend on its object statements alone. */
  lemma {:induction false} ObjectsAlone(lib: Lib, numfailures: int, e: Env, f: Env, stmts: seq<Stmt>)
    requires e.objects == f.objects && forall i :: 0 <= i < |stmts| ==> Dollarless(stmts[i])
    ensures Run(lib, numfailures, e, stmts).objects == Run(lib, numfailures, f, ObjectsIn(stmts)).objects
    decreases stmts
  {
    hide Step, Dollarless;
    if stmts != [] {
      var s, e1 := stmts[0], Step(lib, numfailures, e, stmts[0]);
      if s.ObjectStmt? {
        StepFixed(lib, numfailures, e, f, s);
        assert ObjectsIn(stmts)[0] == s && ObjectsIn(stmts)[1..] == ObjectsIn(stmts[1..]);
        ObjectsAlone(lib, numfailures, e1, Step(lib, numfailures, f, s), stmts[1..]);
      } else {
        OtherStep(lib, numfailures, e, s);
        assert ObjectsIn(stmts) == ObjectsIn(stmts[1..]);
        ObjectsAlone(lib, numfailures, e1, f, stmts[1..]);
      }
    }
  }

  lemma OtherStep(lib: Lib, numfailures: int, e: Env, s: Stmt)
    ensures !s.ObjectStmt? ==> Step(lib, numfailures, e, s).objects == e.objects
    ensures !s.GroupStmt? ==> Step(lib, numfailures, e, s).groups == e.groups
  {
  }

  lemma {:induction false} GroupsAlone(lib: Lib, numfailures: int, e: Env, f: Env, stmts: seq<Stmt>)
    requires e.groups == f.groups && forall i :: 0 <= i < |stmts| ==> Dollarless(stmts[i])
    ensures Run(lib, numfailures, e, stmts).groups == Run(lib, numfailures, f, GroupsIn(stmts)).groups
    decreases stmts
  {
    hide Step, Dollarless;
    if stmts != [] {
      var s, e1 := stmts[0], Step(lib, numfailures, e, stmts[0]);
      if s.GroupStmt? {
        StepFixed(lib, numfailures, e, f, s);
        assert GroupsIn(stmts)[0] == s && GroupsIn(stmts)[1..] == GroupsIn(stmts[1..]);
        GroupsAlone(lib, numfailures, e1, Step(lib, numfailures, f, s), stmts[1..]);
      } else {
        OtherStep(lib, numfailures, e, s);
        assert GroupsIn(stmts) == GroupsIn(stmts[1..]);
        GroupsAlone(lib, numfailures, e1, f, stmts[1..]);
      }
    }
  }

  /** Objects and groups may be interleaved in any way: as long as no value refers to a variable, two files with
      the same objects in the same order and the same groups in the same order define the same objects. */
  lemma DeclarationOrderIsFree(lib: Lib, numfailures: int, a: seq<Stmt>, b: seq<Stmt>)
    requires ObjectsIn(a) == ObjectsIn(b) && GroupsIn(a) == GroupsIn(b)
    requires forall i :: 0 <= i < |a| ==> Dollarless(a[i])
    requires forall i :: 0 <= i < |b| ==> Dollarless(b[i])
    ensures Objects(lib, numfailures, a) == Objects(lib, numfailures, b)
  {
    hide Run, Dollarless, Grouped;
    ObjectsAlone(lib, numfailures, EmptyEnv, EmptyEnv, a);
    ObjectsAlone(lib, numfailures, EmptyEnv, EmptyEnv, b);
    GroupsAlone(lib, numfailures, EmptyEnv, EmptyEnv, a);
    GroupsAlone(lib, numfailures, EmptyEnv, EmptyEnv, b);
  }
}
