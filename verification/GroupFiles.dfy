/** What a whole modern file defines, statement by statement: variables, groups and the objects that inherit from them. */
module GroupFiles {
  import opened Model
  import opened Text
  import opened Lexer
  import opened ModernSyntax
  import opened ModernBuild
  import opened Groups
  import opened Records

  // ----- what a group block contributes ------------------------------------------------------

  /** An attribute of a group block that a member may take over. The ping pair goes only to members that wrote neither. */
  predicate Passed(k: string, r: Resolved) {
    || k == "source" || k == "contact" || k == "contact_on" || k == "numfailures" || k == "queuetime"
    || ((k == "send_pings" || k == "min_pings") && "send_pings" !in r && "min_pings" !in r)
  }

  /** The member's attributes with those of the group block written in that it did not write itself. */
  function WrittenIn(g: Resolved, r: Resolved): Resolved {
    r + map k | k in g && k !in r && Passed(k, r) :: g[k]
  }

  lemma PassedIs(k: AttrKey, r: Resolved)
    ensures Passed(KeyText(k), r) <==>
              || k == Source || k == Contact || k == ContactOn || k == NumFailures || k == QueueTime
              || ((k == SendPings || k == MinPings) && Get(r, SendPings).None? && Get(r, MinPings).None?)
  {
    assert |KeyText(k)| > 1;
    match k
    case Host | Ip | Type | Port | Desc | Contact | Url | UrlText | Username | Password | DnsQuery | Dep =>
    case QueueTime | SendPings | MinPings | NumFailures | Group | ContactOn | Source =>
  }

  lemma WrittenGet(g: Resolved, r: Resolved, k: AttrKey)
    ensures Get(WrittenIn(g, r), k) == if Get(r, k).Some? then Get(r, k) else if Passed(KeyText(k), r) then Get(g, k) else None
  {
    hide Passed, KeyText;
  }

  /** The first block of a group is recorded with every setting it may carry, as it was written; a source is put in its normal
      form, or left out when it is neither `auto` nor an address. */
  lemma GroupIsRecorded(lib: Lib, vars: map<string, string>, groups: map<string, Resolved>, name: string, b: Block, k: AttrKey)
    requires var who := Strip(Subst(vars, name)); who != "" && who !in groups
    ensures var who, r := Strip(Subst(vars, name)), Resolve(vars, b.attrs);
            var after := AddGroup(lib, vars, groups, name, b);
            && after.Keys == groups.Keys + {who} && (forall other :: other in groups ==> after[other] == groups[other])
            && (k == Contact || k == ContactOn || k == NumFailures || k == QueueTime || k == SendPings || k == MinPings ==>
                  Get(after[who], k) == Get(r, k))
            && Get(after[who], Source) == (if Get(r, Source).Some? then ParseSource(lib, Get(r, Source).value) else None)
  {
    hide Strip, Subst, Resolve;
    RecordedGet(lib, Resolve(vars, b.attrs), k);
    RecordedGet(lib, Resolve(vars, b.attrs), Source);
  }

  lemma RecordedGet(lib: Lib, r: Resolved, k: AttrKey)
    ensures Get(GroupSettings(lib, r), k) == if k == Source then (if Get(r, Source).Some? then ParseSource(lib, Get(r, Source).value) else None)
                                             else if IsGroupKey(k) then Get(r, k) else None
  {
    hide KeyText, ParseSource, GroupTexts;
    GroupTextIs(k);
    GroupTextIs(Source);
    if k != Source && KeyText(k) == KeyText(Source) {
      KeyTextInjective(k, Source);
    }
  }

  lemma SourceTwiceRead(lib: Lib, t: CheckType, raw: string)
    ensures var src := ParseSource(lib, raw);
            SourceAfter(lib, t, None, Some(raw)) == SourceAfter(lib, t, None, src)
  {
    hide Lower, Strip;
    StripTwice(raw);
    AutoRead();
  }

  lemma AutoRead()
    ensures Lower(AUTO) == AUTO && Strip(AUTO) == AUTO
  {
    assert Lower("auto") == "auto";
    SolidStrip("auto");
  }

  ghost predicate Alike(r: Resolved, q: Resolved) {
    forall k :: k != Source ==> Get(r, k) == Get(q, k)
  }

  lemma TypePartsAlike(r: Resolved, q: Resolved)
    requires Alike(r, q)
    ensures TypeAttrsOf(r) == TypeAttrsOf(q) && OverridesOf(r) == OverridesOf(q).(source := Get(r, Source))
    ensures OverridesOf(q).source == Get(q, Source)
    ensures Get(r, Host) == Get(q, Host) && Get(r, Ip) == Get(q, Ip) && Get(r, Type) == Get(q, Type)
    ensures Get(r, Desc) == Get(q, Desc) && Get(r, Contact) == Get(q, Contact)
  {
    hide Get;
  }

  lemma OverridesAlike(lib: Lib, n: Node, o: Overrides, src: Option<string>)
    requires n.source == None && SourceAfter(lib, n.checkType, None, src) == SourceAfter(lib, n.checkType, None, o.source)
    ensures ApplyOverrides(lib, n, o.(source := src)) == ApplyOverrides(lib, n, o)
  {
    hide SourceAfter, IntervalAfter, MaxDownAfter, ContactOnAfter, PingAfter, PairRejected, GroupAfter;
  }

  /** A node depends on its attributes one by one, and on its source through what it reads as. */
  lemma NodeDepends(lib: Lib, numfailures: int, r: Resolved, q: Resolved)
    requires Alike(r, q)
    requires forall t :: SourceAfter(lib, t, None, Get(r, Source)) == SourceAfter(lib, t, None, Get(q, Source))
    ensures BuildNode(lib, numfailures, r) == BuildNode(lib, numfailures, q)
  {
    hide Get, TypeNamed, TypeFields, TypeAttrsOf, OverridesOf, SourceAfter, ApplyOverrides, Alike;
    TypePartsAlike(r, q);
    assert BareNode(numfailures, r) == BareNode(numfailures, q);
    NoSourceYet(numfailures, q);
    hide BareNode;
    var bare := BareNode(numfailures, q);
    if bare.Some? {
      var n := bare.value.(desc := Or(Get(q, Desc), ""), contact := Or(Get(q, Contact), ""));
      OverridesAlike(lib, n, OverridesOf(q), Get(r, Source));
    }
  }

  lemma NoSourceYet(numfailures: int, r: Resolved)
    ensures BareNode(numfailures, r).Some? ==> BareNode(numfailures, r).value.source == None
  {
    hide Get, TypeNamed, ParsePort;
  }

  /** Writing a group block's attributes on a member gives the node that recording the group and applying it gives. */
  lemma WritingIsInlining(lib: Lib, numfailures: int, g: Resolved, r: Resolved)
    ensures BuildNode(lib, numfailures, WrittenIn(g, r)) == BuildNode(lib, numfailures, Inlined(GroupSettings(lib, g), r))
  {
    hide BuildNode, WrittenIn, Inlined, Inherited, GroupSettings, Get, SourceAfter, ParseSource, Passed, KeyText;
    var grp := GroupSettings(lib, g);
    forall k | k != Source
      ensures Get(WrittenIn(g, r), k) == Get(Inlined(grp, r), k)
    {
      WrittenAgrees(lib, g, r, k);
    }
    WrittenGet(g, r, Source);
    PassedIs(Source, r);
    RecordedGet(lib, g, Source);
    SettingInlined(grp, r, Source);
    forall t
      ensures SourceAfter(lib, t, None, Get(WrittenIn(g, r), Source)) == SourceAfter(lib, t, None, Get(Inlined(grp, r), Source))
    {
      if Get(r, Source).None? && Get(g, Source).Some? {
        SourceTwiceRead(lib, t, Get(g, Source).value);
      }
    }
    NodeDepends(lib, numfailures, WrittenIn(g, r), Inlined(grp, r));
  }

  lemma WrittenAgrees(lib: Lib, g: Resolved, r: Resolved, k: AttrKey)
    requires k != Source
    ensures Get(WrittenIn(g, r), k) == Get(Inlined(GroupSettings(lib, g), r), k)
  {
    hide WrittenIn, Inlined, Inherited, GroupSettings, Get, Passed, KeyText, GroupOk;
    var grp := GroupSettings(lib, g);
    WrittenGet(g, r, k);
    PassedIs(k, r);
    RecordedGet(lib, g, k);
    SettingsOk(lib, g);
    if k == SendPings || k == MinPings {
      PingsInlined(grp, r, k);
    } else if IsGroupKey(k) {
      SettingInlined(grp, r, k);
    } else {
      IdentityKept(lib, grp, r, k);
    }
  }

  // ----- statement by statement --------------------------------------------------------------

  /** The variables set by the first `j` statements. */
  function VarsAt(stmts: seq<Stmt>, j: nat): map<string, string>
    requires j <= |stmts|
  {
    if j == 0 then map[]
    else if stmts[j - 1].SetStmt? then AddVar(VarsAt(stmts, j - 1), stmts[j - 1].args)
    else VarsAt(stmts, j - 1)
  }

  /** Statement `i` sets variable `v` to what `raw` expands to there. */
  predicate Sets(stmts: seq<Stmt>, i: nat, v: string, raw: string)
    requires i < |stmts|
  {
    stmts[i].SetStmt? && var args := stmts[i].args; |args| >= 3 && args[0] == Word(v) && args[1] == Equals && (args[2] == Word(raw) || args[2] == Str(raw))
  }

  ghost predicate SetsIt(stmts: seq<Stmt>, i: nat, v: string)
    requires i < |stmts|
  {
    exists raw :: Sets(stmts, i, v, raw)
  }

  /** A variable has the value of the last statement that sets it. */
  lemma {:induction false} LastSetWins(stmts: seq<Stmt>, j: nat, v: string)
    requires j <= |stmts|
    ensures v in VarsAt(stmts, j) <==> exists i :: 0 <= i < j && SetsIt(stmts, i, v)
    ensures forall i, raw :: 0 <= i < j && Sets(stmts, i, v, raw) && (forall m :: i < m < j ==> !SetsIt(stmts, m, v)) ==>
              v in VarsAt(stmts, j) && VarsAt(stmts, j)[v] == Subst(VarsAt(stmts, i), raw)
  {
    hide Subst;
    if j > 0 {
      LastSetWins(stmts, j - 1, v);
      SetsLast(stmts, j - 1, v);
    }
  }

  lemma SetsLast(stmts: seq<Stmt>, i: nat, v: string)
    requires i < |stmts|
    ensures SetsIt(stmts, i, v) ==> v in VarsAt(stmts, i + 1)
    ensures forall raw :: Sets(stmts, i, v, raw) ==> v in VarsAt(stmts, i + 1) && VarsAt(stmts, i + 1)[v] == Subst(VarsAt(stmts, i), raw)
    ensures !SetsIt(stmts, i, v) ==> (v in VarsAt(stmts, i + 1) <==> v in VarsAt(stmts, i))
    ensures !SetsIt(stmts, i, v) && v in VarsAt(stmts, i) ==> VarsAt(stmts, i + 1)[v] == VarsAt(stmts, i)[v]
  {
    hide Subst;
    if stmts[i].SetStmt? && |stmts[i].args| >= 3 && (stmts[i].args[2].Word? || stmts[i].args[2].Str?) {
      assert Sets(stmts, i, v, stmts[i].args[2].value) || stmts[i].args[0] != Word(v) || stmts[i].args[1] != Equals;
    }
  }

  function AttrsAt(stmts: seq<Stmt>, j: nat, b: Block): Resolved
    requires j <= |stmts|
  {
    Resolve(VarsAt(stmts, j), b.attrs)
  }

  /** Statement `m` is a block of group `who`. */
  predicate IsGroup(stmts: seq<Stmt>, m: nat, who: string)
    requires m < |stmts|
  {
    who != "" && stmts[m].GroupStmt? && Strip(Subst(VarsAt(stmts, m), stmts[m].name)) == who
  }

  ghost predicate FirstGroup(stmts: seq<Stmt>, m: nat, who: string)
    requires m < |stmts|
  {
    IsGroup(stmts, m, who) && forall i :: 0 <= i < m ==> !IsGroup(stmts, i, who)
  }

  /** Statement `j` declares object `name` and has what its check type needs. */
  predicate Declares(lib: Lib, numfailures: int, stmts: seq<Stmt>, j: nat, name: string)
    requires j < |stmts|
  {
    stmts[j].ObjectStmt? && stmts[j].name == name && BuildNode(lib, numfailures, AttrsAt(stmts, j, stmts[j].block)).Some?
  }

  /** It is the first that does. */
  ghost predicate Yields(lib: Lib, numfailures: int, stmts: seq<Stmt>, j: nat)
    requires j < |stmts|
  {
    && stmts[j].ObjectStmt? && Declares(lib, numfailures, stmts, j, stmts[j].name)
    && forall i :: 0 <= i < j ==> !Declares(lib, numfailures, stmts, i, stmts[j].name)
  }

  function At(lib: Lib, numfailures: int, stmts: seq<Stmt>, j: nat): Env
    requires j <= |stmts|
  {
    Run(lib, numfailures, EmptyEnv, stmts[..j])
  }

  lemma {:induction false} RunSplit(lib: Lib, numfailures: int, e: Env, a: seq<Stmt>, b: seq<Stmt>)
    ensures Run(lib, numfailures, e, a + b) == Run(lib, numfailures, Run(lib, numfailures, e, a), b)
    decreases a
  {
    hide Step;
    if a == [] {
      assert a + b == b;
    } else {
      assert (a + b)[1..] == a[1..] + b;
      RunSplit(lib, numfailures, Step(lib, numfailures, e, a[0]), a[1..], b);
    }
  }

  lemma NextStatement(lib: Lib, numfailures: int, stmts: seq<Stmt>, j: nat)
    requires j < |stmts|
    ensures At(lib, numfailures, stmts, j + 1) == Step(lib, numfailures, At(lib, numfailures, stmts, j), stmts[j])
  {
    hide Step;
    assert stmts[..j + 1] == stmts[..j] + [stmts[j]];
    RunSplit(lib, numfailures, EmptyEnv, stmts[..j], [stmts[j]]);
    assert [stmts[j]][1..] == [];
  }

  lemma {:induction false} VarsFollow(lib: Lib, numfailures: int, stmts: seq<Stmt>, j: nat)
    requires j <= |stmts|
    ensures At(lib, numfailures, stmts, j).vars == VarsAt(stmts, j)
  {
    hide AddVar, AddObject, AddGroup, Run;
    if j > 0 {
      VarsFollow(lib, numfailures, stmts, j - 1);
      NextStatement(lib, numfailures, stmts, j - 1);
    } else {
      NothingRun(lib, numfailures, stmts);
    }
  }

  lemma NothingRun(lib: Lib, numfailures: int, stmts: seq<Stmt>)
    ensures At(lib, numfailures, stmts, 0) == EmptyEnv
  {
  }

  /** The groups recorded by the first `j` statements: of every name its first block. */
  lemma {:induction false} GroupsFollow(lib: Lib, numfailures: int, stmts: seq<Stmt>, j: nat, who: string)
    requires j <= |stmts|
    ensures var groups := At(lib, numfailures, stmts, j).groups;
            && (who in groups ==> exists m :: 0 <= m < j && FirstGroup(stmts, m, who) && groups[who] == GroupSettings(lib, AttrsAt(stmts, m, stmts[m].block)))
            && (who !in groups ==> forall m :: 0 <= m < j ==> !IsGroup(stmts, m, who))
  {
    hide Step, Run, GroupSettings, VarsAt, Strip, Subst, Resolve;
    if j == 0 {
      NothingRun(lib, numfailures, stmts);
    } else {
      GroupsFollow(lib, numfailures, stmts, j - 1, who);
      NextStatement(lib, numfailures, stmts, j - 1);
      VarsFollow(lib, numfailures, stmts, j - 1);
      GroupStep(lib, numfailures, At(lib, numfailures, stmts, j - 1), stmts[j - 1], who);
    }
  }

  lemma GroupStep(lib: Lib, numfailures: int, e: Env, s: Stmt, who: string)
    ensures var after := Step(lib, numfailures, e, s).groups;
            && (who in e.groups ==> who in after && after[who] == e.groups[who])
            && (who !in e.groups ==> (who in after <==> who != "" && s.GroupStmt? && Strip(Subst(e.vars, s.name)) == who))
            && (who !in e.groups && who in after ==> after[who] == GroupSettings(lib, Resolve(e.vars, s.block.attrs)))
  {
    hide GroupSettings, AddObject, AddVar, Strip, Subst, Resolve;
  }

  // ----- the objects of a file ---------------------------------------------------------------

  /** What statement `j` alone says of its object. */
  function OwnObject(lib: Lib, numfailures: int, stmts: seq<Stmt>, j: nat): Object
    requires j < |stmts| && stmts[j].ObjectStmt? && Declares(lib, numfailures, stmts, j, stmts[j].name)
  {
    var b := stmts[j].block;
    Object(stmts[j].name, BuildNode(lib, numfailures, AttrsAt(stmts, j, b)).value, DepNames(VarsAt(stmts, j), b.deps), b.attrs.Keys)
  }

  /** `js` lists, in order, the statements among the first `j` that yield an object. */
  ghost predicate Listed(lib: Lib, numfailures: int, stmts: seq<Stmt>, j: nat, js: seq<nat>) {
    && j <= |stmts|
    && (forall i :: 0 <= i < |js| ==> js[i] < j && Yields(lib, numfailures, stmts, js[i]))
    && (forall i, k :: 0 <= i < k < |js| ==> js[i] < js[k])
    && (forall m :: 0 <= m < j && Yields(lib, numfailures, stmts, m) ==> m in js)
  }

  lemma {:induction false} FirstOfName(lib: Lib, numfailures: int, stmts: seq<Stmt>, j: nat, name: string) returns (i: nat)
    requires j < |stmts| && Declares(lib, numfailures, stmts, j, name)
    ensures i <= j && Declares(lib, numfailures, stmts, i, name) && Yields(lib, numfailures, stmts, i) && stmts[i].name == name
  {
    hide BuildNode, Resolve, VarsAt;
    if k :| 0 <= k < j && Declares(lib, numfailures, stmts, k, name) {
      i := FirstOfName(lib, numfailures, stmts, k, name);
    } else {
      i := j;
    }
  }

  ghost predicate OwnListed(lib: Lib, numfailures: int, stmts: seq<Stmt>, j: nat, js: seq<nat>, objects: seq<Object>) {
    && Listed(lib, numfailures, stmts, j, js) && |objects| == |js|
    && forall i :: 0 <= i < |js| ==> objects[i] == OwnObject(lib, numfailures, stmts, js[i])
  }

  lemma {:induction false} ObjectsFollow(lib: Lib, numfailures: int, stmts: seq<Stmt>, j: nat) returns (js: seq<nat>)
    requires j <= |stmts|
    ensures OwnListed(lib, numfailures, stmts, j, js, At(lib, numfailures, stmts, j).objects)
  {
    hide Run, Step, OwnListed;
    if j == 0 {
      NothingRun(lib, numfailures, stmts);
      js := [];
      NoneListed(lib, numfailures, stmts);
    } else {
      var before := At(lib, numfailures, stmts, j - 1);
      js := ObjectsFollow(lib, numfailures, stmts, j - 1);
      NextStatement(lib, numfailures, stmts, j - 1);
      VarsFollow(lib, numfailures, stmts, j - 1);
      js := OneMore(lib, numfailures, stmts, j - 1, js, before);
    }
  }

  lemma NoneListed(lib: Lib, numfailures: int, stmts: seq<Stmt>)
    ensures OwnListed(lib, numfailures, stmts, 0, [], [])
  {
  }

  /** What a statement adds to the objects. */
  lemma StepAdds(lib: Lib, numfailures: int, stmts: seq<Stmt>, j: nat, js: seq<nat>, e: Env)
    requires j < |stmts| && OwnListed(lib, numfailures, stmts, j, js, e.objects) && e.vars == VarsAt(stmts, j)
    ensures Step(lib, numfailures, e, stmts[j]).objects
         == if Yields(lib, numfailures, stmts, j) then e.objects + [OwnObject(lib, numfailures, stmts, j)] else e.objects
  {
    NamesListed(lib, numfailures, stmts, j, js, e.objects);
    hide BuildNode, Resolve, VarsAt, DepNames, AddVar, AddGroup, OwnListed, HasObject;
  }

  lemma ListGrows(lib: Lib, numfailures: int, stmts: seq<Stmt>, j: nat, js: seq<nat>)
    requires j < |stmts| && Listed(lib, numfailures, stmts, j, js)
    ensures Listed(lib, numfailures, stmts, j + 1, if Yields(lib, numfailures, stmts, j) then js + [j] else js)
  {
    hide Yields;
    if Yields(lib, numfailures, stmts, j) {
      assert (js + [j])[|js|] == j;
      forall m | m in js
        ensures m in js + [j]
      {
      }
    }
  }

  lemma OneMore(lib: Lib, numfailures: int, stmts: seq<Stmt>, j: nat, js: seq<nat>, e: Env) returns (more: seq<nat>)
    requires j < |stmts| && OwnListed(lib, numfailures, stmts, j, js, e.objects) && e.vars == VarsAt(stmts, j)
    ensures OwnListed(lib, numfailures, stmts, j + 1, more, Step(lib, numfailures, e, stmts[j]).objects)
  {
    more := if Yields(lib, numfailures, stmts, j) then js + [j] else js;
    StepAdds(lib, numfailures, stmts, j, js, e);
    ListGrows(lib, numfailures, stmts, j, js);
    hide Step, VarsAt, OwnObject, Declares;
  }

  /** A name is taken iff a statement before declares it. */
  lemma NamesListed(lib: Lib, numfailures: int, stmts: seq<Stmt>, j: nat, js: seq<nat>, objects: seq<Object>)
    requires j < |stmts| && OwnListed(lib, numfailures, stmts, j, js, objects)
    ensures stmts[j].ObjectStmt? ==>
              (HasObject(objects, stmts[j].name) <==> exists i :: 0 <= i < j && Declares(lib, numfailures, stmts, i, stmts[j].name))
  {
    hide BuildNode, Resolve, VarsAt, DepNames;
    if stmts[j].ObjectStmt? {
      var name := stmts[j].name;
      if HasObject(objects, name) {
        var i :| 0 <= i < |objects| && objects[i].name == name;
        assert Declares(lib, numfailures, stmts, js[i], name);
      }
      if k :| 0 <= k < j && Declares(lib, numfailures, stmts, k, name) {
        var i := FirstOfName(lib, numfailures, stmts, k, name);
        assert i in js;
        var at :| 0 <= at < |js| && js[at] == i;
        assert objects[at].name == name;
      }
    }
  }

  /** The object that statement `j` gives, its group's block written in. */
  ghost predicate FinalObject(lib: Lib, numfailures: int, stmts: seq<Stmt>, j: nat, o: Object)
    requires j < |stmts| && stmts[j].ObjectStmt? && Declares(lib, numfailures, stmts, j, stmts[j].name)
  {
    var own, r := OwnObject(lib, numfailures, stmts, j), AttrsAt(stmts, j, stmts[j].block);
    && o.name == own.name && o.deps == own.deps
    && (forall m :: 0 <= m < |stmts| && FirstGroup(stmts, m, own.node.group) ==>
          BuildNode(lib, numfailures, WrittenIn(AttrsAt(stmts, m, stmts[m].block), r)) == Some(o.node))
    && ((forall m :: 0 <= m < |stmts| ==> !IsGroup(stmts, m, own.node.group)) ==> o.node == own.node)
  }

  lemma GroupedIsFinal(lib: Lib, numfailures: int, stmts: seq<Stmt>, j: nat, groups: map<string, Resolved>)
    requires j < |stmts| && Yields(lib, numfailures, stmts, j) && groups == At(lib, numfailures, stmts, |stmts|).groups
    ensures FinalObject(lib, numfailures, stmts, j, Grouped(lib, groups, OwnObject(lib, numfailures, stmts, j)))
  {
    hide BuildNode, VarsAt, DepNames, Run, GroupSettings, ApplyGroup, WrittenIn, Inlined, Strip, Subst, GroupOk;
    var own, r := OwnObject(lib, numfailures, stmts, j), AttrsAt(stmts, j, stmts[j].block);
    var who := own.node.group;
    GroupsFollow(lib, numfailures, stmts, |stmts|, who);
    if who in groups {
      var m :| 0 <= m < |stmts| && FirstGroup(stmts, m, who) && groups[who] == GroupSettings(lib, AttrsAt(stmts, m, stmts[m].block));
      var g := AttrsAt(stmts, m, stmts[m].block);
      SettingsOk(lib, g);
      assert r.Keys == stmts[j].block.attrs.Keys;
      InheritanceIsInlining(lib, numfailures, groups[who], r, own.name, own.deps);
      WritingIsInlining(lib, numfailures, g, r);
      assert IsGroup(stmts, m, who);
      forall k | 0 <= k < |stmts| && FirstGroup(stmts, k, who)
        ensures k == m
      {
      }
    }
  }

  /** The objects of a file are, in order, those of the statements that first declare their name and have what their type
      needs. Each has the node of its own block with the attributes of the first block of its group written in, as far as
      it did not write them itself; without such a block, the node of its own block. */
  lemma FileDefines(lib: Lib, numfailures: int, stmts: seq<Stmt>) returns (js: seq<nat>)
    ensures Listed(lib, numfailures, stmts, |stmts|, js) && |js| == |Objects(lib, numfailures, stmts)|
    ensures forall i :: 0 <= i < |js| ==> FinalObject(lib, numfailures, stmts, js[i], Objects(lib, numfailures, stmts)[i])
  {
    hide Run, FinalObject, OwnObject, Grouped, Declares;
    js := ObjectsFollow(lib, numfailures, stmts, |stmts|);
    assert stmts[..|stmts|] == stmts;
    var e := At(lib, numfailures, stmts, |stmts|);
    forall i | 0 <= i < |js|
      ensures FinalObject(lib, numfailures, stmts, js[i], Objects(lib, numfailures, stmts)[i])
    {
      GroupedIsFinal(lib, numfailures, stmts, js[i], e.groups);
    }
  }
}
