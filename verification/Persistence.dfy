/** A reload and a restart from saved state carry over the same things. */
module Persistence {
  import opened Model
  import opened StateMachine
  import opened Gates
  import opened Records
  import opened Scheduling
  import opened SchedulerInvariant
  import opened Suppression

  // ----- notes stay within the limit that validation allows ----------------------------------

  ghost predicate NotesFit(s: State) {
    forall x :: 0 <= x < |s.scheds| ==> NoteFits(s.scheds[x].state)
  }

  lemma ValidatedNoteFits(r: Record)
    requires ValidatedCarry(r).Some?
    ensures var note := ValidatedCarry(r).value.note; note.Some? ==> |note.value| <= MAX_NOTE
  {
  }

  lemma {:induction false} ImportKeepsNotes(s: State, records: seq<Record>)
    requires NotesFit(s)
    ensures NotesFit(Import(s, records))
  {
    hide Keyed, ValidatedCarry;
    if records != [] {
      ImportKeepsNotes(s, records[..|records| - 1]);
      if ValidatedCarry(records[|records| - 1]).Some? {
        ValidatedNoteFits(records[|records| - 1]);
      }
    }
  }

  lemma ApplyKeepsNote(cfg: Config, node: Node, st: HostState, code: int, wall: real, mono: real)
    ensures var out := Apply(st.(suppressed := false), code, wall, cfg.pageOnDegraded);
            HandlePaging(cfg, node, out.state, out.intent, mono).state.note == st.note
  {
    hide PagesDown, PagesUp, ContactOn;
  }

  lemma CompleteKeepsNotes(s: State, tid: nat, code: int, wall: real)
    requires NotesFit(s) && TaskAt(s, tid)
    ensures NotesFit(Complete(s, tid, code, wall))
  {
    hide HasLivePath, Apply, HandlePaging, Finish;
    var id := s.tasks[tid].id;
    var sched := s.scheds[id];
    var out := Apply(sched.state.(suppressed := false), code, wall, s.cfg.pageOnDegraded);
    var paging := HandlePaging(s.cfg, sched.node, out.state, out.intent, s.now);
    ApplyKeepsNote(s.cfg, sched.node, sched.state, code, wall, s.now);
    FinishEffect(s, tid);
    FinishEffect(SetSched(s, id, sched.(state := sched.state.(suppressed := true))), tid);
    FinishEffect(SetSched(s, id, sched.(state := paging.state, checked := true)), tid);
  }

  lemma SendBackKeepsNotes(s: State, tid: nat, ok: bool)
    requires NotesFit(s) && TaskAt(s, tid) && s.tasks[tid].phase.Sending?
    ensures NotesFit(SendBack(s, tid, ok))
  {
    hide Finish;
    var id, st := s.tasks[tid].id, s.scheds[s.tasks[tid].id].state;
    FinishEffect(SetSched(s, id, s.scheds[id].(state := Answered(st, s.tasks[tid].phase.kind, ok, s.now))), tid);
  }

  lemma ReloadKeepsNotes(s: State, p: Plan, wall: real)
    requires NotesFit(s) && PlanFormed(p)
    ensures NotesFit(Reloaded(s, p, wall))
  {
    var s', base := Reloaded(s, p, wall), |s.scheds|;
    forall x | 0 <= x < |s'.scheds|
      ensures NoteFits(s'.scheds[x].state)
    {
      ReloadedAt(s, p, wall, x);
    }
  }

  lemma NextKeepsNotes(s: State, mono: real, ev: Event, s': State)
    requires Inv(s) && NotesFit(s) && Next(s, mono, ev, s')
    ensures NotesFit(s')
  {
    hide Inv, HasLivePath, Complete, SendBack, Finish, Reloaded, Import, SweptHeap, SweptTasks;
    var t := s.(now := mono);
    match ev
    case CheckDone(tid, code, wall) => CompleteKeepsNotes(t, tid, code, wall);
    case SendDone(tid, ok) => SendBackKeepsNotes(t, tid, ok);
    case Raised(tid) => FinishEffect(t, tid);
    case Reload(plan, wall) => ReloadKeepsNotes(t, plan, wall);
    case ImportState(records) => ImportKeepsNotes(t, records);
    case _ =>
  }

  lemma InitNotesFit(cfg: Config, p: Plan, mono: real, wall: real, stagger: bool)
    requires PlanFormed(p)
    ensures NotesFit(Init(cfg, p, mono, wall, stagger))
  {
  }

  /** In every reachable state each note fits, so every exported record passes validation unchanged. */
  lemma {:induction false} RunKeepsNotes(cfg: Config, p: Plan, mono: real, wall: real, stagger: bool, states: seq<State>, evs: seq<Timed>, i: nat)
    requires PlanFormed(p) && IsRun(states, evs) && states[0] == Init(cfg, p, mono, wall, stagger) && i < |states|
    ensures Inv(states[i]) && NotesFit(states[i])
  {
    hide Inv, NotesFit, Next, Init;
    if i == 0 {
      InitInv(cfg, p, mono, wall, stagger);
      InitNotesFit(cfg, p, mono, wall, stagger);
    } else {
      RunKeepsNotes(cfg, p, mono, wall, stagger, states, evs, i - 1);
      NextKeepsInv(states[i - 1], evs[i - 1].mono, evs[i - 1].ev, states[i]);
      NextKeepsNotes(states[i - 1], evs[i - 1].mono, evs[i - 1].ev, states[i]);
    }
  }

  /** Every record exported in any run passes validation with all its fields, and is keyed by its own node only. */
  lemma ExportsValidate(cfg: Config, p: Plan, mono: real, wall: real, stagger: bool, states: seq<State>, evs: seq<Timed>, i: nat, j: nat)
    requires PlanFormed(p) && IsRun(states, evs) && states[0] == Init(cfg, p, mono, wall, stagger)
    requires i < |states| && j < |states[i].current|
    ensures Identified(states[i]) && |Export(states[i])| == |states[i].current|
    ensures var sched := states[i].scheds[states[i].current[j]];
            && ValidatedCarry(Export(states[i])[j]) == Some(CarriedOf(sched.state))
            && (forall key :: Keyed(Export(states[i])[j], key) <==> key == KeyOf(sched.node))
  {
    hide Next, Init, Export, Keyed, ValidatedCarry, NotesFit, QueueOk, TasksOk, GatesOk;
    RunKeepsNotes(cfg, p, mono, wall, stagger, states, evs, i);
    ExportLength(states[i]);
    ExportAt(states[i], j);
  }

  // ----- restart -----------------------------------------------------------------------------

  /** Both schedules hold the same nodes. */
  ghost predicate SameNodes(a: seq<Sched>, b: seq<Sched>) {
    |a| == |b| && forall x :: 0 <= x < |a| ==> a[x].node == b[x].node
  }

  lemma {:induction false} LastWithSameNodes(a: seq<Sched>, b: seq<Sched>, ids: seq<nat>, key: Key)
    requires SameNodes(a, b)
    ensures LastWith(a, ids, key) == LastWith(b, ids, key)
  {
    if ids != [] {
      LastWithSameNodes(a, b, ids[..|ids| - 1], key);
    }
  }

  /** A record that carries exactly one key finds the node that key finds. */
  lemma {:induction false} LastKeyedIsLastWith(scheds: seq<Sched>, ids: seq<nat>, r: Record, key: Key)
    requires forall k :: Keyed(r, k) <==> k == key
    ensures LastKeyed(scheds, ids, r) == LastWith(scheds, ids, key)
  {
    hide Keyed;
    if ids != [] {
      LastKeyedIsLastWith(scheds, ids[..|ids| - 1], r, key);
    }
  }

  ghost function Restored(st: HostState, c: Carried, now: real): HostState {
    Restore(st, c).(lastcontacted := now)
  }

  /** What importing the first `i` exported records of `s` makes of the node at position `k` of `b`. */
  ghost function AfterImport(s: State, b: State, i: nat, k: nat): HostState
    requires Identified(s) && i <= |s.current| && k < |b.scheds|
  {
    var key := KeyOf(b.scheds[k].node);
    var from := LastWith(s.scheds, s.current[..i], key);
    if LastWith(b.scheds, b.current, key) == Some(k) && from.Some? then
      Restored(b.scheds[k].state, CarriedOf(s.scheds[from.value].state), b.now)
    else b.scheds[k].state
  }

  lemma ExportAt(s: State, i: nat)
    requires Identified(s) && NotesFit(s) && i < |s.current|
    ensures var sched := s.scheds[s.current[i]];
            && ValidatedCarry(Export(s)[i]) == Some(CarriedOf(sched.state))
            && (forall key :: Keyed(Export(s)[i], key) <==> key == KeyOf(sched.node))
  {
    hide Keyed, ValidatedCarry, ExportRecord;
    assert NoteFits(s.scheds[s.current[i]].state);
    ExportValidates(s.scheds[s.current[i]].node, s.scheds[s.current[i]].state);
  }

  lemma OneMoreRecord(s: State, b: State, i: nat, c: State)
    requires Identified(s) && NotesFit(s) && i < |s.current|
    requires c == b.(scheds := c.scheds) && SameNodes(b.scheds, c.scheds)
    requires forall k :: 0 <= k < |b.scheds| ==> c.scheds[k] == b.scheds[k].(state := AfterImport(s, b, i, k))
    ensures var d := ImportOne(c, Export(s)[i]);
            && d == b.(scheds := d.scheds) && SameNodes(b.scheds, d.scheds)
            && forall k :: 0 <= k < |b.scheds| ==> d.scheds[k] == b.scheds[k].(state := AfterImport(s, b, i + 1, k))
  {
    hide Keyed, ValidatedCarry, Export, LastWith, LastKeyed;
    ExportLength(s);
    var r, sched := Export(s)[i], s.scheds[s.current[i]];
    var key := KeyOf(sched.node);
    ExportAt(s, i);
    LastKeyedIsLastWith(c.scheds, c.current, r, key);
    LastWithSameNodes(b.scheds, c.scheds, b.current, key);
    forall k | 0 <= k < |b.scheds|
      ensures ImportOne(c, r).scheds[k] == b.scheds[k].(state := AfterImport(s, b, i + 1, k))
    {
      LastWithExtends(s, i, KeyOf(b.scheds[k].node));
    }
  }

  lemma LastWithExtends(s: State, i: nat, key: Key)
    requires Identified(s) && i < |s.current|
    ensures LastWith(s.scheds, s.current[..i + 1], key) ==
            if KeyOf(s.scheds[s.current[i]].node) == key then Some(s.current[i]) else LastWith(s.scheds, s.current[..i], key)
  {
    hide KeyOf;
    var ids := s.current[..i + 1];
    assert ids[..i] == s.current[..i] && ids[|ids| - 1] == s.current[i];
  }

  lemma {:induction false} ImportOfExport(s: State, b: State, i: nat)
    requires Identified(s) && NotesFit(s) && i <= |s.current|
    ensures var c := Import(b, Export(s)[..i]);
            && c == b.(scheds := c.scheds) && SameNodes(b.scheds, c.scheds)
            && forall k :: 0 <= k < |b.scheds| ==> c.scheds[k] == b.scheds[k].(state := AfterImport(s, b, i, k))
  {
    hide ImportOne, Export, Keyed, ValidatedCarry;
    ExportLength(s);
    if i > 0 {
      ImportOfExport(s, b, i - 1);
      var records := Export(s);
      assert records[..i][..i - 1] == records[..i - 1];
      OneMoreRecord(s, b, i - 1, Import(b, records[..i - 1]));
    }
  }

  /** The node at position `k` after a reload of `s` and after "build afresh, then import the export" agree on all
      carried fields exactly when it is the last node with its key, or nothing was known under that key, or what was
      known equals a fresh state. Its threshold comes from the new configuration either way; only the re-page clock
      is rebased. */
  ghost predicate RestartAgrees(s: State, p: Plan, wall: real, stagger: bool, k: nat)
    requires Identified(s) && PlanFormed(p) && k < |p.nodes|
  {
    var reloaded := Reloaded(s, p, wall);
    var fresh_ := Init(s.cfg, p, s.now, wall, stagger);
    var restarted := Import(fresh_, Export(s));
    var key := KeyOf(p.nodes[k]);
    var prior := LastWith(s.scheds, s.current, key);
    && |s.scheds| + k < |reloaded.scheds| && k < |restarted.scheds|
    && var a, b := reloaded.scheds[|s.scheds| + k], restarted.scheds[k];
       && a.node == b.node == p.nodes[k]
       && a.state.maxDown == b.state.maxDown == p.nodes[k].maxDown
       && (CarriedOf(a.state) == CarriedOf(b.state) <==>
             || LastWith(fresh_.scheds, fresh_.current, key) == Some(k)
             || prior.None?
             || CarriedOf(s.scheds[prior.value].state) == CarriedOf(Fresh(p.nodes[k].maxDown, wall)))
       && !b.checked && (prior.Some? ==> a.checked == s.scheds[prior.value].checked)
       && (prior.Some? ==> a.state.lastcontacted == s.scheds[prior.value].state.lastcontacted)
       && (prior.Some? && LastWith(fresh_.scheds, fresh_.current, key) == Some(k) ==> b.state.lastcontacted == s.now)
  }

  lemma ReloadAgrees(s: State, p: Plan, wall: real, stagger: bool, k: nat)
    requires Inv(s) && NotesFit(s) && PlanFormed(p) && k < |p.nodes|
    ensures RestartAgrees(s, p, wall, stagger, k)
  {
    hide QueueOk, TasksOk, GatesOk, Export, Import, LastWith, Reloaded;
    var fresh_ := Init(s.cfg, p, s.now, wall, stagger);
    ReloadedAt(s, p, wall, |s.scheds| + k);
    ImportOfExport(s, fresh_, |s.current|);
    assert Export(s)[..|s.current|] == Export(s) && s.current[..|s.current|] == s.current by {
      ExportLength(s);
    }
  }

  /** In every state of every run, for any new configuration, keys unique or not. */
  lemma ReloadAgreesWithRestart(cfg: Config, p0: Plan, mono: real, wall0: real, stagger0: bool, states: seq<State>, evs: seq<Timed>, i: nat,
                                p: Plan, wall: real, stagger: bool, k: nat)
    requires PlanFormed(p0) && IsRun(states, evs) && states[0] == Init(cfg, p0, mono, wall0, stagger0) && i < |states|
    requires PlanFormed(p) && k < |p.nodes|
    ensures Identified(states[i]) && RestartAgrees(states[i], p, wall, stagger, k)
  {
    hide Next, Init, NotesFit, QueueOk, TasksOk, GatesOk, RestartAgrees;
    RunKeepsNotes(cfg, p0, mono, wall0, stagger0, states, evs, i);
    ReloadAgrees(states[i], p, wall, stagger, k);
  }

  lemma ExportLength(s: State)
    requires Identified(s)
    ensures |Export(s)| == |s.current|
  {
  }

  /** With unique keys, then, reload and restart always agree. */
  lemma {:induction false} UniqueKeyIsLast(scheds: seq<Sched>, ids: seq<nat>, k: nat)
    requires k in ids && k < |scheds|
    requires forall x :: x in ids && x < |scheds| && KeyOf(scheds[x].node) == KeyOf(scheds[k].node) ==> x == k
    ensures LastWith(scheds, ids, KeyOf(scheds[k].node)) == Some(k)
  {
    var x := ids[|ids| - 1];
    if x != k {
      assert ids == ids[..|ids| - 1] + [x];
      UniqueKeyIsLast(scheds, ids[..|ids| - 1], k);
    }
  }

  /** Whatever comes back to a retired node after a reload leaves the new set, and its queue, untouched. */
  lemma StaleTasksTouchNothing(s: State, mono: real, ev: Event, s': State, y: nat)
    requires Inv(s) && Next(s, mono, ev, s')
    requires ev.CheckDone? || ev.SendDone? || ev.Raised?
    requires !s.scheds[s.tasks[ev.tid].id].alive && y in s.current
    ensures s'.current == s.current && s'.heap == s.heap && y < |s.scheds| == |s'.scheds| && s'.scheds[y] == s.scheds[y]
  {
    hide QueueOk, TasksOk, GatesOk, HasLivePath;
    assert y < |s.scheds| && s.scheds[y].alive;
  }

  // ----- field by field ----------------------------------------------------------------------

  /** `x` is the last current node with this key. */
  ghost predicate LastOfKey(s: State, x: nat, key: Key) {
    && x in s.current && x < |s.scheds| && KeyOf(s.scheds[x].node) == key
    && exists i :: 0 <= i < |s.current| && s.current[i] == x
                   && forall j :: i < j < |s.current| ==> s.current[j] < |s.scheds| && KeyOf(s.scheds[s.current[j]].node) != key
  }

  lemma {:induction false} LastIsFound(scheds: seq<Sched>, ids: seq<nat>, i: nat)
    requires i < |ids| && ids[i] < |scheds|
    requires forall j :: i < j < |ids| ==> ids[j] < |scheds| && KeyOf(scheds[ids[j]].node) != KeyOf(scheds[ids[i]].node)
    ensures LastWith(scheds, ids, KeyOf(scheds[ids[i]].node)) == Some(ids[i])
  {
    if i < |ids| - 1 {
      LastIsFound(scheds, ids[..|ids| - 1], i);
    }
  }

  /** `b` has everything that a host keeps across a reload from `a`. */
  predicate KeepsState(a: Sched, b: Sched) {
    && b.checked == a.checked && b.state.lastcheck == a.state.lastcheck && b.state.downct == a.state.downct
    && b.state.contacted == a.state.contacted && b.state.lastcontacted == a.state.lastcontacted
    && b.state.deathtime == a.state.deathtime && b.state.lastUp == a.state.lastUp
    && b.state.acked == a.state.acked && b.state.note == a.state.note
  }

  lemma CarriedKeeps(prior: Sched, made: Sched)
    ensures var b := CarryOver(prior, made);
            && KeepsState(prior, b) && b.node == made.node && b.alive == made.alive && b.inFlight == made.inFlight
            && b.state.maxDown == made.state.maxDown && b.state.suppressed == made.state.suppressed
  {
  }

  lemma FreshIs(cfg: Config, p: Plan, base: nat, k: nat, mono: real, wall: real)
    requires k < |p.nodes| == |p.gates|
    ensures var made := FreshSched(cfg, p, base, k, mono, wall, true);
            && made.node == p.nodes[k] && made.alive && !made.inFlight && made.state == Fresh(p.nodes[k].maxDown, wall) && !made.checked
  {
  }

  lemma FoundByKey(s: State, x: nat, key: Key)
    requires LastOfKey(s, x, key)
    ensures LastWith(s.scheds, s.current, key) == Some(x)
  {
    hide LastWith;
    var i :| 0 <= i < |s.current| && s.current[i] == x && forall j :: i < j < |s.current| ==> s.current[j] < |s.scheds| && KeyOf(s.scheds[s.current[j]].node) != key;
    LastIsFound(s.scheds, s.current, i);
  }

  /** A host that is still configured after a reload keeps its last result, its failure count, its times, whether its contact
      knows and when it was last told, its acknowledgement and its note; only its threshold is the new one. */
  lemma HeirKeepsState(s: State, mono: real, ev: Event, s': State, k: nat, x: nat)
    requires Next(s, mono, ev, s') && ev.Reload? && k < |ev.plan.nodes| && LastOfKey(s, x, KeyOf(ev.plan.nodes[k]))
    ensures |s'.scheds| == |s.scheds| + |ev.plan.nodes|
    ensures var heir := s'.scheds[|s.scheds| + k];
            && KeepsState(s.scheds[x], heir) && heir.node == ev.plan.nodes[k] && heir.alive && !heir.inFlight
            && heir.state.maxDown == ev.plan.nodes[k].maxDown && !heir.state.suppressed
  {
    hide Reloaded, LastWith, LastOfKey, CarryOver, FreshSched, KeepsState;
    var t := s.(now := mono);
    FoundByKey(s, x, KeyOf(ev.plan.nodes[k]));
    ReloadedAt(t, ev.plan, ev.wall, |s.scheds| + k);
    FreshIs(s.cfg, ev.plan, |s.scheds|, k, mono, ev.wall);
    CarriedKeeps(s.scheds[x], FreshSched(s.cfg, ev.plan, |s.scheds|, k, mono, ev.wall, true));
  }

  /** A host that was not configured before starts up, unknown to its contact, and unchecked. */
  lemma NewHostStartsFresh(s: State, mono: real, ev: Event, s': State, k: nat)
    requires Next(s, mono, ev, s') && ev.Reload? && k < |ev.plan.nodes|
    requires forall x :: x in s.current && x < |s.scheds| ==> KeyOf(s.scheds[x].node) != KeyOf(ev.plan.nodes[k])
    ensures |s'.scheds| == |s.scheds| + |ev.plan.nodes|
    ensures var host := s'.scheds[|s.scheds| + k];
            && host.node == ev.plan.nodes[k] && !host.checked && host.state.lastcheck == 0 && host.state.downct == 0
            && !host.state.contacted && !host.state.acked && host.state.note == None && host.state.lastUp == ev.wall
            && host.state.maxDown == ev.plan.nodes[k].maxDown && !host.state.suppressed
  {
    hide Reloaded, LastWith, FreshSched;
    FreshIs(s.cfg, ev.plan, |s.scheds|, k, mono, ev.wall);
    ReloadedAt(s.(now := mono), ev.plan, ev.wall, |s.scheds| + k);
  }

  /** A note is the text given, cut to its first 1024 characters; no text and an empty one take the note away. Nodes with
      another key keep theirs. */
  lemma NoteIsText(s: State, mono: real, key: Key, text: Option<string>, s': State, x: nat)
    requires Next(s, mono, Event.SetNote(key, text), s') && x < |s.scheds|
    ensures |s'.scheds| == |s.scheds|
    ensures var note := s'.scheds[x].state.note;
            s'.scheds[x].state == s.scheds[x].state.(note := note)
            && if !(x in s.current && KeyOf(s.scheds[x].node) == key) then note == s.scheds[x].state.note
               else if text == None || text == Some("") then note == None
               else note.Some? && note.value <= text.value && |note.value| == if |text.value| < 1024 then |text.value| else 1024
  {
  }

  /** A record is restored field by field, or, if any field is missing or of the wrong type, not at all. */
  lemma RecordValidatesIff(r: Record)
    ensures ValidatedCarry(r).Some? <==>
              && "lastcheck" in r && r["lastcheck"].JInt? && "downct" in r && r["downct"].JInt?
              && "contacted" in r && r["contacted"].JBool? && "acked" in r && r["acked"].JBool?
              && "deathtime" in r && (r["deathtime"].JFloat? || r["deathtime"].JInt?)
              && "last_up" in r && (r["last_up"].JFloat? || r["last_up"].JInt?)
              && "note" in r && (r["note"].JNull? || r["note"].JStr?)
    ensures ValidatedCarry(r).Some? ==>
              var c := ValidatedCarry(r).value;
              && r["lastcheck"] == JInt(c.lastcheck) && r["downct"] == JInt(c.downct) && r["contacted"] == JBool(c.contacted) && r["acked"] == JBool(c.acked)
              && (r["deathtime"] == JFloat(c.deathtime) || (r["deathtime"].JInt? && c.deathtime == r["deathtime"].i as real))
              && (r["last_up"] == JFloat(c.lastUp) || (r["last_up"].JInt? && c.lastUp == r["last_up"].i as real))
              && (c.note == None <==> r["note"] == JNull)
              && (c.note.Some? ==> r["note"].JStr? && c.note.value <= r["note"].s && |c.note.value| == if |r["note"].s| < 1024 then |r["note"].s| else 1024)
  {
  }

  /** An import puts the fields of the last record that lands on a host into it, restarts its page clock, and leaves its
      threshold and everything else about it alone. */
  lemma ImportRestores(s: State, mono: real, ev: Event, s': State, x: nat)
    requires Next(s, mono, ev, s') && ev.ImportState? && x < |s.scheds|
    ensures |s'.scheds| == |s.scheds|
    ensures var st, st' := s.scheds[x].state, s'.scheds[x].state;
            s'.scheds[x] == s.scheds[x].(state := st')
            && match Landing(s, ev.records, x)
               case None => st' == st
               case Some(c) =>
                 && st'.lastcheck == c.lastcheck && st'.downct == c.downct && st'.contacted == c.contacted && st'.deathtime == c.deathtime
                 && st'.lastUp == c.lastUp && st'.acked == c.acked && st'.note == c.note && st'.lastcontacted == mono
                 && st'.maxDown == st.maxDown && st'.suppressed == st.suppressed
  {
    hide Import, Landing;
    ImportLands(s.(now := mono), ev.records);
    SameLanding(s, mono, ev.records, x);
  }
}
