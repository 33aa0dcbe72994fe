/** Paging across a restart: what a saved state must say, and that every saved state says it. */
module PagingRestart {
  import opened Model
  import opened StateMachine
  import opened Records
  import opened Scheduling
  import opened SchedulerInvariant
  import opened Suppression
  import opened Paging
  import P = Persistence

  // ----- a record that breaks the discipline -------------------------------------------------

  /** A well-typed record of a host that was contacted although it is up. */
  function ContactedWhileUp(node: Node): Record {
    ExportRecord(node, Fresh(node.maxDown, 0.0).(contacted := true))
  }

  lemma OneRecord(s: State, r: Record)
    ensures Import(s, [r]) == ImportOne(s, r)
  {
    hide ImportOne;
    assert [r][..0] == [];
    assert Import(s, [r][..0]) == s;
  }

  /** Imported into any scheduler that has the node, it breaks the discipline under every history. */
  lemma ContactedWhileUpBreaks(s: State, x: nat, hs: seq<History>)
    requires Inv(s) && x < |s.scheds| && LastWith(s.scheds, s.current, KeyOf(s.scheds[x].node)) == Some(x)
    ensures ValidatedCarry(ContactedWhileUp(s.scheds[x].node)).Some?
    ensures !RecordsFit(s, [ContactedWhileUp(s.scheds[x].node)])
    ensures !PagingOk(Import(s, [ContactedWhileUp(s.scheds[x].node)]), hs)
  {
    hide QueueOk, TasksOk, GatesOk, Keyed, ValidatedCarry, ExportRecord, Import, LastWith, LastKeyed, FitsPages;
    var node := s.scheds[x].node;
    var r, st := ContactedWhileUp(node), Fresh(node.maxDown, 0.0).(contacted := true);
    ExportValidates(node, st);
    P.LastKeyedIsLastWith(s.scheds, s.current, r, KeyOf(node));
    OneRecord(s, r);
    LandsAlone(s, r, x);
    assert Landing(s, [r], x).value == CarriedOf(st);
    var s' := Import(s, [r]);
    assert s'.scheds[x].state.contacted && IsUp(s'.scheds[x].state.lastcheck) && s'.scheds[x].alive;
  }

  lemma LandsAlone(s: State, r: Record, x: nat)
    requires LastKeyed(s.scheds, s.current, r) == Some(x) && ValidatedCarry(r).Some?
    ensures Landing(s, [r], x) == ValidatedCarry(r)
  {
    hide Keyed, ValidatedCarry, LastKeyed;
  }

  // ----- saved states are fit ----------------------------------------------------------------

  lemma {:induction false} LandingFrom(s: State, records: seq<Record>, x: nat)
    requires Landing(s, records, x).Some?
    ensures exists j :: 0 <= j < |records| && Landing(s, records, x) == ValidatedCarry(records[j])
  {
    hide Keyed, ValidatedCarry, LastKeyed;
    if records != [] {
      var last := |records| - 1;
      if LastKeyed(s.scheds, s.current, records[last]) == Some(x) && ValidatedCarry(records[last]).Some? {
        assert Landing(s, records, x) == ValidatedCarry(records[last]);
      } else {
        LandingFrom(s, records[..last], x);
        var j :| 0 <= j < last && Landing(s, records[..last], x) == ValidatedCarry(records[..last][j]);
        assert records[..last][j] == records[j];
      }
    }
  }

  /** Whatever scheduler the export of a disciplined one is imported into, its records fit, as long as no DOWN page is
      on its way there. */
  lemma ExportFits(s: State, hs: seq<History>, b: State)
    requires Inv(s) && PagingOk(s, hs) && P.NotesFit(s)
    requires forall t :: t in b.tasks ==> !DownPhase(b.tasks[t].phase)
    ensures Identified(s) && RecordsFit(b, Export(s))
  {
    hide QueueOk, TasksOk, GatesOk, Keyed, ValidatedCarry, Export, Landing, SendsOk, LinesOk, LinesClear, P.NotesFit;
    P.ExportLength(s);
    forall x: nat | x < |b.scheds| && Landing(b, Export(s), x).Some?
      ensures var c := Landing(b, Export(s), x).value; (c.contacted ==> !IsUp(c.lastcheck)) && FitsPages(b, x, c)
    {
      LandingFrom(b, Export(s), x);
      var j :| 0 <= j < |Export(s)| && Landing(b, Export(s), x) == ValidatedCarry(Export(s)[j]);
      P.ExportAt(s, j);
      assert s.current[j] in s.current;
      assert HostOk(s.scheds[s.current[j]].state, hs[s.current[j]], s.cfg.pageInterval);
    }
  }

  /** A restart: a fresh scheduler takes over what any disciplined run of another one had saved. The import is one that
      the discipline allows, so the new run keeps it from the start. */
  lemma RestartIsCalm(cfg0: Config, p0: Plan, mono0: real, wall0: real, stagger0: bool, states: seq<State>, evs: seq<Timed>,
                      hists: seq<seq<History>>, n: nat, cfg: Config, p: Plan, mono: real, wall: real, stagger: bool)
    requires PlanFormed(p0) && ObservedRun(states, evs, hists) && n < |states|
    requires states[0] == Init(cfg0, p0, mono0, wall0, stagger0) && hists[0] == StartHistory(states[0])
    requires PlanFormed(p)
    ensures Identified(states[n])
    ensures Calm(Init(cfg, p, mono, wall, stagger), Event.ImportState(Export(states[n])))
  {
    hide Next, Observes, Calm, PagingOk, P.NotesFit, StartHistory, Export, RecordsFit, QueueOk, TasksOk, GatesOk;
    PagingFromStart(cfg0, p0, mono0, wall0, stagger0, states, evs, hists, n);
    P.RunKeepsNotes(cfg0, p0, mono0, wall0, stagger0, states, evs, n);
    ExportFits(states[n], hists[n], Init(cfg, p, mono, wall, stagger));
    CalmImport(Init(cfg, p, mono, wall, stagger), Export(states[n]));
  }

  lemma CalmImport(s: State, records: seq<Record>)
    requires RecordsFit(s, records)
    ensures Calm(s, Event.ImportState(records))
  {
    hide RecordsFit;
  }
}
