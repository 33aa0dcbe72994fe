/** From a configuration text to a running scheduler. */
module Deployment {
  import opened Model
  import opened Graphs
  import opened Gates
  import opened Scheduling
  import opened Lexer
  import opened ModernBuild
  import opened RoundTrip
  import opened Regrow
  import opened Eligibility
  import S = Scheduler
  import F = Flatten
  import FR = Forest
  import M = Modern

  /** The graph of a parsed file. */
  function GraphOf(objects: seq<Object>, children: seq<seq<nat>>, roots: seq<nat>): F.Graph {
    F.Graph(LoadedNodes(objects), children, roots)
  }

  lemma LinkedIsDag(objects: seq<Object>, children: seq<seq<nat>>, roots: seq<nat>, warnings: seq<FR.DepWarning>)
    requires Linked(LinkObjs(objects), children, roots, warnings)
    ensures F.Formed(GraphOf(objects, children, roots)) && Acyclic(EdgesOf(children))
  {
    hide Acyclic, FR.Known, FR.Asked, FR.Warned, HasParent;
    assert forall i :: 0 <= i < |roots| ==> roots[i] in roots;
  }

  /** `p` is the plan of a file in the modern format. */
  ghost predicate ModernPlan(p: Plan) {
    exists lib: Lib, numfailures: int, text: string, children, roots, warnings ::
      PlanOfText(lib, numfailures, text, children, roots, warnings, p)
  }

  ghost predicate PlanOfText(lib: Lib, numfailures: int, text: string, children: seq<seq<nat>>, roots: seq<nat>, warnings: seq<FR.DepWarning>, p: Plan) {
    && Linked(LinkObjs(Loaded(lib, numfailures, text)), children, roots, warnings)
    && F.Formed(GraphOf(Loaded(lib, numfailures, text), children, roots))
    && S.PlanFor(GraphOf(Loaded(lib, numfailures, text), children, roots), p)
  }

  /** Whatever such a file says, its plan comes from an acyclic graph. */
  lemma ModernPlansAreDags(p: Plan)
    requires ModernPlan(p)
    ensures DagPlan(p)
  {
    hide Linked, F.Formed, S.PlanFor, Loaded, Acyclic, EdgesOf;
    var lib: Lib, numfailures: int, text: string, children, roots, warnings :| PlanOfText(lib, numfailures, text, children, roots, warnings, p);
    LinkedIsDag(Loaded(lib, numfailures, text), children, roots, warnings);
    assert GraphOf(Loaded(lib, numfailures, text), children, roots).children == children;
  }

  /** In every state of every run that starts from a modern file and reloads modern files, whatever deps they declare:
      with every current ping up or degraded, every current host is eligible. */
  lemma ConfiguredHostsEligible(cfg: Config, p: Plan, mono: real, wall: real, stagger: bool, states: seq<State>, evs: seq<Timed>, i: nat, x: nat)
    requires ModernPlan(p) && PlanFormed(p) && IsRun(states, evs) && states[0] == Init(cfg, p, mono, wall, stagger)
    requires forall j :: 0 <= j < |evs| && evs[j].ev.Reload? ==> ModernPlan(evs[j].ev.plan)
    requires i < |states| && x in states[i].current
    requires forall y: nat :: y in states[i].current && y < |states[i].scheds| && Pings(states[i], y) ==> Forwards(states[i], y)
    ensures HasLivePath(states[i].scheds, x)
  {
    hide ModernPlan, DagPlan, HasLivePath, Next, Init;
    ModernPlansAreDags(p);
    forall j | 0 <= j < |evs| && evs[j].ev.Reload?
      ensures DagPlan(evs[j].ev.plan)
    {
      ModernPlansAreDags(evs[j].ev.plan);
    }
    AllPingsUpAllEligible(cfg, p, mono, wall, stagger, states, evs, i, x);
  }

  /** Reads a file and builds the scheduler that monitors it. */
  method Launch(lib: Lib, numfailures: int, text: string, cfg: Config, mono: real, wall: real, stagger: bool)
    returns (out: M.Outcome, scheduler: S.Scheduler?)
    requires Scanned(text, Code(true)) != Hang
    ensures out.Parsed? <==> scheduler != null
    ensures scheduler != null ==> exists p :: ModernPlan(p) && PlanFormed(p) && scheduler.Abs() == Init(cfg, p, mono, wall, stagger)
  {
    hide Linked, F.Formed, S.PlanFor, Loaded, Init, LinkObjs, LoadedNodes, Scanned, Lex, Acyclic, EdgesOf;
    out := M.Parse(lib, numfailures, text);
    scheduler := null;
    if out.Parsed? {
      LinkedIsDag(out.objects, out.children, out.roots, out.warnings);
      var s := new S.Scheduler(cfg, GraphOf(out.objects, out.children, out.roots), mono, wall, stagger);
      ghost var p :| S.PlanFor(GraphOf(out.objects, out.children, out.roots), p) && PlanFormed(p) && s.Abs() == Init(cfg, p, mono, wall, stagger);
      assert PlanOfText(lib, numfailures, text, out.children, out.roots, out.warnings, p);
      scheduler := s;
    }
  }
}
