/** The per-host up/down state machine and its behaviour over whole result histories. */
module StateMachine {
  import opened Model

  datatype HostState = HostState(
    maxDown: int,
    lastcheck: int,
    downct: int,
    contacted: bool,
    lastcontacted: real,
    deathtime: real,
    lastUp: real,
    suppressed: bool,
    acked: bool,
    note: Option<string>)

  datatype Intent = NoPage | PageDown | PageRecovery

  datatype Outcome = Outcome(state: HostState, intent: Intent, changed: bool)

  function Fresh(maxDown: int, wall: real): HostState {
    HostState(maxDown, OK, 0, false, 0.0, 0.0, wall, false, false, None)
  }

  /** A result that escalates: neither up, nor a resolver failure, nor an informational DEGRADED. */
  predicate IsHard(code: int, pageOnDegraded: bool) {
    !IsUp(code) && code != NO_DNS && (code == DEGRADED ==> pageOnDegraded)
  }

  function Displayed(st: HostState): (int, int, bool, real) {
    (st.lastcheck, st.downct, st.contacted, st.deathtime)
  }

  /** The state after `code`, by kind of result. */
  function Applied(st: HostState, code: int, wall: real, pageOnDegraded: bool): HostState {
    if IsUp(code) then
      if IsUp(st.lastcheck) then st
      else st.(lastcheck := OK, lastUp := wall, downct := 0, acked := false, contacted := false)
    else if IsHard(code, pageOnDegraded) then
      if code == st.lastcheck then st.(downct := st.downct + 1)
      else st.(downct := 1, lastcheck := code, deathtime := wall)
    else if code == NO_DNS && st.lastcheck != NO_DNS then
      st.(lastcheck := NO_DNS, deathtime := wall)
    else
      st.(lastcheck := code)
  }

  /** What `code` asks of the notifier, read off the states on both sides of it. */
  function IntentOf(before: HostState, after: HostState, code: int, pageOnDegraded: bool): Intent {
    if IsUp(code) && !IsUp(before.lastcheck) && before.contacted then PageRecovery
    else if IsHard(code, pageOnDegraded) && after.downct >= after.maxDown && !after.contacted then PageDown
    else NoPage
  }

  function Apply(st: HostState, code: int, wall: real, pageOnDegraded: bool): Outcome {
    var after := Applied(st, code, wall, pageOnDegraded);
    Outcome(after, IntentOf(st, after, code, pageOnDegraded), Displayed(st) != Displayed(after))
  }

  predicate MaybeRepage(st: HostState, mono: real, pageInterval: real) {
    st.contacted && pageInterval > 0.0 && mono - st.lastcontacted > pageInterval
  }

  /** The mutable record; `ApplyResult` updates it branch by branch. */
  class NodeState {
    var maxDown: int
    var lastcheck: int
    var downct: int
    var contacted: bool
    var lastcontacted: real
    var deathtime: real
    var lastUp: real
    var suppressed: bool
    var acked: bool
    var note: Option<string>

    constructor (maxDown: int, lastUp: real)
      ensures View() == Fresh(maxDown, lastUp)
    {
      this.maxDown := maxDown;
      this.lastUp := lastUp;
      lastcheck, downct, contacted, lastcontacted, deathtime := OK, 0, false, 0.0, 0.0;
      suppressed, acked, note := false, false, None;
    }

    function View(): HostState
      reads this
    {
      HostState(maxDown, lastcheck, downct, contacted, lastcontacted, deathtime, lastUp, suppressed, acked, note)
    }

    method ApplyResult(result: int, nowWall: real, pageOnDegraded: bool) returns (intent: Intent, changed: bool)
      modifies this
      ensures Apply(old(View()), result, nowWall, pageOnDegraded) == Outcome(View(), intent, changed)
    {
      var before := (lastcheck, downct, contacted, deathtime);
      intent := NoPage;
      if result == DEGRADED && !pageOnDegraded {
        lastcheck := DEGRADED;
        changed := before != (lastcheck, downct, contacted, deathtime);
        return;
      }
      if result == NO_DNS {
        if lastcheck != NO_DNS {
          deathtime := nowWall;
        }
        lastcheck := NO_DNS;
      } else if IsUp(result) {
        if !IsUp(lastcheck) {
          var wasContacted := contacted;
          lastcheck := OK;
          lastUp := nowWall;
          downct := 0;
          acked := false;
          if wasContacted {
            contacted := false;
            intent := PageRecovery;
          }
        }
      } else if result == lastcheck {
        downct := downct + 1;
        if downct >= maxDown && !contacted {
          intent := PageDown;
        }
      } else {
        downct := 1;
        lastcheck := result;
        deathtime := nowWall;
        if downct >= maxDown && !contacted {
          intent := PageDown;
        }
      }
      changed := before != (lastcheck, downct, contacted, deathtime);
    }
  }

  // ----- whole histories ---------------------------------------------------------------------

  /** What can happen to a host's state: a result, the mark that its contact knows, a restart of its page clock, an operator's
      acknowledgement. */
  datatype HistoryEvent = Result(code: int, wall: real) | Marked(mono: real) | Dated(mono: real) | Acked

  function Happened(st: HostState, e: HistoryEvent, pageOnDegraded: bool): HostState {
    match e
    case Result(code, wall) => Applied(st, code, wall, pageOnDegraded)
    case Marked(mono) => st.(contacted := true, lastcontacted := mono)
    case Dated(mono) => st.(lastcontacted := mono)
    case Acked => st.(acked := true)
  }

  function Replay(h: seq<HistoryEvent>, start: HostState, pageOnDegraded: bool): HostState {
    if h == [] then start else Happened(Replay(h[..|h| - 1], start, pageOnDegraded), h[|h| - 1], pageOnDegraded)
  }

  /** The most recent result; a host with none reads as up. */
  function LastResult(h: seq<HistoryEvent>): int {
    if h == [] then OK
    else if h[|h| - 1].Result? then h[|h| - 1].code
    else LastResult(h[..|h| - 1])
  }

  /** How many results in a row, ending with the last one, were `code`. */
  function RunLength(h: seq<HistoryEvent>, code: int): nat {
    if h == [] then 0
    else if !h[|h| - 1].Result? then RunLength(h[..|h| - 1], code)
    else if h[|h| - 1].code == code then 1 + RunLength(h[..|h| - 1], code)
    else 0
  }

  /** When that run began. */
  function RunStart(h: seq<HistoryEvent>, code: int): real
    requires RunLength(h, code) > 0
  {
    var last := h[|h| - 1];
    var rest := h[..|h| - 1];
    if !last.Result? || RunLength(rest, code) > 0 then RunStart(rest, code) else last.wall
  }

  /** Event `i` takes the host from not up to up. */
  predicate TakesUp(h: seq<HistoryEvent>, i: nat)
    requires i < |h|
  {
    h[i].Result? && h[i].code == 0 && LastResult(h[..i]) != 0
  }

  /** What stays until the host comes up. */
  datatype Trace = Mark | Acknowledgement

  predicate Leaves(e: HistoryEvent, t: Trace) {
    match t
    case Mark => e.Marked?
    case Acknowledgement => e.Acked?
  }

  /** An event has left the trace `t`, and the host has not come up since. */
  ghost predicate SinceUp(h: seq<HistoryEvent>, t: Trace) {
    exists i :: 0 <= i < |h| && Leaves(h[i], t) && forall j :: i < j < |h| ==> !TakesUp(h, j)
  }

  /** When the host last came up; `start` if it never has. */
  function LastRecovery(h: seq<HistoryEvent>, start: real): real {
    if h == [] then start
    else if TakesUp(h, |h| - 1) then h[|h| - 1].wall
    else LastRecovery(h[..|h| - 1], start)
  }

  /** When the page clock was last set, by a mark or by a restart; 0 if it never was. */
  function LastMark(h: seq<HistoryEvent>): real {
    if h == [] then 0.0 else if h[|h| - 1].Marked? || h[|h| - 1].Dated? then h[|h| - 1].mono else LastMark(h[..|h| - 1])
  }

  /** A failure that is shown but does not count: the resolver's, or packet loss unless that is to be paged. */
  predicate IsSoft(code: int, pageOnDegraded: bool) {
    code == 5 || (code == 14 && !pageOnDegraded)
  }

  /** The history up to the last result that counts. */
  function Settled(h: seq<HistoryEvent>, pageOnDegraded: bool): seq<HistoryEvent> {
    if h == [] || (h[|h| - 1].Result? && !IsSoft(h[|h| - 1].code, pageOnDegraded)) then h
    else Settled(h[..|h| - 1], pageOnDegraded)
  }

  /** When the last failure began: the last result that differs from the one before it, is not up and is not
      packet loss that is only shown; 0 if there was none. */
  function LastFailure(h: seq<HistoryEvent>, pageOnDegraded: bool): real {
    if h == [] then 0.0
    else
      var last, rest := h[|h| - 1], h[..|h| - 1];
      if last.Result? && last.code != 0 && !(last.code == 14 && !pageOnDegraded) && last.code != LastResult(rest) then last.wall
      else LastFailure(rest, pageOnDegraded)
  }

  lemma SinceUpNext(h: seq<HistoryEvent>, t: Trace)
    requires h != []
    ensures SinceUp(h, t) <==> Leaves(h[|h| - 1], t) || (SinceUp(h[..|h| - 1], t) && !TakesUp(h, |h| - 1))
  {
    var rest := h[..|h| - 1];
    forall j | 0 <= j < |rest|
      ensures rest[j] == h[j] && (TakesUp(rest, j) <==> TakesUp(h, j))
    {
      assert rest[..j] == h[..j];
    }
    if SinceUp(rest, t) && !TakesUp(h, |h| - 1) {
      var i :| 0 <= i < |rest| && Leaves(rest[i], t) && forall j :: i < j < |rest| ==> !TakesUp(rest, j);
      assert Leaves(h[i], t);
    }
    if SinceUp(h, t) && !Leaves(h[|h| - 1], t) {
      var i :| 0 <= i < |h| && Leaves(h[i], t) && forall j :: i < j < |h| ==> !TakesUp(h, j);
      assert Leaves(rest[i], t);
    }
  }

  lemma {:induction false} HistoryLast(h: seq<HistoryEvent>, maxDown: int, wall: real, pageOnDegraded: bool)
    ensures var st := Replay(h, Fresh(maxDown, wall), pageOnDegraded);
            && st.maxDown == maxDown && !st.suppressed && st.note == None
            && st.lastcheck == LastResult(h) && st.lastcontacted == LastMark(h) && st.lastUp == LastRecovery(h, wall)
            && st.deathtime == LastFailure(h, pageOnDegraded)
  {
    if h != [] {
      HistoryLast(h[..|h| - 1], maxDown, wall, pageOnDegraded);
    }
  }

  lemma {:induction false} HistoryCount(h: seq<HistoryEvent>, maxDown: int, wall: real, pageOnDegraded: bool)
    ensures var g := Settled(h, pageOnDegraded);
            Replay(h, Fresh(maxDown, wall), pageOnDegraded).downct == if LastResult(g) == 0 then 0 else RunLength(g, LastResult(g))
  {
    hide LastMark, LastRecovery, LastFailure;
    if h != [] {
      var last, rest := h[|h| - 1], h[..|h| - 1];
      HistoryLast(rest, maxDown, wall, pageOnDegraded);
      HistoryCount(rest, maxDown, wall, pageOnDegraded);
      if last.Result? && !IsSoft(last.code, pageOnDegraded) {
        if last.code == LastResult(rest) {
          RunIsSettled(rest, pageOnDegraded);
        } else {
          NoRunOfAnotherCode(rest, last.code);
        }
      }
    }
  }

  lemma {:induction false} HistoryTraces(h: seq<HistoryEvent>, maxDown: int, wall: real, pageOnDegraded: bool)
    ensures var st := Replay(h, Fresh(maxDown, wall), pageOnDegraded);
            (st.contacted <==> SinceUp(h, Mark)) && (st.acked <==> SinceUp(h, Acknowledgement))
  {
    hide SinceUp, LastMark, LastRecovery, LastFailure;
    if h == [] {
      NothingSince(Mark);
      NothingSince(Acknowledgement);
    } else {
      var rest := h[..|h| - 1];
      HistoryLast(rest, maxDown, wall, pageOnDegraded);
      HistoryTraces(rest, maxDown, wall, pageOnDegraded);
      SinceUpNext(h, Mark);
      SinceUpNext(h, Acknowledgement);
    }
  }

  /** The whole state after any history. `lastcheck` is the last result; the failure count is the length of the trailing run
      of the last result that counts; `deathtime` dates the last failure and `lastUp` the last recovery; the host is
      contacted, or acknowledged, iff it was marked, or acknowledged, and has not come up since. */
  lemma HistoryDeterminesState(h: seq<HistoryEvent>, maxDown: int, wall: real, pageOnDegraded: bool)
    ensures var st, g := Replay(h, Fresh(maxDown, wall), pageOnDegraded), Settled(h, pageOnDegraded);
            && st.maxDown == maxDown && !st.suppressed && st.note == None
            && st.lastcheck == LastResult(h)
            && st.downct == (if LastResult(g) == 0 then 0 else RunLength(g, LastResult(g)))
            && st.deathtime == LastFailure(h, pageOnDegraded)
            && st.lastUp == LastRecovery(h, wall)
            && st.lastcontacted == LastMark(h)
            && (st.contacted <==> SinceUp(h, Mark))
            && (st.acked <==> SinceUp(h, Acknowledgement))
  {
    hide *;
    HistoryLast(h, maxDown, wall, pageOnDegraded);
    HistoryCount(h, maxDown, wall, pageOnDegraded);
    HistoryTraces(h, maxDown, wall, pageOnDegraded);
  }

  lemma NothingSince(t: Trace)
    ensures !SinceUp([], t)
  {
  }

  /** While the last result counts, events behind it do not change what has settled. */
  lemma {:induction false} RunIsSettled(h: seq<HistoryEvent>, pageOnDegraded: bool)
    requires !IsSoft(LastResult(h), pageOnDegraded)
    ensures var g := Settled(h, pageOnDegraded);
            LastResult(g) == LastResult(h) && forall code :: RunLength(g, code) == RunLength(h, code)
  {
    if h != [] && !h[|h| - 1].Result? {
      RunIsSettled(h[..|h| - 1], pageOnDegraded);
    }
  }

  /** During a failure that counts, the count and the time of death measure and date its trailing run. */
  lemma {:induction false} RunDated(h: seq<HistoryEvent>, pageOnDegraded: bool)
    requires LastResult(h) != 0 && !IsSoft(LastResult(h), pageOnDegraded)
    ensures RunLength(h, LastResult(h)) > 0 && LastFailure(h, pageOnDegraded) == RunStart(h, LastResult(h))
  {
    var last, rest := h[|h| - 1], h[..|h| - 1];
    if !last.Result? {
      RunDated(rest, pageOnDegraded);
    } else if last.code == LastResult(rest) {
      RunDated(rest, pageOnDegraded);
    } else {
      NoRunOfAnotherCode(rest, last.code);
    }
  }

  lemma {:induction false} NoRunOfAnotherCode(h: seq<HistoryEvent>, code: int)
    requires code != LastResult(h)
    ensures RunLength(h, code) == 0
  {
    if h != [] && !h[|h| - 1].Result? {
      NoRunOfAnotherCode(h[..|h| - 1], code);
    }
  }

  /** A page is asked for after any history exactly when the trailing run of a new failure that counts has reached the
      threshold and the host was not marked since it last came up; a recovery exactly on the first up after a mark. The
      display changes exactly when the result differs from the one before it or is a failure that counts. */
  lemma IntentAfterHistory(h: seq<HistoryEvent>, maxDown: int, start: real, code: int, wall: real, pageOnDegraded: bool)
    ensures var out := Apply(Replay(h, Fresh(maxDown, start), pageOnDegraded), code, wall, pageOnDegraded);
            var marked := SinceUp(h, Mark);
            && (out.intent == PageDown <==>
                  code != 0 && !IsSoft(code, pageOnDegraded) && RunLength(h + [Result(code, wall)], code) >= maxDown && !marked)
            && (out.intent == PageRecovery <==> code == 0 && LastResult(h) != 0 && marked)
            && (out.changed <==> code != LastResult(h) || (code != 0 && !IsSoft(code, pageOnDegraded)))
  {
    hide SinceUp;
    HistoryDeterminesState(h, maxDown, start, pageOnDegraded);
    var h' := h + [Result(code, wall)];
    assert h'[..|h'| - 1] == h;
    HistoryDeterminesState(h', maxDown, start, pageOnDegraded);
    SinceUpNext(h', Mark);
  }

  /** No two consecutive results of `h` agree (marks and acknowledgements in between do not count). */
  predicate Alternating(h: seq<HistoryEvent>) {
    h == [] ||
    (Alternating(h[..|h| - 1]) &&
     (h[|h| - 1].Result? && HasResult(h[..|h| - 1]) ==> h[|h| - 1].code != LastResult(h[..|h| - 1])))
  }

  predicate HasResult(h: seq<HistoryEvent>) {
    exists i :: 0 <= i < |h| && h[i].Result?
  }

  /** A service flapping between different error codes never pages once the threshold is 2 or more. */
  lemma FlappingCodesNeverPage(h: seq<HistoryEvent>, maxDown: int, start: real, code: int, wall: real, pageOnDegraded: bool)
    requires maxDown >= 2
    requires Alternating(h + [Result(code, wall)])
    ensures Apply(Replay(h, Fresh(maxDown, start), pageOnDegraded), code, wall, pageOnDegraded).intent != PageDown
  {
    var h' := h + [Result(code, wall)];
    assert h'[..|h'| - 1] == h;
    IntentAfterHistory(h, maxDown, start, code, wall, pageOnDegraded);
    if HasResult(h) {
      NoRunOfAnotherCode(h, code);
    } else {
      NoResultsNoRun(h, code);
    }
  }

  lemma {:induction false} NoResultsNoRun(h: seq<HistoryEvent>, code: int)
    requires !HasResult(h)
    ensures RunLength(h, code) == 0
  {
    if h != [] {
      NoResultsNoRun(h[..|h| - 1], code);
    }
  }
}
