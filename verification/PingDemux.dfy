/** Echo replies find their probes: one keyspace and one pending map shared by all checks. */
module PingDemux {
  import opened Model
  import opened Icmp
  import opened Lists

  type ProbeKey = (nat, nat)

  const KEYS := 0x1_0000_0000

  // ----- keys --------------------------------------------------------------------------------

  function KeyAt(value: nat): ProbeKey {
    (value / 65536 % 65536, value % 65536)
  }

  lemma KeyAtInjective(v: nat, w: nat)
    requires v < KEYS && w < KEYS && KeyAt(v) == KeyAt(w)
    ensures v == w
  {
    assert v / 65536 < 65536 && w / 65536 < 65536;
    assert v / 65536 % 65536 == v / 65536 && w / 65536 % 65536 == w / 65536;
  }

  lemma RemaindersDiffer(a: nat, d: nat)
    requires 0 < d < KEYS
    ensures (a + d) % KEYS != a % KEYS
  {
    var q, r := a / KEYS, a % KEYS;
    if r + d < KEYS {
      assert a + d == KEYS * q + (r + d);
    } else {
      assert a + d == KEYS * (q + 1) + (r + d - KEYS);
    }
  }

  /** The key handed out by the `n`-th call when the counter started at `base`. */
  function NthKey(base: nat, n: nat): ProbeKey {
    KeyAt((base + n) % KEYS)
  }

  /** No key comes back within 2^32 calls, wherever the counter started. */
  lemma KeysDoNotRepeat(base: nat, i: nat, j: nat)
    requires i < j < i + KEYS
    ensures NthKey(base, i) != NthKey(base, j)
  {
    RemaindersDiffer(base + i, j - i);
    if NthKey(base, i) == NthKey(base, j) {
      KeyAtInjective((base + i) % KEYS, (base + j) % KEYS);
    }
  }

  // ----- the shared map ----------------------------------------------------------------------

  /** Who waits for a key, and the random bytes its reply must echo. */
  datatype Waiter = Waiter(future: nat, nonce: seq<Byte>)

  datatype Demux = Demux(counter: nat, pending: map<ProbeKey, Waiter>, resolved: set<nat>, nextFuture: nat)

  predicate StartsWith(s: seq<Byte>, prefix: seq<Byte>) {
    |prefix| <= |s| && s[..|prefix|] == prefix
  }

  /** Does this reply answer a probe with this key and nonce? */
  predicate Answers(p: Parsed, key: ProbeKey, nonce: seq<Byte>) {
    (p.ident, p.sequence) == key && StartsWith(p.payload, nonce)
  }

  /** A reply answers a probe iff it bears the probe's key and its payload is the probe's nonce, with anything behind it. */
  lemma AnswersMeans(p: Parsed, key: ProbeKey, nonce: seq<Byte>)
    ensures Answers(p, key, nonce) <==> p.ident == key.0 && p.sequence == key.1 && exists rest :: p.payload == nonce + rest
  {
    if Answers(p, key, nonce) {
      assert p.payload == nonce + p.payload[|nonce|..];
    }
  }

  function Register(d: Demux, nonce: seq<Byte>): Demux {
    d.(counter := (d.counter + 1) % KEYS,
       pending := d.pending[KeyAt(d.counter % KEYS) := Waiter(d.nextFuture, nonce)],
       nextFuture := d.nextFuture + 1)
  }

  function Receive(d: Demux, p: Parsed): Demux {
    var key := (p.ident, p.sequence);
    if key in d.pending && StartsWith(p.payload, d.pending[key].nonce)
    then d.(resolved := d.resolved + {d.pending[key].future})
    else d
  }

  class PingService {
    var counter: nat
    var pending: map<ProbeKey, Waiter>
    var resolved: set<nat>
    var nextFuture: nat

    constructor (seed: nat)
      requires seed < KEYS
      ensures View() == Demux(seed, map[], {}, 0)
    {
      counter, pending, resolved, nextFuture := seed, map[], {}, 0;
    }

    function View(): Demux
      reads this
    {
      Demux(counter, pending, resolved, nextFuture)
    }

    method NextKey() returns (key: ProbeKey)
      modifies this`counter
      ensures key == KeyAt(old(counter) % KEYS) && counter == (old(counter) + 1) % KEYS
    {
      var value := counter % KEYS;
      counter := (counter + 1) % KEYS;
      key := (value / 65536 % 65536, value % 65536);
    }

    /** The start of a probe: a key, a future, an entry. */
    method Expect(nonce: seq<Byte>) returns (key: ProbeKey, future: nat)
      modifies this
      ensures View() == Register(old(View()), nonce)
      ensures key == KeyAt(old(counter) % KEYS) && future == old(nextFuture)
    {
      key := NextKey();
      future := nextFuture;
      nextFuture := nextFuture + 1;
      pending := pending[key := Waiter(future, nonce)];
    }

    /** A packet arrived on a socket of either family. */
    method OnReadable(packet: seq<Byte>, v6: bool)
      modifies this
      ensures var parsed := if v6 then ParseEchoReply6(packet) else ParseEchoReply(packet);
              View() == if parsed.Some? then Receive(old(View()), parsed.value) else old(View())
    {
      var parsed := if v6 then ParseEchoReply6(packet) else ParseEchoReply(packet);
      if parsed.None? {
        return;
      }
      var key := (parsed.value.ident, parsed.value.sequence);
      if key !in pending {
        return;
      }
      var waiter := pending[key];
      if !StartsWith(parsed.value.payload, waiter.nonce) {
        return;
      }
      if waiter.future !in resolved {
        resolved := resolved + {waiter.future};
      }
    }
  }

  // ----- checks ------------------------------------------------------------------------------

  const ATTEMPTS := 3

  /** What was sent under a future: its key, its nonce, the number of that key request, how many replies had been seen by
      then, and the check it was sent for. */
  datatype Issue = Issue(key: ProbeKey, nonce: seq<Byte>, number: nat, seen: nat, check: nat)

  /** A probe that timed out: its future, and how many replies had been seen when it left the map. */
  datatype Spent = Spent(future: nat, until: nat)

  /** A check under way: one probe at a time, with an observer's record of those before it, or a fixed number of distinct
      probes. */
  datatype Check = Single(attempt: nat, future: nat, earlier: seq<Spent>) | Multi(sends: nat, needs: nat, futures: seq<nat>)

  function Futures(c: Check): seq<nat> {
    match c
    case Single(_, f, _) => [f]
    case Multi(_, _, fs) => fs
  }

  /** The clamped pair a check works with. */
  function Counts(sendPings: int, minPings: int): (r: (int, int))
    ensures 1 <= r.1 <= r.0
    ensures 1 <= minPings <= sendPings ==> r == (sendPings, minPings)
    ensures if sendPings < 1 then r.0 == 1 else r.0 == sendPings
    ensures (minPings < 1 ==> r.1 == 1) && (minPings > r.0 ==> r.1 == r.0)
  {
    var send := if sendPings < 1 then 1 else sendPings;
    var low := if minPings < send then minPings else send;
    (send, if low < 1 then 1 else low)
  }

  function Verdict(received: nat, needs: nat): int {
    if received >= needs then OK else if received == 0 then UNPINGABLE else DEGRADED
  }

  /** The demultiplexer with the checks that use it. `owner` says which check each outstanding future serves;
      `issues` and `log` are what an observer has recorded. */
  datatype State = State(
    base: nat,
    calls: nat,
    demux: Demux,
    checks: map<nat, Check>,
    owner: map<nat, nat>,
    issues: map<nat, Issue>,
    log: seq<Parsed>)

  /** A reply seen since the probe was sent answers it. */
  ghost predicate Answered(log: seq<Parsed>, i: Issue) {
    exists k :: i.seen <= k < |log| && Answers(log[k], i.key, i.nonce)
  }

  /** A new probe for check `c`, which becomes `check`. */
  function Probe(s: State, c: nat, check: Check, nonce: seq<Byte>): State {
    var f := s.demux.nextFuture;
    s.(demux := Register(s.demux, nonce), calls := s.calls + 1,
       checks := s.checks[c := check], owner := s.owner[f := c],
       issues := s.issues[f := Issue(KeyAt(s.demux.counter % KEYS), nonce, s.calls, |s.log|, c)])
  }

  /** The keys under which the futures `fs` wait. */
  function KeysOf(issues: map<nat, Issue>, fs: seq<nat>): set<ProbeKey> {
    set f | f in fs && f in issues :: issues[f].key
  }

  /** The check ends: whatever the reason, its keys leave the map. */
  function Ended(s: State, c: nat): State
    requires c in s.checks
  {
    var fs := Futures(s.checks[c]);
    s.(demux := s.demux.(pending := s.demux.pending - KeysOf(s.issues, fs)),
       checks := s.checks - {c}, owner := s.owner - Elements(fs))
  }

  function Packet(s: State, p: Parsed): State {
    s.(demux := Receive(s.demux, p), log := s.log + [p])
  }

  /** How many of a check's probes have their future resolved. */
  function Received(s: State, fs: seq<nat>): nat {
    |set f | f in fs && f in s.demux.resolved|
  }

  /** The single check `c` after its probe has timed out: the next attempt. */
  function Again(s: State, c: nat): Check
    requires c in s.checks && s.checks[c].Single?
  {
    var check := s.checks[c];
    Single(check.attempt + 1, s.demux.nextFuture, check.earlier + [Spent(check.future, |s.log|)])
  }

  datatype Event =
    | StartSingle(c: nat, nonce: seq<Byte>)
    | StartMulti(c: nat, sends: nat, needs: nat, nonce: seq<Byte>)
    | SendMore(c: nat, nonce: seq<Byte>)
    | Replied(c: nat)
    | TimedOut(c: nat, nonce: seq<Byte>)
    | Counted(c: nat)
    | Aborted(c: nat)
    | Arrived(p: Parsed)

  /** `ev` takes `s` to `s'`; `verdict` is the status of the check that `ev` completes, if any. */
  ghost predicate Next(s: State, ev: Event, s': State, verdict: Option<int>) {
    match ev
    case StartSingle(c, nonce) =>
      c !in s.checks && verdict == None && s' == Probe(s, c, Single(1, s.demux.nextFuture, []), nonce)
    case StartMulti(c, sends, needs, nonce) =>
      && c !in s.checks && 1 <= needs <= sends && sends >= 2 && verdict == None
      && s' == Probe(s, c, Multi(sends, needs, [s.demux.nextFuture]), nonce)
    case SendMore(c, nonce) =>
      && c in s.checks && s.checks[c].Multi? && |s.checks[c].futures| < s.checks[c].sends && verdict == None
      && s' == Probe(s, c, s.checks[c].(futures := s.checks[c].futures + [s.demux.nextFuture]), nonce)
    case Replied(c) =>
      && c in s.checks && s.checks[c].Single? && s.checks[c].future in s.demux.resolved
      && s' == Ended(s, c) && verdict == Some(OK)
    case TimedOut(c, nonce) =>
      && c in s.checks && s.checks[c].Single? && s.checks[c].future !in s.demux.resolved
      && if s.checks[c].attempt < ATTEMPTS
         then verdict == None && s' == Probe(Ended(s, c), c, Again(s, c), nonce)
         else verdict == Some(UNPINGABLE) && s' == Ended(s, c)
    case Counted(c) =>
      && c in s.checks && s.checks[c].Multi? && |s.checks[c].futures| == s.checks[c].sends
      && s' == Ended(s, c) && verdict == Some(Verdict(Received(s, s.checks[c].futures), s.checks[c].needs))
    case Aborted(c) => c in s.checks && s' == Ended(s, c) && verdict == None
    case Arrived(p) => s' == Packet(s, p) && verdict == None
  }

  // ----- invariant ---------------------------------------------------------------------------

  ghost predicate ChecksOk(s: State) {
    forall c :: c in s.checks && s.checks[c].Multi? ==> s.checks[c].needs >= 1
  }

  ghost predicate OwnersOk(s: State) {
    && (forall f :: f in s.owner ==> s.owner[f] in s.checks && f in Futures(s.checks[s.owner[f]]))
    && (forall c, f :: c in s.checks && f in Futures(s.checks[c]) ==> f in s.owner && s.owner[f] == c)
  }

  ghost predicate IssuesOk(s: State) {
    && s.demux.counter == (s.base + s.calls) % KEYS
    && (forall f :: f in s.owner ==> f in s.issues)
    && (forall f :: f in s.issues ==>
          && f < s.demux.nextFuture && s.issues[f].number < s.calls && s.issues[f].seen <= |s.log|
          && s.issues[f].key == NthKey(s.base, s.issues[f].number))
    && (forall f :: f in s.demux.resolved ==> f < s.demux.nextFuture)
  }

  /** The map holds exactly the outstanding probes, each under its own key with its own nonce. */
  ghost predicate PendingOk(s: State) {
    && (forall f :: f in s.owner && f in s.issues ==>
          s.issues[f].key in s.demux.pending && s.demux.pending[s.issues[f].key] == Waiter(f, s.issues[f].nonce))
    && (forall k :: k in s.demux.pending ==>
          && s.demux.pending[k].future in s.owner && s.demux.pending[k].future in s.issues
          && s.issues[s.demux.pending[k].future].key == k)
  }

  /** An outstanding probe's future is resolved exactly if a reply with its key and nonce has come since. */
  ghost predicate ResolvedOk(s: State) {
    forall f :: f in s.owner && f in s.issues ==> (f in s.demux.resolved <==> Answered(s.log, s.issues[f]))
  }

  ghost predicate Inv(s: State) {
    ChecksOk(s) && OwnersOk(s) && IssuesOk(s) && PendingOk(s) && ResolvedOk(s)
  }

  /** The key that the next draw gives is not pending. */
  ghost predicate KeyFree(d: Demux) {
    KeyAt(d.counter % KEYS) !in d.pending
  }

  /** So it is as long as fewer than 2^32 keys have been drawn since any outstanding one. */
  lemma RecentKeysFree(s: State)
    requires Inv(s) && forall f :: f in s.owner && f in s.issues ==> s.calls < s.issues[f].number + KEYS
    ensures KeyFree(s.demux)
  {
    hide ResolvedOk, OwnersOk, KeyAt;
    var v := s.base + s.calls;
    assert v % KEYS % KEYS == v % KEYS;
    if !KeyFree(s.demux) {
      var f := s.demux.pending[KeyAt(s.demux.counter % KEYS)].future;
      KeysDoNotRepeat(s.base, s.issues[f].number, s.calls);
    }
  }

  lemma NewKeyUnused(s: State)
    requires Inv(s) && KeyFree(s.demux)
    ensures forall f :: f in s.owner ==> s.issues[f].key != KeyAt(s.demux.counter % KEYS)
  {
    hide ResolvedOk, OwnersOk, KeyAt, NthKey;
  }

  lemma KeyOfDraw(s: State)
    requires IssuesOk(s)
    ensures KeyAt(s.demux.counter % KEYS) == NthKey(s.base, s.calls)
  {
    hide KeyAt;
    var v := s.base + s.calls;
    assert v % KEYS % KEYS == v % KEYS;
  }

  /** The check that a new probe turns into has the old futures and the new one. */
  ghost predicate Extends(s: State, c: nat, check: Check) {
    Futures(check) == (if c in s.checks then Futures(s.checks[c]) else []) + [s.demux.nextFuture]
  }

  lemma ProbeOwners(s: State, c: nat, check: Check, nonce: seq<Byte>)
    requires OwnersOk(s) && IssuesOk(s) && Extends(s, c, check)
    ensures OwnersOk(Probe(s, c, check, nonce))
  {
    hide KeyAt, NthKey, Futures;
    var f, s' := s.demux.nextFuture, Probe(s, c, check, nonce);
    var prior := if c in s.checks then Futures(s.checks[c]) else [];
    assert f !in s.owner;
    assert forall g :: g in prior + [f] <==> g in prior || g == f;
    forall g | g in s'.owner
      ensures s'.owner[g] in s'.checks && g in Futures(s'.checks[s'.owner[g]])
    {
      if g != f {
        assert g in s.owner && g in Futures(s.checks[s.owner[g]]);
      }
    }
    forall d, g | d in s'.checks && g in Futures(s'.checks[d])
      ensures g in s'.owner && s'.owner[g] == d
    {
      if g != f {
        assert d in s.checks && g in Futures(s.checks[d]);
      }
    }
  }

  lemma ProbeIssues(s: State, c: nat, check: Check, nonce: seq<Byte>)
    requires IssuesOk(s) && KeyAt(s.demux.counter % KEYS) == NthKey(s.base, s.calls)
    ensures IssuesOk(Probe(s, c, check, nonce))
  {
    hide KeyAt, NthKey;
    NextCounter(s.base, s.calls);
  }

  lemma ProbePending(s: State, c: nat, check: Check, nonce: seq<Byte>)
    requires IssuesOk(s) && PendingOk(s)
    requires forall f :: f in s.owner ==> s.issues[f].key != KeyAt(s.demux.counter % KEYS)
    ensures PendingOk(Probe(s, c, check, nonce))
  {
    hide KeyAt, NthKey;
    var f, key := s.demux.nextFuture, KeyAt(s.demux.counter % KEYS);
    assert f !in s.owner && f !in s.issues;
    assert key !in s.demux.pending;
  }

  lemma ProbeResolved(s: State, c: nat, check: Check, nonce: seq<Byte>)
    requires IssuesOk(s) && ResolvedOk(s)
    ensures ResolvedOk(Probe(s, c, check, nonce))
  {
    hide KeyAt, NthKey, Answered;
    var f, s' := s.demux.nextFuture, Probe(s, c, check, nonce);
    assert f !in s.owner && f !in s.issues && f !in s.demux.resolved;
    NothingYet(s.log, s'.issues[f]);
  }

  lemma ProbeChecks(s: State, c: nat, check: Check, nonce: seq<Byte>)
    requires ChecksOk(s) && (check.Multi? ==> check.needs >= 1)
    ensures ChecksOk(Probe(s, c, check, nonce))
  {
  }

  /** A key drawn while it is pending cuts off the probe that waits for it. */
  lemma ProbeCutsOff(s: State, c: nat, check: Check, nonce: seq<Byte>)
    requires Inv(s) && !KeyFree(s.demux)
    ensures !PendingOk(Probe(s, c, check, nonce))
  {
    hide KeyAt, NthKey, ResolvedOk, OwnersOk, ChecksOk;
    var key, s' := KeyAt(s.demux.counter % KEYS), Probe(s, c, check, nonce);
    var f := s.demux.pending[key].future;
    assert f in s.owner && s.issues[f].key == key && f != s.demux.nextFuture;
    assert f in s'.owner && s'.issues[f].key == key && s'.demux.pending[key].future == s.demux.nextFuture;
  }

  /** A new probe keeps the invariant iff its key was free. */
  lemma ProbeKeepsInvIff(s: State, c: nat, check: Check, nonce: seq<Byte>)
    requires Inv(s) && Extends(s, c, check) && (check.Multi? ==> check.needs >= 1)
    ensures Inv(Probe(s, c, check, nonce)) <==> KeyFree(s.demux)
  {
    hide ChecksOk, OwnersOk, IssuesOk, PendingOk, ResolvedOk, Probe, KeyAt, NthKey, Extends, KeyFree;
    if KeyFree(s.demux) {
      NewKeyUnused(s);
      KeyOfDraw(s);
      ProbeChecks(s, c, check, nonce);
      ProbeOwners(s, c, check, nonce);
      ProbeIssues(s, c, check, nonce);
      ProbePending(s, c, check, nonce);
      ProbeResolved(s, c, check, nonce);
    } else {
      ProbeCutsOff(s, c, check, nonce);
    }
  }

  lemma NextCounter(base: nat, calls: nat)
    ensures ((base + calls) % KEYS + 1) % KEYS == (base + calls + 1) % KEYS
  {
    var v := base + calls;
    var q, r := v / KEYS, v % KEYS;
    assert v == KEYS * q + r;
    if r + 1 == KEYS {
      assert v + 1 == KEYS * (q + 1);
    } else {
      assert v + 1 == KEYS * q + (r + 1);
    }
  }

  lemma NothingYet(log: seq<Parsed>, i: Issue)
    requires i.seen == |log|
    ensures !Answered(log, i)
  {
  }

  lemma EndOwners(s: State, c: nat)
    requires OwnersOk(s) && c in s.checks
    ensures OwnersOk(Ended(s, c))
  {
    hide Futures, KeysOf;
    var s', fs := Ended(s, c), Futures(s.checks[c]);
    forall f | f in s'.owner
      ensures s'.owner[f] in s'.checks && f in Futures(s'.checks[s'.owner[f]])
    {
      assert f in s.owner && f !in fs && s'.owner[f] == s.owner[f];
      assert f in Futures(s.checks[s.owner[f]]);
    }
    forall d, f | d in s'.checks && f in Futures(s'.checks[d])
      ensures f in s'.owner && s'.owner[f] == d
    {
      assert f in Futures(s.checks[d]) && d != c;
      assert f in s.owner && s.owner[f] == d && f !in fs;
    }
  }

  /** An outstanding key is that of one future only. */
  lemma KeyIdentifies(s: State, f: nat, g: nat)
    requires PendingOk(s) && f in s.owner && g in s.owner && f in s.issues && g in s.issues
    requires s.issues[f].key == s.issues[g].key
    ensures f == g
  {
    assert s.demux.pending[s.issues[f].key] == Waiter(f, s.issues[f].nonce);
    assert s.demux.pending[s.issues[g].key] == Waiter(g, s.issues[g].nonce);
  }

  lemma EndPending(s: State, c: nat)
    requires OwnersOk(s) && IssuesOk(s) && PendingOk(s) && c in s.checks
    ensures PendingOk(Ended(s, c))
  {
    hide Futures, KeyAt, NthKey;
    var s', fs := Ended(s, c), Futures(s.checks[c]);
    var gone := KeysOf(s.issues, fs);
    forall f | f in s.owner
      ensures f in s.issues && (s.issues[f].key in gone <==> f in fs)
    {
      if s.issues[f].key in gone {
        var g :| g in fs && g in s.issues && s.issues[g].key == s.issues[f].key;
        KeyIdentifies(s, f, g);
      }
    }
    assert s'.owner == s.owner - Elements(fs) && s'.demux.pending == s.demux.pending - gone && s'.issues == s.issues;
    hide Ended, KeysOf, OwnersOk;
    EndedMap(s, s', fs, gone);
  }

  lemma EndedMap(s: State, s': State, fs: seq<nat>, gone: set<ProbeKey>)
    requires IssuesOk(s) && PendingOk(s) && forall f :: f in s.owner ==> (s.issues[f].key in gone <==> f in fs)
    requires s'.owner == s.owner - Elements(fs) && s'.demux.pending == s.demux.pending - gone && s'.issues == s.issues
    ensures PendingOk(s')
  {
    hide KeyAt, NthKey;
    forall k | k in s'.demux.pending
      ensures s'.demux.pending[k].future in s'.owner
    {
      assert k in s.demux.pending && s.issues[s.demux.pending[k].future].key == k;
    }
  }

  lemma EndRest(s: State, c: nat)
    requires ChecksOk(s) && IssuesOk(s) && ResolvedOk(s) && c in s.checks
    ensures ChecksOk(Ended(s, c)) && IssuesOk(Ended(s, c)) && ResolvedOk(Ended(s, c))
  {
    hide Futures, KeyAt, NthKey, Answered, KeysOf;
  }

  lemma EndKeepsInv(s: State, c: nat)
    requires Inv(s) && c in s.checks
    ensures Inv(Ended(s, c))
  {
    hide ChecksOk, OwnersOk, IssuesOk, PendingOk, ResolvedOk, Ended;
    EndOwners(s, c);
    EndPending(s, c);
    EndRest(s, c);
  }

  lemma PacketKeepsInv(s: State, p: Parsed)
    requires Inv(s)
    ensures Inv(Packet(s, p))
  {
    hide KeyAt, NthKey, Futures, StartsWith;
    var s' := Packet(s, p);
    forall f | f in s'.owner && f in s'.issues
      ensures f in s'.demux.resolved <==> Answered(s'.log, s'.issues[f])
    {
      OneMoreReply(s.log, p, s.issues[f]);
      var key := (p.ident, p.sequence);
      assert s.demux.pending[s.issues[f].key] == Waiter(f, s.issues[f].nonce);
    }
  }

  lemma OneMoreReply(log: seq<Parsed>, p: Parsed, i: Issue)
    requires i.seen <= |log|
    ensures Answered(log + [p], i) <==> Answered(log, i) || Answers(p, i.key, i.nonce)
  {
    if Answered(log, i) {
      var k :| i.seen <= k < |log| && Answers(log[k], i.key, i.nonce);
      assert (log + [p])[k] == log[k];
    }
    if Answers(p, i.key, i.nonce) {
      assert (log + [p])[|log|] == p;
    }
  }

  /** The key that `ev` draws, if it draws one, is free: not pending once the probe before it has left the map. */
  ghost predicate DrawsFree(s: State, ev: Event) {
    match ev
    case StartSingle(_, _) => KeyFree(s.demux)
    case StartMulti(_, _, _, _) => KeyFree(s.demux)
    case SendMore(_, _) => KeyFree(s.demux)
    case TimedOut(c, _) => c in s.checks && s.checks[c].Single? && s.checks[c].attempt < ATTEMPTS ==> KeyFree(Ended(s, c).demux)
    case _ => true
  }

  /** A step keeps the demultiplexer sound iff the key it draws, if any, is free. */
  lemma NextKeepsInv(s: State, ev: Event, s': State, verdict: Option<int>)
    requires Inv(s) && Next(s, ev, s', verdict)
    ensures Inv(s') <==> DrawsFree(s, ev)
  {
    hide OwnersOk, IssuesOk, PendingOk, ResolvedOk, Probe, Ended, Packet, KeyFree;
    match ev
    case StartSingle(c, nonce) => ProbeKeepsInvIff(s, c, Single(1, s.demux.nextFuture, []), nonce);
    case StartMulti(c, sends, needs, nonce) => ProbeKeepsInvIff(s, c, Multi(sends, needs, [s.demux.nextFuture]), nonce);
    case SendMore(c, nonce) =>
      ProbeKeepsInvIff(s, c, s.checks[c].(futures := s.checks[c].futures + [s.demux.nextFuture]), nonce);
    case TimedOut(c, nonce) =>
      EndKeepsInv(s, c);
      EndFrame(s, c);
      if s.checks[c].attempt < ATTEMPTS {
        ProbeKeepsInvIff(Ended(s, c), c, Again(s, c), nonce);
      }
    case Replied(c) => EndKeepsInv(s, c);
    case Counted(c) => EndKeepsInv(s, c);
    case Aborted(c) => EndKeepsInv(s, c);
    case Arrived(p) => PacketKeepsInv(s, p);
  }

  lemma EndFrame(s: State, c: nat)
    requires c in s.checks
    ensures c !in Ended(s, c).checks && Ended(s, c).demux.nextFuture == s.demux.nextFuture
  {
  }

  // ----- every run ---------------------------------------------------------------------------

  ghost predicate IsRun(states: seq<State>, evs: seq<Event>, verdicts: seq<Option<int>>) {
    && |states| == |evs| + 1 && |verdicts| == |evs|
    && forall i :: 0 <= i < |evs| ==>
         DrawsFree(states[i], evs[i]) && Next(states[i], evs[i], states[i + 1], verdicts[i])
  }

  ghost function Start(seed: nat): State {
    State(seed, 0, Demux(seed % KEYS, map[], {}, 0), map[], map[], map[], [])
  }

  lemma {:induction false} RunKeepsInv(seed: nat, states: seq<State>, evs: seq<Event>, verdicts: seq<Option<int>>, i: nat)
    requires IsRun(states, evs, verdicts) && states[0] == Start(seed) && i < |states|
    ensures Inv(states[i])
  {
    hide Next, OwnersOk, PendingOk, ResolvedOk, DrawsFree;
    if i == 0 {
      StartOk(seed);
    } else {
      RunKeepsInv(seed, states, evs, verdicts, i - 1);
      NextKeepsInv(states[i - 1], evs[i - 1], states[i], verdicts[i - 1]);
    }
  }

  lemma StartOk(seed: nat)
    ensures Inv(Start(seed))
  {
  }

  /** The probes of `fs` that a reply seen since they were sent answers, by key and nonce. */
  ghost function AnsweredProbes(s: State, fs: seq<nat>): set<nat> {
    set f | f in fs && f in s.issues && Answered(s.log, s.issues[f])
  }

  /** A verdict tells exactly how many of the check's distinct probes were answered by a reply with their own
      key and nonce while they were outstanding. */
  lemma CountedVerdict(s: State, c: nat, s': State, verdict: Option<int>)
    requires Inv(s) && Next(s, Counted(c), s', verdict)
    ensures var n := |AnsweredProbes(s, s.checks[c].futures)|;
            && (verdict == Some(OK) <==> n >= s.checks[c].needs)
            && (verdict == Some(UNPINGABLE) <==> n == 0)
            && (verdict == Some(DEGRADED) <==> 0 < n < s.checks[c].needs)
  {
    hide PendingOk, Answered;
    var fs := s.checks[c].futures;
    assert AnsweredProbes(s, fs) == set f | f in fs && f in s.demux.resolved by {
      forall f | f in fs
        ensures f in s.owner && f in s.issues
      {
        assert f in Futures(s.checks[c]);
      }
    }
  }

  // ----- the attempts of a single check ------------------------------------------------------

  /** A reply seen while the probe was outstanding, that is before the first `until` replies were over, answers it. */
  ghost predicate AnsweredInTime(s: State, p: Spent)
    requires p.future in s.issues
  {
    exists k :: s.issues[p.future].seen <= k < p.until && k < |s.log| && Answers(s.log[k], s.issues[p.future].key, s.issues[p.future].nonce)
  }

  /** The probes that check `c` has sent so far, the current one being outstanding up to now. */
  function Probes(s: State, c: nat): seq<Spent>
    requires c in s.checks && s.checks[c].Single?
  {
    s.checks[c].earlier + [Spent(s.checks[c].future, |s.log|)]
  }

  /** Those before the current one were sent for the same check, one after the other, and went unanswered. */
  ghost predicate EarlierOk(s: State, c: nat)
    requires c in s.checks && s.checks[c].Single?
  {
    var check := s.checks[c];
    && 1 <= check.attempt <= ATTEMPTS && |check.earlier| == check.attempt - 1
    && check.future in s.issues && s.issues[check.future].check == c
    && (forall i :: 0 <= i < |check.earlier| ==> SpentOk(s, c, check.earlier[i]) && check.earlier[i].future < check.future)
    && (forall i, j :: 0 <= i < j < |check.earlier| ==> check.earlier[i].future < check.earlier[j].future)
  }

  ghost predicate SpentOk(s: State, c: nat, p: Spent) {
    && p.future in s.issues && s.issues[p.future].check == c
    && s.issues[p.future].seen <= p.until <= |s.log| && !AnsweredInTime(s, p)
  }

  ghost predicate AttemptsOk(s: State) {
    forall c :: c in s.checks && s.checks[c].Single? ==> EarlierOk(s, c)
  }

  /** A step that leaves the check alone, and all that was recorded, leaves its attempts in order. */
  lemma EarlierStays(s: State, s': State, c: nat)
    requires c in s.checks && s.checks[c].Single? && EarlierOk(s, c) && c in s'.checks && s'.checks[c] == s.checks[c]
    requires s.log <= s'.log && (forall f :: f in s.issues ==> f in s'.issues && s'.issues[f] == s.issues[f])
    ensures EarlierOk(s', c)
  {
    hide Answers;
    var earlier := s.checks[c].earlier;
    forall i | 0 <= i < |earlier|
      ensures SpentOk(s', c, earlier[i])
    {
      SpentStays(s, s', c, earlier[i]);
    }
  }

  lemma SpentStays(s: State, s': State, c: nat, p: Spent)
    requires SpentOk(s, c, p) && s.log <= s'.log && (forall f :: f in s.issues ==> f in s'.issues && s'.issues[f] == s.issues[f])
    ensures SpentOk(s', c, p)
  {
    hide Answers;
    assert forall k :: 0 <= k < |s.log| ==> s'.log[k] == s.log[k];
  }

  /** The current probe of a single check is answered in time iff its future is resolved. */
  lemma CurrentProbe(s: State, c: nat)
    requires Inv(s) && c in s.checks && s.checks[c].Single?
    ensures var f := s.checks[c].future;
            && f in s.issues && s.issues[f].seen <= |s.log|
            && (AnsweredInTime(s, Spent(f, |s.log|)) <==> f in s.demux.resolved)
  {
    hide PendingOk, Answers, ChecksOk, KeyAt, NthKey;
    var f := s.checks[c].future;
    assert f in Futures(s.checks[c]);
    assert f in s.owner;
  }

  /** What every step does to the log and to what was issued. */
  lemma RecordsGrow(s: State, ev: Event, s': State, verdict: Option<int>)
    requires Inv(s) && Next(s, ev, s', verdict)
    ensures s.log <= s'.log && (forall f :: f in s.issues ==> f in s'.issues && s'.issues[f] == s.issues[f])
  {
    hide OwnersOk, PendingOk, ResolvedOk, ChecksOk, KeyAt, NthKey, Futures, KeysOf, Received, Answers;
  }

  lemma StartsInOrder(s: State, c: nat, nonce: seq<Byte>)
    requires c !in s.checks
    ensures EarlierOk(Probe(s, c, Single(1, s.demux.nextFuture, []), nonce), c)
  {
  }

  lemma AgainInOrder(s: State, c: nat, nonce: seq<Byte>)
    requires Inv(s) && AttemptsOk(s) && c in s.checks && s.checks[c].Single? && s.checks[c].attempt < ATTEMPTS
    requires s.checks[c].future !in s.demux.resolved
    ensures EarlierOk(Probe(Ended(s, c), c, Again(s, c), nonce), c)
  {
    hide OwnersOk, PendingOk, ResolvedOk, ChecksOk, AttemptsOk, AnsweredInTime, KeyAt, NthKey, KeysOf;
    assert EarlierOk(s, c) by {
      AttemptsOf(s, c);
    }
    CurrentProbe(s, c);
    var s', check := Probe(Ended(s, c), c, Again(s, c), nonce), s.checks[c];
    var now := Spent(check.future, |s.log|);
    assert check.future < s.demux.nextFuture;
    assert s.demux.nextFuture !in s.issues;
    SpentStays(s, s', c, now);
    forall i | 0 <= i < |check.earlier|
      ensures SpentOk(s', c, check.earlier[i])
    {
      SpentStays(s, s', c, check.earlier[i]);
    }
  }

  lemma AttemptsOf(s: State, c: nat)
    requires AttemptsOk(s) && c in s.checks && s.checks[c].Single?
    ensures EarlierOk(s, c)
  {
  }

  /** Which single checks a step leaves alone. */
  lemma OthersStay(s: State, ev: Event, s': State, verdict: Option<int>, c: nat)
    requires Next(s, ev, s', verdict) && c in s'.checks && s'.checks[c].Single?
    requires !(ev.StartSingle? && ev.c == c) && !(ev.TimedOut? && ev.c == c)
    ensures c in s.checks && s'.checks[c] == s.checks[c]
  {
    hide KeyAt, Futures, KeysOf, Received, Receive;
  }

  lemma NextKeepsAttempts(s: State, ev: Event, s': State, verdict: Option<int>)
    requires Inv(s) && AttemptsOk(s) && Next(s, ev, s', verdict)
    ensures AttemptsOk(s')
  {
    hide Inv, EarlierOk, Probe, Ended, Packet, Received;
    RecordsGrow(s, ev, s', verdict);
    forall c | c in s'.checks && s'.checks[c].Single?
      ensures EarlierOk(s', c)
    {
      if ev.StartSingle? && ev.c == c {
        StartsInOrder(s, c, ev.nonce);
      } else if ev.TimedOut? && ev.c == c {
        EndFrame(s, c);
        AgainInOrder(s, c, ev.nonce);
      } else {
        OthersStay(s, ev, s', verdict, c);
        EarlierStays(s, s', c);
      }
    }
  }

  lemma {:induction false} RunKeepsAttempts(seed: nat, states: seq<State>, evs: seq<Event>, verdicts: seq<Option<int>>, i: nat)
    requires IsRun(states, evs, verdicts) && states[0] == Start(seed) && i < |states|
    ensures AttemptsOk(states[i])
  {
    hide Inv, Next, AttemptsOk, DrawsFree;
    if i == 0 {
      NoAttempts(seed);
    } else {
      RunKeepsAttempts(seed, states, evs, verdicts, i - 1);
      RunKeepsInv(seed, states, evs, verdicts, i - 1);
      NextKeepsAttempts(states[i - 1], evs[i - 1], states[i], verdicts[i - 1]);
    }
  }

  lemma NoAttempts(seed: nat)
    ensures AttemptsOk(Start(seed))
  {
  }

  /** Some probe of a single check was answered in time. */
  ghost predicate AnyInTime(s: State, c: nat)
    requires c in s.checks && s.checks[c].Single?
  {
    exists i :: 0 <= i < |Probes(s, c)| && Probes(s, c)[i].future in s.issues && AnsweredInTime(s, Probes(s, c)[i])
  }

  lemma OnlyTheLast(s: State, c: nat)
    requires Inv(s) && AttemptsOk(s) && c in s.checks && s.checks[c].Single?
    ensures AnyInTime(s, c) <==> s.checks[c].future in s.demux.resolved
  {
    hide Inv, AnsweredInTime, AttemptsOk;
    AttemptsOf(s, c);
    CurrentProbe(s, c);
    var probes, n := Probes(s, c), |s.checks[c].earlier|;
    assert probes[n] == Spent(s.checks[c].future, |s.log|);
    assert forall i :: 0 <= i < n ==> probes[i] == s.checks[c].earlier[i] && !AnsweredInTime(s, probes[i]);
    if AnyInTime(s, c) {
      var i :| 0 <= i < |probes| && probes[i].future in s.issues && AnsweredInTime(s, probes[i]);
      assert i == n;
    }
  }

  /** In every run, when the probe of a single check is answered or times out: the check has sent at most three probes,
      distinct and for itself. It reads up iff one of them was answered by a reply with its own key and nonce while it
      was outstanding, reads down iff all three were sent and none was, and otherwise goes on. */
  lemma SingleVerdict(seed: nat, states: seq<State>, evs: seq<Event>, verdicts: seq<Option<int>>, i: nat)
    requires IsRun(states, evs, verdicts) && states[0] == Start(seed) && i < |evs| && (evs[i].Replied? || evs[i].TimedOut?)
    ensures evs[i].c in states[i].checks && states[i].checks[evs[i].c].Single?
    ensures var s, c := states[i], evs[i].c;
            && 1 <= |Probes(s, c)| <= 3
            && (forall j :: 0 <= j < |Probes(s, c)| ==> Probes(s, c)[j].future in s.issues && s.issues[Probes(s, c)[j].future].check == c)
            && (forall j, k :: 0 <= j < k < |Probes(s, c)| ==> Probes(s, c)[j].future != Probes(s, c)[k].future)
            && (verdicts[i] == Some(OK) <==> AnyInTime(s, c))
            && (verdicts[i] == Some(UNPINGABLE) <==> !AnyInTime(s, c) && |Probes(s, c)| == 3)
            && (verdicts[i] == None <==> !AnyInTime(s, c) && |Probes(s, c)| < 3)
  {
    hide Inv, DrawsFree, AttemptsOk, AnyInTime, Probe, Ended, SpentOk;
    RunKeepsInv(seed, states, evs, verdicts, i);
    RunKeepsAttempts(seed, states, evs, verdicts, i);
    assert Next(states[i], evs[i], states[i + 1], verdicts[i]);
    OnlyTheLast(states[i], evs[i].c);
    AttemptsOf(states[i], evs[i].c);
    SpentMeans(states[i], evs[i].c);
  }

  lemma SpentMeans(s: State, c: nat)
    requires c in s.checks && s.checks[c].Single? && EarlierOk(s, c)
    ensures forall j :: 0 <= j < |s.checks[c].earlier| ==>
              s.checks[c].earlier[j].future in s.issues && s.issues[s.checks[c].earlier[j].future].check == c
  {
    hide AnsweredInTime;
  }

  /** In every run the verdict of a loss-tolerant check reflects its replies. */
  lemma VerdictsReflectReplies(seed: nat, states: seq<State>, evs: seq<Event>, verdicts: seq<Option<int>>, i: nat, c: nat)
    requires IsRun(states, evs, verdicts) && states[0] == Start(seed) && i < |evs| && evs[i] == Counted(c)
    ensures c in states[i].checks && states[i].checks[c].Multi?
    ensures var check := states[i].checks[c];
            var n := |AnsweredProbes(states[i], check.futures)|;
            && (verdicts[i] == Some(OK) <==> n >= check.needs)
            && (verdicts[i] == Some(UNPINGABLE) <==> n == 0)
            && (verdicts[i] == Some(DEGRADED) <==> 0 < n < check.needs)
  {
    hide Inv, DrawsFree;
    RunKeepsInv(seed, states, evs, verdicts, i);
    assert Next(states[i], evs[i], states[i + 1], verdicts[i]);
    CountedVerdict(states[i], c, states[i + 1], verdicts[i]);
  }

  /** In every run: every pending key belongs to a check still under way, so however a check ended, none of
      its keys is left behind. */
  lemma NoKeyLeftBehind(seed: nat, states: seq<State>, evs: seq<Event>, verdicts: seq<Option<int>>, i: nat, k: ProbeKey)
    requires IsRun(states, evs, verdicts) && states[0] == Start(seed) && i < |states|
    requires k in states[i].demux.pending
    ensures var f := states[i].demux.pending[k].future;
            f in states[i].owner && states[i].owner[f] in states[i].checks && f in Futures(states[i].checks[states[i].owner[f]])
  {
    hide DrawsFree, Next;
    RunKeepsInv(seed, states, evs, verdicts, i);
  }
}
