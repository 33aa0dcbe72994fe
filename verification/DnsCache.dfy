/** The DNS cache: expiry, single-flight lookups and exact counters over all interleavings of callers. */
module DnsCache {
  import opened Model

  datatype Family = V4 | V6

  datatype HostKey = HostKey(hostname: string, family: Family)

  datatype Answer = Answer(ip: string, at: real)

  // ----- the cache object --------------------------------------------------------------------

  /** The cache's own fields; `held` are the keys whose lock is taken. */
  datatype Store = Store(ttl: real, cache: map<HostKey, Answer>, held: set<HostKey>, hits: nat, misses: nat, expired: nat)

  predicate IsFresh(st: Store, key: HostKey, now: real) {
    key in st.cache && now - st.cache[key].at < st.ttl
  }

  /** The look before the lock. */
  function Glance(st: Store, key: HostKey, now: real): Store {
    if IsFresh(st, key, now) then st.(hits := st.hits + 1) else st
  }

  /** The look under the lock: a hit gives the lock back, a miss evicts what has aged out and keeps it. */
  function Enter(st: Store, key: HostKey, now: real): Store {
    if IsFresh(st, key, now) then st.(hits := st.hits + 1)
    else st.(misses := st.misses + 1, expired := st.expired + (if key in st.cache then 1 else 0),
             cache := st.cache - {key}, held := st.held + {key})
  }

  /** The lookup came back; only an address is stored. */
  function Leave(st: Store, key: HostKey, ip: Option<string>, now: real): Store {
    var st1 := st.(held := st.held - {key});
    if ip.Some? then st1.(cache := st1.cache[key := Answer(ip.value, now)]) else st1
  }

  class Cache {
    const ttl: real
    var cache: map<HostKey, Answer>
    var held: set<HostKey>
    var hits: nat
    var misses: nat
    var expired: nat

    constructor (ttl: real)
      ensures View() == Store(ttl, map[], {}, 0, 0, 0)
    {
      this.ttl := ttl;
      cache, held, hits, misses, expired := map[], {}, 0, 0, 0;
    }

    function View(): Store
      reads this
    {
      Store(ttl, cache, held, hits, misses, expired)
    }

    function Fresh(key: HostKey, now: real): (r: Option<string>)
      reads this
      ensures r.Some? <==> IsFresh(View(), key, now)
      ensures r.Some? ==> r.value == cache[key].ip
    {
      if key in cache && now - cache[key].at < ttl then Some(cache[key].ip) else None
    }

    /** `resolve` up to the lock. */
    method Look(key: HostKey, now: real) returns (cached: Option<string>)
      modifies this
      ensures View() == Glance(old(View()), key, now)
      ensures cached == old(Fresh(key, now))
    {
      cached := Fresh(key, now);
      if cached.Some? {
        hits := hits + 1;
      }
    }

    /** `resolve` from the lock to the lookup, or to a late hit. */
    method LookLocked(key: HostKey, now: real) returns (cached: Option<string>)
      requires key !in held
      modifies this
      ensures View() == Enter(old(View()), key, now)
      ensures cached == old(Fresh(key, now)) && (cached.None? <==> key in held)
    {
      cached := Fresh(key, now);
      if cached.Some? {
        hits := hits + 1;
        return;
      }
      misses := misses + 1;
      if key in cache {
        cache := cache - {key};
        expired := expired + 1;
      }
      held := held + {key};
      assert old(cache) - {key} == cache;
    }

    /** `resolve` from the lookup's return; an exception is a return without an address. */
    method LookupDone(key: HostKey, ip: Option<string>, now: real)
      requires key in held
      modifies this
      ensures View() == Leave(old(View()), key, ip, now)
    {
      if ip.Some? {
        cache := cache[key := Answer(ip.value, now)];
      }
      held := held - {key};
    }
  }

  // ----- callers -----------------------------------------------------------------------------

  /** Where a caller of `resolve` is suspended. */
  datatype Phase = Waiting(key: HostKey) | Looking(key: HostKey)

  /** An address handed out from the cache: which stored answer, and when. */
  datatype Served = Served(key: HostKey, answer: Answer, when_: real)

  /** The cache with its callers, and what an observer has counted: calls made, lookups started, calls given up before
      the lock was theirs, lookups that brought an address (with what they brought), and answers served from the cache. */
  datatype State = State(
    store: Store,
    callers: map<nat, Phase>,
    calls: nat,
    started: nat,
    left: nat,
    found: nat,
    brought: set<(HostKey, Answer)>,
    served: set<Served>)

  /** What a caller does. A check that runs out of time gives up its call: while waiting for the lock by `GiveUp`, while
      looking up by a `Back` without an address. */
  datatype Event =
    | Call(caller: nat, key: HostKey)
    | Lock(caller: nat)
    | GiveUp(caller: nat)
    | Back(caller: nat, ip: Option<string>)

  ghost function Serve(s: State, key: HostKey, now: real): State
    requires IsFresh(s.store, key, now)
  {
    s.(served := s.served + {Served(key, s.store.cache[key], now)})
  }

  ghost predicate Next(s: State, now: real, ev: Event, s': State) {
    match ev
    case Call(c, key) =>
      && c !in s.callers
      && var t := s.(store := Glance(s.store, key, now), calls := s.calls + 1);
         s' == if IsFresh(s.store, key, now) then Serve(s, key, now).(store := t.store, calls := t.calls)
               else t.(callers := s.callers[c := Waiting(key)])
    case Lock(c) =>
      && c in s.callers && s.callers[c].Waiting? && s.callers[c].key !in s.store.held
      && var key := s.callers[c].key;
         s' == if IsFresh(s.store, key, now)
               then Serve(s, key, now).(store := Enter(s.store, key, now), callers := s.callers - {c})
               else s.(store := Enter(s.store, key, now), callers := s.callers[c := Looking(key)], started := s.started + 1)
    case GiveUp(c) =>
      && c in s.callers && s.callers[c].Waiting?
      && s' == s.(callers := s.callers - {c}, left := s.left + 1)
    case Back(c, ip) =>
      && c in s.callers && s.callers[c].Looking?
      && var key := s.callers[c].key;
         var t := s.(store := Leave(s.store, key, ip, now), callers := s.callers - {c});
         s' == if ip.None? then t
               else t.(found := s.found + 1, brought := s.brought + {(key, Answer(ip.value, now))})
  }

  ghost function Start(ttl: real): State {
    State(Store(ttl, map[], {}, 0, 0, 0), map[], 0, 0, 0, 0, {}, {})
  }

  ghost predicate IsRun(states: seq<State>, evs: seq<(real, Event)>) {
    |states| == |evs| + 1 && forall i :: 0 <= i < |evs| ==> Next(states[i], evs[i].0, evs[i].1, states[i + 1])
  }

  // ----- invariant ---------------------------------------------------------------------------

  ghost function WaitingCallers(s: State): set<nat> {
    set c | c in s.callers && s.callers[c].Waiting?
  }

  /** The callers with a lookup for `key` in flight. */
  ghost function LookingFor(s: State, key: HostKey): set<nat> {
    set c | c in s.callers && s.callers[c] == Looking(key)
  }

  ghost predicate LocksOk(s: State) {
    && (forall c :: c in s.callers && s.callers[c].Looking? ==> s.callers[c].key in s.store.held)
    && (forall c, d :: c in s.callers && d in s.callers && s.callers[c].Looking? && s.callers[d] == s.callers[c] ==> c == d)
    && (forall key :: key in s.store.held ==> key !in s.store.cache)
  }

  ghost predicate AnswersOk(s: State) {
    && (forall key :: key in s.store.cache ==> (key, s.store.cache[key]) in s.brought)
    && (forall v :: v in s.served ==> (v.key, v.answer) in s.brought && v.when_ - v.answer.at < s.store.ttl)
  }

  ghost predicate CountersOk(s: State) {
    && s.store.misses == s.started
    && s.found == s.store.expired + |s.store.cache|
    && s.calls == s.store.hits + s.store.misses + |WaitingCallers(s)| + s.left
  }

  ghost predicate Inv(s: State) {
    LocksOk(s) && AnswersOk(s) && CountersOk(s)
  }

  lemma NextKeepsLocks(s: State, now: real, ev: Event, s': State)
    requires Inv(s) && Next(s, now, ev, s')
    ensures LocksOk(s')
  {
    hide CountersOk, AnswersOk;
  }

  lemma NextKeepsAnswers(s: State, now: real, ev: Event, s': State)
    requires Inv(s) && Next(s, now, ev, s')
    ensures AnswersOk(s')
  {
    hide CountersOk, LocksOk;
  }

  lemma Evicted<K, V>(m: map<K, V>, k: K)
    ensures |m - {k}| == |m| - (if k in m then 1 else 0)
  {
    if k in m {
      assert m.Keys == (m - {k}).Keys + {k};
    } else {
      assert m - {k} == m;
    }
  }

  lemma Stored<K, V>(m: map<K, V>, k: K, v: V)
    requires k !in m
    ensures |m[k := v]| == |m| + 1
  {
    assert m[k := v].Keys == m.Keys + {k};
  }

  lemma CallKeepsCounters(s: State, now: real, c: nat, key: HostKey, s': State)
    requires CountersOk(s) && Next(s, now, Call(c, key), s')
    ensures CountersOk(s')
  {
    if IsFresh(s.store, key, now) {
      assert WaitingCallers(s') == WaitingCallers(s);
    } else {
      assert WaitingCallers(s') == WaitingCallers(s) + {c};
    }
  }

  lemma LockKeepsCounters(s: State, now: real, c: nat, s': State)
    requires CountersOk(s) && Next(s, now, Lock(c), s')
    ensures CountersOk(s')
  {
    assert c in WaitingCallers(s) && WaitingCallers(s') == WaitingCallers(s) - {c};
    Evicted(s.store.cache, s.callers[c].key);
  }

  lemma GiveUpKeepsCounters(s: State, now: real, c: nat, s': State)
    requires CountersOk(s) && Next(s, now, GiveUp(c), s')
    ensures CountersOk(s')
  {
    assert c in WaitingCallers(s) && WaitingCallers(s') == WaitingCallers(s) - {c};
  }

  lemma BackKeepsCounters(s: State, now: real, c: nat, ip: Option<string>, s': State)
    requires LocksOk(s) && CountersOk(s) && Next(s, now, Back(c, ip), s')
    ensures CountersOk(s')
  {
    assert WaitingCallers(s') == WaitingCallers(s);
    if ip.Some? {
      Stored(s.store.cache, s.callers[c].key, Answer(ip.value, now));
    }
  }

  lemma NextKeepsCounters(s: State, now: real, ev: Event, s': State)
    requires Inv(s) && Next(s, now, ev, s')
    ensures CountersOk(s')
  {
    hide AnswersOk, CountersOk, LocksOk;
    match ev
    case Call(c, key) => CallKeepsCounters(s, now, c, key, s');
    case Lock(c) => LockKeepsCounters(s, now, c, s');
    case GiveUp(c) => GiveUpKeepsCounters(s, now, c, s');
    case Back(c, ip) => BackKeepsCounters(s, now, c, ip, s');
  }

  lemma {:induction false} RunKeepsInv(ttl: real, states: seq<State>, evs: seq<(real, Event)>, i: nat)
    requires IsRun(states, evs) && states[0] == Start(ttl) && i < |states|
    ensures Inv(states[i])
  {
    hide Next, LocksOk, AnswersOk, CountersOk;
    if i == 0 {
      StartOk(ttl);
    } else {
      RunKeepsInv(ttl, states, evs, i - 1);
      NextKeepsLocks(states[i - 1], evs[i - 1].0, evs[i - 1].1, states[i]);
      NextKeepsAnswers(states[i - 1], evs[i - 1].0, evs[i - 1].1, states[i]);
      NextKeepsCounters(states[i - 1], evs[i - 1].0, evs[i - 1].1, states[i]);
    }
  }

  lemma StartOk(ttl: real)
    ensures Inv(Start(ttl))
  {
    assert WaitingCallers(Start(ttl)) == {};
  }

  /** A call is answered from the cache iff there is an entry for its key that is younger than the expiry time, before the lock
      or under it; it then starts no lookup. Otherwise it waits for the lock, and under it starts one. */
  lemma FreshEntriesAreServed(s: State, now: real, ev: Event, s': State)
    requires Next(s, now, ev, s') && (ev.Call? || ev.Lock?)
    ensures var key := if ev.Call? then ev.key else s.callers[ev.caller].key;
            var fresh_ := key in s.store.cache && now - s.store.cache[key].at < s.store.ttl;
            && (fresh_ <==> s'.store.hits == s.store.hits + 1)
            && (fresh_ ==> Served(key, s.store.cache[key], now) in s'.served && ev.caller !in s'.callers && s'.started == s.started && s'.store.cache == s.store.cache)
            && (!fresh_ ==> s'.served == s.served && ev.caller in s'.callers && s'.callers[ev.caller] == if ev.Call? then Waiting(key) else Looking(key))
            && (!fresh_ && ev.Lock? ==> s'.started == s.started + 1 && key !in s'.store.cache)
  {
  }

  /** A lookup that brings an address is what the next calls are answered with, from the time it came back; one that fails
      leaves nothing. */
  lemma LookupIsCached(s: State, now: real, ev: Event, s': State)
    requires Next(s, now, ev, s') && ev.Back?
    ensures var key := s.callers[ev.caller].key;
            && (ev.ip.Some? ==> s'.store.cache == s.store.cache[key := Answer(ev.ip.value, now)])
            && (ev.ip.None? ==> s'.store.cache == s.store.cache)
            && key !in s'.store.held && ev.caller !in s'.callers
  {
  }

  /** How many of the first `i` events give up a call. */
  ghost function GiveUps(evs: seq<(real, Event)>, i: nat): nat
    requires i <= |evs|
  {
    if i == 0 then 0 else GiveUps(evs, i - 1) + (if evs[i - 1].1.GiveUp? then 1 else 0)
  }

  lemma {:induction false} LeftCountsGiveUps(ttl: real, states: seq<State>, evs: seq<(real, Event)>, i: nat)
    requires IsRun(states, evs) && states[0] == Start(ttl) && i < |states|
    ensures states[i].left == GiveUps(evs, i)
  {
    if i > 0 {
      LeftCountsGiveUps(ttl, states, evs, i - 1);
      assert Next(states[i - 1], evs[i - 1].0, evs[i - 1].1, states[i]);
    }
  }

  /** In every run of any number of callers: never two lookups of one key at once; every address served from
      the cache was brought by a lookup of that same key and was younger than the expiry time when served, and
      so was every entry, so that no failure is ever cached;
      each miss is a lookup started; each lookup that brought an address is still cached or was counted
      expired; and every call is a hit, a miss, still waiting for the lock, or was given up while waiting for it. */
  lemma CacheIsSound(ttl: real, states: seq<State>, evs: seq<(real, Event)>, i: nat, key: HostKey)
    requires IsRun(states, evs) && states[0] == Start(ttl) && i < |states|
    ensures |LookingFor(states[i], key)| <= 1
    ensures forall v :: v in states[i].served ==>
              (v.key, v.answer) in states[i].brought && v.when_ - v.answer.at < states[i].store.ttl
    ensures forall k :: k in states[i].store.cache ==> (k, states[i].store.cache[k]) in states[i].brought
    ensures states[i].store.misses == states[i].started
    ensures states[i].found == states[i].store.expired + |states[i].store.cache|
    ensures states[i].calls == states[i].store.hits + states[i].store.misses + |WaitingCallers(states[i])| + states[i].left
    ensures states[i].left == GiveUps(evs, i)
  {
    RunKeepsInv(ttl, states, evs, i);
    LeftCountsGiveUps(ttl, states, evs, i);
    var looking := LookingFor(states[i], key);
    if looking != {} {
      var c :| c in looking;
      assert looking == {c};
    }
  }

  /** Hits and misses alone do not account for the calls: one caller looks a host up, a second one waits for it and runs
      out of time. */
  lemma GivenUpCallIsNotCounted(ttl: real, key: HostKey) returns (states: seq<State>, evs: seq<(real, Event)>)
    ensures IsRun(states, evs) && states[0] == Start(ttl) && |states| == 5
    ensures states[4].calls == 2 && states[4].store.hits == 0 && states[4].store.misses == 1 && WaitingCallers(states[4]) == {}
  {
    var s0 := Start(ttl);
    var s1 := s0.(calls := 1, callers := map[0 := Waiting(key)]);
    var s2 := s1.(store := Enter(s1.store, key, 0.0), callers := map[0 := Looking(key)], started := 1);
    var s3 := s2.(calls := 2, callers := map[0 := Looking(key), 1 := Waiting(key)]);
    var s4 := s3.(callers := map[0 := Looking(key)], left := 1);
    states, evs := [s0, s1, s2, s3, s4], [(0.0, Call(0, key)), (0.0, Lock(0)), (0.0, Call(1, key)), (0.0, GiveUp(1))];
    assert s0.callers[0 := Waiting(key)] == s1.callers && s1.callers[0 := Looking(key)] == s2.callers;
    assert s2.callers[1 := Waiting(key)] == s3.callers && s3.callers - {1} == s4.callers;
  }
}
