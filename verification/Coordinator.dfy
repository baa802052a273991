/**
 * Rate windows and leased slots, as local maps and as Redis scripts, on one millisecond clock:
 * service/coordination.go.
 */
module Coordinator {
  import opened Wrappers

  const SWEEP_INTERVAL := 60_000
  const KEY_SLACK := 60_000

  /** The unexpired part of a slot table. */
  function Live(slots: map<string, int>, now: int): map<string, int> {
    map t | t in slots && slots[t] > now :: slots[t]
  }

  datatype Answer = Yes | No | BadTtl

  datatype Call =
    | Allow(key: string, limit: int, window: int)
    | Acquire(scope: string, max: int, token: string, ttl: int)
    | Renew(scope: string, token: string, ttl: int)
    | Release(scope: string, token: string)

  // ---------------------------------------------------------------- local maps

  datatype RateEntry = RateEntry(expiresAt: int, count: int)

  datatype Local = Local(rate: map<string, RateEntry>, slots: map<string, map<string, int>>, swept: Option<int>)

  function SlotsOf(l: Local, scope: string): map<string, int> {
    if scope in l.slots then l.slots[scope] else map[]
  }

  /** Drop what has expired, at most once a minute. */
  function Sweep(l: Local, now: int): Local {
    if l.swept.Some? && now - l.swept.value < SWEEP_INTERVAL then l
    else
      Local(map k | k in l.rate && l.rate[k].expiresAt > now :: l.rate[k],
            map s | s in l.slots && Live(l.slots[s], now) != map[] :: Live(l.slots[s], now),
            Some(now))
  }

  function LocalAllow(l: Local, key: string, limit: int, window: int, now: int): (Local, Answer) {
    if key !in l.rate || l.rate[key].expiresAt <= now then (l.(rate := l.rate[key := RateEntry(now + window, 1)]), Yes)
    else if l.rate[key].count >= limit then (l, No)
    else (l.(rate := l.rate[key := l.rate[key].(count := l.rate[key].count + 1)]), Yes)
  }

  function LocalAcquire(l: Local, scope: string, max: int, token: string, ttl: int, now: int): (Local, Answer) {
    var slots := Live(SlotsOf(l, scope), now);
    if |slots| >= max then (l.(slots := l.slots[scope := slots]), No)
    else (l.(slots := l.slots[scope := slots[token := now + ttl]]), Yes)
  }

  /** Remove one token, and the scope with its last token. */
  function Without(l: Local, scope: string, token: string): Local {
    var slots := SlotsOf(l, scope) - {token};
    l.(slots := if slots == map[] then l.slots - {scope} else l.slots[scope := slots])
  }

  function LocalRenew(l: Local, scope: string, token: string, ttl: int, now: int): (Local, Answer) {
    var slots := SlotsOf(l, scope);
    if ttl <= 0 then (l, BadTtl)
    else if token in slots && slots[token] > now then (l.(slots := l.slots[scope := slots[token := now + ttl]]), Yes)
    else (Without(l, scope, token), No)
  }

  /** One call; rate checks and acquisitions sweep first when `sweeping`. */
  function LocalStep(l: Local, call: Call, now: int, sweeping: bool): (Local, Answer) {
    match call
    case Allow(key, limit, window) => LocalAllow(if sweeping then Sweep(l, now) else l, key, limit, window, now)
    case Acquire(scope, max, token, ttl) =>
      LocalAcquire(if sweeping then Sweep(l, now) else l, scope, max, token, ttl, now)
    case Renew(scope, token, ttl) => LocalRenew(l, scope, token, ttl, now)
    case Release(scope, token) => (Without(l, scope, token), Yes)
  }

  class RuntimeCoordinator {
    var localRate: map<string, RateEntry>
    var localSlots: map<string, map<string, int>>
    var localSweep: Option<int>

    function State(): Local
      reads this
    {
      Local(localRate, localSlots, localSweep)
    }

    constructor ()
      ensures State() == Local(map[], map[], None)
    {
      localRate, localSlots, localSweep := map[], map[], None;
    }

    method SweepLocalState(now: int)
      modifies this
      ensures State() == Sweep(old(State()), now)
    {
      if localSweep.Some? && now - localSweep.value < SWEEP_INTERVAL {
        return;
      }
      SweepRates(now);
      SweepSlots(now);
      localSweep := Some(now);
    }

    method SweepRates(now: int)
      modifies this`localRate
      ensures localRate == map k | k in old(localRate) && old(localRate)[k].expiresAt > now :: old(localRate)[k]
    {
      var rate := localRate;
      var keys := rate.Keys;
      while keys != {}
        invariant keys <= rate.Keys
        invariant localRate == map k | k in rate && (k in keys || rate[k].expiresAt > now) :: rate[k]
        decreases |keys|
      {
        var key :| key in keys;
        keys := keys - {key};
        if rate[key].expiresAt <= now {
          localRate := localRate - {key};
        }
      }
    }

    method SweepSlots(now: int)
      modifies this`localSlots
      ensures localSlots == map s | s in old(localSlots) && Live(old(localSlots)[s], now) != map[] ::
                Live(old(localSlots)[s], now)
    {
      hide Swept;
      var slots := localSlots;
      var scopes := slots.Keys;
      NothingSwept(slots, now);
      while scopes != {}
        invariant scopes <= slots.Keys && localSlots == Swept(slots, scopes, now)
        decreases |scopes|
      {
        var scope :| scope in scopes;
        SweptOneMore(slots, scopes, scope, now);
        scopes := scopes - {scope};
        var kept := DropExpired(slots[scope], now);
        localSlots := localSlots[scope := kept];
        if |kept| == 0 {
          localSlots := localSlots - {scope};
        }
      }
      AllSwept(slots, now);
    }

    method Allow(key: string, limit: int, window: int, now: int) returns (answer: Answer)
      modifies this
      ensures (State(), answer) == LocalStep(old(State()), Call.Allow(key, limit, window), now, true)
    {
      SweepLocalState(now);
      if key !in localRate || localRate[key].expiresAt <= now {
        localRate := localRate[key := RateEntry(now + window, 1)];
        return Yes;
      }
      var entry := localRate[key];
      if entry.count >= limit {
        return No;
      }
      localRate := localRate[key := entry.(count := entry.count + 1)];
      return Yes;
    }

    method AcquireLease(scope: string, max: int, token: string, ttl: int, now: int) returns (answer: Answer)
      modifies this
      ensures (State(), answer) == LocalStep(old(State()), Acquire(scope, max, token, ttl), now, true)
    {
      SweepLocalState(now);
      var slots := if scope in localSlots then localSlots[scope] else map[];
      slots := DropExpired(slots, now);
      localSlots := localSlots[scope := slots];
      if |slots| >= max {
        return No;
      }
      ghost var trimmed, base := slots, old(State());
      slots := slots[token := now + ttl];
      assert Sweep(base, now).slots[scope := trimmed][scope := slots] == Sweep(base, now).slots[scope := slots];
      localSlots := localSlots[scope := slots];
      return Yes;
    }

    method RenewSlot(scope: string, token: string, ttl: int, now: int) returns (answer: Answer)
      modifies this`localSlots
      ensures (State(), answer) == LocalStep(old(State()), Renew(scope, token, ttl), now, true)
    {
      if ttl <= 0 {
        return BadTtl;
      }
      var slots := if scope in localSlots then localSlots[scope] else map[];
      if token !in slots || slots[token] <= now {
        ReleaseSlot(scope, token);
        return No;
      }
      localSlots := localSlots[scope := slots[token := now + ttl]];
      return Yes;
    }

    method ReleaseSlot(scope: string, token: string)
      modifies this`localSlots
      ensures State() == LocalStep(old(State()), Release(scope, token), 0, true).0
    {
      var slots := if scope in localSlots then localSlots[scope] else map[];
      slots := slots - {token};
      if |slots| == 0 {
        localSlots := localSlots - {scope};
      } else {
        localSlots := localSlots[scope := slots];
      }
    }
  }

  /** The slot tables while those of `scopes` are still to be swept. */
  function Swept(slots: map<string, map<string, int>>, scopes: set<string>, now: int): map<string, map<string, int>> {
    map s | s in slots && (s in scopes || Live(slots[s], now) != map[]) ::
      if s in scopes then slots[s] else Live(slots[s], now)
  }

  lemma NothingSwept(slots: map<string, map<string, int>>, now: int)
    ensures Swept(slots, slots.Keys, now) == slots
  {
  }

  lemma AllSwept(slots: map<string, map<string, int>>, now: int)
    ensures Swept(slots, {}, now) == map s | s in slots && Live(slots[s], now) != map[] :: Live(slots[s], now)
  {
    hide Live;
  }

  lemma SweptOneMore(slots: map<string, map<string, int>>, scopes: set<string>, scope: string, now: int)
    requires scope in scopes && scopes <= slots.Keys
    ensures var before, live := Swept(slots, scopes, now), Live(slots[scope], now);
            Swept(slots, scopes - {scope}, now)
            == if |live| == 0 then before[scope := live] - {scope} else before[scope := live]
  {
    hide Live;
  }

  /** The loop that deletes expired tokens. */
  method DropExpired(slots: map<string, int>, now: int) returns (kept: map<string, int>)
    ensures kept == Live(slots, now)
  {
    kept := slots;
    var tokens := slots.Keys;
    while tokens != {}
      invariant tokens <= slots.Keys
      invariant kept == map t | t in slots && (t in tokens || slots[t] > now) :: slots[t]
      decreases |tokens|
    {
      var token :| token in tokens;
      tokens := tokens - {token};
      if slots[token] <= now {
        kept := kept - {token};
      }
    }
  }

  // ---------------------------------------------------------------- Redis keys

  datatype Counter = Counter(count: int, expireAt: int)

  /** A sorted set with its key expiry; an empty set does not exist. */
  datatype ZSet = ZSet(scores: map<string, int>, expireAt: Option<int>)

  datatype Redis = Redis(counters: map<string, Counter>, zsets: map<string, ZSet>)

  /** Whether a key is gone at its expiry millisecond or, if it `lingers`, one later. */
  predicate Gone(expireAt: int, now: int, lingers: bool) {
    expireAt < now || (expireAt == now && !lingers)
  }

  function CounterAt(r: Redis, key: string, now: int, lingers: bool): Option<Counter> {
    if key in r.counters && !Gone(r.counters[key].expireAt, now, lingers) then Some(r.counters[key]) else None
  }

  function ZSetAt(r: Redis, scope: string, now: int, lingers: bool): ZSet {
    if scope in r.zsets && !(r.zsets[scope].expireAt.Some? && Gone(r.zsets[scope].expireAt.value, now, lingers)) then
      r.zsets[scope]
    else ZSet(map[], None)
  }

  /** Store a set; removing its last member removes the key. */
  function PutZSet(r: Redis, scope: string, z: ZSet): Redis {
    if z.scores == map[] then r.(zsets := r.zsets - {scope}) else r.(zsets := r.zsets[scope := z])
  }

  /** `PTTL` and, if that is less than `keep`, `PEXPIRE`; a non-positive expiry deletes the key. */
  function ExtendExpiry(z: ZSet, keep: int, now: int): ZSet {
    var ttl := if z.expireAt.Some? then z.expireAt.value - now else -1;
    if ttl >= keep then z else if keep <= 0 then ZSet(map[], None) else z.(expireAt := Some(now + keep))
  }

  function FixedWindowScript(r: Redis, key: string, window: int, now: int, lingers: bool): (Redis, int) {
    match CounterAt(r, key, now, lingers)
    case Some(c) => (r.(counters := r.counters[key := c.(count := c.count + 1)]), c.count + 1)
    case None =>
      if window <= 0 then (r.(counters := r.counters - {key}), 1)
      else (r.(counters := r.counters[key := Counter(1, now + window)]), 1)
  }

  function AcquireScript(r: Redis, scope: string, max: int, token: string, ttl: int, now: int,
                         lingers: bool): (Redis, Answer) {
    var z := ZSetAt(r, scope, now, lingers);
    var kept := Live(z.scores, now);
    var trimmed := ZSet(kept, if kept == map[] then None else z.expireAt);
    if |kept| >= max then (PutZSet(r, scope, trimmed), No)
    else (PutZSet(r, scope, ExtendExpiry(trimmed.(scores := kept[token := now + ttl]), ttl + KEY_SLACK, now)), Yes)
  }

  function RenewScript(r: Redis, scope: string, token: string, ttl: int, now: int, lingers: bool): (Redis, Answer) {
    var z := ZSetAt(r, scope, now, lingers);
    if token !in z.scores then (r, No)
    else if z.scores[token] <= now then (PutZSet(r, scope, z.(scores := z.scores - {token})), No)
    else (PutZSet(r, scope, ExtendExpiry(z.(scores := z.scores[token := now + ttl]), ttl + KEY_SLACK, now)), Yes)
  }

  function RedisStep(r: Redis, call: Call, now: int, lingers: bool): (Redis, Answer) {
    match call
    case Allow(key, limit, window) =>
      var (next, count) := FixedWindowScript(r, key, window, now, lingers);
      (next, if count <= limit then Yes else No)
    case Acquire(scope, max, token, ttl) => AcquireScript(r, scope, max, token, ttl, now, lingers)
    case Renew(scope, token, ttl) => if ttl <= 0 then (r, BadTtl) else RenewScript(r, scope, token, ttl, now, lingers)
    case Release(scope, token) =>
      var z := ZSetAt(r, scope, now, lingers);
      (PutZSet(r, scope, z.(scores := z.scores - {token})), Yes)
  }

  // ---------------------------------------------------------------- agreement

  predicate LiveRate(l: Local, k: string, now: int) {
    k in l.rate && l.rate[k].expiresAt > now
  }

  predicate LiveCounter(r: Redis, k: string, now: int) {
    k in r.counters && r.counters[k].expireAt > now
  }

  /** Both sides see the same live window for a key; the local count leaves refused requests out. */
  predicate RateAgrees(l: Local, r: Redis, now: int, k: string) {
    && (LiveRate(l, k, now) <==> LiveCounter(r, k, now))
    && (LiveRate(l, k, now) ==>
        l.rate[k].expiresAt == r.counters[k].expireAt && 1 <= l.rate[k].count <= r.counters[k].count)
  }

  ghost predicate RatesAgree(l: Local, r: Redis, now: int) {
    forall k :: RateAgrees(l, r, now, k)
  }

  /** A key outlives every slot in it by the slack; a key without expiry holds expired slots only. */
  predicate CoveredSet(z: ZSet, now: int) {
    forall t :: t in z.scores ==>
      if z.expireAt.Some? then z.scores[t] + KEY_SLACK <= z.expireAt.value else z.scores[t] <= now
  }

  ghost predicate Covered(r: Redis, now: int) {
    forall s :: s in r.zsets ==> CoveredSet(r.zsets[s], now)
  }

  function ScoresOf(r: Redis, scope: string): map<string, int> {
    if scope in r.zsets then r.zsets[scope].scores else map[]
  }

  ghost predicate SlotsAgree(l: Local, r: Redis, now: int) {
    forall s :: Live(SlotsOf(l, s), now) == Live(ScoresOf(r, s), now)
  }

  ghost predicate Agree(l: Local, r: Redis, now: int) {
    RatesAgree(l, r, now) && SlotsAgree(l, r, now) && Covered(r, now)
  }

  lemma LiveUpdated(slots: map<string, int>, token: string, at: int, now: int)
    ensures Live(slots[token := at], now)
         == if at > now then Live(slots, now)[token := at] else Live(slots, now) - {token}
  {
  }

  lemma LiveWithout(slots: map<string, int>, token: string, now: int)
    ensures Live(slots - {token}, now) == Live(slots, now) - {token}
  {
  }

  lemma LiveTwice(slots: map<string, int>, now: int)
    ensures Live(Live(slots, now), now) == Live(slots, now)
  {
  }

  lemma LiveLater(a: map<string, int>, b: map<string, int>, now: int, later: int)
    requires Live(a, now) == Live(b, now) && now <= later
    ensures Live(a, later) == Live(b, later)
  {
    forall t ensures t in Live(a, later) <==> t in Live(b, later) {
      assert t in Live(a, now) <==> t in Live(b, now);
    }
    forall t | t in Live(a, later) ensures Live(a, later)[t] == Live(b, later)[t] {
      assert Live(a, now)[t] == Live(b, now)[t];
    }
  }

  lemma AgreeLater(l: Local, r: Redis, now: int, later: int)
    requires Agree(l, r, now) && now <= later
    ensures Agree(l, r, later)
  {
    forall s ensures Live(SlotsOf(l, s), later) == Live(ScoresOf(r, s), later) {
      LiveLater(SlotsOf(l, s), ScoresOf(r, s), now, later);
    }
    forall k ensures RateAgrees(l, r, later, k) {
      assert RateAgrees(l, r, now, k);
    }
  }

  /** Key expiry never drops a slot that has not expired itself. */
  lemma ExpiryDropsNothingLive(r: Redis, scope: string, now: int, lingers: bool)
    requires Covered(r, now)
    ensures Live(ZSetAt(r, scope, now, lingers).scores, now) == Live(ScoresOf(r, scope), now)
  {
  }

  lemma SweepAgrees(l: Local, r: Redis, now: int)
    requires Agree(l, r, now)
    ensures Agree(Sweep(l, now), r, now)
  {
    var swept := Sweep(l, now);
    forall s ensures Live(SlotsOf(swept, s), now) == Live(SlotsOf(l, s), now) {
      LiveTwice(SlotsOf(l, s), now);
    }
    forall k ensures RateAgrees(swept, r, now, k) {
      assert RateAgrees(l, r, now, k);
    }
  }

  /** A rate check in the expiry millisecond of its key. */
  predicate AtExpiry(r: Redis, call: Call, now: int) {
    call.Allow? && call.key in r.counters && r.counters[call.key].expireAt == now
  }

  /**
   * The guards on which the two answers part: between the local count, which stops at the limit, and the Redis count,
   * which does not; in a new window for a limit below 1; and in the expiry millisecond of a key that is still there.
   */
  predicate Parts(l: Local, r: Redis, call: Call, now: int, lingers: bool) {
    call.Allow? &&
    if lingers && AtExpiry(r, call, now) then call.limit <= r.counters[call.key].count
    else if LiveRate(l, call.key, now) && LiveCounter(r, call.key, now) then
      l.rate[call.key].count < call.limit <= r.counters[call.key].count
    else call.limit < 1
  }

  lemma AllowAgrees(l: Local, r: Redis, key: string, limit: int, window: int, now: int, lingers: bool)
    requires Agree(l, r, now)
    ensures var call := Allow(key, limit, window);
            var (l', a) := LocalAllow(l, key, limit, window, now);
            var (r', b) := RedisStep(r, call, now, lingers);
            && (a == b <==> !Parts(l, r, call, now, lingers))
            && (!(lingers && AtExpiry(r, call, now)) ==> Agree(l', r', now))
  {
    hide Live, CoveredSet;
    var call := Allow(key, limit, window);
    var l' := LocalAllow(l, key, limit, window, now).0;
    var r' := RedisStep(r, call, now, lingers).0;
    assert r'.zsets == r.zsets && l'.slots == l.slots;
    forall s ensures Live(SlotsOf(l', s), now) == Live(ScoresOf(r', s), now) {
      assert SlotsOf(l', s) == SlotsOf(l, s) && ScoresOf(r', s) == ScoresOf(r, s);
    }
    assert RateAgrees(l, r, now, key);
    forall k | !(lingers && AtExpiry(r, call, now)) ensures RateAgrees(l', r', now, k) {
      assert RateAgrees(l, r, now, k);
    }
  }

  /** Storing a covered set with the same live slots on both sides changes one scope. */
  lemma PutAgrees(l: Local, r: Redis, scope: string, z: ZSet, now: int, l': Local)
    requires Agree(l, r, now) && CoveredSet(z, now)
    requires Live(SlotsOf(l', scope), now) == Live(z.scores, now)
    requires l'.rate == l.rate && forall s :: s != scope ==> SlotsOf(l', s) == SlotsOf(l, s)
    ensures Agree(l', PutZSet(r, scope, z), now)
  {
    hide Live, CoveredSet;
    var r' := PutZSet(r, scope, z);
    forall s ensures Live(SlotsOf(l', s), now) == Live(ScoresOf(r', s), now) {
      assert ScoresOf(r', s) == if s == scope then z.scores else ScoresOf(r, s);
      assert Live(SlotsOf(l, s), now) == Live(ScoresOf(r, s), now);
    }
    forall k ensures RateAgrees(l', r', now, k) {
      assert RateAgrees(l, r, now, k);
    }
  }

  lemma ExtendCovers(z: ZSet, token: string, ttl: int, now: int)
    requires CoveredSet(z, now) && forall t :: t in z.scores && z.expireAt.None? ==> t == token
    ensures var added := z.scores[token := now + ttl];
            var e := ExtendExpiry(z.(scores := added), ttl + KEY_SLACK, now);
            CoveredSet(e, now) && Live(e.scores, now) == Live(added, now)
  {
  }

  lemma AcquireAgrees(l: Local, r: Redis, scope: string, max: int, token: string, ttl: int, now: int, lingers: bool)
    requires Agree(l, r, now)
    ensures var (l', a) := LocalAcquire(l, scope, max, token, ttl, now);
            var (r', b) := AcquireScript(r, scope, max, token, ttl, now, lingers);
            a == b && Agree(l', r', now)
  {
    hide Live, CoveredSet, ExtendExpiry, PutZSet, Agree;
    var z := ZSetAt(r, scope, now, lingers);
    var kept := Live(z.scores, now);
    AcquireSides(l, r, scope, now, lingers);
    var trimmed := ZSet(kept, if kept == map[] then None else z.expireAt);
    TrimmedCovered(z, now);
    LiveTwice(z.scores, now);
    var l' := LocalAcquire(l, scope, max, token, ttl, now).0;
    if |kept| >= max {
      PutAgrees(l, r, scope, trimmed, now, l');
    } else {
      ExtendCovers(trimmed, token, ttl, now);
      PutAgrees(l, r, scope, ExtendExpiry(trimmed.(scores := kept[token := now + ttl]), ttl + KEY_SLACK, now), now, l');
    }
  }

  lemma AcquireSides(l: Local, r: Redis, scope: string, now: int, lingers: bool)
    requires Agree(l, r, now)
    ensures Live(SlotsOf(l, scope), now) == Live(ZSetAt(r, scope, now, lingers).scores, now)
    ensures CoveredSet(ZSetAt(r, scope, now, lingers), now)
  {
  }

  lemma TrimmedCovered(z: ZSet, now: int)
    requires CoveredSet(z, now)
    ensures var kept := Live(z.scores, now);
            var trimmed := ZSet(kept, if kept == map[] then None else z.expireAt);
            CoveredSet(trimmed, now) && (trimmed.expireAt.None? ==> kept == map[])
  {
  }

  lemma RenewAgrees(l: Local, r: Redis, scope: string, token: string, ttl: int, now: int, lingers: bool)
    requires Agree(l, r, now) && ttl > 0
    ensures var (l', a) := LocalRenew(l, scope, token, ttl, now);
            var (r', b) := RenewScript(r, scope, token, ttl, now, lingers);
            a == b && Agree(l', r', now)
  {
    hide CoveredSet, ExtendExpiry, PutZSet, Agree;
    var z := ZSetAt(r, scope, now, lingers);
    var slots := SlotsOf(l, scope);
    AcquireSides(l, r, scope, now, lingers);
    assert token in Live(slots, now) <==> token in Live(z.scores, now);
    var l' := LocalRenew(l, scope, token, ttl, now).0;
    if token in Live(slots, now) {
      LiveUpdated(slots, token, now + ttl, now);
      LiveUpdated(z.scores, token, now + ttl, now);
      RenewedKey(z, token, now);
      ExtendCovers(z, token, ttl, now);
      PutAgrees(l, r, scope, ExtendExpiry(z.(scores := z.scores[token := now + ttl]), ttl + KEY_SLACK, now), now, l');
    } else if token in z.scores {
      RemoveAgrees(l, r, scope, token, now, lingers);
    } else {
      WithoutDead(l, r, scope, token, now);
    }
  }

  /** A key with a live slot has an expiry. */
  lemma RenewedKey(z: ZSet, token: string, now: int)
    requires CoveredSet(z, now) && token in z.scores && z.scores[token] > now
    ensures z.expireAt.Some?
  {
  }

  lemma RemoveAgrees(l: Local, r: Redis, scope: string, token: string, now: int, lingers: bool)
    requires Agree(l, r, now)
    ensures var z := ZSetAt(r, scope, now, lingers);
            Agree(Without(l, scope, token), PutZSet(r, scope, z.(scores := z.scores - {token})), now)
  {
    hide CoveredSet, PutZSet, Agree, Live;
    var z := ZSetAt(r, scope, now, lingers);
    AcquireSides(l, r, scope, now, lingers);
    LiveWithout(SlotsOf(l, scope), token, now);
    LiveWithout(z.scores, token, now);
    RemovedCovered(z, token, now);
    var l' := Without(l, scope, token);
    assert forall s :: SlotsOf(l', s) == if s == scope then SlotsOf(l, scope) - {token} else SlotsOf(l, s);
    PutAgrees(l, r, scope, z.(scores := z.scores - {token}), now, l');
  }

  lemma RemovedCovered(z: ZSet, token: string, now: int)
    requires CoveredSet(z, now)
    ensures CoveredSet(z.(scores := z.scores - {token}), now)
  {
  }

  /** Dropping a token that is not live locally changes nothing that counts. */
  lemma WithoutDead(l: Local, r: Redis, scope: string, token: string, now: int)
    requires Agree(l, r, now) && token !in Live(SlotsOf(l, scope), now)
    ensures Agree(Without(l, scope, token), r, now)
  {
    hide CoveredSet;
    var l' := Without(l, scope, token);
    forall s ensures Live(SlotsOf(l', s), now) == Live(ScoresOf(r, s), now) {
      assert SlotsOf(l', s) == if s == scope then SlotsOf(l, scope) - {token} else SlotsOf(l, s);
      LiveWithout(SlotsOf(l, scope), token, now);
      assert Live(SlotsOf(l, s), now) == Live(ScoresOf(r, s), now);
    }
    forall k ensures RateAgrees(l', r, now, k) {
      assert RateAgrees(l, r, now, k);
    }
  }

  // ---------------------------------------------------------------- every call sequence

  datatype TimedCall = TimedCall(now: int, call: Call)

  predicate Ordered(calls: seq<TimedCall>) {
    forall i, j :: 0 <= i < j < |calls| ==> calls[i].now <= calls[j].now
  }

  function LocalAnswers(l: Local, calls: seq<TimedCall>, sweeping: bool): seq<Answer>
    decreases |calls|
  {
    if calls == [] then []
    else
      var (next, answer) := LocalStep(l, calls[0].call, calls[0].now, sweeping);
      [answer] + LocalAnswers(next, calls[1..], sweeping)
  }

  function RedisAnswers(r: Redis, calls: seq<TimedCall>, lingers: bool): seq<Answer>
    decreases |calls|
  {
    if calls == [] then []
    else
      var (next, answer) := RedisStep(r, calls[0].call, calls[0].now, lingers);
      [answer] + RedisAnswers(next, calls[1..], lingers)
  }

  lemma StepAgrees(l: Local, r: Redis, call: Call, now: int, sweeping: bool, lingers: bool)
    requires Agree(l, r, now)
    ensures var (l', a) := LocalStep(l, call, now, sweeping);
            var (r', b) := RedisStep(r, call, now, lingers);
            && (a == b <==> !Parts(l, r, call, now, lingers))
            && (!(lingers && AtExpiry(r, call, now)) ==> Agree(l', r', now))
  {
    hide Agree, Sweep, Live, FixedWindowScript, AcquireScript, RenewScript, LocalAllow, LocalAcquire, LocalRenew,
      AtExpiry, Parts;
    SweepAgrees(l, r, now);
    NoCounter(r, call, now);
    var base := if sweeping then Sweep(l, now) else l;
    match call {
      case Allow(key, limit, window) =>
        AllowAgrees(base, r, key, limit, window, now, lingers);
        SweptParts(l, r, call, now, lingers);
      case Acquire(scope, max, token, ttl) => AcquireAgrees(base, r, scope, max, token, ttl, now, lingers);
      case Renew(scope, token, ttl) =>
        if ttl > 0 {
          RenewAgrees(l, r, scope, token, ttl, now, lingers);
        } else {
          RenewRefused(l, scope, token, ttl, now);
        }
      case Release(scope, token) => RemoveAgrees(l, r, scope, token, now, lingers);
    }
  }

  lemma NoCounter(r: Redis, call: Call, now: int)
    ensures !call.Allow? ==> !AtExpiry(r, call, now) && forall l, lingers :: !Parts(l, r, call, now, lingers)
  {
  }

  lemma SweptParts(l: Local, r: Redis, call: Call, now: int, lingers: bool)
    ensures Parts(Sweep(l, now), r, call, now, lingers) <==> Parts(l, r, call, now, lingers)
  {
  }

  lemma RenewRefused(l: Local, scope: string, token: string, ttl: int, now: int)
    requires ttl <= 0
    ensures LocalRenew(l, scope, token, ttl, now) == (l, BadTtl)
  {
  }

  /** Whether the answers part, call by call. */
  function Partings(l: Local, r: Redis, calls: seq<TimedCall>, sweeping: bool, lingers: bool): seq<bool>
    decreases |calls|
  {
    if calls == [] then []
    else
      var c := calls[0];
      [Parts(l, r, c.call, c.now, lingers)]
      + Partings(LocalStep(l, c.call, c.now, sweeping).0, RedisStep(r, c.call, c.now, lingers).0, calls[1..],
                 sweeping, lingers)
  }

  /** On a server whose keys linger, no rate check falls into the expiry millisecond of its key. */
  predicate Quiet(r: Redis, calls: seq<TimedCall>, lingers: bool)
    decreases |calls|
  {
    calls != [] ==>
      && !(lingers && AtExpiry(r, calls[0].call, calls[0].now))
      && Quiet(RedisStep(r, calls[0].call, calls[0].now, lingers).0, calls[1..], lingers)
  }

  /** Only the last call may be such a rate check. */
  predicate QuietBefore(r: Redis, calls: seq<TimedCall>, lingers: bool) {
    calls == [] || Quiet(r, calls[..|calls| - 1], lingers)
  }

  predicate From(calls: seq<TimedCall>, now: int) {
    forall k :: 0 <= k < |calls| ==> now <= calls[k].now
  }

  /** Which answers are equal: exactly those of the calls at which the guards do not part. */
  predicate EqualExactly(local: seq<Answer>, redis: seq<Answer>, partings: seq<bool>) {
    |local| == |redis| == |partings| && forall k :: 0 <= k < |local| ==> (local[k] == redis[k] <==> !partings[k])
  }

  lemma {:induction false} AnswersAgreeFrom(l: Local, r: Redis, calls: seq<TimedCall>, now: int, sweeping: bool,
                                            lingers: bool)
    requires Agree(l, r, now) && Ordered(calls) && From(calls, now) && QuietBefore(r, calls, lingers)
    ensures EqualExactly(LocalAnswers(l, calls, sweeping), RedisAnswers(r, calls, lingers),
                         Partings(l, r, calls, sweeping, lingers))
    decreases |calls|
  {
    hide Agree, LocalStep, RedisStep, Parts, AtExpiry;
    if calls != [] {
      var c := calls[0];
      AgreeLater(l, r, now, c.now);
      StepAgrees(l, r, c.call, c.now, sweeping, lingers);
      if |calls| == 1 {
        return;
      }
      assert calls[..|calls| - 1][1..] == calls[1..][..|calls[1..]| - 1];
      AnswersAgreeFrom(LocalStep(l, c.call, c.now, sweeping).0, RedisStep(r, c.call, c.now, lingers).0, calls[1..],
                       c.now, sweeping, lingers);
    }
  }

  const EMPTY_LOCAL := Local(map[], map[], None)
  const EMPTY_REDIS := Redis(map[], map[])

  /**
   * On every call sequence, with any limits, local maps and Redis scripts answer a call alike exactly when its guards
   * do not part; on a server whose keys linger up to and including the first rate check in an expiry millisecond.
   */
  lemma AnswersPartExactly(calls: seq<TimedCall>, sweeping: bool, lingers: bool)
    requires Ordered(calls) && QuietBefore(EMPTY_REDIS, calls, lingers)
    ensures EqualExactly(LocalAnswers(EMPTY_LOCAL, calls, sweeping), RedisAnswers(EMPTY_REDIS, calls, lingers),
                         Partings(EMPTY_LOCAL, EMPTY_REDIS, calls, sweeping, lingers))
  {
    if calls != [] {
      AnswersAgreeFrom(EMPTY_LOCAL, EMPTY_REDIS, calls, calls[0].now, sweeping, lingers);
    }
  }

  /** In the expiry millisecond of a key that is still there the local maps open a new window and Redis counts on. */
  lemma LingeringPartsExactly(l: Local, r: Redis, call: Call, now: int, sweeping: bool)
    requires Agree(l, r, now) && AtExpiry(r, call, now)
    ensures LocalStep(l, call, now, sweeping).1 == Yes
    ensures RedisStep(r, call, now, true).1 == Yes <==> r.counters[call.key].count < call.limit
  {
    hide Live, CoveredSet;
    assert RateAgrees(l, r, now, call.key);
  }

  /** Limits are at least 1, and the limit of a key is never raised. */
  predicate NeverRaised(calls: seq<TimedCall>) {
    && (forall k :: 0 <= k < |calls| && calls[k].call.Allow? ==> calls[k].call.limit >= 1)
    && forall i, j ::
         0 <= i < j < |calls| && calls[i].call.Allow? && calls[j].call.Allow?
         && calls[i].call.key == calls[j].call.key ==>
         calls[j].call.limit <= calls[i].call.limit
  }

  /** Where the local count has stopped, the limit of this call is not above it. */
  predicate StoppedFor(l: Local, r: Redis, call: Call, now: int) {
    call.Allow? && LiveRate(l, call.key, now) && LiveCounter(r, call.key, now)
    && l.rate[call.key].count < r.counters[call.key].count ==>
      call.limit <= l.rate[call.key].count
  }

  ghost predicate Stopped(l: Local, r: Redis, calls: seq<TimedCall>, now: int) {
    forall k :: 0 <= k < |calls| ==> StoppedFor(l, r, calls[k].call, now)
  }

  lemma NoPartingHere(l: Local, r: Redis, call: Call, now: int, lingers: bool)
    requires Agree(l, r, now) && StoppedFor(l, r, call, now) && (call.Allow? ==> call.limit >= 1)
    requires !(lingers && AtExpiry(r, call, now))
    ensures !Parts(l, r, call, now, lingers)
  {
    if call.Allow? {
      assert RateAgrees(l, r, now, call.key);
    }
  }

  lemma AllowStaysStopped(l: Local, r: Redis, call: Call, later: Call, now: int, lingers: bool)
    requires call.Allow? && Agree(l, r, now) && StoppedFor(l, r, call, now) && StoppedFor(l, r, later, now)
    requires !(lingers && AtExpiry(r, call, now)) && call.limit >= 1
    requires later.Allow? && later.key == call.key ==> later.limit <= call.limit
    ensures StoppedFor(LocalAllow(l, call.key, call.limit, call.window, now).0, RedisStep(r, call, now, lingers).0,
                       later, now)
  {
    hide Live, CoveredSet;
    assert RateAgrees(l, r, now, call.key);
  }

  lemma SweepStopped(l: Local, r: Redis, call: Call, now: int)
    requires StoppedFor(l, r, call, now)
    ensures StoppedFor(Sweep(l, now), r, call, now)
  {
  }

  lemma StepStaysStopped(l: Local, r: Redis, call: Call, later: Call, now: int, sweeping: bool, lingers: bool)
    requires Agree(l, r, now) && StoppedFor(l, r, call, now) && StoppedFor(l, r, later, now)
    requires !(lingers && AtExpiry(r, call, now)) && (call.Allow? ==> call.limit >= 1)
    requires call.Allow? && later.Allow? && later.key == call.key ==> later.limit <= call.limit
    ensures StoppedFor(LocalStep(l, call, now, sweeping).0, RedisStep(r, call, now, lingers).0, later, now)
  {
    hide Agree, StoppedFor, Sweep, AtExpiry;
    SweepAgrees(l, r, now);
    SweepStopped(l, r, call, now);
    SweepStopped(l, r, later, now);
    var base := if sweeping then Sweep(l, now) else l;
    if call.Allow? {
      AllowStaysStopped(base, r, call, later, now, lingers);
    } else {
      OtherStaysStopped(base, r, call, later, now, lingers);
      OtherStaysStopped(l, r, call, later, now, lingers);
    }
  }

  lemma OtherStaysStopped(l: Local, r: Redis, call: Call, later: Call, now: int, lingers: bool)
    requires !call.Allow? && StoppedFor(l, r, later, now)
    ensures forall l': Local :: l'.rate == l.rate ==> StoppedFor(l', RedisStep(r, call, now, lingers).0, later, now)
  {
    hide Live;
  }

  lemma {:induction false} NothingParts(l: Local, r: Redis, calls: seq<TimedCall>, now: int, sweeping: bool,
                                        lingers: bool)
    requires Agree(l, r, now) && Ordered(calls) && From(calls, now) && Quiet(r, calls, lingers)
    requires NeverRaised(calls) && Stopped(l, r, calls, now)
    ensures forall k :: 0 <= k < |Partings(l, r, calls, sweeping, lingers)| ==>
              !Partings(l, r, calls, sweeping, lingers)[k]
    decreases |calls|
  {
    hide Agree, LocalStep, RedisStep, Parts, AtExpiry, StoppedFor;
    if calls != [] {
      var c := calls[0];
      AgreeLater(l, r, now, c.now);
      StoppedLater(l, r, calls, now, c.now);
      NoPartingHere(l, r, c.call, c.now, lingers);
      StepAgrees(l, r, c.call, c.now, sweeping, lingers);
      forall k | 0 <= k < |calls[1..]|
        ensures StoppedFor(LocalStep(l, c.call, c.now, sweeping).0, RedisStep(r, c.call, c.now, lingers).0,
                           calls[1..][k].call, c.now) {
        StepStaysStopped(l, r, c.call, calls[k + 1].call, c.now, sweeping, lingers);
      }
      NothingParts(LocalStep(l, c.call, c.now, sweeping).0, RedisStep(r, c.call, c.now, lingers).0, calls[1..], c.now,
                   sweeping, lingers);
    }
  }

  lemma StoppedLater(l: Local, r: Redis, calls: seq<TimedCall>, now: int, later: int)
    requires Stopped(l, r, calls, now) && now <= later
    ensures Stopped(l, r, calls, later)
  {
  }

  lemma {:induction false} QuietFront(r: Redis, calls: seq<TimedCall>, lingers: bool)
    requires Quiet(r, calls, lingers)
    ensures QuietBefore(r, calls, lingers)
    decreases |calls|
  {
    hide RedisStep, AtExpiry;
    if |calls| > 1 {
      QuietFront(RedisStep(r, calls[0].call, calls[0].now, lingers).0, calls[1..], lingers);
      assert calls[..|calls| - 1][1..] == calls[1..][..|calls[1..]| - 1];
    }
  }

  /** As long as no limit is raised local maps and Redis scripts answer every call alike. */
  lemma SameAnswers(calls: seq<TimedCall>, sweeping: bool, lingers: bool)
    requires Ordered(calls) && NeverRaised(calls) && Quiet(EMPTY_REDIS, calls, lingers)
    ensures LocalAnswers(EMPTY_LOCAL, calls, sweeping) == RedisAnswers(EMPTY_REDIS, calls, lingers)
  {
    hide Parts, LocalStep, RedisStep;
    QuietFront(EMPTY_REDIS, calls, lingers);
    AnswersPartExactly(calls, sweeping, lingers);
    if calls != [] {
      NothingParts(EMPTY_LOCAL, EMPTY_REDIS, calls, calls[0].now, sweeping, lingers);
    }
  }

  // ---------------------------------------------------------------- the sweep

  function LiveEntry(l: Local, k: string, now: int): Option<RateEntry> {
    if LiveRate(l, k, now) then Some(l.rate[k]) else None
  }

  /** Two local states that differ only in what has expired. */
  ghost predicate Alike(a: Local, b: Local, now: int) {
    && (forall k :: LiveEntry(a, k, now) == LiveEntry(b, k, now))
    && (forall s :: Live(SlotsOf(a, s), now) == Live(SlotsOf(b, s), now))
  }

  lemma AlikeLater(a: Local, b: Local, now: int, later: int)
    requires Alike(a, b, now) && now <= later
    ensures Alike(a, b, later)
  {
    forall s ensures Live(SlotsOf(a, s), later) == Live(SlotsOf(b, s), later) {
      LiveLater(SlotsOf(a, s), SlotsOf(b, s), now, later);
    }
    forall k ensures LiveEntry(a, k, later) == LiveEntry(b, k, later) {
      assert LiveEntry(a, k, now) == LiveEntry(b, k, now);
    }
  }

  lemma SweepAlike(l: Local, now: int)
    ensures Alike(Sweep(l, now), l, now)
  {
    forall s ensures Live(SlotsOf(Sweep(l, now), s), now) == Live(SlotsOf(l, s), now) {
      LiveTwice(SlotsOf(l, s), now);
    }
  }

  lemma AllowAlike(a: Local, b: Local, key: string, limit: int, window: int, now: int)
    requires Alike(a, b, now)
    ensures var x, y := LocalAllow(a, key, limit, window, now), LocalAllow(b, key, limit, window, now);
            x.1 == y.1 && Alike(x.0, y.0, now)
  {
    hide Live;
    var x, y := LocalAllow(a, key, limit, window, now).0, LocalAllow(b, key, limit, window, now).0;
    assert LiveEntry(a, key, now) == LiveEntry(b, key, now);
    forall s ensures Live(SlotsOf(x, s), now) == Live(SlotsOf(y, s), now) {
      assert SlotsOf(x, s) == SlotsOf(a, s) && SlotsOf(y, s) == SlotsOf(b, s);
    }
    forall k ensures LiveEntry(x, k, now) == LiveEntry(y, k, now) {
      assert LiveEntry(a, k, now) == LiveEntry(b, k, now);
    }
  }

  /** Changing one scope on both sides to the same live slots. */
  lemma ScopeAlike(a: Local, b: Local, x: Local, y: Local, scope: string, now: int)
    requires Alike(a, b, now) && x.rate == a.rate && y.rate == b.rate
    requires forall s :: s != scope ==> SlotsOf(x, s) == SlotsOf(a, s) && SlotsOf(y, s) == SlotsOf(b, s)
    requires Live(SlotsOf(x, scope), now) == Live(SlotsOf(y, scope), now)
    ensures Alike(x, y, now)
  {
    hide Live;
    forall k ensures LiveEntry(x, k, now) == LiveEntry(y, k, now) {
      assert LiveEntry(a, k, now) == LiveEntry(b, k, now);
    }
  }

  lemma AcquireAlike(a: Local, b: Local, scope: string, max: int, token: string, ttl: int, now: int)
    requires Alike(a, b, now)
    ensures var x, y := LocalAcquire(a, scope, max, token, ttl, now), LocalAcquire(b, scope, max, token, ttl, now);
            x.1 == y.1 && Alike(x.0, y.0, now)
  {
    hide Live;
    ScopeAlike(a, b, LocalAcquire(a, scope, max, token, ttl, now).0, LocalAcquire(b, scope, max, token, ttl, now).0,
               scope, now);
  }

  lemma WithoutAlike(a: Local, b: Local, scope: string, token: string, now: int)
    requires Alike(a, b, now)
    ensures Alike(Without(a, scope, token), Without(b, scope, token), now)
  {
    hide Live;
    LiveWithout(SlotsOf(a, scope), token, now);
    LiveWithout(SlotsOf(b, scope), token, now);
    var x, y := Without(a, scope, token), Without(b, scope, token);
    assert forall s :: SlotsOf(x, s) == if s == scope then SlotsOf(a, scope) - {token} else SlotsOf(a, s);
    assert forall s :: SlotsOf(y, s) == if s == scope then SlotsOf(b, scope) - {token} else SlotsOf(b, s);
    ScopeAlike(a, b, x, y, scope, now);
  }

  lemma RenewAlike(a: Local, b: Local, scope: string, token: string, ttl: int, now: int)
    requires Alike(a, b, now)
    ensures var x, y := LocalRenew(a, scope, token, ttl, now), LocalRenew(b, scope, token, ttl, now);
            x.1 == y.1 && Alike(x.0, y.0, now)
  {
    var s, t := SlotsOf(a, scope), SlotsOf(b, scope);
    assert token in Live(s, now) <==> token in Live(t, now);
    if ttl > 0 && token in Live(s, now) {
      LiveUpdated(s, token, now + ttl, now);
      LiveUpdated(t, token, now + ttl, now);
      ScopeAlike(a, b, LocalRenew(a, scope, token, ttl, now).0, LocalRenew(b, scope, token, ttl, now).0, scope, now);
    } else if ttl > 0 {
      WithoutAlike(a, b, scope, token, now);
    }
  }

  lemma AlikeTwice(a: Local, b: Local, c: Local, now: int)
    requires Alike(a, b, now) && Alike(b, c, now)
    ensures Alike(a, c, now)
  {
    hide Live, LiveEntry;
    forall s ensures Live(SlotsOf(a, s), now) == Live(SlotsOf(c, s), now) {
      assert Live(SlotsOf(a, s), now) == Live(SlotsOf(b, s), now) == Live(SlotsOf(c, s), now);
    }
  }

  lemma StepAlike(a: Local, b: Local, call: Call, now: int)
    requires Alike(a, b, now)
    ensures var x, y := LocalStep(a, call, now, true), LocalStep(b, call, now, false);
            x.1 == y.1 && Alike(x.0, y.0, now)
  {
    hide Alike, Sweep, LocalAllow, LocalAcquire, LocalRenew, Without;
    SweepAlike(a, now);
    AlikeTwice(Sweep(a, now), a, b, now);
    match call
    case Allow(key, limit, window) => AllowAlike(Sweep(a, now), b, key, limit, window, now);
    case Acquire(scope, max, token, ttl) => AcquireAlike(Sweep(a, now), b, scope, max, token, ttl, now);
    case Renew(scope, token, ttl) => RenewAlike(a, b, scope, token, ttl, now);
    case Release(scope, token) => WithoutAlike(a, b, scope, token, now);
  }

  lemma {:induction false} AlikeAnswers(a: Local, b: Local, calls: seq<TimedCall>, now: int)
    requires Alike(a, b, now) && Ordered(calls) && From(calls, now)
    ensures LocalAnswers(a, calls, true) == LocalAnswers(b, calls, false)
    decreases |calls|
  {
    hide Alike, LocalStep;
    if calls != [] {
      var c := calls[0];
      AlikeLater(a, b, now, c.now);
      StepAlike(a, b, c.call, c.now);
      AlikeAnswers(LocalStep(a, c.call, c.now, true).0, LocalStep(b, c.call, c.now, false).0, calls[1..], c.now);
    }
  }

  /** No call sequence, whatever its limits, can tell whether the sweep runs. */
  lemma SweepIsUnobservable(calls: seq<TimedCall>)
    requires Ordered(calls)
    ensures LocalAnswers(EMPTY_LOCAL, calls, true) == LocalAnswers(EMPTY_LOCAL, calls, false)
  {
    if calls != [] {
      AlikeAnswers(EMPTY_LOCAL, EMPTY_LOCAL, calls, calls[0].now);
    }
  }

  // ---------------------------------------------------------------- how many slots a scope gives out

  lemma OneMore(kept: map<string, int>, token: string, value: int)
    ensures |kept[token := value]| <= |kept| + 1
  {
    assert (kept[token := value]).Keys == kept.Keys + {token};
  }

  lemma LiveIsNoLarger(slots: map<string, int>, now: int)
    ensures |Live(slots, now)| <= |slots|
  {
    assert slots.Keys == Live(slots, now).Keys + (slots.Keys - Live(slots, now).Keys);
  }

  /** Right after a grant at most `max` unexpired slots exist in the scope, in the local maps. */
  lemma GrantWithinLimit(l: Local, scope: string, max: int, token: string, ttl: int, now: int, sweeping: bool)
    requires LocalStep(l, Acquire(scope, max, token, ttl), now, sweeping).1 == Yes
    ensures |Live(SlotsOf(LocalStep(l, Acquire(scope, max, token, ttl), now, sweeping).0, scope), now)| <= max
  {
    hide Live, Sweep;
    var base := if sweeping then Sweep(l, now) else l;
    var kept := Live(SlotsOf(base, scope), now);
    OneMore(kept, token, now + ttl);
    LiveIsNoLarger(kept[token := now + ttl], now);
  }

  /** And in Redis. */
  lemma RedisGrantWithinLimit(r: Redis, scope: string, max: int, token: string, ttl: int, now: int, lingers: bool)
    requires RedisStep(r, Acquire(scope, max, token, ttl), now, lingers).1 == Yes
    ensures |Live(ScoresOf(RedisStep(r, Acquire(scope, max, token, ttl), now, lingers).0, scope), now)| <= max
  {
    hide Live;
    var kept := Live(ZSetAt(r, scope, now, lingers).scores, now);
    OneMore(kept, token, now + ttl);
    LiveIsNoLarger(kept[token := now + ttl], now);
    LiveIsNoLarger(map[], now);
  }

  // ---------------------------------------------------------------- how many requests a window lets through

  /** The requests for one key that were admitted from `from` up to but not including `until`. */
  function Admitted(calls: seq<TimedCall>, answers: seq<Answer>, key: string, from: int, until: int): nat
    requires |calls| == |answers|
  {
    if calls == [] then 0
    else
      var hit := calls[0].call.Allow? && calls[0].call.key == key && answers[0] == Yes && from <= calls[0].now < until;
      (if hit then 1 else 0)
      + Admitted(calls[1..], answers[1..], key, from, until)
  }

  lemma {:induction false} OneAnswerEach(l: Local, calls: seq<TimedCall>, sweeping: bool)
    ensures |LocalAnswers(l, calls, sweeping)| == |calls|
    decreases |calls|
  {
    hide LocalStep;
    if calls != [] {
      OneAnswerEach(LocalStep(l, calls[0].call, calls[0].now, sweeping).0, calls[1..], sweeping);
    }
  }

  lemma {:induction false} OneRedisAnswerEach(r: Redis, calls: seq<TimedCall>, lingers: bool)
    ensures |RedisAnswers(r, calls, lingers)| == |calls|
    decreases |calls|
  {
    hide RedisStep;
    if calls != [] {
      OneRedisAnswerEach(RedisStep(r, calls[0].call, calls[0].now, lingers).0, calls[1..], lingers);
    }
  }

  /** A window as both sides keep it: when it ends, and how many of its requests were admitted. */
  datatype Window = NoWindow | Window(end: int, admitted: int)

  /** What `n` requests admitted so far in the interval say about the key's window. */
  predicate WithinBound(kept: Window, limit: int, window: int, from: int, n: int, now: int) {
    && 0 <= n <= 2 * limit - 1
    && (now < from ==> n == 0)
    && match kept
       case NoWindow => n <= limit - 1 || now >= from + window
       case Window(end, admitted) =>
         && end - window <= now && 1 <= admitted <= limit
         && (end - window < from ==> n <= admitted - 1)
         && (from <= end - window < from + window ==> n <= limit - 1 + admitted)
  }

  /** Every rate check of this key carries one limit and one window. */
  predicate Fixed(call: Call, key: string, limit: int, window: int) {
    call.Allow? && call.key == key ==> call.limit == limit && call.window == window
  }

  predicate Hit(call: Call, answer: Answer, key: string, now: int, from: int, window: int) {
    call.Allow? && call.key == key && answer == Yes && from <= now < from + window
  }

  function LocalWindow(l: Local, key: string): Window {
    if key in l.rate then Window(l.rate[key].expiresAt, l.rate[key].count) else NoWindow
  }

  function RedisWindow(r: Redis, key: string, limit: int): Window {
    if key in r.counters then
      Window(r.counters[key].expireAt, if r.counters[key].count < limit then r.counters[key].count else limit)
    else NoWindow
  }

  lemma StepWithinBound(l: Local, key: string, limit: int, window: int, from: int, n: int, call: Call, before: int,
                        now: int, sweeping: bool)
    requires limit >= 1 && before <= now && WithinBound(LocalWindow(l, key), limit, window, from, n, before)
    requires Fixed(call, key, limit, window)
    ensures var (next, answer) := LocalStep(l, call, now, sweeping);
            WithinBound(LocalWindow(next, key), limit, window, from,
                        n + (if Hit(call, answer, key, now, from, window) then 1 else 0), now)
  {
    hide Live;
  }

  lemma RedisStepWithinBound(r: Redis, key: string, limit: int, window: int, from: int, n: int, call: Call,
                             before: int, now: int, lingers: bool)
    requires limit >= 1 && before <= now && WithinBound(RedisWindow(r, key, limit), limit, window, from, n, before)
    requires Fixed(call, key, limit, window)
    ensures var (next, answer) := RedisStep(r, call, now, lingers);
            WithinBound(RedisWindow(next, key, limit), limit, window, from,
                        n + (if Hit(call, answer, key, now, from, window) then 1 else 0), now)
  {
    hide Live;
  }

  lemma {:induction false} BoundFrom(l: Local, calls: seq<TimedCall>, key: string, limit: int, window: int, from: int,
                                     n: int,
                                     now: int, sweeping: bool)
    requires limit >= 1 && WithinBound(LocalWindow(l, key), limit, window, from, n, now) && Ordered(calls)
    requires From(calls, now)
    requires forall k :: 0 <= k < |calls| ==> Fixed(calls[k].call, key, limit, window)
    ensures |LocalAnswers(l, calls, sweeping)| == |calls|
    ensures n + Admitted(calls, LocalAnswers(l, calls, sweeping), key, from, from + window) <= 2 * limit - 1
    decreases |calls|
  {
    hide LocalStep, Fixed;
    OneAnswerEach(l, calls, sweeping);
    if calls != [] {
      var c := calls[0];
      var (next, answer) := LocalStep(l, c.call, c.now, sweeping);
      StepWithinBound(l, key, limit, window, from, n, c.call, now, c.now, sweeping);
      BoundFrom(next, calls[1..], key, limit, window, from,
                n + (if Hit(c.call, answer, key, c.now, from, window) then 1 else 0), c.now, sweeping);
      assert LocalAnswers(l, calls, sweeping)[1..] == LocalAnswers(next, calls[1..], sweeping);
    }
  }

  lemma {:induction false} RedisBoundFrom(r: Redis, calls: seq<TimedCall>, key: string, limit: int, window: int,
                                          from: int, n: int,
                                          now: int, lingers: bool)
    requires limit >= 1 && WithinBound(RedisWindow(r, key, limit), limit, window, from, n, now) && Ordered(calls)
    requires From(calls, now)
    requires forall k :: 0 <= k < |calls| ==> Fixed(calls[k].call, key, limit, window)
    ensures |RedisAnswers(r, calls, lingers)| == |calls|
    ensures n + Admitted(calls, RedisAnswers(r, calls, lingers), key, from, from + window) <= 2 * limit - 1
    decreases |calls|
  {
    hide RedisStep, Fixed;
    OneRedisAnswerEach(r, calls, lingers);
    if calls != [] {
      var c := calls[0];
      var (next, answer) := RedisStep(r, c.call, c.now, lingers);
      RedisStepWithinBound(r, key, limit, window, from, n, c.call, now, c.now, lingers);
      RedisBoundFrom(next, calls[1..], key, limit, window, from,
                     n + (if Hit(c.call, answer, key, c.now, from, window) then 1 else 0), c.now, lingers);
      assert RedisAnswers(r, calls, lingers)[1..] == RedisAnswers(next, calls[1..], lingers);
    }
  }

  /**
   * No half-open interval as long as the window sees more than twice the limit, less one: on either implementation,
   * with or without the sweep, whether keys linger or not, and whatever happens to other keys.
   */
  lemma AtMostTwiceLessOne(calls: seq<TimedCall>, key: string, limit: int, window: int, from: int, sweeping: bool,
                           lingers: bool)
    requires Ordered(calls) && limit >= 1 && forall k :: 0 <= k < |calls| ==> Fixed(calls[k].call, key, limit, window)
    ensures var local, redis := LocalAnswers(EMPTY_LOCAL, calls, sweeping), RedisAnswers(EMPTY_REDIS, calls, lingers);
            && |local| == |calls| && Admitted(calls, local, key, from, from + window) <= 2 * limit - 1
            && |redis| == |calls| && Admitted(calls, redis, key, from, from + window) <= 2 * limit - 1
  {
    hide Fixed, LocalStep, RedisStep;
    if calls != [] {
      BoundFrom(EMPTY_LOCAL, calls, key, limit, window, from, 0, calls[0].now, sweeping);
      RedisBoundFrom(EMPTY_REDIS, calls, key, limit, window, from, 0, calls[0].now, lingers);
    }
  }

  /** The bound is met: with limit 2 and window 2, three requests pass in [1, 3). */
  lemma BoundIsTight()
    ensures var calls := [TimedCall(0, Allow("k", 2, 2)), TimedCall(1, Allow("k", 2, 2)),
                          TimedCall(2, Allow("k", 2, 2)), TimedCall(2, Allow("k", 2, 2))];
            && LocalAnswers(EMPTY_LOCAL, calls, true) == [Yes, Yes, Yes, Yes]
            && Admitted(calls, [Yes, Yes, Yes, Yes], "k", 1, 3) == 3
  {
  }

  /** On a server that keeps a key through its expiry millisecond, the first request of a new window can be refused. */
  lemma LingeringKeyDisagrees()
    ensures var calls := [TimedCall(0, Allow("k", 1, 5)), TimedCall(5, Allow("k", 1, 5))];
            LocalAnswers(EMPTY_LOCAL, calls, true) == [Yes, Yes] && RedisAnswers(EMPTY_REDIS, calls, true) == [Yes, No]
  {
  }

  /** A limit raised inside a window: the local count stopped at the old limit, the Redis count did not. */
  lemma RaisedLimitDisagrees()
    ensures var calls := [TimedCall(0, Allow("k", 1, 5)), TimedCall(0, Allow("k", 1, 5)),
                          TimedCall(0, Allow("k", 2, 5))];
            LocalAnswers(EMPTY_LOCAL, calls, false) == [Yes, No, Yes]
            && RedisAnswers(EMPTY_REDIS, calls, false) == [Yes, No, No]
  {
  }
}
