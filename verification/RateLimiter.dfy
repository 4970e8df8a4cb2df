/** The in-memory store of the rate limiter: a map of buckets with idle cleanup and capacity eviction. */
module RateLimitStore {
  import opened Options
  import opened TokenBucket

  const CLEANUP_INTERVAL := 30.0

  datatype BucketState = BucketState(bucket: Bucket, lastSeen: real)

  datatype Config = Config(params: Params, maxKeys: nat, idleTtl: real)

  datatype Store = Store(buckets: map<string, BucketState>, nextCleanup: real)

  /** One call of `take` and the delay it returns, 0 standing for `None`; `victim` is the bucket that
      `evict_if_needed` removed, if any. */
  datatype Event = Event(key: string, now: real, delay: real, victim: Option<string>)

  /** When the request of a call is let go. */
  function Release(e: Event): real { e.now + e.delay }

  predicate Valid(c: Config) { Sane(c.params) && c.idleTtl >= 0.0 }

  function EffectiveTtl(c: Config): (ttl: real)
    requires Valid(c)
    ensures ttl >= c.idleTtl && ttl >= c.params.burst / c.params.rate
  {
    MaxR(c.idleTtl, c.params.burst / c.params.rate)
  }

  predicate Idle(c: Config, b: BucketState, now: real)
    requires Valid(c)
  {
    MaxR(0.0, now - b.lastSeen) > EffectiveTtl(c)
  }

  function Cleaned(c: Config, s: Store, now: real): Store
    requires Valid(c)
  {
    if now < s.nextCleanup then s
    else Store(map k | k in s.buckets && !Idle(c, s.buckets[k], now) :: s.buckets[k], now + CLEANUP_INTERVAL)
  }

  predicate Oldest(c: Config, s: Store, now: real, v: string)
    requires Valid(c)
  {
    && v in s.buckets && Idle(c, s.buckets[v], now)
    && forall k | k in s.buckets && Idle(c, s.buckets[k], now) :: s.buckets[v].lastSeen <= s.buckets[k].lastSeen
  }

  predicate VictimOk(c: Config, s: Store, key: string, now: real, victim: Option<string>)
    requires Valid(c)
  {
    if key in s.buckets || |s.buckets| < c.maxKeys then victim.None?
    else match victim
      case None => forall k | k in s.buckets :: !Idle(c, s.buckets[k], now)
      case Some(v) => Oldest(c, s, now, v)
  }

  function Evicted(s: Store, victim: Option<string>): Store {
    match victim
    case None => s
    case Some(v) => s.(buckets := s.buckets - {v})
  }

  function Prepared(c: Config, s: Store, e: Event): Store
    requires Valid(c)
  {
    Evicted(Cleaned(c, s, e.now), e.victim)
  }

  function BucketFor(p: Params, m: map<string, BucketState>, key: string, now: real): Bucket {
    if key in m then m[key].bucket else Fresh(p, now)
  }

  function Step(c: Config, s: Store, e: Event): Store
    requires Valid(c)
  {
    var p := Prepared(c, s, e);
    var bucket := BucketFor(c.params, p.buckets, e.key, e.now);
    p.(buckets := p.buckets[e.key := BucketState(Taken(c.params, bucket, e.now), e.now)])
  }

  /** The delay that this call returns. */
  function DelayOf(c: Config, s: Store, e: Event): real
    requires Valid(c)
  {
    Delay(c.params, Step(c, s, e).buckets[e.key].bucket)
  }

  class SharedState {
    var buckets: map<string, BucketState>
    var nextCleanup: real
    const rate: real
    const burst: real
    const maxKeys: nat
    const idleTtl: real

    ghost function Cfg(): Config { Config(Params(rate, burst), maxKeys, idleTtl) }

    ghost predicate Ok() { Valid(Cfg()) }

    ghost function Value(): Store
      reads this
    {
      Store(buckets, nextCleanup)
    }

    constructor (rate: real, burst: real, maxKeys: nat, idleTtl: real, now: real)
      requires rate > 0.0 && burst >= 0.0 && idleTtl >= 0.0
      ensures Ok() && Value() == Store(map[], now + CLEANUP_INTERVAL)
      ensures Cfg() == Config(Params(rate, burst), Max(1, maxKeys), idleTtl)
    {
      this.rate, this.burst, this.idleTtl := rate, burst, idleTtl;
      this.maxKeys := Max(1, maxKeys);
      buckets, nextCleanup := map[], now + CLEANUP_INTERVAL;
    }

    function RefillHorizon(): real
      requires rate > 0.0
    {
      var secs := burst / rate;
      if secs <= 0.0 then 0.0 else secs
    }

    function TtlInEffect(): (ttl: real)
      requires Ok()
      ensures ttl == EffectiveTtl(Cfg())
    {
      var horizon := RefillHorizon();
      if idleTtl < horizon then horizon else idleTtl
    }

    method MaybeCleanup(now: real)
      requires Ok()
      modifies this
      ensures Value() == Cleaned(Cfg(), old(Value()), now)
    {
      if now < nextCleanup {
        return;
      }
      var ttl := TtlInEffect();
      buckets := map k | k in buckets && MaxR(0.0, now - buckets[k].lastSeen) <= ttl :: buckets[k];
      nextCleanup := now + CLEANUP_INTERVAL;
    }

    method FindOldest(now: real) returns (victim: Option<string>)
      requires Ok()
      ensures victim.None? ==> forall k | k in buckets :: !Idle(Cfg(), buckets[k], now)
      ensures victim.Some? ==> Oldest(Cfg(), Value(), now, victim.value)
    {
      victim := None;
      var ttl := TtlInEffect();
      var rest := buckets.Keys;
      while rest != {}
        invariant rest <= buckets.Keys
        invariant victim.None? ==> forall k | k in buckets && k !in rest :: !Idle(Cfg(), buckets[k], now)
        invariant victim.Some? ==> victim.value in buckets && Idle(Cfg(), buckets[victim.value], now)
        invariant victim.Some? ==> forall k | k in buckets && k !in rest && Idle(Cfg(), buckets[k], now) ::
                    buckets[victim.value].lastSeen <= buckets[k].lastSeen
        decreases rest
      {
        var k :| k in rest;
        rest := rest - {k};
        if MaxR(0.0, now - buckets[k].lastSeen) > ttl
           && (victim.None? || buckets[k].lastSeen < buckets[victim.value].lastSeen) {
          victim := Some(k);
        }
      }
    }

    method EvictIfNeeded(key: string, now: real) returns (ghost victim: Option<string>)
      requires Ok()
      modifies this`buckets
      ensures VictimOk(Cfg(), old(Value()), key, now, victim)
      ensures Value() == Evicted(old(Value()), victim)
    {
      if key in buckets || |buckets| < maxKeys {
        return None;
      }
      var oldest := FindOldest(now);
      victim := oldest;
      match oldest
      case Some(k) => buckets := buckets - {k};
      case None =>
    }

    method Take(key: string, now: real) returns (delay: Option<real>, ghost e: Event)
      requires Ok()
      modifies this
      ensures e == Event(key, now, DelayOf(Cfg(), old(Value()), e), e.victim)
      ensures VictimOk(Cfg(), Cleaned(Cfg(), old(Value()), now), key, now, e.victim)
      ensures Value() == Step(Cfg(), old(Value()), e)
      ensures match delay
              case Some(d) => d > 0.0 && d == e.delay
              case None => e.delay == 0.0
    {
      MaybeCleanup(now);
      ghost var victim := EvictIfNeeded(key, now);
      var bucket := if key in buckets then buckets[key].bucket else Bucket(burst, now);
      var elapsed := now - bucket.lastRefill;
      var tokens := Min(bucket.tokens + elapsed * rate, burst) - 1.0;
      assert Bucket(tokens, now) == Taken(Params(rate, burst), bucket, now);
      buckets := buckets[key := BucketState(Bucket(tokens, now), now)];
      delay := if tokens < 0.0 then Some(-tokens / rate) else None;
      e := Event(key, now, if delay.Some? then delay.value else 0.0, victim);
    }
  }

  // ---- whole runs -----------------------------------------------------------------------------

  function After(c: Config, s: Store, run: seq<Event>): Store
    requires Valid(c)
  {
    if run == [] then s else Step(c, After(c, s, run[..|run| - 1]), run[|run| - 1])
  }

  predicate Legal(c: Config, s: Store, run: seq<Event>)
    requires Valid(c)
  {
    run != [] ==>
      var pre, e := run[..|run| - 1], run[|run| - 1];
      && Legal(c, s, pre) && (pre != [] ==> pre[|pre| - 1].now <= e.now)
      && VictimOk(c, Cleaned(c, After(c, s, pre), e.now), e.key, e.now, e.victim)
      && e.delay == DelayOf(c, After(c, s, pre), e)
  }

  /** The arrival times of the requests on `key`, and their releases. */
  function TimesOf(run: seq<Event>, key: string): seq<real> {
    if run == [] then []
    else
      var pre, e := TimesOf(run[..|run| - 1], key), run[|run| - 1];
      if e.key == key then pre + [e.now] else pre
  }

  function ReleasesOf(run: seq<Event>, key: string): seq<real> {
    if run == [] then []
    else
      var pre, e := ReleasesOf(run[..|run| - 1], key), run[|run| - 1];
      if e.key == key then pre + [Release(e)] else pre
  }

  // ---- forgetting -----------------------------------------------------------------------------

  /** The bounded store shows the bucket that requests at these times leave behind: it has that bucket,
      or the bucket is full by `now`. */
  ghost predicate AgreesAt(c: Config, s: Store, key: string, times: seq<real>, now: real) {
    if key in s.buckets then
      && times != [] && s.buckets[key] == BucketState(Filled(c.params, times), times[|times| - 1])
      && Filled(c.params, times).lastRefill == times[|times| - 1]
    else times == [] || Full(c.params, Filled(c.params, times), now)
  }

  /** Every bucket that the run drops had last given no delay, or one of at most the effective time to
      live less the refill time. */
  ghost predicate DropsOnlyRefilled(c: Config, s: Store, run: seq<Event>)
    requires Valid(c)
  {
    run != [] ==>
      var pre, e := run[..|run| - 1], run[|run| - 1];
      && DropsOnlyRefilled(c, s, pre)
      && forall k | k in After(c, s, pre).buckets && k !in Prepared(c, After(c, s, pre), e).buckets ::
           Delay(c.params, After(c, s, pre).buckets[k].bucket) <= EffectiveTtl(c) - c.params.burst / c.params.rate
  }

  /** Every bucket that the run drops is full again. */
  ghost predicate DropsOnlyFull(c: Config, s: Store, run: seq<Event>)
    requires Valid(c)
  {
    run != [] ==>
      var pre, e := run[..|run| - 1], run[|run| - 1];
      && DropsOnlyFull(c, s, pre)
      && forall k | k in After(c, s, pre).buckets && k !in Prepared(c, After(c, s, pre), e).buckets ::
           Full(c.params, After(c, s, pre).buckets[k].bucket, e.now)
  }

  lemma DroppedIsIdle(c: Config, s: Store, e: Event, k: string)
    requires Valid(c) && VictimOk(c, Cleaned(c, s, e.now), e.key, e.now, e.victim)
    requires k in s.buckets && k !in Prepared(c, s, e).buckets
    ensures e.now > s.buckets[k].lastSeen + EffectiveTtl(c)
  {
  }

  lemma PreparedKeeps(c: Config, s: Store, e: Event, k: string)
    requires Valid(c) && k in Prepared(c, s, e).buckets
    ensures k in s.buckets && Prepared(c, s, e).buckets[k] == s.buckets[k]
  {
  }

  lemma PreparedAgrees(c: Config, s: Store, e: Event, key: string, times: seq<real>, was: real)
    requires Valid(c) && AgreesAt(c, s, key, times, was) && was <= e.now
    requires VictimOk(c, Cleaned(c, s, e.now), e.key, e.now, e.victim)
    requires key in s.buckets && key !in Prepared(c, s, e).buckets ==> Full(c.params, s.buckets[key].bucket, e.now)
    ensures AgreesAt(c, Prepared(c, s, e), key, times, e.now)
  {
    if key in Prepared(c, s, e).buckets {
      PreparedKeeps(c, s, e, key);
    } else if key !in s.buckets && times != [] {
      FullStays(c.params, Filled(c.params, times), was, e.now);
    }
  }

  lemma FilledNext(p: Params, times: seq<real>, now: real)
    ensures Filled(p, times + [now]) == Taken(p, if times == [] then Fresh(p, now) else Filled(p, times), now)
  {
    assert (times + [now])[..|times|] == times;
  }

  /** A take on the store gives the bucket that one more request leaves behind. */
  lemma TakeAgrees(c: Config, s: Store, key: string, times: seq<real>, now: real)
    requires Valid(c) && AgreesAt(c, s, key, times, now)
    ensures Taken(c.params, BucketFor(c.params, s.buckets, key, now), now) == Filled(c.params, times + [now])
    ensures Filled(c.params, times + [now]).lastRefill == now
  {
    FilledNext(c.params, times, now);
    if key !in s.buckets && times != [] {
      FullIsFresh(c.params, Filled(c.params, times), now);
    }
  }

  lemma StepAgreesAt(c: Config, s: Store, e: Event, key: string, times: seq<real>, now: real)
    requires Valid(c) && AgreesAt(c, Prepared(c, s, e), key, times, e.now) && e.now <= now
    ensures AgreesAt(c, Step(c, s, e), key, if e.key == key then times + [e.now] else times, now)
    ensures e.key == key ==> DelayOf(c, s, e) == Delay(c.params, Filled(c.params, times + [e.now]))
  {
    if e.key == key {
      TakeAgrees(c, Prepared(c, s, e), key, times, e.now);
    } else if key !in Prepared(c, s, e).buckets && times != [] {
      FullStays(c.params, Filled(c.params, times), e.now, now);
    }
  }

  /** The bounded store after any run whose dropped buckets were full shows the unbounded one. */
  lemma {:induction false} BoundedAgrees(c: Config, s: Store, run: seq<Event>, key: string, now: real)
    requires Valid(c) && s.buckets == map[] && Legal(c, s, run) && DropsOnlyFull(c, s, run)
    requires run != [] ==> run[|run| - 1].now <= now
    ensures AgreesAt(c, After(c, s, run), key, TimesOf(run, key), now)
  {
    if run == [] {
    } else {
      var pre, e := run[..|run| - 1], run[|run| - 1];
      BoundedAgrees(c, s, pre, key, e.now);
      PreparedAgrees(c, After(c, s, pre), e, key, TimesOf(pre, key), e.now);
      StepAgreesAt(c, After(c, s, pre), e, key, TimesOf(pre, key), now);
    }
  }

  lemma ReleasedNext(p: Params, times: seq<real>, rs: seq<real>, now: real, r: real)
    requires Sane(p) && Released(p, times, rs) && r == now + Delay(p, Filled(p, times + [now]))
    ensures Released(p, times + [now], rs + [r])
  {
    assert (times + [now])[..|times|] == times && (rs + [r])[..|rs|] == rs;
  }

  /** Cleanup and eviction never change a delay that any request on any key is given, in any run whose
      dropped buckets were full: the releases of every key are those of a bucket that is never
      dropped, and so they conform. */
  lemma {:induction false} ForgettingIsInvisible(c: Config, s: Store, run: seq<Event>, key: string)
    requires Valid(c) && s.buckets == map[] && Legal(c, s, run) && DropsOnlyFull(c, s, run)
    ensures Released(c.params, TimesOf(run, key), ReleasesOf(run, key))
  {
    if run == [] {
    } else {
      var pre, e := run[..|run| - 1], run[|run| - 1];
      ForgettingIsInvisible(c, s, pre, key);
      if e.key == key {
        BoundedAgrees(c, s, pre, key, e.now);
        PreparedAgrees(c, After(c, s, pre), e, key, TimesOf(pre, key), e.now);
        StepAgreesAt(c, After(c, s, pre), e, key, TimesOf(pre, key), e.now);
        ReleasedNext(c.params, TimesOf(pre, key), ReleasesOf(pre, key), e.now, Release(e));
      }
    }
  }

  lemma {:induction false} TimesInOrder(c: Config, s: Store, run: seq<Event>, key: string, i: nat, j: nat)
    requires Valid(c) && Legal(c, s, run) && i <= j < |TimesOf(run, key)|
    ensures run != [] && TimesOf(run, key)[i] <= TimesOf(run, key)[j] <= run[|run| - 1].now
  {
    var pre, e := run[..|run| - 1], run[|run| - 1];
    if j < |TimesOf(pre, key)| {
      TimesInOrder(c, s, pre, key, i, j);
    } else if i < j {
      TimesInOrder(c, s, pre, key, i, j - 1);
    }
  }

  /** So every run of the store conforms, key by key. */
  lemma StoreConforms(c: Config, s: Store, run: seq<Event>, key: string, i: nat, j: nat)
    requires Valid(c) && s.buckets == map[] && Legal(c, s, run) && DropsOnlyFull(c, s, run)
    requires i <= j < |TimesOf(run, key)|
    ensures |ReleasesOf(run, key)| == |TimesOf(run, key)|
    ensures Conforms(c.params, ReleasesOf(run, key), i, j)
  {
    var times, rs := TimesOf(run, key), ReleasesOf(run, key);
    ForgettingIsInvisible(c, s, run, key);
    TimesInOrder(c, s, run, key, i, j);
    Conformance(c.params, times, rs, i, j);
  }

  lemma {:induction false} SeenAtRefill(c: Config, s: Store, run: seq<Event>, key: string)
    requires Valid(c) && s.buckets == map[] && key in After(c, s, run).buckets
    ensures After(c, s, run).buckets[key].bucket.lastRefill == After(c, s, run).buckets[key].lastSeen
  {
    if run == [] {
    } else {
      var pre, e := run[..|run| - 1], run[|run| - 1];
      if key != e.key {
        PreparedKeeps(c, After(c, s, pre), e, key);
        SeenAtRefill(c, s, pre, key);
      }
    }
  }

  /** It is enough that every dropped bucket had last given no delay, or one of at most the effective time to
      live less the refill time. */
  lemma {:induction false} RefilledIsFull(c: Config, s: Store, run: seq<Event>)
    requires Valid(c) && s.buckets == map[] && Legal(c, s, run) && DropsOnlyRefilled(c, s, run)
    ensures DropsOnlyFull(c, s, run)
  {
    if run == [] {
    } else {
      var pre, e := run[..|run| - 1], run[|run| - 1];
      RefilledIsFull(c, s, pre);
      var st := After(c, s, pre);
      forall k | k in st.buckets && k !in Prepared(c, st, e).buckets
        ensures Full(c.params, st.buckets[k].bucket, e.now)
      {
        DroppedIsIdle(c, st, e, k);
        SeenAtRefill(c, s, pre, k);
        IdleMeansFullIff(c.params, st.buckets[k].bucket, EffectiveTtl(c));
      }
    }
  }

  lemma {:induction false} LegalNext(c: Config, s0: Store, run: seq<Event>, s: Store, e: Event)
    requires Valid(c) && Legal(c, s0, run) && After(c, s0, run) == s && (run != [] ==> run[|run| - 1].now <= e.now)
    requires VictimOk(c, Cleaned(c, s, e.now), e.key, e.now, e.victim) && e.delay == DelayOf(c, s, e)
    ensures Legal(c, s0, run + [e]) && After(c, s0, run + [e]) == Step(c, s, e)
  {
    assert (run + [e])[..|run|] == run;
  }

  lemma {:induction false} TimesNext(run: seq<Event>, e: Event)
    ensures TimesOf(run + [e], e.key) == TimesOf(run, e.key) + [e.now]
    ensures ReleasesOf(run + [e], e.key) == ReleasesOf(run, e.key) + [Release(e)]
  {
    assert (run + [e])[..|run|] == run;
  }

  function Held(key: string, b: Bucket, nextCleanup: real): Store {
    Store(map[key := BucketState(b, b.lastRefill)], nextCleanup)
  }

  lemma HeldStep(c: Config, b: Bucket, nextCleanup: real, e: Event)
    requires Valid(c) && e.victim == None && e.now < nextCleanup
    ensures var s, b' := Held(e.key, b, nextCleanup), Taken(c.params, b, e.now);
            && VictimOk(c, Cleaned(c, s, e.now), e.key, e.now, None) && Step(c, s, e) == Held(e.key, b', nextCleanup)
            && DelayOf(c, s, e) == Delay(c.params, b')
  {
  }

  lemma EmptyStep(c: Config, s: Store, e: Event)
    requires Valid(c) && e.victim == None && Cleaned(c, s, e.now).buckets == map[]
    ensures var b := Taken(c.params, Fresh(c.params, e.now), e.now);
            && VictimOk(c, Cleaned(c, s, e.now), e.key, e.now, None) && DelayOf(c, s, e) == Delay(c.params, b)
            && Step(c, s, e) == Held(e.key, b, Cleaned(c, s, e.now).nextCleanup)
  {
  }

  /** The bucket that n requests at time 0 leave behind, and the last of them. */
  function Debt(c: Config, n: nat): Bucket { Bucket(c.params.burst - n as real, 0.0) }

  function DebtAt(c: Config, key: string, n: nat): Event
    requires Valid(c)
  {
    Event(key, 0.0, Delay(c.params, Debt(c, n)), None)
  }

  lemma DebtTaken(c: Config, n: nat)
    requires Valid(c)
    ensures Taken(c.params, if n == 0 then Fresh(c.params, 0.0) else Debt(c, n), 0.0) == Debt(c, n + 1)
  {
    assert Earned(c.params, 0.0 - 0.0) == 0.0;
  }

  /** When the store may have forgotten a bucket last used at time 0, and its first cleanup. */
  function Later(c: Config): real
    requires Valid(c)
  {
    EffectiveTtl(c) + 1.0
  }

  function FirstCleanup(c: Config): real
    requires Valid(c)
  {
    Min(Later(c), CLEANUP_INTERVAL)
  }

  /** The store as the constructor makes it. */
  function Created(now: real): Store { Store(map[], now + CLEANUP_INTERVAL) }

  function Start(c: Config): Store
    requires Valid(c)
  {
    Created(FirstCleanup(c) - CLEANUP_INTERVAL)
  }

  /** A legal run of n requests at time 0; a bucket that is never dropped has the same debt. */
  ghost predicate Owes(c: Config, key: string, run: seq<Event>, n: nat)
    requires Valid(c)
  {
    && n >= 1 && Legal(c, Start(c), run) && After(c, Start(c), run) == Held(key, Debt(c, n), FirstCleanup(c))
    && run != [] && run[0].now == run[|run| - 1].now == 0.0 && TimesOf(run, key) != []
    && Filled(c.params, TimesOf(run, key)) == Debt(c, n)
  }

  lemma {:induction false} OwesOne(c: Config, key: string)
    requires Valid(c)
    ensures Owes(c, key, [] + [DebtAt(c, key, 1)], 1)
  {
    DebtTaken(c, 0);
    EmptyStep(c, Start(c), DebtAt(c, key, 1));
    LegalNext(c, Start(c), [], Start(c), DebtAt(c, key, 1));
    TimesNext([], DebtAt(c, key, 1));
    FilledNext(c.params, [], 0.0);
  }

  lemma {:induction false} OwesNext(c: Config, key: string, run: seq<Event>, n: nat)
    requires Valid(c) && Owes(c, key, run, n)
    ensures Owes(c, key, run + [DebtAt(c, key, n + 1)], n + 1)
  {
    var e := DebtAt(c, key, n + 1);
    DebtTaken(c, n);
    HeldStep(c, Debt(c, n), FirstCleanup(c), e);
    LegalNext(c, Start(c), run, Held(key, Debt(c, n), FirstCleanup(c)), e);
    TimesNext(run, e);
    FilledNext(c.params, TimesOf(run, key), 0.0);
  }

  lemma {:induction false} OwesAll(c: Config, key: string, n: nat) returns (run: seq<Event>)
    requires Valid(c) && n >= 1
    ensures Owes(c, key, run, n)
  {
    if n == 1 {
      OwesOne(c, key);
      run := [] + [DebtAt(c, key, 1)];
    } else {
      run := OwesAll(c, key, n - 1);
      OwesNext(c, key, run, n - 1);
      run := run + [DebtAt(c, key, n)];
    }
  }

  /** The next request, which finds a fresh bucket. */
  function Forgiven(c: Config, key: string): Event
    requires Valid(c)
  {
    Event(key, Later(c), Delay(c.params, Taken(c.params, Fresh(c.params, Later(c)), Later(c))), None)
  }

  /** More requests than the time until then and the burst are good for. */
  predicate Deep(c: Config, n: nat)
    requires Valid(c)
  {
    n >= 1 && n as real > c.params.burst + Earned(c.params, Later(c))
  }

  lemma DebtForgotten(c: Config, key: string, n: nat)
    requires Valid(c) && Deep(c, n)
    ensures var s, e := Held(key, Debt(c, n), FirstCleanup(c)), Forgiven(c, key);
            && VictimOk(c, Cleaned(c, s, e.now), key, e.now, None) && DelayOf(c, s, e) == e.delay
            && key in s.buckets && key !in Prepared(c, s, e).buckets && !Full(c.params, s.buckets[key].bucket, e.now)
  {
    var s := Held(key, Debt(c, n), FirstCleanup(c));
    assert Cleaned(c, s, Later(c)).buckets == map[];
    EmptyStep(c, s, Forgiven(c, key));
    assert Later(c) - 0.0 == Later(c);
  }

  lemma DebtKept(c: Config, key: string, n: nat)
    requires Valid(c) && Deep(c, n)
    ensures Delay(c.params, Taken(c.params, Debt(c, n), Later(c))) > Forgiven(c, key).delay
  {
    assert Later(c) - 0.0 == Later(c) && Earned(c.params, Later(c) - Later(c)) == 0.0;
    LessDelayed(c.params, Taken(c.params, Debt(c, n), Later(c)),
                Taken(c.params, Fresh(c.params, Later(c)), Later(c)));
  }

  lemma {:induction false} DropsNow(c: Config, s0: Store, pre: seq<Event>, s: Store, e: Event, k: string)
    requires Valid(c) && After(c, s0, pre) == s && k in s.buckets && k !in Prepared(c, s, e).buckets
    requires !Full(c.params, s.buckets[k].bucket, e.now)
    ensures !DropsOnlyFull(c, s0, pre + [e])
  {
    assert (pre + [e])[..|pre|] == pre;
  }

  /** The last release of the run is earlier than that of a bucket that is never dropped. */
  ghost predicate TooEarly(c: Config, run: seq<Event>, key: string)
    requires Valid(c)
  {
    var times, rs := TimesOf(run, key), ReleasesOf(run, key);
    times != [] && rs != [] && rs[|rs| - 1] < times[|times| - 1] + Delay(c.params, Filled(c.params, times))
  }

  lemma {:induction false} LosesDebt(c: Config, key: string, pre: seq<Event>, n: nat)
    requires Valid(c) && Deep(c, n) && Owes(c, key, pre, n)
    ensures TooEarly(c, pre + [Forgiven(c, key)], key)
  {
    TimesNext(pre, Forgiven(c, key));
    FilledNext(c.params, TimesOf(pre, key), Later(c));
    DebtKept(c, key, n);
  }

  /** Without that condition it is false, for every configuration: enough requests at once leave a debt that
      cleanup forgets, and the next request is let go too early. */
  lemma {:induction false} ForgettingLosesDebt(c: Config, key: string) returns (created: real, run: seq<Event>)
    requires Valid(c)
    ensures Legal(c, Created(created), run) && run != [] && created <= run[0].now
    ensures !DropsOnlyFull(c, Created(created), run) && TooEarly(c, run, key)
  {
    var n := Max(1, (c.params.burst + Earned(c.params, Later(c))).Floor + 1);
    var pre := OwesAll(c, key, n);
    var e, s := Forgiven(c, key), Held(key, Debt(c, n), FirstCleanup(c));
    created, run := FirstCleanup(c) - CLEANUP_INTERVAL, pre + [e];
    DebtForgotten(c, key, n);
    LegalNext(c, Start(c), pre, s, e);
    DropsNow(c, Start(c), pre, s, e, key);
    LosesDebt(c, key, pre, n);
  }

  // ---- housekeeping over whole runs -----------------------------------------------------------

  /** Housekeeping may drop the entry. */
  predicate MayGo(c: Config, e: BucketState, now: real)
    requires Valid(c)
  {
    now > e.lastSeen + c.idleTtl && now > e.lastSeen + c.params.burst / c.params.rate
  }

  /** What a call drops may go, what it keeps is as it was, at cleanup time nothing that may go is kept, and what
      it drops for lack of room has been idle longest of all that may go. */
  lemma Housekeeping(c: Config, s: Store, e: Event)
    requires Valid(c) && VictimOk(c, Cleaned(c, s, e.now), e.key, e.now, e.victim)
    ensures var p := Prepared(c, s, e).buckets;
            && (forall k | k in s.buckets && k !in p :: MayGo(c, s.buckets[k], e.now))
            && (forall k | k in p :: k in s.buckets && p[k] == s.buckets[k])
            && (e.now >= s.nextCleanup ==> forall k | k in p :: !MayGo(c, p[k], e.now))
            && var m := Cleaned(c, s, e.now).buckets;
               forall k, l | k in m && k !in p && l in m && MayGo(c, m[l], e.now) :: m[k].lastSeen <= m[l].lastSeen
  {
  }

  /** When `key` was last called. */
  function LastCall(run: seq<Event>, key: string): Option<real> {
    if run == [] then None
    else if run[|run| - 1].key == key then Some(run[|run| - 1].now)
    else LastCall(run[..|run| - 1], key)
  }

  /** Idleness is counted from there: every call, of any outcome, starts it anew. */
  lemma {:induction false} SeenAtLastCall(c: Config, s: Store, run: seq<Event>, key: string)
    requires Valid(c) && s.buckets == map[] && key in After(c, s, run).buckets
    ensures LastCall(run, key) == Some(After(c, s, run).buckets[key].lastSeen)
  {
    if run == [] {
    } else {
      var pre, e := run[..|run| - 1], run[|run| - 1];
      if e.key != key {
        assert key in Prepared(c, After(c, s, pre), e).buckets;
        SeenAtLastCall(c, s, pre, key);
      }
    }
  }

  /** A new key finds the store full, and no entry may go. */
  predicate Overflows(c: Config, s: Store, e: Event)
    requires Valid(c)
  {
    var m := Cleaned(c, s, e.now).buckets;
    e.key !in m && |m| >= c.maxKeys && forall k | k in m :: !MayGo(c, m[k], e.now)
  }

  /** Room for a new key is made as long as some entry may go. */
  lemma StepSize(c: Config, s: Store, e: Event)
    requires Valid(c) && VictimOk(c, Cleaned(c, s, e.now), e.key, e.now, e.victim)
    ensures var m := Cleaned(c, s, e.now).buckets;
            |Step(c, s, e).buckets|
            == |m| + if e.key !in m && (|m| < c.maxKeys || Overflows(c, s, e)) then 1 else 0
  {
    var m, p := Cleaned(c, s, e.now).buckets, Prepared(c, s, e).buckets;
    WithSize(p, e.key, Step(c, s, e).buckets[e.key]);
    if e.victim.Some? { WithoutSize(m, e.victim.value); }
  }

  function OverflowsIn(c: Config, s: Store, run: seq<Event>): nat
    requires Valid(c)
  {
    if run == [] then 0
    else
      var pre, e := run[..|run| - 1], run[|run| - 1];
      OverflowsIn(c, s, pre) + if Overflows(c, After(c, s, pre), e) then 1 else 0
  }

  /** In every run the store holds at most `max_keys` entries, and one more for each call that found it full
      with no entry that may go. */
  lemma {:induction false} CapacityBound(c: Config, s: Store, run: seq<Event>)
    requires Valid(c) && s.buckets == map[] && Legal(c, s, run)
    ensures |After(c, s, run).buckets| <= c.maxKeys + OverflowsIn(c, s, run)
  {
    if run == [] {
    } else {
      var pre, e := run[..|run| - 1], run[|run| - 1];
      CapacityBound(c, s, pre);
      SubmapSize(Cleaned(c, After(c, s, pre), e.now).buckets, After(c, s, pre).buckets);
      StepSize(c, After(c, s, pre), e);
    }
  }
}
