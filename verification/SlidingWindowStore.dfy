/** The in-memory store of the sliding window: a map of queues with idle cleanup and capacity eviction. */
module SlidingWindowStore {
  import opened Options
  import opened WindowQueue

  const CLEANUP_INTERVAL := 30_000

  datatype WindowState = WindowState(timestamps: seq<int>, lastSeen: int)

  datatype Config = Config(params: Params, maxKeys: nat, idleTtl: nat)

  datatype Store = Store(windows: map<string, WindowState>, nextCleanup: int)

  /** One call of `take` and the delay it returns, 0 standing for `None`; `victim` is the queue that
      `evict_if_needed` removed, if any. */
  datatype Event = Event(key: string, now: int, delay: int, victim: Option<string>)

  function EffectiveTtl(c: Config): (ttl: nat)
    ensures ttl >= c.idleTtl && ttl >= c.params.window
  {
    Max(c.idleTtl, c.params.window)
  }

  predicate Idle(c: Config, w: WindowState, now: int) { Max(0, now - w.lastSeen) > EffectiveTtl(c) }

  function Cleaned(c: Config, s: Store, now: int): Store {
    if now < s.nextCleanup then s
    else Store(map k | k in s.windows && !Idle(c, s.windows[k], now) :: s.windows[k], now + CLEANUP_INTERVAL)
  }

  predicate Oldest(c: Config, s: Store, now: int, v: string) {
    && v in s.windows && Idle(c, s.windows[v], now)
    && forall k | k in s.windows && Idle(c, s.windows[k], now) :: s.windows[v].lastSeen <= s.windows[k].lastSeen
  }

  predicate VictimOk(c: Config, s: Store, key: string, now: int, victim: Option<string>) {
    if key in s.windows || |s.windows| < c.maxKeys then victim.None?
    else match victim
      case None => forall k | k in s.windows :: !Idle(c, s.windows[k], now)
      case Some(v) => Oldest(c, s, now, v)
  }

  function Evicted(s: Store, victim: Option<string>): Store {
    match victim
    case None => s
    case Some(v) => s.(windows := s.windows - {v})
  }

  function Prepared(c: Config, s: Store, e: Event): Store { Evicted(Cleaned(c, s, e.now), e.victim) }

  function QueueFor(s: Store, key: string): seq<int> {
    if key in s.windows then s.windows[key].timestamps else []
  }

  function Step(c: Config, s: Store, e: Event): Store
    requires Sane(c.params)
  {
    var p := Prepared(c, s, e);
    p.(windows := p.windows[e.key := WindowState(Taken(c.params, QueueFor(p, e.key), e.now), e.now)])
  }

  /** The delay that this call returns. */
  function DelayOf(c: Config, s: Store, e: Event): int
    requires Sane(c.params)
  {
    Wait(c.params, QueueFor(Prepared(c, s, e), e.key), e.now)
  }

  class SharedState {
    var windows: map<string, WindowState>
    var nextCleanup: int
    const count: nat
    const window: nat
    const maxKeys: nat
    const idleTtl: nat

    ghost function Cfg(): Config { Config(Params(count, window), maxKeys, idleTtl) }

    ghost function Value(): Store
      reads this
    {
      Store(windows, nextCleanup)
    }

    constructor (count: nat, window: nat, maxKeys: nat, idleTtl: nat, now: int)
      ensures Value() == Store(map[], now + CLEANUP_INTERVAL)
      ensures Cfg() == Config(Params(count, window), Max(1, maxKeys), idleTtl)
    {
      this.count, this.window, this.idleTtl := count, window, idleTtl;
      this.maxKeys := Max(1, maxKeys);
      windows, nextCleanup := map[], now + CLEANUP_INTERVAL;
    }

    method MaybeCleanup(now: int)
      modifies this
      ensures Value() == Cleaned(Cfg(), old(Value()), now)
    {
      if now < nextCleanup {
        return;
      }
      var ttl := Max(idleTtl, window);
      windows := map k | k in windows && Max(0, now - windows[k].lastSeen) <= ttl :: windows[k];
      nextCleanup := now + CLEANUP_INTERVAL;
    }

    method FindOldest(now: int) returns (victim: Option<string>)
      ensures victim.None? ==> forall k | k in windows :: !Idle(Cfg(), windows[k], now)
      ensures victim.Some? ==> Oldest(Cfg(), Value(), now, victim.value)
    {
      victim := None;
      var ttl := Max(idleTtl, window);
      var rest := windows.Keys;
      while rest != {}
        invariant rest <= windows.Keys
        invariant victim.None? ==> forall k | k in windows && k !in rest :: !Idle(Cfg(), windows[k], now)
        invariant victim.Some? ==> victim.value in windows && Idle(Cfg(), windows[victim.value], now)
        invariant victim.Some? ==> forall k | k in windows && k !in rest && Idle(Cfg(), windows[k], now) ::
                    windows[victim.value].lastSeen <= windows[k].lastSeen
        decreases rest
      {
        var k :| k in rest;
        rest := rest - {k};
        if Max(0, now - windows[k].lastSeen) > ttl
           && (victim.None? || windows[k].lastSeen < windows[victim.value].lastSeen) {
          victim := Some(k);
        }
      }
    }

    method EvictIfNeeded(key: string, now: int) returns (ghost victim: Option<string>)
      modifies this`windows
      ensures VictimOk(Cfg(), old(Value()), key, now, victim)
      ensures Value() == Evicted(old(Value()), victim)
    {
      if key in windows || |windows| < maxKeys {
        return None;
      }
      var oldest := FindOldest(now);
      victim := oldest;
      match oldest
      case Some(k) => windows := windows - {k};
      case None =>
    }

    /** Popping the expired entries off the front. */
    method Drain(q: seq<int>, cutoff: int) returns (d: seq<int>)
      ensures d == Drained(q, cutoff)
    {
      d := q;
      ghost var i := 0;
      while d != [] && d[0] <= cutoff
        invariant i <= |q| && d == q[i..]
        invariant FirstAfter(q, cutoff, 0) == FirstAfter(q, cutoff, i)
      {
        d := d[1..];
        i := i + 1;
      }
    }

    /** The queue part of `take`. */
    method Reserve(q: seq<int>, now: int) returns (q': seq<int>, delay: Option<int>)
      requires Sane(Params(count, window))
      ensures q' == Taken(Params(count, window), q, now)
      ensures match delay
              case Some(d) => d > 0 && d == Wait(Params(count, window), q, now)
              case None => Wait(Params(count, window), q, now) == 0
    {
      q' := Drain(q, now - window);
      if |q'| < count {
        q' := q' + [now];
        delay := None;
      } else {
        var oldest := q'[0];
        var wait := window - Max(0, now - oldest);
        q' := q' + [now + wait];
        delay := Some(wait);
      }
    }

    method Take(key: string, now: int) returns (delay: Option<int>, ghost e: Event)
      requires Sane(Params(count, window))
      modifies this
      ensures e == Event(key, now, DelayOf(Cfg(), old(Value()), e), e.victim)
      ensures VictimOk(Cfg(), Cleaned(Cfg(), old(Value()), now), key, now, e.victim)
      ensures Value() == Step(Cfg(), old(Value()), e)
      ensures match delay
              case Some(d) => d > 0 && d == e.delay
              case None => e.delay == 0
    {
      MaybeCleanup(now);
      ghost var victim := EvictIfNeeded(key, now);
      var timestamps := if key in windows then windows[key].timestamps else [];
      ghost var prepared := Value();
      timestamps, delay := Reserve(timestamps, now);
      windows := windows[key := WindowState(timestamps, now)];
      e := Event(key, now, if delay.Some? then delay.value else 0, victim);
      assert Prepared(Cfg(), old(Value()), e) == prepared;
    }
  }

  // ---- whole runs -----------------------------------------------------------------------------

  function After(c: Config, s: Store, run: seq<Event>): Store
    requires Sane(c.params)
  {
    if run == [] then s else Step(c, After(c, s, run[..|run| - 1]), run[|run| - 1])
  }

  predicate Legal(c: Config, s: Store, run: seq<Event>)
    requires Sane(c.params)
  {
    run != [] ==>
      var pre, e := run[..|run| - 1], run[|run| - 1];
      && Legal(c, s, pre) && (pre != [] ==> pre[|pre| - 1].now <= e.now)
      && VictimOk(c, Cleaned(c, After(c, s, pre), e.now), e.key, e.now, e.victim)
      && e.delay == DelayOf(c, After(c, s, pre), e)
  }

  /** The arrival times of the requests on `key`. */
  function TimesOf(run: seq<Event>, key: string): seq<int> {
    if run == [] then []
    else
      var pre, e := TimesOf(run[..|run| - 1], key), run[|run| - 1];
      if e.key == key then pre + [e.now] else pre
  }

  /** The releases of the requests on `key`. */
  function ReleasesOf(run: seq<Event>, key: string): seq<int> {
    if run == [] then []
    else
      var pre, e := ReleasesOf(run[..|run| - 1], key), run[|run| - 1];
      if e.key == key then pre + [e.now + e.delay] else pre
  }

  predicate InOrder(run: seq<Event>) {
    run != [] ==>
      var pre, e := run[..|run| - 1], run[|run| - 1];
      InOrder(pre) && (pre != [] ==> pre[|pre| - 1].now <= e.now)
  }

  lemma {:induction false} LegalInOrder(c: Config, s: Store, run: seq<Event>)
    requires Sane(c.params) && Legal(c, s, run)
    ensures InOrder(run)
  {
    if run == [] {
    } else {
      LegalInOrder(c, s, run[..|run| - 1]);
    }
  }

  lemma {:induction false} TimesOrdered(run: seq<Event>, key: string, now: int)
    requires InOrder(run) && (run != [] ==> run[|run| - 1].now <= now)
    ensures Ordered(TimesOf(run, key)) && LastOf(TimesOf(run, key), now) <= now
  {
    if run == [] {
    } else {
      var e := run[|run| - 1];
      TimesOrdered(run[..|run| - 1], key, e.now);
      OrderedNext(TimesOf(run[..|run| - 1], key), e.now);
    }
  }

  lemma OrderedNext(times: seq<int>, now: int)
    requires Ordered(times) && LastOf(times, now) <= now
    ensures Ordered(times + [now])
  {
    assert forall i | 0 <= i < |times| :: times[i] <= times[|times| - 1];
  }

  // ---- the queue is the end of the history ----------------------------------------------------

  function View(h: History): seq<int>
    requires h.m <= |h.rs|
  {
    h.rs[h.m..]
  }

  lemma {:induction false} FirstAfterInTail(rs: seq<int>, cutoff: int, m: nat, i: nat)
    requires m + i <= |rs|
    ensures FirstAfter(rs[m..], cutoff, i) + m == FirstAfter(rs, cutoff, m + i)
    decreases |rs| - i
  {
    if m + i < |rs| && rs[m + i] <= cutoff {
      FirstAfterInTail(rs, cutoff, m, i + 1);
    }
  }

  lemma DrainedView(p: Params, h: History, now: int)
    requires h.m <= |h.rs|
    ensures Drained(View(h), now - p.window) == h.rs[DrainedTo(p, h, now)..]
  {
    FirstAfterInTail(h.rs, now - p.window, h.m, 0);
  }

  lemma AppendTail(rs: seq<int>, m: nat, x: int)
    requires m <= |rs|
    ensures (rs + [x])[m..] == rs[m..] + [x]
  {
  }

  lemma DelayIsRelease(p: Params, rs: seq<int>, m: nat, now: int)
    requires Sane(p) && m <= |rs|
    ensures now + Delay(p, rs[m..], now) == ReleaseAt(p, rs, m, now)
  {
  }

  lemma TakenIsNext(p: Params, h: History, now: int)
    requires Sane(p) && h.m <= |h.rs|
    ensures Taken(p, View(h), now) == View(Next(p, h, now))
    ensures now + Wait(p, View(h), now) == ReleaseAt(p, h.rs, DrainedTo(p, h, now), now)
  {
    var m := DrainedTo(p, h, now);
    DrainedView(p, h, now);
    DelayIsRelease(p, h.rs, m, now);
    AppendTail(h.rs, m, ReleaseAt(p, h.rs, m, now));
  }

  /** Nothing of the history is inside the window that ends at `now`. */
  predicate Settled(p: Params, h: History, now: int) { h.rs == [] || h.rs[|h.rs| - 1] <= now - p.window }

  lemma SettledDrains(p: Params, h: History, was: int, now: int)
    requires Sane(p) && Inv(p, h, was) && Settled(p, h, now)
    ensures DrainedTo(p, h, now) == |h.rs|
  {
  }

  lemma EmptyIsNext(p: Params, h: History, was: int, now: int)
    requires Sane(p) && Inv(p, h, was) && Settled(p, h, now)
    ensures Taken(p, [], now) == View(Next(p, h, now))
    ensures Wait(p, [], now) == 0
    ensures ReleaseAt(p, h.rs, DrainedTo(p, h, now), now) == now
  {
    SettledDrains(p, h, was, now);
  }

  // ---- forgetting -----------------------------------------------------------------------------

  lemma TakenLength(p: Params, q: seq<int>, now: int)
    requires Sane(p) && Ordered(q)
    ensures q == [] || q[|q| - 1] <= now - p.window ==> Taken(p, q, now) == [now]
    ensures q != [] && q[|q| - 1] > now - p.window ==> |Taken(p, q, now)| > 1
  {
    assert q == [] || q[|q| - 1] <= now - p.window ==> Drained(q, now - p.window) == [];
  }

  /** The queue after requests at these times. */
  function QueueAfter(p: Params, q: seq<int>, times: seq<int>): seq<int>
    requires Sane(p)
  {
    if times == [] then q else Taken(p, QueueAfter(p, q, times[..|times| - 1]), times[|times| - 1])
  }

  /** The delay that the last of these requests is given. */
  function LastWait(p: Params, q: seq<int>, times: seq<int>): int
    requires Sane(p) && times != []
  {
    Wait(p, QueueAfter(p, q, times[..|times| - 1]), times[|times| - 1])
  }

  predicate From(times: seq<int>, now: int) { times != [] && now <= times[0] && Ordered(times) }

  /** Whatever requests come from `now` on, the last of them is given the delay that it would have been given
      had the queue been dropped at `now`. */
  ghost predicate DropUnseen(p: Params, q: seq<int>, now: int)
    requires Sane(p)
  {
    forall times | From(times, now) :: LastWait(p, q, times) == LastWait(p, [], times)
  }

  /** The last entry has left the window. */
  predicate Gone(p: Params, q: seq<int>, now: int) { q == [] || q[|q| - 1] <= now - p.window }

  lemma {:induction false} GoneTaken(p: Params, q: seq<int>, now: int)
    requires Sane(p) && Ordered(q) && Gone(p, q, now)
    ensures Wait(p, q, now) == 0 && Taken(p, q, now) == [now]
  {
    TakenLength(p, q, now);
    assert Drained(q, now - p.window) == [];
  }

  lemma {:induction false} GoneAfter(p: Params, q: seq<int>, now: int, times: seq<int>)
    requires Sane(p) && Ordered(q) && Gone(p, q, now) && From(times, now)
    ensures QueueAfter(p, q, times) == QueueAfter(p, [], times) && LastWait(p, q, times) == LastWait(p, [], times)
  {
    if |times| == 1 {
      assert times[..0] == [];
      GoneTaken(p, q, times[0]);
      GoneTaken(p, [], times[0]);
    } else {
      GoneAfter(p, q, now, times[..|times| - 1]);
    }
  }

  lemma FrontStays(p: Params, d: seq<int>, now: int)
    requires d != [] && d[0] > now - p.window
    ensures Drained(d, now - p.window) == d
  {
  }

  /** Requests at one instant only add to what is left of the queue. */
  lemma {:induction false} AtOnce(p: Params, q: seq<int>, now: int, k: nat)
    requires Sane(p) && Ordered(q) && !Gone(p, q, now)
    ensures var d := Drained(QueueAfter(p, q, Copies(now, k)), now - p.window);
            |d| > k && d[0] > now - p.window
  {
    if k == 0 {
      assert Copies(now, 0) == [];
      assert forall i | 0 <= i < |q| :: q[i] <= q[|q| - 1];
    } else {
      assert Copies(now, k)[..k - 1] == Copies(now, k - 1);
      AtOnce(p, q, now, k - 1);
      FrontStays(p, QueueAfter(p, q, Copies(now, k)), now);
    }
  }

  /** On an empty queue the first `count` requests at one instant go at once. */
  lemma {:induction false} RoomAtOnce(p: Params, now: int, k: nat)
    requires Sane(p) && k < p.count
    ensures |Drained(QueueAfter(p, [], Copies(now, k)), now - p.window)| <= k
  {
    if k == 0 {
      assert Copies(now, 0) == [];
    } else {
      assert Copies(now, k)[..k - 1] == Copies(now, k - 1);
      RoomAtOnce(p, now, k - 1);
    }
  }

  lemma {:induction false} LastOfCopies(p: Params, q: seq<int>, now: int, k: nat)
    requires Sane(p)
    ensures LastWait(p, q, Copies(now, k + 1))
         == Delay(p, Drained(QueueAfter(p, q, Copies(now, k)), now - p.window), now)
  {
    assert Copies(now, k + 1)[..k] == Copies(now, k);
  }

  lemma {:induction false} NotGoneIsSeen(p: Params, q: seq<int>, now: int)
    requires Sane(p) && Ordered(q) && !Gone(p, q, now)
    ensures From(Copies(now, p.count), now)
    ensures LastWait(p, q, Copies(now, p.count)) > 0 == LastWait(p, [], Copies(now, p.count))
  {
    var k := p.count - 1;
    LastOfCopies(p, q, now, k);
    LastOfCopies(p, [], now, k);
    AtOnce(p, q, now, k);
    RoomAtOnce(p, now, k);
  }

  /** Dropping a queue at `now` changes no delay that any later requests are given exactly when its last entry
      has left the window. */
  lemma DropIsInvisibleIff(p: Params, q: seq<int>, now: int)
    requires Sane(p) && Ordered(q)
    ensures DropUnseen(p, q, now) <==> Gone(p, q, now)
  {
    if Gone(p, q, now) {
      forall times | From(times, now) ensures LastWait(p, q, times) == LastWait(p, [], times) {
        GoneAfter(p, q, now, times);
      }
    } else {
      NotGoneIsSeen(p, q, now);
    }
  }

  lemma IdleMeansSettled(p: Params, h: History, last: int, ttl: nat, now: int)
    requires Sane(p) && Inv(p, h, last) && ttl + 1 >= 2 * p.window && now > last + ttl
    ensures Settled(p, h, now)
  {
  }

  /** The releases of `i` requests at time 0. */
  function Crowd(p: Params, i: nat): (rs: seq<int>)
    requires Sane(p)
    ensures |rs| == i && (i > 0 ==> rs[0] == 0)
  {
    if i == 0 then [] else Crowd(p, i - 1) + [if i <= p.count then 0 else p.window]
  }

  lemma CrowdNext(p: Params, i: nat)
    requires Sane(p)
    ensures Next(p, History(Crowd(p, i), 0), 0) == History(Crowd(p, i + 1), 0)
  {
    assert DrainedTo(p, History(Crowd(p, i), 0), 0) == 0;
  }

  /** A burst of requests: the first `count` go at once, all the others are queued a window ahead. */
  lemma {:induction false} CrowdRequested(p: Params, i: nat)
    requires Sane(p)
    ensures Requested(p, Copies<int>(0, i)) == History(Crowd(p, i), 0)
  {
    if i == 0 {
    } else {
      assert Copies<int>(0, i)[..i - 1] == Copies<int>(0, i - 1);
      CrowdRequested(p, i - 1);
      CrowdNext(p, i - 1);
    }
  }

  lemma BurstUnsettled(p: Params, ttl: nat) returns (times: seq<int>)
    requires Sane(p) && ttl + 1 < 2 * p.window
    ensures times != [] && Ordered(times) && !Settled(p, Requested(p, times), times[|times| - 1] + ttl + 1)
  {
    times := Copies<int>(0, p.count + 1);
    CrowdRequested(p, p.count + 1);
  }

  lemma LongTtlSuffices(p: Params, ttl: nat, times: seq<int>, now: int)
    requires Sane(p) && ttl + 1 >= 2 * p.window
    requires Ordered(times) && times != [] && now > times[|times| - 1] + ttl
    ensures Settled(p, Requested(p, times), now)
  {
    RequestedInv(p, times, now);
    IdleMeansSettled(p, Requested(p, times), times[|times| - 1], ttl, now);
  }

  /** Every queue that any requests leave behind, once idle for longer than `ttl`, is as good as empty. */
  ghost predicate TtlSuffices(p: Params, ttl: nat)
    requires Sane(p)
  {
    forall times: seq<int>, now: int | times != [] && Ordered(times) && now > times[|times| - 1] + ttl ::
      Settled(p, Requested(p, times), now)
  }

  /** That is so exactly when the time to live is at least two windows, less one tick. */
  lemma TtlSufficesIff(p: Params, ttl: nat)
    requires Sane(p)
    ensures TtlSuffices(p, ttl) <==> ttl + 1 >= 2 * p.window
  {
    if ttl + 1 >= 2 * p.window {
      forall times: seq<int>, now: int | times != [] && Ordered(times) && now > times[|times| - 1] + ttl
        ensures Settled(p, Requested(p, times), now)
      {
        LongTtlSuffices(p, ttl, times, now);
      }
    } else {
      var times := BurstUnsettled(p, ttl);
      assert !TtlSuffices(p, ttl);
    }
  }

  /** The bounded store shows the reference: what it still has is the end of the history, what it lacks
      has left the window. */
  ghost predicate AgreesAt(c: Config, s: Store, key: string, times: seq<int>, now: int)
    requires Sane(c.params)
  {
    var h := Requested(c.params, times);
    if key in s.windows then times != [] && s.windows[key] == WindowState(View(h), times[|times| - 1])
    else Settled(c.params, h, now)
  }

  lemma PreparedAgrees(c: Config, s: Store, e: Event, key: string, times: seq<int>, was: int)
    requires Sane(c.params) && EffectiveTtl(c) + 1 >= 2 * c.params.window
    requires Ordered(times) && AgreesAt(c, s, key, times, was) && was <= e.now
    requires VictimOk(c, Cleaned(c, s, e.now), e.key, e.now, e.victim)
    ensures AgreesAt(c, Prepared(c, s, e), key, times, e.now)
  {
    if key in s.windows && key !in Prepared(c, s, e).windows {
      assert Idle(c, s.windows[key], e.now);
      RequestedInv(c.params, times, times[|times| - 1]);
      IdleMeansSettled(c.params, Requested(c.params, times), times[|times| - 1], EffectiveTtl(c), e.now);
    }
  }

  /** A take on the end of the history, or on nothing once the history has settled, gives the end of the
      next history and its delay. */
  lemma QueueAgrees(p: Params, q: seq<int>, h: History, was: int, now: int)
    requires Sane(p) && Inv(p, h, was) && (q == View(h) || (q == [] && Settled(p, h, now)))
    ensures Taken(p, q, now) == View(Next(p, h, now))
    ensures now + Wait(p, q, now) == ReleaseAt(p, h.rs, DrainedTo(p, h, now), now)
  {
    if q == View(h) {
      TakenIsNext(p, h, now);
    } else {
      EmptyIsNext(p, h, was, now);
    }
  }

  lemma QueueShown(c: Config, s: Store, key: string, times: seq<int>, now: int)
    requires Sane(c.params) && AgreesAt(c, s, key, times, now)
    ensures var h := Requested(c.params, times);
            QueueFor(s, key) == View(h) || (QueueFor(s, key) == [] && Settled(c.params, h, now))
  {
  }

  lemma NextReleases(p: Params, h: History, now: int)
    requires Sane(p) && h.m <= |h.rs|
    ensures Next(p, h, now).rs[|h.rs|] == ReleaseAt(p, h.rs, DrainedTo(p, h, now), now)
  {
  }

  lemma RequestAgrees(p: Params, q: seq<int>, times: seq<int>, now: int)
    requires Sane(p) && Ordered(times) && LastOf(times, now) <= now
    requires q == View(Requested(p, times)) || (q == [] && Settled(p, Requested(p, times), now))
    ensures Taken(p, q, now) == View(Requested(p, times + [now]))
    ensures now + Wait(p, q, now) == Requested(p, times + [now]).rs[|times|]
  {
    var h := Requested(p, times);
    RequestedInv(p, times, now);
    QueueAgrees(p, q, h, LastOf(times, now), now);
    NextReleases(p, h, now);
    RequestedNext(p, times, now);
  }

  lemma StepAgreesAt(c: Config, s: Store, e: Event, key: string, times: seq<int>, now: int)
    requires Sane(c.params) && Ordered(times) && LastOf(times, e.now) <= e.now <= now
    requires AgreesAt(c, Prepared(c, s, e), key, times, e.now)
    ensures AgreesAt(c, Step(c, s, e), key, if e.key == key then times + [e.now] else times, now)
  {
    if e.key == key {
      var p := Prepared(c, s, e);
      QueueShown(c, p, key, times, e.now);
      RequestAgrees(c.params, QueueFor(p, key), times, e.now);
    }
  }

  lemma {:induction false} BoundedAgrees(c: Config, s: Store, run: seq<Event>, key: string, now: int)
    requires Sane(c.params) && EffectiveTtl(c) + 1 >= 2 * c.params.window
    requires s.windows == map[] && Legal(c, s, run) && (run != [] ==> run[|run| - 1].now <= now)
    ensures AgreesAt(c, After(c, s, run), key, TimesOf(run, key), now)
  {
    if run == [] {
    } else {
      var pre, e := run[..|run| - 1], run[|run| - 1];
      LegalInOrder(c, s, pre);
      TimesOrdered(pre, key, e.now);
      BoundedAgrees(c, s, pre, key, e.now);
      PreparedAgrees(c, After(c, s, pre), e, key, TimesOf(pre, key), e.now);
      StepAgreesAt(c, After(c, s, pre), e, key, TimesOf(pre, key), now);
    }
  }

  lemma StepAgrees(c: Config, s: Store, e: Event, times: seq<int>, was: int)
    requires Sane(c.params) && EffectiveTtl(c) + 1 >= 2 * c.params.window
    requires Ordered(times) && LastOf(times, e.now) <= e.now && AgreesAt(c, s, e.key, times, was) && was <= e.now
    requires VictimOk(c, Cleaned(c, s, e.now), e.key, e.now, e.victim)
    ensures e.now + DelayOf(c, s, e) == Requested(c.params, times + [e.now]).rs[|times|]
  {
    PreparedAgrees(c, s, e, e.key, times, was);
    var p := Prepared(c, s, e);
    QueueShown(c, p, e.key, times, e.now);
    RequestAgrees(c.params, QueueFor(p, e.key), times, e.now);
  }

  /** This call is released where the history of its key says. */
  predicate Exact(p: Params, times: seq<int>, e: Event)
    requires Sane(p)
  {
    Requested(p, times + [e.now]).rs == Requested(p, times).rs + [e.now + e.delay]
  }

  lemma {:induction false} AppendsRelease(p: Params, times: seq<int>, e: Event)
    requires Sane(p) && e.now + e.delay == Requested(p, times + [e.now]).rs[|times|]
    ensures Exact(p, times, e)
  {
    RequestedNext(p, times, e.now);
  }

  lemma {:induction false} NextIsExact(c: Config, s: Store, pre: seq<Event>, e: Event)
    requires Sane(c.params) && EffectiveTtl(c) + 1 >= 2 * c.params.window && s.windows == map[]
    requires Legal(c, s, pre) && (pre != [] ==> pre[|pre| - 1].now <= e.now)
    requires VictimOk(c, Cleaned(c, After(c, s, pre), e.now), e.key, e.now, e.victim)
    requires e.delay == DelayOf(c, After(c, s, pre), e)
    ensures Exact(c.params, TimesOf(pre, e.key), e)
  {
    LegalInOrder(c, s, pre);
    TimesOrdered(pre, e.key, e.now);
    BoundedAgrees(c, s, pre, e.key, e.now);
    StepAgrees(c, After(c, s, pre), e, TimesOf(pre, e.key), e.now);
    AppendsRelease(c.params, TimesOf(pre, e.key), e);
  }

  lemma {:induction false} ReleasesNext(p: Params, run: seq<Event>, key: string)
    requires Sane(p) && run != []
    requires var pre, e := run[..|run| - 1], run[|run| - 1];
             && ReleasesOf(pre, key) == Requested(p, TimesOf(pre, key)).rs
             && (e.key == key ==> Exact(p, TimesOf(pre, key), e))
    ensures ReleasesOf(run, key) == Requested(p, TimesOf(run, key)).rs
  {
  }

  /** With a time to live of two windows, cleanup and eviction never change a delay that any request on any
      key is given, in any run: each is released where the history of its key says. */
  lemma {:induction false} ForgettingIsInvisible(c: Config, s: Store, run: seq<Event>, key: string)
    requires Sane(c.params) && EffectiveTtl(c) + 1 >= 2 * c.params.window
    requires s.windows == map[] && Legal(c, s, run)
    ensures ReleasesOf(run, key) == Requested(c.params, TimesOf(run, key)).rs
  {
    if run == [] {
    } else {
      var pre, e := run[..|run| - 1], run[|run| - 1];
      ForgettingIsInvisible(c, s, pre, key);
      if e.key == key { NextIsExact(c, s, pre, e); }
      ReleasesNext(c.params, run, key);
    }
  }

  // ---- housekeeping over whole runs -----------------------------------------------------------

  /** Housekeeping may drop the entry. */
  predicate MayGo(c: Config, e: WindowState, now: int)
    requires Sane(c.params)
  {
    now > e.lastSeen + c.idleTtl && now > e.lastSeen + c.params.window
  }

  /** What a call drops may go, what it keeps is as it was, at cleanup time nothing that may go is kept, and what
      it drops for lack of room has been idle longest of all that may go. */
  lemma Housekeeping(c: Config, s: Store, e: Event)
    requires Sane(c.params) && VictimOk(c, Cleaned(c, s, e.now), e.key, e.now, e.victim)
    ensures var p := Prepared(c, s, e).windows;
            && (forall k | k in s.windows && k !in p :: MayGo(c, s.windows[k], e.now))
            && (forall k | k in p :: k in s.windows && p[k] == s.windows[k])
            && (e.now >= s.nextCleanup ==> forall k | k in p :: !MayGo(c, p[k], e.now))
            && var m := Cleaned(c, s, e.now).windows;
               forall k, l | k in m && k !in p && l in m && MayGo(c, m[l], e.now) :: m[k].lastSeen <= m[l].lastSeen
  {
  }

  /** When `key` was last called. */
  function LastCall(run: seq<Event>, key: string): Option<int> {
    if run == [] then None
    else if run[|run| - 1].key == key then Some(run[|run| - 1].now)
    else LastCall(run[..|run| - 1], key)
  }

  /** Idleness is counted from there: every call, of any outcome, starts it anew. */
  lemma {:induction false} SeenAtLastCall(c: Config, s: Store, run: seq<Event>, key: string)
    requires Sane(c.params) && s.windows == map[] && key in After(c, s, run).windows
    ensures LastCall(run, key) == Some(After(c, s, run).windows[key].lastSeen)
  {
    if run == [] {
    } else {
      var pre, e := run[..|run| - 1], run[|run| - 1];
      if e.key != key {
        assert key in Prepared(c, After(c, s, pre), e).windows;
        SeenAtLastCall(c, s, pre, key);
      }
    }
  }

  /** A new key finds the store full, and no entry may go. */
  predicate Overflows(c: Config, s: Store, e: Event)
    requires Sane(c.params)
  {
    var m := Cleaned(c, s, e.now).windows;
    e.key !in m && |m| >= c.maxKeys && forall k | k in m :: !MayGo(c, m[k], e.now)
  }

  /** Room for a new key is made as long as some entry may go. */
  lemma StepSize(c: Config, s: Store, e: Event)
    requires Sane(c.params) && VictimOk(c, Cleaned(c, s, e.now), e.key, e.now, e.victim)
    ensures var m := Cleaned(c, s, e.now).windows;
            |Step(c, s, e).windows|
            == |m| + if e.key !in m && (|m| < c.maxKeys || Overflows(c, s, e)) then 1 else 0
  {
    var m, p := Cleaned(c, s, e.now).windows, Prepared(c, s, e).windows;
    WithSize(p, e.key, Step(c, s, e).windows[e.key]);
    if e.victim.Some? { WithoutSize(m, e.victim.value); }
  }

  function OverflowsIn(c: Config, s: Store, run: seq<Event>): nat
    requires Sane(c.params)
  {
    if run == [] then 0
    else
      var pre, e := run[..|run| - 1], run[|run| - 1];
      OverflowsIn(c, s, pre) + if Overflows(c, After(c, s, pre), e) then 1 else 0
  }

  /** In every run the store holds at most `max_keys` entries, and one more for each call that found it full
      with no entry that may go. */
  lemma {:induction false} CapacityBound(c: Config, s: Store, run: seq<Event>)
    requires Sane(c.params) && s.windows == map[] && Legal(c, s, run)
    ensures |After(c, s, run).windows| <= c.maxKeys + OverflowsIn(c, s, run)
  {
    if run == [] {
    } else {
      var pre, e := run[..|run| - 1], run[|run| - 1];
      CapacityBound(c, s, pre);
      SubmapSize(Cleaned(c, After(c, s, pre), e.now).windows, After(c, s, pre).windows);
      StepSize(c, After(c, s, pre), e);
    }
  }
}
