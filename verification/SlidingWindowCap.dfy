/** The documented hard cap, for the releases that the in-memory store really gives. */
module SlidingWindowCap {
  import opened Options
  import opened WindowQueue
  import opened SlidingWindowStore

  /** No request on `key` arrives before the one before it is released. */
  predicate Spaced(run: seq<Event>, key: string) {
    run != [] ==>
      var pre, e := run[..|run| - 1], run[|run| - 1];
      var rs := ReleasesOf(pre, key);
      Spaced(pre, key) && (e.key == key && rs != [] ==> rs[|rs| - 1] <= e.now)
  }

  /** The time to live is at least two windows, less one tick. */
  predicate Patient(c: Config) { EffectiveTtl(c) + 1 >= 2 * c.params.window }

  /** A half-open interval as long as the window holds at most `count` of the releases. */
  predicate CapOver(p: Params, rs: seq<int>, lo: int) { CountIn(rs, lo, lo + p.window) <= p.count }

  // ---- with a patient store -------------------------------------------------------------------

  lemma NoOverlapNext(p: Params, times: seq<int>, now: int, rs: seq<int>)
    requires Sane(p) && NoOverlap(p, times) && rs == Requested(p, times).rs && (rs != [] ==> rs[|rs| - 1] <= now)
    ensures NoOverlap(p, times + [now])
  {
    assert (times + [now])[..|times|] == times;
  }

  lemma {:induction false} SpacedTimes(c: Config, s: Store, run: seq<Event>, key: string)
    requires Sane(c.params) && Patient(c) && s.windows == map[] && Legal(c, s, run) && Spaced(run, key)
    ensures NoOverlap(c.params, TimesOf(run, key))
  {
    if run == [] {
    } else {
      var pre, e := run[..|run| - 1], run[|run| - 1];
      SpacedTimes(c, s, pre, key);
      if e.key == key {
        ForgettingIsInvisible(c, s, pre, key);
        NoOverlapNext(c.params, TimesOf(pre, key), e.now, ReleasesOf(pre, key));
      }
    }
  }

  lemma LegalTimes(c: Config, s: Store, run: seq<Event>, key: string)
    requires Sane(c.params) && Legal(c, s, run)
    ensures Ordered(TimesOf(run, key))
  {
    LegalInOrder(c, s, run);
    TimesOrdered(run, key, if run == [] then 0 else run[|run| - 1].now);
  }

  lemma CapFor(p: Params, times: seq<int>, rs: seq<int>, lo: int)
    requires Sane(p) && Ordered(times) && NoOverlap(p, times) && rs == Requested(p, times).rs
    ensures CapOver(p, rs, lo)
  {
    CapOverEveryWindow(p, times, lo);
  }

  /** The hard cap, over every run of the store in which the waiters of the key do not overlap. */
  lemma {:induction false} StoreCap(c: Config, s: Store, run: seq<Event>, key: string, lo: int)
    requires Sane(c.params) && Patient(c) && s.windows == map[] && Legal(c, s, run) && Spaced(run, key)
    ensures CapOver(c.params, ReleasesOf(run, key), lo)
  {
    ForgettingIsInvisible(c, s, run, key);
    SpacedTimes(c, s, run, key);
    LegalTimes(c, s, run, key);
    CapFor(c.params, TimesOf(run, key), ReleasesOf(run, key), lo);
  }

  lemma {:induction false} ReleasesLength(run: seq<Event>, key: string)
    ensures |ReleasesOf(run, key)| == |TimesOf(run, key)|
  {
    if run == [] {
    } else {
      ReleasesLength(run[..|run| - 1], key);
    }
  }

  lemma {:induction false} LastRelease(run: seq<Event>)
    requires run != []
    ensures var pre, e := run[..|run| - 1], run[|run| - 1];
            var times, rs := TimesOf(pre, e.key), ReleasesOf(run, e.key);
            |rs| == |times| + 1 && rs[|times|] == e.now + e.delay
  {
    ReleasesLength(run[..|run| - 1], run[|run| - 1].key);
  }

  /** These are the releases of arrivals at these times and then of this call. */
  ghost predicate Followed(p: Params, times: seq<int>, e: Event, rs: seq<int>)
    requires Sane(p)
  {
    && rs == Requested(p, times + [e.now]).rs && Ordered(times + [e.now])
    && |rs| == |times| + 1 && rs[|times|] == e.now + e.delay
  }

  lemma {:induction false} LastTimes(c: Config, s: Store, run: seq<Event>)
    requires Sane(c.params) && Legal(c, s, run) && run != []
    ensures var pre, e := run[..|run| - 1], run[|run| - 1];
            TimesOf(run, e.key) == TimesOf(pre, e.key) + [e.now] && Ordered(TimesOf(pre, e.key) + [e.now])
  {
    LegalTimes(c, s, run, run[|run| - 1].key);
  }

  lemma {:induction false} LastFollows(c: Config, s: Store, run: seq<Event>)
    requires Sane(c.params) && Patient(c) && s.windows == map[] && Legal(c, s, run) && run != []
    ensures var pre, e := run[..|run| - 1], run[|run| - 1];
            Followed(c.params, TimesOf(pre, e.key), e, ReleasesOf(run, e.key))
  {
    ForgettingIsInvisible(c, s, run, run[|run| - 1].key);
    LastRelease(run);
    LastTimes(c, s, run);
  }

  lemma RoomFor(p: Params, times: seq<int>, e: Event, rs: seq<int>)
    requires Sane(p) && Followed(p, times, e, rs) && e.delay == 0
    ensures CapOver(p, rs, e.now - p.window)
  {
    UndelayedSeesRoom(p, times, e.now);
  }

  /** Even with overlapping waiters, a request let through at once sees at most `count` releases, its own
      among them, in the window that ends with it. */
  lemma {:induction false} StoreSeesRoom(c: Config, s: Store, run: seq<Event>)
    requires Sane(c.params) && Patient(c) && s.windows == map[] && Legal(c, s, run)
    requires run != [] && run[|run| - 1].delay == 0
    ensures var e := run[|run| - 1]; CapOver(c.params, ReleasesOf(run, e.key), e.now - c.params.window)
  {
    var e := run[|run| - 1];
    LastFollows(c, s, run);
    RoomFor(c.params, TimesOf(run[..|run| - 1], e.key), e, ReleasesOf(run, e.key));
  }

  /** The queue has room, or at its front no entry older than the `count`-th from its back. */
  predicate QueueFits(p: Params, d: seq<int>)
    requires Sane(p)
  {
    |d| < p.count || d[0] == d[|d| - p.count]
  }

  /** The queue that a call finds, without the entries that have left the window. */
  function QueueFound(c: Config, s: Store, e: Event): seq<int> {
    Drained(QueueFor(Prepared(c, s, e), e.key), e.now - c.params.window)
  }

  lemma FoundTail(p: Params, q: seq<int>, h: History, was: int, now: int)
    requires Sane(p) && Inv(p, h, was) && (q == View(h) || (q == [] && Settled(p, h, now)))
    ensures Drained(q, now - p.window) == h.rs[DrainedTo(p, h, now)..]
  {
    if q == View(h) {
      DrainedView(p, h, now);
    } else {
      SettledDrains(p, h, was, now);
    }
  }

  lemma FitsInQueue(p: Params, rs: seq<int>, m: nat)
    requires Sane(p) && m <= |rs|
    ensures Fits(p, rs, m) <==> QueueFits(p, rs[m..])
  {
  }

  /** The queue is the end of the history of these arrivals, or empty once that has left the window. */
  ghost predicate Shown(p: Params, q: seq<int>, times: seq<int>, now: int)
    requires Sane(p)
  {
    && Ordered(times) && LastOf(times, now) <= now
    && (q == View(Requested(p, times)) || (q == [] && Settled(p, Requested(p, times), now)))
  }

  lemma {:induction false} ShownTail(p: Params, q: seq<int>, times: seq<int>, now: int) returns (m: nat)
    requires Sane(p) && Shown(p, q, times, now)
    ensures m == DrainedTo(p, Requested(p, times), now) && Drained(q, now - p.window) == Requested(p, times).rs[m..]
  {
    RequestedInv(p, times, now);
    FoundTail(p, q, Requested(p, times), LastOf(times, now), now);
    m := DrainedTo(p, Requested(p, times), now);
  }

  /** Release number n of these keeps the cap exactly when this queue fits. */
  ghost predicate CapIffFits(p: Params, rs: seq<int>, n: nat, d: seq<int>)
    requires Sane(p)
  {
    n < |rs| && (CapAt(p, rs, n) <==> QueueFits(p, d))
  }

  lemma {:induction false} FoundFits(p: Params, q: seq<int>, times: seq<int>, e: Event, rs: seq<int>)
    requires Sane(p) && Shown(p, q, times, e.now) && |times| >= p.count && Followed(p, times, e, rs)
    ensures CapIffFits(p, rs, |times|, Drained(q, e.now - p.window))
  {
    var m := ShownTail(p, q, times, e.now);
    FitsInQueue(p, Requested(p, times).rs, m);
    CapHoldsIff(p, times, e.now);
  }

  lemma {:induction false} FoundShown(c: Config, s: Store, pre: seq<Event>, e: Event)
    requires Sane(c.params) && Patient(c) && s.windows == map[]
    requires Legal(c, s, pre) && (pre != [] ==> pre[|pre| - 1].now <= e.now)
    requires VictimOk(c, Cleaned(c, After(c, s, pre), e.now), e.key, e.now, e.victim)
    ensures Shown(c.params, QueueFor(Prepared(c, After(c, s, pre), e), e.key), TimesOf(pre, e.key), e.now)
  {
    var times, st := TimesOf(pre, e.key), After(c, s, pre);
    LegalInOrder(c, s, pre);
    TimesOrdered(pre, e.key, e.now);
    BoundedAgrees(c, s, pre, e.key, e.now);
    PreparedAgrees(c, st, e, e.key, times, e.now);
    QueueShown(c, Prepared(c, st, e), e.key, times, e.now);
  }

  lemma {:induction false} FoundCap(c: Config, st: Store, times: seq<int>, e: Event, rs: seq<int>)
    requires Sane(c.params) && Shown(c.params, QueueFor(Prepared(c, st, e), e.key), times, e.now)
    requires |times| >= c.params.count && Followed(c.params, times, e, rs)
    ensures CapIffFits(c.params, rs, |times|, QueueFound(c, st, e))
  {
    FoundFits(c.params, QueueFor(Prepared(c, st, e), e.key), times, e, rs);
  }

  /** Whether a request keeps the cap is decided by the queue that it finds in the store. */
  lemma {:induction false} StoreCapHoldsIff(c: Config, s: Store, run: seq<Event>)
    requires Sane(c.params) && Patient(c) && s.windows == map[] && Legal(c, s, run) && run != []
    requires |TimesOf(run[..|run| - 1], run[|run| - 1].key)| >= c.params.count
    ensures var pre, e := run[..|run| - 1], run[|run| - 1];
            CapIffFits(c.params, ReleasesOf(run, e.key), |TimesOf(pre, e.key)|, QueueFound(c, After(c, s, pre), e))
  {
    var pre, e := run[..|run| - 1], run[|run| - 1];
    FoundShown(c, s, pre, e);
    LastFollows(c, s, run);
    FoundCap(c, After(c, s, pre), TimesOf(pre, e.key), e, ReleasesOf(run, e.key));
  }

  // ---- with a store that is not patient -------------------------------------------------------

  /** The store as the constructor makes it. */
  function Created(now: int): Store { Store(map[], now + CLEANUP_INTERVAL) }

  lemma {:induction false} LegalNext(c: Config, s0: Store, run: seq<Event>, s: Store, e: Event)
    requires Sane(c.params) && Legal(c, s0, run) && After(c, s0, run) == s
    requires run != [] ==> run[|run| - 1].now <= e.now
    requires VictimOk(c, Cleaned(c, s, e.now), e.key, e.now, e.victim) && e.delay == DelayOf(c, s, e)
    ensures Legal(c, s0, run + [e]) && After(c, s0, run + [e]) == Step(c, s, e)
  {
    assert (run + [e])[..|run|] == run;
  }

  /** The waiters of `key` do not overlap, and these are its releases. */
  ghost predicate SpacedAs(run: seq<Event>, key: string, rs: seq<int>) {
    Spaced(run, key) && ReleasesOf(run, key) == rs
  }

  lemma {:induction false} SpacedNext(run: seq<Event>, key: string, rs: seq<int>, e: Event)
    requires SpacedAs(run, key, rs) && e.key == key && (rs != [] ==> rs[|rs| - 1] <= e.now)
    ensures SpacedAs(run + [e], key, rs + [e.now + e.delay])
  {
    assert (run + [e])[..|run|] == run;
  }

  /** A store that holds one queue. */
  function Held(key: string, q: seq<int>, seen: int, nextCleanup: int): Store {
    Store(map[key := WindowState(q, seen)], nextCleanup)
  }

  lemma HeldStep(c: Config, key: string, q: seq<int>, seen: int, nextCleanup: int, e: Event)
    requires Sane(c.params) && e.key == key && e.victim == None && e.now < nextCleanup
    ensures var s := Held(key, q, seen, nextCleanup);
            && VictimOk(c, Cleaned(c, s, e.now), key, e.now, None) && DelayOf(c, s, e) == Wait(c.params, q, e.now)
            && Step(c, s, e) == Held(key, Taken(c.params, q, e.now), e.now, nextCleanup)
  {
  }

  lemma {:induction false} EmptyTaken(p: Params, q: seq<int>, now: int)
    requires Sane(p) && q == []
    ensures Wait(p, q, now) == 0 && Taken(p, q, now) == [now]
  {
    TakenLength(p, q, now);
    assert Delay(p, [], now) == 0;
  }

  lemma EmptyStep(c: Config, key: string, s: Store, e: Event)
    requires Sane(c.params) && e.key == key && e.victim == None && Cleaned(c, s, e.now).windows == map[]
    ensures VictimOk(c, Cleaned(c, s, e.now), key, e.now, None) && DelayOf(c, s, e) == 0
    ensures Step(c, s, e) == Held(key, [e.now], e.now, Cleaned(c, s, e.now).nextCleanup)
  {
    EmptyTaken(c.params, QueueFor(Cleaned(c, s, e.now), key), e.now);
  }

  /** A request at the time of the front of the queue is released then or a window later. */
  lemma {:induction false} AtFront(p: Params, q: seq<int>, now: int)
    requires Sane(p) && q != [] && q[0] == now
    ensures var delay := if |q| < p.count then 0 else p.window;
            Wait(p, q, now) == delay && Taken(p, q, now) == q + [now + delay]
  {
    FrontStays(p, q, now);
  }

  // ---- `count` + 1 requests at time 0 and, as soon as the store forgets them, `count` more -----

  function Later(c: Config): int { EffectiveTtl(c) + 1 }

  function FirstCleanup(c: Config): int { if Later(c) < CLEANUP_INTERVAL then Later(c) else CLEANUP_INTERVAL }

  function EventAt(c: Config, key: string, i: nat): Event {
    if i < c.params.count then Event(key, 0, 0, None)
    else if i == c.params.count then Event(key, 0, c.params.window, None)
    else Event(key, Later(c), 0, None)
  }

  /** The store before event number i. */
  function StoreAt(c: Config, key: string, i: nat): Store {
    var n := c.params.count;
    if i == 0 then Store(map[], FirstCleanup(c))
    else if i <= n then Held(key, Copies<int>(0, i), 0, FirstCleanup(c))
    else if i == n + 1 then Held(key, Copies<int>(0, n) + [c.params.window], 0, FirstCleanup(c))
    else Held(key, Copies(Later(c), i - n - 1), Later(c), Later(c) + CLEANUP_INTERVAL)
  }

  predicate Linked(c: Config, s: Store, e: Event, t: Store)
    requires Sane(c.params)
  {
    VictimOk(c, Cleaned(c, s, e.now), e.key, e.now, e.victim) && e.delay == DelayOf(c, s, e) && t == Step(c, s, e)
  }

  lemma LinkedInBurst(c: Config, key: string, now: int, n: nat, nextCleanup: int, e: Event, t: Store)
    requires Sane(c.params) && 1 <= n <= c.params.count && now < nextCleanup
    requires e == Event(key, now, if n < c.params.count then 0 else c.params.window, None)
    requires t == Held(key, Copies(now, n) + [now + e.delay], now, nextCleanup)
    ensures Linked(c, Held(key, Copies(now, n), now, nextCleanup), e, t)
  {
    HeldStep(c, key, Copies(now, n), now, nextCleanup, e);
    AtFront(c.params, Copies(now, n), now);
  }

  lemma LinkedFirst(c: Config, key: string, s: Store, now: int)
    requires Sane(c.params) && Cleaned(c, s, now).windows == map[]
    ensures Linked(c, s, Event(key, now, 0, None), Held(key, Copies(now, 1), now, Cleaned(c, s, now).nextCleanup))
  {
    EmptyStep(c, key, s, Event(key, now, 0, None));
    assert Copies(now, 1) == [now];
  }

  lemma ForgetsBurst(c: Config, key: string)
    requires Sane(c.params)
    ensures Cleaned(c, StoreAt(c, key, c.params.count + 1), Later(c)) == Store(map[], Later(c) + CLEANUP_INTERVAL)
  {
  }

  lemma LinkedAt(c: Config, key: string, i: nat)
    requires Sane(c.params) && i <= 2 * c.params.count
    ensures Linked(c, StoreAt(c, key, i), EventAt(c, key, i), StoreAt(c, key, i + 1))
  {
    var n := c.params.count;
    if i == 0 {
      LinkedFirst(c, key, StoreAt(c, key, 0), 0);
    } else if i <= n {
      assert i < n ==> Copies<int>(0, i) + [0] == Copies<int>(0, i + 1);
      LinkedInBurst(c, key, 0, i, FirstCleanup(c), EventAt(c, key, i), StoreAt(c, key, i + 1));
    } else if i == n + 1 {
      ForgetsBurst(c, key);
      LinkedFirst(c, key, StoreAt(c, key, i), Later(c));
    } else {
      var k := i - n - 1;
      assert Copies(Later(c), k) + [Later(c)] == Copies(Later(c), k + 1);
      LinkedInBurst(c, key, Later(c), k, Later(c) + CLEANUP_INTERVAL, EventAt(c, key, i), StoreAt(c, key, i + 1));
    }
  }

  function RunTo(c: Config, key: string, i: nat): (run: seq<Event>)
    ensures |run| == i && (i > 0 ==> run[0] == EventAt(c, key, 0) && run[i - 1] == EventAt(c, key, i - 1))
  {
    if i == 0 then [] else RunTo(c, key, i - 1) + [EventAt(c, key, i - 1)]
  }

  function ReleasesTo(c: Config, key: string, i: nat): (rs: seq<int>)
    ensures |rs| == i && (i > 0 ==> rs[i - 1] == ReleaseOf(c, key, i - 1))
  {
    if i == 0 then [] else ReleasesTo(c, key, i - 1) + [ReleaseOf(c, key, i - 1)]
  }

  lemma {:induction false} RunLegal(c: Config, key: string, i: nat)
    requires Sane(c.params) && i <= 2 * c.params.count + 1
    ensures Legal(c, StoreAt(c, key, 0), RunTo(c, key, i))
    ensures After(c, StoreAt(c, key, 0), RunTo(c, key, i)) == StoreAt(c, key, i)
  {
    if i == 0 {
    } else {
      RunLegal(c, key, i - 1);
      LinkedAt(c, key, i - 1);
      LegalNext(c, StoreAt(c, key, 0), RunTo(c, key, i - 1), StoreAt(c, key, i - 1), EventAt(c, key, i - 1));
    }
  }

  /** When event number i is released. */
  function ReleaseOf(c: Config, key: string, i: nat): int { EventAt(c, key, i).now + EventAt(c, key, i).delay }

  lemma Gap(c: Config, key: string, i: nat)
    requires Sane(c.params)
    ensures ReleaseOf(c, key, i) <= EventAt(c, key, i + 1).now
    ensures EventAt(c, key, i + 1).key == EventAt(c, key, i).key == key
  {
  }

  lemma GapBefore(c: Config, key: string, i: nat)
    requires Sane(c.params)
    ensures i > 0 ==> ReleasesTo(c, key, i)[i - 1] <= EventAt(c, key, i).now
    ensures EventAt(c, key, i).key == key
  {
    if i > 0 { Gap(c, key, i - 1); }
  }

  lemma {:induction false} RunSpaced(c: Config, key: string, i: nat)
    requires Sane(c.params)
    ensures SpacedAs(RunTo(c, key, i), key, ReleasesTo(c, key, i))
  {
    if i == 0 {
    } else {
      RunSpaced(c, key, i - 1);
      GapBefore(c, key, i - 1);
      SpacedNext(RunTo(c, key, i - 1), key, ReleasesTo(c, key, i - 1), EventAt(c, key, i - 1));
    }
  }

  lemma {:induction false} CountNext(rs: seq<int>, x: int, lo: int, hi: int)
    ensures CountIn(rs + [x], lo, hi) == CountIn(rs, lo, hi) + if lo < x <= hi then 1 else 0
  {
    assert (rs + [x])[..|rs|] == rs;
  }

  lemma InWindow(c: Config, key: string, i: nat)
    requires Sane(c.params) && !Patient(c) && i >= c.params.count
    ensures Later(c) - c.params.window < ReleaseOf(c, key, i) <= Later(c)
  {
  }

  lemma {:induction false} RunCounts(c: Config, key: string, i: nat)
    requires Sane(c.params) && !Patient(c) && i > c.params.count
    ensures CountIn(ReleasesTo(c, key, i), Later(c) - c.params.window, Later(c)) >= i - c.params.count
  {
    InWindow(c, key, i - 1);
    CountNext(ReleasesTo(c, key, i - 1), ReleaseOf(c, key, i - 1), Later(c) - c.params.window, Later(c));
    if i == c.params.count + 1 {
    } else {
      RunCounts(c, key, i - 1);
    }
  }

  /** The run as a whole. */
  function Whole(c: Config, key: string): seq<Event> { RunTo(c, key, 2 * c.params.count + 1) }

  function WholeReleases(c: Config, key: string): seq<int> { ReleasesTo(c, key, 2 * c.params.count + 1) }

  lemma {:induction false} WholeEnds(c: Config, key: string)
    requires Sane(c.params)
    ensures Whole(c, key) != [] && Whole(c, key)[0].now == 0
    ensures Whole(c, key)[|Whole(c, key)| - 1] == Event(key, Later(c), 0, None)
  {
  }

  lemma {:induction false} WholeLegal(c: Config, key: string)
    requires Sane(c.params)
    ensures Legal(c, Created(FirstCleanup(c) - CLEANUP_INTERVAL), Whole(c, key))
  {
    RunLegal(c, key, 2 * c.params.count + 1);
  }

  lemma {:induction false} WholeSpaced(c: Config, key: string)
    requires Sane(c.params)
    ensures Spaced(Whole(c, key), key) && ReleasesOf(Whole(c, key), key) == WholeReleases(c, key)
  {
    RunSpaced(c, key, 2 * c.params.count + 1);
  }

  lemma {:induction false} WholeBreaks(c: Config, key: string)
    requires Sane(c.params) && !Patient(c)
    ensures !CapOver(c.params, WholeReleases(c, key), Later(c) - c.params.window)
  {
    RunCounts(c, key, 2 * c.params.count + 1);
  }

  /** A run of a store that breaks the cap, without overlapping waiters, by a request let through at once. */
  ghost predicate Breaks(c: Config, created: int, run: seq<Event>)
    requires Sane(c.params)
  {
    && Legal(c, Created(created), run) && run != [] && created <= run[0].now
    && var e := run[|run| - 1];
       Spaced(run, e.key) && e.delay == 0 && !CapOver(c.params, ReleasesOf(run, e.key), e.now - c.params.window)
  }

  /** With a shorter time to live that run breaks the cap, although no request arrives before the one before
      it is released. */
  lemma {:induction false} ImpatientBreaksCap(c: Config, key: string)
    requires Sane(c.params) && !Patient(c)
    ensures Breaks(c, FirstCleanup(c) - CLEANUP_INTERVAL, Whole(c, key))
  {
    WholeLegal(c, key);
    WholeEnds(c, key);
    WholeSpaced(c, key);
    WholeBreaks(c, key);
  }

  /** In every run of a store, no interval holds too many releases of a key whose waiters do not overlap. */
  ghost predicate CapAlways(c: Config)
    requires Sane(c.params)
  {
    forall created: int, run: seq<Event>, key: string, lo: int |
      Legal(c, Created(created), run) && Spaced(run, key) && (run != [] ==> created <= run[0].now) ::
      CapOver(c.params, ReleasesOf(run, key), lo)
  }

  /** In every run of a store, a request let through at once sees room in the window that ends with it. */
  ghost predicate RoomAlways(c: Config)
    requires Sane(c.params)
  {
    forall created: int, run: seq<Event> |
      Legal(c, Created(created), run) && run != [] && created <= run[0].now && run[|run| - 1].delay == 0 ::
      CapOver(c.params, ReleasesOf(run, run[|run| - 1].key), run[|run| - 1].now - c.params.window)
  }

  lemma {:induction false} PatientKeepsCap(c: Config)
    requires Sane(c.params) && Patient(c)
    ensures CapAlways(c) && RoomAlways(c)
  {
    forall created: int, run: seq<Event>, key: string, lo: int | Legal(c, Created(created), run) && Spaced(run, key)
      ensures CapOver(c.params, ReleasesOf(run, key), lo)
    {
      StoreCap(c, Created(created), run, key, lo);
    }
    forall created: int, run: seq<Event> | Legal(c, Created(created), run) && run != [] && run[|run| - 1].delay == 0
      ensures CapOver(c.params, ReleasesOf(run, run[|run| - 1].key), run[|run| - 1].now - c.params.window)
    {
      StoreSeesRoom(c, Created(created), run);
    }
  }

  lemma {:induction false} BreakRefutes(c: Config, created: int, run: seq<Event>)
    requires Sane(c.params) && Breaks(c, created, run)
    ensures !CapAlways(c) && !RoomAlways(c)
  {
    var e := run[|run| - 1];
    assert !CapOver(c.params, ReleasesOf(run, e.key), e.now - c.params.window);
  }

  /** Both are so exactly when the effective time to live is at least two windows, less one tick. */
  lemma CapAlwaysIff(c: Config)
    requires Sane(c.params)
    ensures CapAlways(c) <==> Patient(c)
    ensures RoomAlways(c) <==> Patient(c)
  {
    if Patient(c) {
      PatientKeepsCap(c);
    } else {
      ImpatientBreaksCap(c, "k");
      BreakRefutes(c, FirstCleanup(c) - CLEANUP_INTERVAL, Whole(c, "k"));
    }
  }

  lemma OneInTen(c: Config, key: string)
    requires c == Config(Params(1, 10), 1, 10)
    ensures Whole(c, key) == [Event(key, 0, 0, None), Event(key, 0, 10, None), Event(key, 11, 0, None)]
  {
    assert RunTo(c, key, 1) == [EventAt(c, key, 0)];
    assert RunTo(c, key, 2) == [EventAt(c, key, 0), EventAt(c, key, 1)];
  }

  /** For instance, one request per ten ticks and a time to live of ten: arrivals 0, 0 and 11 are released at
      0, 10 and 11. */
  lemma CleanupBreaksCap() returns (created: int, run: seq<Event>)
    ensures Breaks(Config(Params(1, 10), 1, 10), created, run)
    ensures run == [Event("k", 0, 0, None), Event("k", 0, 10, None), Event("k", 11, 0, None)]
  {
    var c := Config(Params(1, 10), 1, 10);
    OneInTen(c, "k");
    ImpatientBreaksCap(c, "k");
    created, run := FirstCleanup(c) - CLEANUP_INTERVAL, Whole(c, "k");
  }

  // ---- with overlapping waiters: `count` + k requests at time 0 -------------------------------

  function CrowdEvent(p: Params, key: string, i: nat): Event {
    Event(key, 0, if i < p.count then 0 else p.window, None)
  }

  /** The store after `i` of the calls. */
  function CrowdStore(c: Config, key: string, i: nat): Store
    requires Sane(c.params)
  {
    if i == 0 then Created(0) else Held(key, Crowd(c.params, i), 0, CLEANUP_INTERVAL)
  }

  lemma {:induction false} CrowdLinked(c: Config, key: string, i: nat)
    requires Sane(c.params)
    ensures Linked(c, CrowdStore(c, key, i), CrowdEvent(c.params, key, i), CrowdStore(c, key, i + 1))
  {
    if i == 0 {
      LinkedFirst(c, key, Created(0), 0);
      assert Crowd(c.params, 1) == Copies<int>(0, 1);
    } else {
      HeldStep(c, key, Crowd(c.params, i), 0, CLEANUP_INTERVAL, CrowdEvent(c.params, key, i));
      AtFront(c.params, Crowd(c.params, i), 0);
    }
  }

  /** The run makes requests at time 0 on a new store, leaves this store, and these are the releases of `key`. */
  ghost predicate Leaves(c: Config, run: seq<Event>, s: Store, key: string, rs: seq<int>)
    requires Sane(c.params)
  {
    && Legal(c, Created(0), run) && After(c, Created(0), run) == s && ReleasesOf(run, key) == rs
    && forall j | 0 <= j < |run| :: run[j].now == 0
  }

  lemma {:induction false} ReleasesGrow(run: seq<Event>, e: Event)
    ensures ReleasesOf(run + [e], e.key) == ReleasesOf(run, e.key) + [e.now + e.delay]
  {
    assert (run + [e])[..|run|] == run;
  }

  lemma {:induction false} LeavesNext(
    c: Config, run: seq<Event>, s: Store, key: string, rs: seq<int>, e: Event, t: Store)
    requires Sane(c.params) && Leaves(c, run, s, key, rs) && Linked(c, s, e, t) && e.key == key && e.now == 0
    ensures Leaves(c, run + [e], t, key, rs + [e.delay])
  {
    LegalNext(c, Created(0), run, s, e);
    ReleasesGrow(run, e);
  }

  lemma {:induction false} CrowdMade(c: Config, key: string, i: nat) returns (run: seq<Event>)
    requires Sane(c.params)
    ensures Leaves(c, run, CrowdStore(c, key, i), key, Crowd(c.params, i))
  {
    if i == 0 {
      run := [];
    } else {
      run := CrowdMade(c, key, i - 1);
      var e := CrowdEvent(c.params, key, i - 1);
      CrowdLinked(c, key, i - 1);
      LeavesNext(c, run, CrowdStore(c, key, i - 1), key, Crowd(c.params, i - 1), e, CrowdStore(c, key, i));
      run := run + [e];
    }
  }

  /** How many of the releases are a window ahead. */
  function Ahead(p: Params, rs: seq<int>): nat { CountIn(rs, 0, p.window) }

  lemma {:induction false} CrowdAheadNext(p: Params, i: nat, rs: seq<int>)
    requires Sane(p) && rs == Crowd(p, i)
    ensures Ahead(p, Crowd(p, i + 1)) == Ahead(p, rs) + if i < p.count then 0 else 1
  {
    CountNext(rs, if i < p.count then 0 else p.window, 0, p.window);
  }

  lemma {:induction false} CrowdAhead(p: Params, i: nat, rs: seq<int>)
    requires Sane(p) && rs == Crowd(p, i)
    ensures Ahead(p, rs) == if i <= p.count then 0 else i - p.count
  {
    if i == 0 {
    } else {
      CrowdAhead(p, i - 1, Crowd(p, i - 1));
      CrowdAheadNext(p, i - 1, Crowd(p, i - 1));
    }
  }

  lemma {:induction false} CrowdIs(p: Params, k: nat)
    requires Sane(p)
    ensures Crowd(p, p.count + k) == Copies<int>(0, p.count) + Copies<int>(p.window, k)
  {
    if k == 0 {
      CrowdIsZero(p, p.count);
    } else {
      CrowdIs(p, k - 1);
    }
  }

  lemma {:induction false} CrowdIsZero(p: Params, i: nat)
    requires Sane(p) && i <= p.count
    ensures Crowd(p, i) == Copies<int>(0, i)
  {
    if i == 0 {
    } else {
      CrowdIsZero(p, i - 1);
    }
  }

  lemma {:induction false} CrowdCap(p: Params, k: nat, rs: seq<int>)
    requires Sane(p) && rs == Crowd(p, p.count + k)
    ensures CapOver(p, rs, 0) <==> k <= p.count
  {
    CrowdAhead(p, p.count + k, rs);
  }

  /** The last k of these releases come together, one window after the others. */
  ghost predicate Together(p: Params, rs: seq<int>, k: nat) {
    && rs == Copies<int>(0, p.count) + Copies<int>(p.window, k)
    && (CapOver(p, rs, 0) <==> k <= p.count)
  }

  lemma {:induction false} CrowdTogether(p: Params, k: nat, rs: seq<int>)
    requires Sane(p) && rs == Crowd(p, p.count + k)
    ensures Together(p, rs, k)
  {
    CrowdIs(p, k);
    CrowdCap(p, k, rs);
  }

  /** With overlapping waiters there is no cap at all, whatever the time to live: of `count` + k requests that
      arrive together, the last k are released together. */
  lemma {:induction false} OverlapUncapped(c: Config, key: string, k: nat) returns (run: seq<Event>)
    requires Sane(c.params)
    ensures Legal(c, Created(0), run) && (forall j | 0 <= j < |run| :: run[j].now == 0)
    ensures Together(c.params, ReleasesOf(run, key), k)
  {
    run := CrowdMade(c, key, c.params.count + k);
    CrowdTogether(c.params, k, ReleasesOf(run, key));
  }
}
