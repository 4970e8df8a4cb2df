/** One token bucket (src/middleware/rate_limiter.rs). Times are seconds; tokens, times and rates are
    exact reals. */
module TokenBucket {
  import opened Options

  datatype Bucket = Bucket(tokens: real, lastRefill: real)

  datatype Params = Params(rate: real, burst: real)

  predicate Sane(p: Params) { p.rate > 0.0 && p.burst >= 0.0 }

  function Min(a: real, b: real): real { if a < b then a else b }

  function MaxR(a: real, b: real): real { if a < b then b else a }

  /** The tokens that a duration brings. */
  function Earned(p: Params, d: real): real { d * p.rate }

  /** A bucket that a request at `now` creates. */
  function Fresh(p: Params, now: real): Bucket { Bucket(p.burst, now) }

  function Refilled(p: Params, b: Bucket, now: real): real {
    Min(b.tokens + Earned(p, now - b.lastRefill), p.burst)
  }

  /** The bucket after one request: it may go into debt. */
  function Taken(p: Params, b: Bucket, now: real): Bucket {
    Bucket(Refilled(p, b, now) - 1.0, now)
  }

  /** The delay the bucket's last request was given: the time to earn its debt. */
  function Delay(p: Params, b: Bucket): (d: real)
    requires Sane(p)
    ensures d >= 0.0
  {
    if b.tokens < 0.0 then -b.tokens / p.rate else 0.0
  }

  lemma EarnedAdds(p: Params, x: real, y: real)
    ensures Earned(p, x + y) == Earned(p, x) + Earned(p, y)
    ensures Earned(p, x - y) == Earned(p, x) - Earned(p, y)
  {
  }

  lemma EarnedGrows(p: Params, x: real, y: real)
    requires Sane(p)
    ensures x <= y <==> Earned(p, x) <= Earned(p, y)
  {
    if x < y {
      assert (y - x) * p.rate > 0.0;
    } else if y < x {
      assert (x - y) * p.rate > 0.0;
    }
  }

  lemma EarnedDelay(p: Params, b: Bucket)
    requires Sane(p)
    ensures Earned(p, Delay(p, b)) == MaxR(0.0, -b.tokens)
  {
    if b.tokens < 0.0 {
      assert (-b.tokens / p.rate) * p.rate == -b.tokens;
    }
  }

  lemma EarnedHorizon(p: Params)
    requires Sane(p)
    ensures Earned(p, p.burst / p.rate) == p.burst
  {
  }

  /** The bucket's debt line: the number of tokens by which it has fallen behind a bucket that has
      been filling, without a cap, since time 0. */
  function Level(p: Params, b: Bucket): real { Earned(p, b.lastRefill) - b.tokens }

  /** Every request moves the debt line on by one, from where it was or from where a full bucket would
      have it. */
  lemma TakeMovesLevel(p: Params, b: Bucket, now: real)
    requires Sane(p)
    ensures Level(p, Taken(p, b, now)) == MaxR(Level(p, b), Earned(p, now) - p.burst) + 1.0
  {
    EarnedAdds(p, now, b.lastRefill);
  }

  /** With times scaled by the rate, a release is where the arrival or the debt line puts it, whichever is
      later. */
  lemma ReleaseIsLevel(p: Params, b: Bucket)
    requires Sane(p)
    ensures Earned(p, b.lastRefill + Delay(p, b)) == MaxR(Earned(p, b.lastRefill), Level(p, b))
  {
    EarnedAdds(p, b.lastRefill, Delay(p, b));
    EarnedDelay(p, b);
  }

  // ---- the requests of one key ----------------------------------------------------------------

  /** The bucket after requests at these times, if it is never dropped. */
  function Filled(p: Params, times: seq<real>): Bucket
    requires times != []
  {
    var pre, now := times[..|times| - 1], times[|times| - 1];
    Taken(p, if pre == [] then Fresh(p, now) else Filled(p, pre), now)
  }

  /** `rs` are the releases of requests at these times: each its arrival plus the delay of the bucket. */
  predicate Released(p: Params, times: seq<real>, rs: seq<real>)
    requires Sane(p)
  {
    && |times| == |rs|
    && (times != [] ==>
         var n := |times| - 1;
         Released(p, times[..n], rs[..n]) && rs[n] == times[n] + Delay(p, Filled(p, times)))
  }

  /** The times scaled by the rate. */
  function Scaled(p: Params, times: seq<real>): (a: seq<real>)
    ensures |a| == |times|
  {
    if times == [] then [] else Scaled(p, times[..|times| - 1]) + [Earned(p, times[|times| - 1])]
  }

  /** The debt line after scaled arrivals `a`. */
  function LevelOf(burst: real, a: seq<real>): real
    requires a != []
  {
    var pre, x := a[..|a| - 1], a[|a| - 1];
    (if pre == [] then x - burst else MaxR(LevelOf(burst, pre), x - burst)) + 1.0
  }

  /** The scaled release of request number n. */
  function Out(burst: real, a: seq<real>, n: nat): real
    requires n < |a|
  {
    MaxR(a[n], LevelOf(burst, a[..n + 1]))
  }

  lemma {:induction false} LevelAdvances(burst: real, a: seq<real>, i: nat, j: nat)
    requires i <= j < |a|
    ensures LevelOf(burst, a[..j + 1]) >= LevelOf(burst, a[..i + 1]) + (j - i) as real
    ensures LevelOf(burst, a[..j + 1]) >= a[j] - burst + 1.0
  {
    assert a[..j + 1][..j] == a[..j];
    if i < j {
      LevelAdvances(burst, a, i, j - 1);
    }
  }

  lemma ScaledConformance(burst: real, a: seq<real>, i: nat, j: nat)
    requires i <= j < |a| && a[i] <= a[j]
    ensures Out(burst, a, i) <= Out(burst, a, j)
    ensures (j - i + 1) as real <= MaxR(burst, 1.0) + (Out(burst, a, j) - Out(burst, a, i))
  {
    LevelAdvances(burst, a, i, j);
    LevelAdvances(burst, a, i, i);
  }

  lemma ScaledLast(p: Params, times: seq<real>)
    requires times != []
    ensures var n := |times| - 1;
            Scaled(p, times)[..n] == Scaled(p, times[..n]) && Scaled(p, times)[n] == Earned(p, times[n])
  {
  }

  lemma {:induction false} FilledLevel(p: Params, times: seq<real>)
    requires Sane(p) && times != []
    ensures Level(p, Filled(p, times)) == LevelOf(p.burst, Scaled(p, times))
    ensures Filled(p, times).lastRefill == times[|times| - 1]
  {
    var pre, now := times[..|times| - 1], times[|times| - 1];
    ScaledLast(p, times);
    if pre == [] {
      TakeMovesLevel(p, Fresh(p, now), now);
    } else {
      FilledLevel(p, pre);
      TakeMovesLevel(p, Filled(p, pre), now);
    }
  }

  lemma FilledRelease(p: Params, times: seq<real>, r: real)
    requires Sane(p) && times != [] && r == times[|times| - 1] + Delay(p, Filled(p, times))
    ensures Earned(p, r) == Out(p.burst, Scaled(p, times), |times| - 1)
  {
    FilledLevel(p, times);
    ReleaseIsLevel(p, Filled(p, times));
    ScaledLast(p, times);
    assert Scaled(p, times)[..|times|] == Scaled(p, times);
  }

  lemma OutPrefix(burst: real, a: seq<real>, m: nat, n: nat)
    requires n < m <= |a|
    ensures Out(burst, a[..m], n) == Out(burst, a, n)
  {
    assert a[..m][..n + 1] == a[..n + 1];
  }

  lemma {:induction false} ReleasedAt(p: Params, times: seq<real>, rs: seq<real>, n: nat)
    requires Sane(p) && Released(p, times, rs) && n < |times|
    ensures Earned(p, times[n]) == Scaled(p, times)[n]
    ensures Earned(p, rs[n]) == Out(p.burst, Scaled(p, times), n)
  {
    var last := |times| - 1;
    ScaledLast(p, times);
    if n < last {
      ReleasedAt(p, times[..last], rs[..last], n);
      OutPrefix(p.burst, Scaled(p, times), last, n);
    } else {
      FilledRelease(p, times, rs[n]);
    }
  }

  /** Between these two requests releases keep their order, and there are at most max(burst, 1) plus rate
      times the time between the two releases. */
  predicate Conforms(p: Params, rs: seq<real>, i: nat, j: nat)
    requires i <= j < |rs|
  {
    rs[i] <= rs[j] && (j - i + 1) as real <= MaxR(p.burst, 1.0) + Earned(p, rs[j] - rs[i])
  }

  /** Conformance, for any two requests of one key. */
  lemma Conformance(p: Params, times: seq<real>, rs: seq<real>, i: nat, j: nat)
    requires Sane(p) && Released(p, times, rs) && i <= j < |times| && times[i] <= times[j]
    ensures Conforms(p, rs, i, j)
  {
    ReleasedAt(p, times, rs, i);
    ReleasedAt(p, times, rs, j);
    EarnedGrows(p, times[i], times[j]);
    ScaledConformance(p.burst, Scaled(p, times), i, j);
    EarnedGrows(p, rs[i], rs[j]);
    EarnedAdds(p, rs[j], rs[i]);
  }

  // ---- forgetting one bucket ------------------------------------------------------------------

  /** The bucket has refilled by `now`, so that it is as good as new. */
  predicate Full(p: Params, b: Bucket, now: real) { b.tokens + Earned(p, now - b.lastRefill) >= p.burst }

  lemma FullStays(p: Params, b: Bucket, now: real, t: real)
    requires Sane(p) && now <= t && Full(p, b, now)
    ensures Full(p, b, t)
  {
    EarnedGrows(p, now - b.lastRefill, t - b.lastRefill);
  }

  lemma FullIsFresh(p: Params, b: Bucket, now: real)
    requires Sane(p) && Full(p, b, now)
    ensures Taken(p, b, now) == Taken(p, Fresh(p, now), now)
  {
    assert Earned(p, now - now) == 0.0;
  }

  /** The bucket after requests at these times. */
  function Drawn(p: Params, b: Bucket, times: seq<real>): Bucket {
    if times == [] then b else Taken(p, Drawn(p, b, times[..|times| - 1]), times[|times| - 1])
  }

  predicate From(times: seq<real>, now: real) {
    times != [] && now <= times[0] && forall i, j | 0 <= i < j < |times| :: times[i] <= times[j]
  }

  /** Whatever requests come from `now` on, the last of them is given the delay that it would have been given
      had the bucket been dropped at `now`. */
  ghost predicate DropUnseen(p: Params, b: Bucket, now: real)
    requires Sane(p)
  {
    forall times | From(times, now) :: Delay(p, Drawn(p, b, times)) == Delay(p, Drawn(p, Fresh(p, times[0]), times))
  }

  lemma {:induction false} FullDrawn(p: Params, b: Bucket, now: real, times: seq<real>)
    requires Sane(p) && Full(p, b, now) && From(times, now)
    ensures Drawn(p, b, times) == Drawn(p, Fresh(p, times[0]), times)
  {
    if |times| == 1 {
      assert times[..0] == [];
      FullStays(p, b, now, times[0]);
      FullIsFresh(p, b, times[0]);
    } else {
      FullDrawn(p, b, now, times[..|times| - 1]);
    }
  }

  lemma {:induction false} DrawnAtOnce(p: Params, b: Bucket, now: real, n: nat)
    requires Sane(p) && n >= 1
    ensures Drawn(p, b, Copies(now, n)) == Bucket(Refilled(p, b, now) - n as real, now)
  {
    assert Copies(now, n)[..n - 1] == Copies(now, n - 1);
    if n == 1 {
      assert Copies(now, 0) == [];
    } else {
      DrawnAtOnce(p, b, now, n - 1);
      assert Earned(p, now - now) == 0.0;
    }
  }

  lemma LessDelayed(p: Params, b: Bucket, a: Bucket)
    requires Sane(p) && b.tokens < 0.0 && b.tokens < a.tokens
    ensures Delay(p, b) > Delay(p, a)
  {
    EarnedDelay(p, b);
    EarnedDelay(p, a);
    EarnedGrows(p, Delay(p, b), Delay(p, a));
  }

  /** Enough requests at once that the one bucket is in debt and the fresh one is less so. */
  lemma NotFullAtOnce(p: Params, b: Bucket, now: real) returns (n: nat)
    requires Sane(p) && !Full(p, b, now)
    ensures n >= 1 && Delay(p, Drawn(p, b, Copies(now, n))) != Delay(p, Drawn(p, Fresh(p, now), Copies(now, n)))
  {
    var r := Refilled(p, b, now);
    n := if r < 0.0 then 1 else r.Floor + 1;
    DrawnAtOnce(p, b, now, n);
    DrawnAtOnce(p, Fresh(p, now), now, n);
    assert Earned(p, now - now) == 0.0;
    LessDelayed(p, Drawn(p, b, Copies(now, n)), Drawn(p, Fresh(p, now), Copies(now, n)));
  }

  /** Dropping a bucket at `now` changes no delay that any later requests are given exactly when it is full
      again. */
  lemma DropIsInvisibleIff(p: Params, b: Bucket, now: real)
    requires Sane(p)
    ensures DropUnseen(p, b, now) <==> Full(p, b, now)
  {
    if Full(p, b, now) {
      forall times | From(times, now)
        ensures Delay(p, Drawn(p, b, times)) == Delay(p, Drawn(p, Fresh(p, times[0]), times))
      {
        FullDrawn(p, b, now, times);
      }
    } else {
      var n := NotFullAtOnce(p, b, now);
      assert From(Copies(now, n), now);
    }
  }

  /** The last delay is at most `ttl` less the refill time exactly when `ttl` earns what is missing. */
  lemma DelayWithinIff(p: Params, b: Bucket, ttl: real)
    requires Sane(p) && ttl >= p.burst / p.rate
    ensures Delay(p, b) <= ttl - p.burst / p.rate <==> b.tokens + Earned(p, ttl) >= p.burst
  {
    EarnedDelay(p, b);
    EarnedHorizon(p);
    EarnedGrows(p, p.burst / p.rate, ttl);
    EarnedAdds(p, ttl, p.burst / p.rate);
    EarnedGrows(p, Delay(p, b), ttl - p.burst / p.rate);
  }

  /** A time after `ttl` at which a bucket is not full, if `ttl` does not earn what is missing. */
  lemma NotYetFull(p: Params, b: Bucket, ttl: real) returns (now: real)
    requires Sane(p) && b.tokens + Earned(p, ttl) < p.burst
    ensures now > b.lastRefill + ttl && !Full(p, b, now)
  {
    var gap := p.burst - b.tokens - Earned(p, ttl);
    var more := gap / p.rate / 2.0;
    assert Earned(p, more) == gap / 2.0;
    EarnedGrows(p, more, 0.0);
    EarnedAdds(p, ttl, more);
    now := b.lastRefill + (ttl + more);
    assert now - b.lastRefill == ttl + more;
  }

  /** A bucket idle for longer than `ttl` is full again at every such time exactly when the delay it last
      gave is at most `ttl` less the time to refill. */
  lemma IdleMeansFullIff(p: Params, b: Bucket, ttl: real)
    requires Sane(p) && ttl >= p.burst / p.rate
    ensures (forall now | now > b.lastRefill + ttl :: Full(p, b, now)) <==> Delay(p, b) <= ttl - p.burst / p.rate
  {
    DelayWithinIff(p, b, ttl);
    if b.tokens + Earned(p, ttl) >= p.burst {
      forall now | now > b.lastRefill + ttl ensures Full(p, b, now) {
        EarnedGrows(p, ttl, now - b.lastRefill);
      }
    } else {
      var now := NotYetFull(p, b, ttl);
    }
  }
}
