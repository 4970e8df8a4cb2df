/** The Redis form of the token bucket: RATE_LIMIT_LUA over one hash per key. Redis times are whole
    milliseconds. */
module RateLimitScript {
  import opened Options
  import opened TokenBucket

  const GRACE_MS := 60_000

  datatype Hash = Hash(tokens: real, lastMs: int, expireAt: int)

  function Seconds(ms: int): real { ms as real / 1000.0 }

  function Ceil(x: real): int { -((-x).Floor) }

  function TtlMs(p: Params): int
    requires Sane(p)
  {
    (p.burst / p.rate * 1000.0).Floor + GRACE_MS
  }

  /** The hash of a key as the script finds it: an expired one is gone. */
  function Found(h: Option<Hash>, now: int): Option<Hash> {
    if h.Some? && now <= h.value.expireAt then h else None
  }

  /** The hash the script leaves behind. */
  function Ran(p: Params, h: Option<Hash>, now: int): Hash
    requires Sane(p)
  {
    var tokens := if Found(h, now).Some? then h.value.tokens else p.burst;
    var lastMs := if Found(h, now).Some? then h.value.lastMs else now;
    Hash(Min(tokens + Seconds(now - lastMs) * p.rate, p.burst) - 1.0, now, now + TtlMs(p))
  }

  /** The delay for this many tokens in milliseconds, rounded up. */
  function ReplyFor(p: Params, tokens: real): (ms: int)
    requires Sane(p)
    ensures tokens < 0.0 ==> ms > 0
  {
    if tokens < 0.0 then
      assert -tokens / p.rate * 1000.0 > 0.0;
      Ceil(-tokens / p.rate * 1000.0)
    else 0
  }

  /** The script's reply. */
  function Reply(p: Params, h: Hash): int
    requires Sane(p)
  {
    ReplyFor(p, h.tokens)
  }

  class Server {
    var hashes: map<string, Hash>

    method RunTake(p: Params, key: string, now: int) returns (delayMs: int)
      requires Sane(p)
      modifies this
      ensures hashes == old(hashes)[key := Ran(p, if key in old(hashes) then Some(old(hashes)[key]) else None, now)]
      ensures delayMs == Reply(p, hashes[key])
    {
      var tokens, lastMs := p.burst, now;
      if key in hashes && now <= hashes[key].expireAt {
        tokens, lastMs := hashes[key].tokens, hashes[key].lastMs;
      }
      var elapsed := (now - lastMs) as real / 1000.0;
      var refilled := Min(tokens + elapsed * p.rate, p.burst);
      refilled := refilled - 1.0;
      hashes := hashes[key := Hash(refilled, now, now + TtlMs(p))];
      if refilled < 0.0 {
        delayMs := Ceil(-refilled / p.rate * 1000.0);
      } else {
        delayMs := 0;
      }
    }
  }

  // ---- whole runs on one key ------------------------------------------------------------------

  function Bucketed(p: Params, times: seq<int>): Option<Bucket> {
    if times == [] then None
    else
      var pre, now := times[..|times| - 1], Seconds(times[|times| - 1]);
      var b := Bucketed(p, pre);
      Some(Taken(p, if b.Some? then b.value else Fresh(p, now), now))
  }

  function Hashed(p: Params, times: seq<int>): Option<Hash>
    requires Sane(p)
  {
    if times == [] then None
    else Some(Ran(p, Hashed(p, times[..|times| - 1]), times[|times| - 1]))
  }

  /** The hash has expired by `now` although the bucket is not full again. */
  predicate Lost(p: Params, times: seq<int>, now: int)
    requires Sane(p)
  {
    times != [] && now > times[|times| - 1] + TtlMs(p) && !Full(p, Bucketed(p, times).value, Seconds(now))
  }

  /** No request of the run finds its hash lost. */
  predicate Remembered(p: Params, times: seq<int>)
    requires Sane(p)
  {
    times != [] ==>
      var pre, now := times[..|times| - 1], times[|times| - 1];
      Remembered(p, pre) && !Lost(p, pre, now)
  }

  ghost predicate Same(h: Hash, b: Bucket) { b == Bucket(h.tokens, Seconds(h.lastMs)) }

  /** A hash is never lost if the last request before had to wait at most the grace period of a minute. */
  lemma ExpiredIsFull(p: Params, b: Bucket, lastMs: int, now: int)
    requires Sane(p) && b.lastRefill == Seconds(lastMs) && now > lastMs + TtlMs(p) && Delay(p, b) <= 60.0
    ensures Full(p, b, Seconds(now))
  {
    var ttl := p.burst / p.rate + 60.0;
    assert (p.burst / p.rate * 1000.0).Floor as real > p.burst / p.rate * 1000.0 - 1.0;
    assert Seconds(now) - Seconds(lastMs) == (now - lastMs) as real / 1000.0;
    assert Seconds(now) > b.lastRefill + ttl;
    IdleMeansFullIff(p, b, ttl);
  }

  lemma RanTakes(p: Params, h: Hash, b: Bucket, now: int)
    requires Sane(p) && Same(h, b) && h.expireAt == h.lastMs + TtlMs(p)
    requires now > h.expireAt ==> Full(p, b, Seconds(now))
    ensures Same(Ran(p, Some(h), now), Taken(p, b, Seconds(now)))
  {
    assert Seconds(now - h.lastMs) == Seconds(now) - Seconds(h.lastMs);
    if now > h.expireAt {
      assert Seconds(now - now) * p.rate == 0.0;
    }
  }

  lemma FirstTakes(p: Params, now: int)
    requires Sane(p)
    ensures Same(Ran(p, None, now), Taken(p, Fresh(p, Seconds(now)), Seconds(now)))
  {
    assert Seconds(now - now) * p.rate == 0.0;
  }

  lemma {:induction false} ScriptKeepsBucket(p: Params, times: seq<int>)
    requires Sane(p) && times != [] && Remembered(p, times)
    ensures Same(Hashed(p, times).value, Bucketed(p, times).value)
  {
    var pre, now := times[..|times| - 1], times[|times| - 1];
    if pre == [] {
      FirstTakes(p, now);
    } else {
      ScriptKeepsBucket(p, pre);
      RanTakes(p, Hashed(p, pre).value, Bucketed(p, pre).value, now);
    }
  }

  /** The script's answers are the delays of a bucket that is never dropped, rounded up to the next
      millisecond, in every run on a key that finds no hash lost. */
  lemma ScriptRoundsUp(p: Params, times: seq<int>)
    requires Sane(p) && times != [] && Remembered(p, times)
    ensures var exact := Delay(p, Bucketed(p, times).value) * 1000.0;
            exact <= Reply(p, Hashed(p, times).value) as real < exact + 1.0
  {
    ScriptKeepsBucket(p, times);
    var h := Hashed(p, times).value;
    if h.tokens < 0.0 {
      CeilBounds(-h.tokens / p.rate * 1000.0);
    }
  }

  lemma CeilBounds(x: real)
    ensures x <= Ceil(x) as real < x + 1.0
  {
  }

  // ---- exactly when the expiry shows ----------------------------------------------------------

  /** The last request of the run is given the reply that a bucket that is never dropped would give it. */
  predicate Exact(p: Params, times: seq<int>)
    requires Sane(p) && times != []
  {
    Reply(p, Hashed(p, times).value) == ReplyFor(p, Bucketed(p, times).value.tokens)
  }

  lemma AgainNext(times: seq<int>, now: int, n: nat)
    requires n >= 1
    ensures (times + Copies(now, n))[..|times| + n - 1] == times + Copies(now, n - 1)
    ensures (times + Copies(now, n))[|times| + n - 1] == now
  {
  }

  lemma {:induction false} RememberedAgain(p: Params, times: seq<int>, now: int, n: nat)
    requires Sane(p) && Remembered(p, times) && !Lost(p, times, now)
    ensures Remembered(p, times + Copies(now, n))
  {
    if n == 0 {
      assert times + Copies(now, 0) == times;
    } else {
      RememberedAgain(p, times, now, n - 1);
      AgainNext(times, now, n);
      if n == 1 { assert times + Copies(now, 0) == times; }
    }
  }

  lemma {:induction false} BucketedAgain(p: Params, times: seq<int>, now: int, n: nat)
    requires Sane(p) && times != []
    ensures Bucketed(p, times + Copies(now, n)) == Some(Drawn(p, Bucketed(p, times).value, Copies(Seconds(now), n)))
  {
    if n == 0 {
      assert times + Copies(now, 0) == times && Copies(Seconds(now), 0) == [];
    } else {
      BucketedAgain(p, times, now, n - 1);
      AgainNext(times, now, n);
      assert Copies(Seconds(now), n)[..n - 1] == Copies(Seconds(now), n - 1);
    }
  }

  lemma RanAgain(p: Params, h: Hash, now: int)
    requires Sane(p) && h.lastMs == now && h.expireAt == now + TtlMs(p)
    ensures Same(Ran(p, Some(h), now), Taken(p, Bucket(h.tokens, Seconds(now)), Seconds(now)))
  {
    assert Seconds(now - now) * p.rate == 0.0;
  }

  lemma {:induction false} HashedAgain(p: Params, times: seq<int>, now: int, n: nat)
    requires Sane(p) && times != [] && n >= 1 && now > Hashed(p, times).value.expireAt
    ensures Hashed(p, times + Copies(now, n)).value.lastMs == now
    ensures Same(Hashed(p, times + Copies(now, n)).value, Drawn(p, Fresh(p, Seconds(now)), Copies(Seconds(now), n)))
  {
    AgainNext(times, now, n);
    assert Copies(Seconds(now), n)[..n - 1] == Copies(Seconds(now), n - 1);
    if n == 1 {
      assert times + Copies(now, 0) == times && Copies(Seconds(now), 0) == [];
      FirstTakes(p, now);
    } else {
      HashedAgain(p, times, now, n - 1);
      RanAgain(p, Hashed(p, times + Copies(now, n - 1)).value, now);
    }
  }

  /** The tokens that some milliseconds bring. */
  function Gain(p: Params, ms: int): real { Earned(p, Seconds(ms)) }

  lemma GainAdds(p: Params, a: int, b: int)
    ensures Gain(p, a + b) == Gain(p, a) + Gain(p, b)
  {
    assert Seconds(a + b) == Seconds(a) + Seconds(b);
    EarnedAdds(p, Seconds(a), Seconds(b));
  }

  /** A reply is more than i milliseconds exactly when these do not bring the tokens owed. */
  lemma ReplyAboveIff(p: Params, tokens: real, i: nat)
    requires Sane(p)
    ensures ReplyFor(p, tokens) > i <==> -tokens > Gain(p, i)
  {
    EarnedGrows(p, 0.0, Seconds(i));
    if tokens < 0.0 {
      var x := -tokens / p.rate;
      assert Earned(p, x) == -tokens;
      EarnedGrows(p, x, Seconds(i));
    }
  }

  /** The bucket is full less the requests since it was last full, plus what the time since then brought. */
  ghost predicate Since(p: Params, b: Bucket, last: int, taken: int, t0: int) {
    taken >= 1 && t0 <= last && b == Bucket(p.burst - taken as real + Gain(p, last - t0), Seconds(last))
  }

  lemma SinceNext(p: Params, b: Bucket, last: int, taken: int, t0: int, now: int) returns (taken': int, t0': int)
    requires Sane(p) && Since(p, b, last, taken, t0) && last <= now
    ensures Since(p, Taken(p, b, Seconds(now)), now, taken', t0')
  {
    GainAdds(p, last - t0, now - last);
    GainAdds(p, now - last, last);
    EarnedAdds(p, Seconds(now), Seconds(last));
    if Full(p, b, Seconds(now)) {
      taken', t0' := 1, now;
    } else {
      taken', t0' := taken + 1, t0;
    }
  }

  lemma {:induction false} SinceFull(p: Params, times: seq<int>) returns (taken: int, t0: int)
    requires Sane(p) && times != [] && Ordered(times)
    ensures Since(p, Bucketed(p, times).value, times[|times| - 1], taken, t0)
  {
    var pre, now := times[..|times| - 1], times[|times| - 1];
    if pre == [] {
      taken, t0 := 1, now;
      assert Gain(p, 0) == 0.0;
    } else {
      taken, t0 := SinceFull(p, pre);
      taken, t0 := SinceNext(p, Bucketed(p, pre).value, pre[|pre| - 1], taken, t0, now);
    }
  }

  lemma Quotient(y: real, m: real, q: real)
    requires m > 0.0 && q * m == y
    ensures y / m == q
  {
    EarnedGrows(Params(m, 0.0), y / m, q);
    EarnedGrows(Params(m, 0.0), q, y / m);
  }

  lemma OneLess(x: real, m: real)
    requires 0.0 < m <= x
    ensures (x / m).Floor >= 1 && ((x - m) / m).Floor == (x / m).Floor - 1
  {
    var q := x / m;
    assert q * m == x && (q - 1.0) * m == x - m;
    Quotient(x - m, m, q - 1.0);
    EarnedGrows(Params(m, 0.0), 1.0, q);
  }

  /** n requests more than i milliseconds bring, by no more than m tokens; `step` requests and `gap`
      milliseconds more lower the difference by exactly m. */
  lemma {:induction false} Descend(p: Params, step: nat, gap: nat, m: real, x: real, n: nat, i: nat)
    returns (n': nat, i': nat)
    requires Sane(p) && m == step as real - Gain(p, gap) && m > 0.0
    requires x == Gain(p, i) + p.burst - n as real && x >= 0.0
    ensures n' >= n && 0.0 <= Gain(p, i') + p.burst - n' as real < m
    decreases if x < m then 0 else (x / m).Floor + 1
  {
    if x < m {
      n', i' := n, i;
    } else {
      OneLess(x, m);
      GainAdds(p, i, gap);
      n', i' := Descend(p, step, gap, m, x - m, n + step, i + gap);
    }
  }

  lemma FirstMillis(p: Params) returns (i: nat)
    requires Sane(p)
    ensures Gain(p, i) >= 1.0
  {
    i := (1000.0 / p.rate).Floor + 1;
    assert Seconds(i) >= 1.0 / p.rate;
    assert Earned(p, 1.0 / p.rate) == 1.0;
    EarnedGrows(p, 1.0 / p.rate, Seconds(i));
  }

  /** Some number of requests and of milliseconds between what a bucket that lacks m tokens and a fresh one
      would answer. */
  lemma Between(p: Params, step: nat, gap: nat, m: real) returns (n: nat)
    requires Sane(p) && m == step as real - Gain(p, gap) && m > 0.0
    ensures n >= 1 && ReplyFor(p, p.burst - m - n as real) != ReplyFor(p, p.burst - n as real)
  {
    var i := FirstMillis(p);
    n, i := Descend(p, step, gap, m, Gain(p, i) + p.burst - 1.0, 1, i);
    ReplyAboveIff(p, p.burst - m - n as real, i);
    ReplyAboveIff(p, p.burst - n as real, i);
  }

  /** What a lost bucket lacks. */
  lemma Lacks(p: Params, times: seq<int>, now: int) returns (step: nat, gap: nat, m: real)
    requires Sane(p) && Ordered(times) && Lost(p, times, now)
    ensures m == step as real - Gain(p, gap) && m > 0.0
    ensures Refilled(p, Bucketed(p, times).value, Seconds(now)) == p.burst - m
  {
    var last := times[|times| - 1];
    var t0;
    step, t0 := SinceFull(p, times);
    gap := now - t0;
    m := step as real - Gain(p, gap);
    GainAdds(p, last - t0, now - last);
    GainAdds(p, now - last, last);
    EarnedAdds(p, Seconds(now), Seconds(last));
  }

  lemma LostShows(p: Params, times: seq<int>, now: int) returns (n: nat)
    requires Sane(p) && Ordered(times) && Lost(p, times, now)
    ensures n >= 1 && !Exact(p, times + Copies(now, n))
  {
    var step, gap, m := Lacks(p, times, now);
    n := Between(p, step, gap, m);
    BucketedAgain(p, times, now, n);
    DrawnAtOnce(p, Bucketed(p, times).value, Seconds(now), n);
    HashedAgain(p, times, now, n);
    DrawnAtOnce(p, Fresh(p, Seconds(now)), Seconds(now), n);
    assert Earned(p, Seconds(now) - Seconds(now)) == 0.0;
  }

  /** After every ordered run that found no hash lost, requests at `now`, however many, are given the replies
      of a bucket that is never dropped exactly when the hash is not lost now. */
  lemma ExactIff(p: Params, times: seq<int>, now: int)
    requires Sane(p) && Ordered(times) && Remembered(p, times)
    ensures (forall n: nat | n >= 1 :: Exact(p, times + Copies(now, n))) <==> !Lost(p, times, now)
  {
    if Lost(p, times, now) {
      var n := LostShows(p, times, now);
    } else {
      forall n: nat | n >= 1 ensures Exact(p, times + Copies(now, n)) {
        RememberedAgain(p, times, now, n);
        ScriptKeepsBucket(p, times + Copies(now, n));
      }
    }
  }

  lemma {:induction false} BurstBucketed(p: Params, now: int, n: nat)
    requires Sane(p) && n >= 1
    ensures Bucketed(p, Copies(now, n)) == Some(Bucket(p.burst - n as real, Seconds(now)))
  {
    assert Copies(now, n)[..n - 1] == Copies(now, n - 1);
    assert Earned(p, Seconds(now) - Seconds(now)) == 0.0;
    if n == 1 {
    } else {
      BurstBucketed(p, now, n - 1);
    }
  }

  /** More requests at once than the time up to the expiry brings tokens for. */
  lemma BurstIsLost(p: Params, n: nat)
    requires Sane(p) && n as real > Gain(p, TtlMs(p) + 1) && n >= 1
    ensures Ordered(Copies<int>(0, n)) && Remembered(p, Copies<int>(0, n)) && Lost(p, Copies<int>(0, n), TtlMs(p) + 1)
  {
    assert [] + Copies<int>(0, n) == Copies<int>(0, n);
    RememberedAgain(p, [], 0, n);
    BurstBucketed(p, 0, n);
  }

  /** So with every rate and burst a hash can be lost, and by a run that found none lost before. */
  lemma ExpiryLosesDebt(p: Params) returns (n: nat)
    requires Sane(p)
    ensures Ordered(Copies<int>(0, n)) && Remembered(p, Copies<int>(0, n)) && Lost(p, Copies<int>(0, n), TtlMs(p) + 1)
  {
    n := Max(1, Gain(p, TtlMs(p) + 1).Floor + 1);
    BurstIsLost(p, n);
  }

  /** For instance 62 requests at once or more, with one token a second and a burst of one. */
  lemma ExpiryLosesSixtyTwo(p: Params, n: nat)
    requires p == Params(1.0, 1.0) && n >= 62
    ensures Remembered(p, Copies<int>(0, n)) && Lost(p, Copies<int>(0, n), 61_001)
  {
    assert TtlMs(p) == 61_000 && Gain(p, 61_001) == 61.001;
    BurstIsLost(p, n);
  }
}
