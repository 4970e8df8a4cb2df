/** The Redis form of the sliding window: SLIDING_WINDOW_LUA over one sorted set per key, in milliseconds. */
module SlidingWindowScript {
  import opened Options
  import opened WindowQueue
  import opened SlidingWindowStore

  const GRACE_MS := 1000

  /** A sorted set with its scores in order, and its expiry. Members are random, so no two calls add the
      same one. */
  datatype Zset = Zset(scores: seq<int>, expireAt: int)

  /** ZREMRANGEBYSCORE from minus infinity to `cutoff`. */
  function RemoveUpTo(scores: seq<int>, cutoff: int): seq<int> {
    if scores == [] then []
    else
      var rest := RemoveUpTo(scores[..|scores| - 1], cutoff);
      if scores[|scores| - 1] <= cutoff then rest else rest + [scores[|scores| - 1]]
  }

  /** ZADD: the new score goes where the order wants it. */
  function Insert(scores: seq<int>, x: int): seq<int> {
    if scores == [] || scores[|scores| - 1] <= x then scores + [x]
    else Insert(scores[..|scores| - 1], x) + [scores[|scores| - 1]]
  }

  /** The new score stands at k, after the scores up to it and before those after it. */
  predicate Inserted(scores: seq<int>, x: int, k: nat, r: seq<int>) {
    && k <= |scores| && r == scores[..k] + [x] + scores[k..]
    && (forall i | 0 <= i < k :: scores[i] <= x) && forall i | k <= i < |scores| :: scores[i] > x
  }

  lemma InsertedNext(pre: seq<int>, x: int, k: nat, r: seq<int>, last: int)
    requires Inserted(pre, x, k, r) && last > x
    ensures Inserted(pre + [last], x, k, r + [last])
  {
    AppendTail(pre, k, last);
    assert (pre + [last])[..k] == pre[..k];
  }

  lemma {:induction false} InsertAt(scores: seq<int>, x: int) returns (k: nat)
    requires Ordered(scores)
    ensures Inserted(scores, x, k, Insert(scores, x))
  {
    if scores == [] || scores[|scores| - 1] <= x {
      k := |scores|;
    } else {
      var pre, last := scores[..|scores| - 1], scores[|scores| - 1];
      k := InsertAt(pre, x);
      InsertedNext(pre, x, k, Insert(pre, x), last);
      assert scores == pre + [last];
    }
  }

  function Scores(z: Option<Zset>, now: int): seq<int> {
    if z.Some? && now <= z.value.expireAt then z.value.scores else []
  }

  /** The script's reply. */
  function Reply(p: Params, z: Option<Zset>, now: int): int
    requires Sane(p)
  {
    var s := RemoveUpTo(Scores(z, now), now - p.window);
    if |s| < p.count then 0 else Max(0, p.window - (now - s[0]))
  }

  /** The sorted set the script leaves behind. */
  function Ran(p: Params, z: Option<Zset>, now: int): Zset
    requires Sane(p)
  {
    var s, delay := RemoveUpTo(Scores(z, now), now - p.window), Reply(p, z, now);
    Zset(Insert(s, now + delay), now + p.window + delay + GRACE_MS)
  }

  class Server {
    var sets: map<string, Zset>

    method RunTake(p: Params, key: string, now: int) returns (delayMs: int)
      requires Sane(p)
      modifies this
      ensures var z := if key in old(sets) then Some(old(sets)[key]) else None;
              sets == old(sets)[key := Ran(p, z, now)] && delayMs == Reply(p, z, now)
    {
      var scores := if key in sets && now <= sets[key].expireAt then sets[key].scores else [];
      scores := RemoveUpTo(scores, now - p.window);
      if |scores| < p.count {
        sets := sets[key := Zset(Insert(scores, now), now + (p.window + GRACE_MS))];
        delayMs := 0;
      } else {
        delayMs := p.window - (now - scores[0]);
        if delayMs < 0 {
          delayMs := 0;
        }
        var reserved := now + delayMs;
        sets := sets[key := Zset(Insert(scores, reserved), now + (p.window + delayMs + GRACE_MS))];
      }
    }
  }

  function Scripted(p: Params, times: seq<int>): Option<Zset>
    requires Sane(p)
  {
    if times == [] then None else Some(Ran(p, Scripted(p, times[..|times| - 1]), times[|times| - 1]))
  }

  lemma {:induction false} RemoveDrains(q: seq<int>, cutoff: int)
    requires Ordered(q)
    ensures RemoveUpTo(q, cutoff) == Drained(q, cutoff)
  {
    if q == [] {
    } else {
      RemoveDrains(q[..|q| - 1], cutoff);
      DrainedNext(q, cutoff);
    }
  }

  lemma {:induction false} DrainedNext(q: seq<int>, cutoff: int)
    requires Ordered(q) && q != []
    ensures var pre, x := q[..|q| - 1], q[|q| - 1];
            Drained(q, cutoff) == if x <= cutoff then [] else Drained(pre, cutoff) + [x]
    ensures q[|q| - 1] <= cutoff ==> Drained(q[..|q| - 1], cutoff) == []
  {
    FirstAfterInPrefix(q, cutoff, 0);
    var pre := q[..|q| - 1];
    assert forall i | 0 <= i < |pre| :: pre[i] <= q[|q| - 1];
  }

  lemma {:induction false} FirstAfterInPrefix(q: seq<int>, cutoff: int, i: nat)
    requires Ordered(q) && i < |q|
    ensures var pre := q[..|q| - 1];
            FirstAfter(q, cutoff, i) == if q[|q| - 1] <= cutoff then |q| else FirstAfter(pre, cutoff, i)
    decreases |q| - i
  {
    if i < |q| - 1 && q[i] <= cutoff {
      FirstAfterInPrefix(q, cutoff, i + 1);
    }
  }

  /** The sorted set is the queue of the reference, and its expiry lies at least the grace period after
      every score has left the window. */
  ghost predicate Shows(p: Params, z: Zset, h: History) {
    h.m < |h.rs| && z.scores == View(h) && z.expireAt >= h.rs[|h.rs| - 1] + p.window + GRACE_MS
  }

  lemma InsertLast(q: seq<int>, x: int)
    requires q != [] ==> q[|q| - 1] <= x
    ensures Insert(q, x) == q + [x]
  {
  }

  lemma SortedView(h: History)
    requires h.m <= |h.rs| && Ordered(h.rs)
    ensures Ordered(View(h))
  {
  }

  lemma ScriptDrainsView(p: Params, q: seq<int>, h: History, now: int)
    requires h.m <= |h.rs| && Ordered(q) && q == View(h)
    ensures RemoveUpTo(q, now - p.window) == h.rs[DrainedTo(p, h, now)..]
  {
    RemoveDrains(q, now - p.window);
    DrainedView(p, h, now);
  }

  lemma ScriptDrains(p: Params, q: seq<int>, h: History, was: int, now: int)
    requires Sane(p) && Inv(p, h, was) && was <= now
    requires q == View(h) || (q == [] && Settled(p, h, now))
    ensures RemoveUpTo(q, now - p.window) == h.rs[DrainedTo(p, h, now)..]
  {
    if q == View(h) {
      SortedView(h);
      ScriptDrainsView(p, q, h, now);
    } else {
      SettledDrains(p, h, was, now);
    }
  }

  lemma ReplyIsRelease(p: Params, rs: seq<int>, m: nat, now: int)
    requires Sane(p) && m <= |rs| && Finds(p, rs, m, now, ReleaseAt(p, rs, m, now))
    ensures ReleaseAt(p, rs, m, now) == now + if |rs[m..]| < p.count then 0 else Max(0, p.window - (now - rs[m..][0]))
    ensures rs[m..] != [] ==> rs[m..][|rs| - m - 1] <= ReleaseAt(p, rs, m, now)
  {
  }

  lemma RanFrom(p: Params, z: Option<Zset>, now: int, d: seq<int>, x: int)
    requires Sane(p) && d == RemoveUpTo(Scores(z, now), now - p.window)
    requires x == now + if |d| < p.count then 0 else Max(0, p.window - (now - d[0]))
    requires d != [] ==> d[|d| - 1] <= x
    ensures now + Reply(p, z, now) == x && Ran(p, z, now) == Zset(d + [x], x + p.window + GRACE_MS)
  {
    InsertLast(d, x);
  }

  lemma ScoresShow(p: Params, z: Option<Zset>, h: History, now: int)
    requires h.m <= |h.rs| && if z.Some? then Shows(p, z.value, h) else h.rs == []
    ensures Scores(z, now) == View(h) || (Scores(z, now) == [] && Settled(p, h, now))
  {
  }

  lemma RanAtEnd(p: Params, z: Option<Zset>, h: History, was: int, now: int)
    requires Sane(p) && Inv(p, h, was) && was <= now
    requires if z.Some? then Shows(p, z.value, h) else h.rs == []
    ensures var m := DrainedTo(p, h, now);
            var x := ReleaseAt(p, h.rs, m, now);
            now + Reply(p, z, now) == x && Ran(p, z, now) == Zset(h.rs[m..] + [x], x + p.window + GRACE_MS)
  {
    var m := DrainedTo(p, h, now);
    ScoresShow(p, z, h, now);
    ScriptDrains(p, Scores(z, now), h, was, now);
    RequestFinds(p, h, was, now);
    ReplyIsRelease(p, h.rs, m, now);
    RanFrom(p, z, now, h.rs[m..], ReleaseAt(p, h.rs, m, now));
  }

  lemma ScriptStep(p: Params, z: Option<Zset>, h: History, was: int, now: int)
    requires Sane(p) && Inv(p, h, was) && was <= now
    requires if z.Some? then Shows(p, z.value, h) else h.rs == []
    ensures Shows(p, Ran(p, z, now), Next(p, h, now))
    ensures now + Reply(p, z, now) == ReleaseAt(p, h.rs, DrainedTo(p, h, now), now)
  {
    var m := DrainedTo(p, h, now);
    RanAtEnd(p, z, h, was, now);
    AppendTail(h.rs, m, ReleaseAt(p, h.rs, m, now));
  }

  lemma {:induction false} ScriptShows(p: Params, times: seq<int>)
    requires Sane(p) && Ordered(times) && times != []
    ensures Shows(p, Scripted(p, times).value, Requested(p, times))
  {
    var pre, t := times[..|times| - 1], times[|times| - 1];
    RequestedInv(p, pre, t);
    if pre == [] {
    } else {
      ScriptShows(p, pre);
    }
    ScriptStep(p, Scripted(p, pre), Requested(p, pre), LastOf(pre, t), t);
  }

  /** The script gives every request of every run the delay that the in-memory queue gives it. */
  lemma ScriptMatchesQueue(p: Params, pre: seq<int>, t: int)
    requires Sane(p) && Ordered(pre + [t])
    ensures t + Reply(p, Scripted(p, pre), t) == Requested(p, pre + [t]).rs[|pre|]
  {
    assert forall i | 0 <= i < |pre| :: (pre + [t])[i] == pre[i] <= (pre + [t])[|pre|];
    RequestedNext(p, pre, t);
    RequestedInv(p, pre, t);
    if pre != [] {
      ScriptShows(p, pre);
    }
    ScriptStep(p, Scripted(p, pre), Requested(p, pre), LastOf(pre, t), t);
  }

  /** The expiry never drops a score that is still inside the window. */
  lemma ExpiryKeepsWindow(p: Params, times: seq<int>, now: int)
    requires Sane(p) && Ordered(times) && times != [] && now > Scripted(p, times).value.expireAt
    ensures forall i | 0 <= i < |Scripted(p, times).value.scores| :: Scripted(p, times).value.scores[i] < now - p.window
  {
    ScriptShows(p, times);
    RequestedInv(p, times, LastOf(times, now));
    var h := Requested(p, times);
    forall i | 0 <= i < |Scripted(p, times).value.scores|
      ensures Scripted(p, times).value.scores[i] < now - p.window
    {
      assert View(h)[i] == h.rs[h.m + i];
    }
  }
}
