/** The timestamp queue of one sliding window (src/middleware/sliding_window.rs). Times are whole clock
    ticks. A waiting request is queued at the time it will be released. */
module WindowQueue {
  import opened Options

  datatype Params = Params(count: nat, window: nat)

  predicate Sane(p: Params) { p.count >= 1 && p.window >= 1 }

  /** The first entry, from number `i` on, that is after `cutoff`. */
  function FirstAfter(q: seq<int>, cutoff: int, i: nat): (m: nat)
    requires i <= |q|
    ensures i <= m <= |q| && (m < |q| ==> q[m] > cutoff)
    ensures forall k | i <= k < m :: q[k] <= cutoff
    decreases |q| - i
  {
    if i < |q| && q[i] <= cutoff then FirstAfter(q, cutoff, i + 1) else i
  }

  /** The queue without the entries at its front that are not after `cutoff`. */
  function Drained(q: seq<int>, cutoff: int): seq<int> { q[FirstAfter(q, cutoff, 0)..] }

  /** The delay of a request at `now` that finds the drained queue `d`; 0 stands for `None`. */
  function Delay(p: Params, d: seq<int>, now: int): int
    requires Sane(p)
  {
    if |d| < p.count then 0 else p.window - Max(0, now - d[0])
  }

  /** The delay of a request at `now` on the queue `q`. */
  function Wait(p: Params, q: seq<int>, now: int): int
    requires Sane(p)
  {
    Delay(p, Drained(q, now - p.window), now)
  }

  function Taken(p: Params, q: seq<int>, now: int): seq<int>
    requires Sane(p)
  {
    Drained(q, now - p.window) + [now + Wait(p, q, now)]
  }

  // ---- all requests of one key ----------------------------------------------------------------

  /** All releases of a key so far, in the order of its requests, of which those from number `m` on are
      still in the queue. */
  datatype History = History(rs: seq<int>, m: nat)

  function DrainedTo(p: Params, h: History, now: int): (m: nat)
    requires h.m <= |h.rs|
    ensures h.m <= m <= |h.rs|
  {
    FirstAfter(h.rs, now - p.window, h.m)
  }

  /** When a request at `now` is released that finds the queue drained up to number `m`. */
  function ReleaseAt(p: Params, rs: seq<int>, m: nat, now: int): int
    requires Sane(p) && m <= |rs|
  {
    if |rs| - m < p.count then now else now + p.window - Max(0, now - rs[m])
  }

  function Next(p: Params, h: History, now: int): (h': History)
    requires Sane(p) && h.m <= |h.rs|
    ensures h'.m <= |h'.rs| == |h.rs| + 1
  {
    var m := DrainedTo(p, h, now);
    History(h.rs + [ReleaseAt(p, h.rs, m, now)], m)
  }

  /** The history of a key whose requests arrived at these times. */
  function Requested(p: Params, times: seq<int>): (h: History)
    requires Sane(p)
    ensures h.m <= |h.rs| == |times|
  {
    if times == [] then History([], 0) else Next(p, Requested(p, times[..|times| - 1]), times[|times| - 1])
  }

  /** What a history satisfies after a request at `now`, however many requests are waiting: releases are
      sorted; the front of the queue is not in the future, and nothing lies more than the window after
      it; if anything lies in the future then the first `count` entries do not, and there are more;
      and every release that has left the queue was at least a window ago. */
  ghost predicate Inv(p: Params, h: History, now: int)
    requires Sane(p)
  {
    var n := |h.rs|;
    && h.m <= n && Ordered(h.rs)
    && (h.m < n ==> h.rs[h.m] <= now && h.rs[n - 1] <= h.rs[h.m] + p.window)
    && (h.m < n && h.rs[n - 1] > now ==> n - h.m > p.count && h.rs[h.m + p.count - 1] <= now)
    && (forall i | 0 <= i < h.m :: h.rs[i] <= now - p.window)
  }

  lemma DrainKeepsInv(p: Params, h: History, was: int, now: int)
    requires Sane(p) && Inv(p, h, was) && was <= now
    ensures Inv(p, h.(m := DrainedTo(p, h, now)), now)
  {
  }

  /** What a request at `now` finds, drained up to number `m`, and when it is released, `x`. */
  ghost predicate Finds(p: Params, rs: seq<int>, m: nat, now: int, x: int)
    requires Sane(p)
  {
    && Inv(p, History(rs, m), now) && (m < |rs| ==> rs[m] > now - p.window)
    && now <= x <= now + p.window && (x == now <==> |rs| - m < p.count)
    && (x != now ==> x == rs[m] + p.window)
  }

  /** Each request waits for at most one window, and the duration subtraction that yields the wait does
      not underflow. */
  lemma RequestFinds(p: Params, h: History, was: int, now: int)
    requires Sane(p) && Inv(p, h, was) && was <= now
    ensures Finds(p, h.rs, DrainedTo(p, h, now), now, ReleaseAt(p, h.rs, DrainedTo(p, h, now), now))
  {
    DrainKeepsInv(p, h, was, now);
  }

  lemma ReleaseKeepsInv(p: Params, rs: seq<int>, m: nat, now: int, x: int)
    requires Sane(p) && Finds(p, rs, m, now, x)
    ensures Inv(p, History(rs + [x], m), now)
  {
    assert forall i | 0 <= i < |rs| :: rs[i] <= rs[|rs| - 1];
    assert forall i | 0 <= i < |rs| :: rs[i] <= x;
  }

  function LastOf(times: seq<int>, now: int): int { if times == [] then now else times[|times| - 1] }

  /** The invariant holds after every run of requests, however they overlap. */
  lemma {:induction false} RequestedInv(p: Params, times: seq<int>, now: int)
    requires Sane(p) && Ordered(times) && LastOf(times, now) <= now
    ensures Inv(p, Requested(p, times), LastOf(times, now))
  {
    if times == [] {
    } else {
      var pre, t := times[..|times| - 1], times[|times| - 1];
      var h := Requested(p, pre);
      RequestedInv(p, pre, t);
      RequestFinds(p, h, LastOf(pre, t), t);
      ReleaseKeepsInv(p, h.rs, DrainedTo(p, h, t), t, ReleaseAt(p, h.rs, DrainedTo(p, h, t), t));
    }
  }

  /** The next request after `pre`, at `t`: what it finds and when it is released. */
  lemma NextFinds(p: Params, pre: seq<int>, t: int) returns (m: nat, x: int)
    requires Sane(p) && Ordered(pre + [t])
    ensures var h := Requested(p, pre);
            && m == DrainedTo(p, h, t) && Finds(p, h.rs, m, t, x)
            && Requested(p, pre + [t]) == History(h.rs + [x], m)
  {
    assert (pre + [t])[..|pre|] == pre;
    assert forall i | 0 <= i < |pre| :: (pre + [t])[i] == pre[i] <= (pre + [t])[|pre|];
    var h := Requested(p, pre);
    RequestedInv(p, pre, t);
    RequestFinds(p, h, LastOf(pre, t), t);
    m := DrainedTo(p, h, t);
    x := ReleaseAt(p, h.rs, m, t);
  }

  // ---- how many releases a window holds -------------------------------------------------------

  /** The releases after `lo` and not after `hi`. */
  function CountIn(rs: seq<int>, lo: int, hi: int): nat {
    if rs == [] then 0
    else CountIn(rs[..|rs| - 1], lo, hi) + if lo < rs[|rs| - 1] <= hi then 1 else 0
  }

  lemma {:induction false} CountAtMost(rs: seq<int>, lo: int, hi: int, m: nat)
    requires m <= |rs| && forall i | 0 <= i < m :: rs[i] <= lo
    ensures CountIn(rs, lo, hi) <= |rs| - m
  {
    if |rs| > m {
      CountAtMost(rs[..|rs| - 1], lo, hi, m);
    } else if rs != [] {
      CountAtMost(rs[..|rs| - 1], lo, hi, m - 1);
    }
  }

  /** Even with overlapping waiters: a request that is let through at once sees at most `count` releases,
      its own among them, in the window that ends with it. */
  lemma UndelayedSeesRoom(p: Params, pre: seq<int>, t: int)
    requires Sane(p) && Ordered(pre + [t])
    requires Requested(p, pre + [t]).rs[|pre|] == t
    ensures CountIn(Requested(p, pre + [t]).rs, t - p.window, t) <= p.count
  {
    var m, x := NextFinds(p, pre, t);
    RoomLeft(p, Requested(p, pre).rs, m, t, x);
  }

  lemma RoomLeft(p: Params, rs: seq<int>, m: nat, now: int, x: int)
    requires Sane(p) && Finds(p, rs, m, now, x) && x == now
    ensures CountIn(rs + [x], now - p.window, now) <= p.count
  {
    CountAtMost(rs + [x], now - p.window, now, m);
  }

  /** The hard cap for one release: it is at least a window after the release `count` places before. */
  predicate CapAt(p: Params, rs: seq<int>, n: nat)
    requires n < |rs|
  {
    n >= p.count ==> rs[n] >= rs[n - p.count] + p.window
  }

  /** The queue from number `m` on has room, or at its front no entry older than the `count`-th from
      its back. */
  predicate Fits(p: Params, rs: seq<int>, m: nat)
    requires Sane(p) && m <= |rs|
  {
    |rs| - m < p.count || rs[m] == rs[|rs| - p.count]
  }

  lemma CapForQueue(p: Params, rs: seq<int>, m: nat, now: int, x: int)
    requires Sane(p) && Finds(p, rs, m, now, x) && |rs| >= p.count
    ensures CapAt(p, rs + [x], |rs|) <==> Fits(p, rs, m)
  {
  }

  /** The cap holds for a request exactly when the drained queue it finds fits. All waiters are released
      against the front, so the front must not stand for more releases than the cap allows. */
  lemma CapHoldsIff(p: Params, pre: seq<int>, t: int)
    requires Sane(p) && Ordered(pre + [t]) && |pre| >= p.count
    ensures var h := Requested(p, pre);
            CapAt(p, Requested(p, pre + [t]).rs, |pre|) <==> Fits(p, h.rs, DrainedTo(p, h, t))
  {
    var m, x := NextFinds(p, pre, t);
    CapForQueue(p, Requested(p, pre).rs, m, t, x);
  }

  /** No request arrives before the one before it is released. */
  predicate NoOverlap(p: Params, times: seq<int>)
    requires Sane(p)
  {
    times != [] ==>
      var pre, t := times[..|times| - 1], times[|times| - 1];
      NoOverlap(p, pre) && (pre != [] ==> Requested(p, pre).rs[|pre| - 1] <= t)
  }

  lemma SettledFits(p: Params, rs: seq<int>, m: nat, now: int, x: int)
    requires Sane(p) && Finds(p, rs, m, now, x) && |rs| >= p.count
    requires CapAt(p, rs, |rs| - 1) && rs[|rs| - 1] <= now
    ensures Fits(p, rs, m)
  {
  }

  lemma CapExtends(p: Params, rs: seq<int>, x: int)
    requires Sane(p) && CapAt(p, rs + [x], |rs|) && forall n | 0 <= n < |rs| :: CapAt(p, rs, n)
    ensures forall n | 0 <= n < |rs + [x]| :: CapAt(p, rs + [x], n)
  {
    forall n | 0 <= n < |rs + [x]| ensures CapAt(p, rs + [x], n) {
      if n < |rs| {
        assert CapAt(p, rs, n);
      }
    }
  }

  /** The hard cap: when waiters do not overlap, every release is at least a window after the release
      `count` places before it. */
  lemma {:induction false} HardCap(p: Params, times: seq<int>)
    requires Sane(p) && Ordered(times) && NoOverlap(p, times)
    ensures forall n | 0 <= n < |times| :: CapAt(p, Requested(p, times).rs, n)
  {
    if times == [] {
    } else {
      var pre, t := times[..|times| - 1], times[|times| - 1];
      assert times == pre + [t];
      HardCap(p, pre);
      var rs := Requested(p, pre).rs;
      var m, x := NextFinds(p, pre, t);
      if |pre| >= p.count {
        assert CapAt(p, rs, |pre| - 1);
        SettledFits(p, rs, m, t, x);
        CapForQueue(p, rs, m, t, x);
      }
      CapExtends(p, rs, x);
    }
  }

  /** The cap, read as a count: no half-open interval as long as the window holds more than `count`
      releases. */
  lemma {:induction false} WindowHoldsAtMostCount(p: Params, rs: seq<int>, lo: int)
    requires Sane(p) && Ordered(rs) && forall n | 0 <= n < |rs| :: CapAt(p, rs, n)
    ensures CountIn(rs, lo, lo + p.window) <= p.count
  {
    if |rs| <= p.count {
      CountAtMost(rs, lo, lo + p.window, 0);
    } else {
      var n := |rs| - 1;
      if lo < rs[n] <= lo + p.window {
        assert CapAt(p, rs, n);
        CountAtMost(rs, lo, lo + p.window, n - p.count + 1);
      } else {
        assert forall k | 0 <= k < n :: CapAt(p, rs, k) ==> CapAt(p, rs[..n], k);
        WindowHoldsAtMostCount(p, rs[..n], lo);
      }
    }
  }

  /** Both together: the documented cap, for every interval and every run without overlapping waiters. */
  lemma CapOverEveryWindow(p: Params, times: seq<int>, lo: int)
    requires Sane(p) && Ordered(times) && NoOverlap(p, times)
    ensures CountIn(Requested(p, times).rs, lo, lo + p.window) <= p.count
  {
    HardCap(p, times);
    RequestedInv(p, times, LastOf(times, 0));
    WindowHoldsAtMostCount(p, Requested(p, times).rs, lo);
  }

  lemma RequestedNext(p: Params, pre: seq<int>, t: int)
    requires Sane(p)
    ensures Requested(p, pre + [t]) == Next(p, Requested(p, pre), t)
  {
    assert (pre + [t])[..|pre|] == pre;
  }

  /** With overlap the cap fails: of one request per ten ticks, two waiters are let go together. */
  lemma OverlapBreaksCap() returns (times: seq<int>)
    ensures times == [0, 1, 2] && Ordered(times)
    ensures Requested(Params(1, 10), times).rs == [0, 10, 10] && !CapAt(Params(1, 10), [0, 10, 10], 2)
  {
    var p := Params(1, 10);
    RequestedNext(p, [], 0);
    times := [] + [0];
    assert Requested(p, times) == History([0], 0);
    RequestedNext(p, times, 1);
    times := times + [1];
    assert Requested(p, times) == History([0, 10], 0);
    RequestedNext(p, times, 2);
    times := times + [2];
  }
}
