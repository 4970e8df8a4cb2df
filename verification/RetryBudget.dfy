/** The shared retry budget (src/middleware/retry.rs). Each step runs under the budget's lock, so the
    requests of all connections interleave freely. Times and ratios are exact reals. */
module RetryBudget {
  import opened Options

  datatype Config = Config(ratio: real, minRetries: nat, window: real)

  datatype Budget = Budget(requests: nat, retries: nat, windowStart: real)

  /** A request arrives, or a retry is asked for and, if allowed, counted. */
  datatype Event = Request(now: real) | AskRetry(now: real)

  function Current(c: Config, b: Budget, now: real): Budget {
    if now - b.windowStart >= c.window then Budget(0, 0, now) else b
  }

  predicate Allows(c: Config, b: Budget) {
    || b.retries < c.minRetries
    || b.requests + b.retries == 0
    || b.retries as real / (b.requests + b.retries) as real < c.ratio
  }

  function Step(c: Config, b: Budget, e: Event): Budget {
    var cur := Current(c, b, e.now);
    match e
    case Request(_) => cur.(requests := cur.requests + 1)
    case AskRetry(_) => if Allows(c, cur) then cur.(retries := cur.retries + 1) else cur
  }

  class BudgetState {
    const ratio: real
    const minRetries: nat
    const window: real
    var requests: nat
    var retries: nat
    var windowStart: real

    ghost function Cfg(): Config { Config(ratio, minRetries, window) }

    ghost function Value(): Budget
      reads this
    {
      Budget(requests, retries, windowStart)
    }

    constructor (ratio: real, minRetries: nat, window: real, now: real)
      ensures Value() == Budget(0, 0, now) && Cfg() == Config(ratio, minRetries, window)
    {
      this.ratio, this.minRetries, this.window := ratio, minRetries, window;
      requests, retries, windowStart := 0, 0, now;
    }

    method MaybeResetWindow(now: real)
      modifies this
      ensures Value() == Current(Cfg(), old(Value()), now)
    {
      if now - windowStart >= window {
        requests, retries, windowStart := 0, 0, now;
      }
    }

    method RecordRequest(now: real)
      modifies this
      ensures Value() == Step(Cfg(), old(Value()), Request(now))
    {
      MaybeResetWindow(now);
      requests := requests + 1;
    }

    method AllowsRetry(now: real) returns (allowed: bool)
      modifies this
      ensures Value() == Current(Cfg(), old(Value()), now)
      ensures allowed == Allows(Cfg(), Value())
    {
      MaybeResetWindow(now);
      if retries < minRetries {
        return true;
      }
      var total := requests + retries;
      if total == 0 {
        return true;
      }
      return retries as real / total as real < ratio;
    }

    method RecordRetry()
      modifies this`retries
      ensures retries == old(retries) + 1
    {
      retries := retries + 1;
    }

    /** How the attempt loop uses the budget, with the lock held from the question to the count. */
    method Spend(now: real) returns (granted: bool)
      modifies this
      ensures Value() == Step(Cfg(), old(Value()), AskRetry(now))
      ensures granted == Granted(Cfg(), old(Value()), AskRetry(now))
    {
      granted := AllowsRetry(now);
      if granted {
        RecordRetry();
      }
    }
  }

  function After(c: Config, b: Budget, run: seq<Event>): Budget {
    if run == [] then b else Step(c, After(c, b, run[..|run| - 1]), run[|run| - 1])
  }

  /** Beyond the floor, the retries before the last one were less than the ratio's share of everything
      before the last one. */
  predicate WithinShare(c: Config, requests: nat, retries: nat) {
    || retries <= Max(c.minRetries, 1)
    || (retries - 1) as real < c.ratio * (requests + retries - 1) as real
  }

  predicate Within(c: Config, b: Budget) { WithinShare(c, b.requests, b.retries) }

  // ---- the windows of a run, told from the times of its events --------------------------------

  /** When the window that the run ends in began. */
  function WindowTime(c: Config, start: real, run: seq<Event>): real {
    if run == [] then start
    else
      var began, now := WindowTime(c, start, run[..|run| - 1]), run[|run| - 1].now;
      if now >= began + c.window then now else began
  }

  /** Event m is the first at least a window after the last one began. */
  predicate Opens(c: Config, start: real, run: seq<Event>, m: nat)
    requires m < |run|
  {
    run[m].now >= WindowTime(c, start, run[..m]) + c.window
  }

  /** Events m to n - 1 are in one window, and m is its first. */
  ghost predicate InWindow(c: Config, start: real, run: seq<Event>, m: nat, n: nat) {
    && m < n <= |run| && (m == 0 || Opens(c, start, run, m))
    && forall k | m < k < n :: !Opens(c, start, run, k)
  }

  /** The budget's answer to a retry. */
  predicate Granted(c: Config, b: Budget, e: Event) { e.AskRetry? && Allows(c, Current(c, b, e.now)) }

  /** The requests among events m to n - 1. */
  function RequestsIn(run: seq<Event>, m: nat, n: nat): nat
    requires m <= n <= |run|
  {
    if m == n then 0 else RequestsIn(run, m, n - 1) + if run[n - 1].Request? then 1 else 0
  }

  /** The retries granted among them. */
  function GrantedIn(c: Config, b: Budget, run: seq<Event>, m: nat, n: nat): nat
    requires m <= n <= |run|
  {
    if m == n then 0
    else GrantedIn(c, b, run, m, n - 1) + if Granted(c, After(c, b, run[..n - 1]), run[n - 1]) then 1 else 0
  }

  lemma {:induction false} TracksWindow(c: Config, start: real, run: seq<Event>)
    ensures After(c, Budget(0, 0, start), run).windowStart == WindowTime(c, start, run)
  {
    if run == [] {
    } else {
      TracksWindow(c, start, run[..|run| - 1]);
    }
  }

  lemma AfterOne(c: Config, b: Budget, run: seq<Event>, n: nat)
    requires n < |run|
    ensures After(c, b, run[..n + 1]) == Step(c, After(c, b, run[..n]), run[n])
  {
    assert run[..n + 1][..n] == run[..n];
  }

  /** Before event n of a window, the counters count the events of that window. */
  ghost predicate Counted(c: Config, start: real, run: seq<Event>, m: nat, n: nat)
    requires m <= n < |run|
  {
    var b := Budget(0, 0, start);
    var cur := Current(c, After(c, b, run[..n]), run[n].now);
    cur.requests == RequestsIn(run, m, n) && cur.retries == GrantedIn(c, b, run, m, n)
  }

  lemma FirstCounted(c: Config, start: real, run: seq<Event>, m: nat)
    requires InWindow(c, start, run, m, m + 1)
    ensures Counted(c, start, run, m, m)
  {
    TracksWindow(c, start, run[..m]);
  }

  lemma NextCounted(c: Config, start: real, run: seq<Event>, m: nat, n: nat)
    requires m <= n && n + 1 < |run| && Counted(c, start, run, m, n) && !Opens(c, start, run, n + 1)
    ensures Counted(c, start, run, m, n + 1)
  {
    AfterOne(c, Budget(0, 0, start), run, n);
    TracksWindow(c, start, run[..n + 1]);
  }

  lemma {:induction false} WindowCounted(c: Config, start: real, run: seq<Event>, m: nat, n: nat)
    requires InWindow(c, start, run, m, n + 1)
    ensures Counted(c, start, run, m, n)
  {
    if n == m {
      FirstCounted(c, start, run, m);
    } else {
      WindowCounted(c, start, run, m, n - 1);
      NextCounted(c, start, run, m, n - 1);
    }
  }

  lemma StepCounts(c: Config, b: Budget, e: Event)
    ensures var cur, next := Current(c, b, e.now), Step(c, b, e);
            && next.requests == cur.requests + (if e.Request? then 1 else 0)
            && next.retries == cur.retries + if Granted(c, b, e) then 1 else 0
  {
  }

  lemma CountersCount(c: Config, start: real, run: seq<Event>, m: nat, n: nat)
    requires InWindow(c, start, run, m, n)
    ensures var b := Budget(0, 0, start);
            && After(c, b, run[..n]).requests == RequestsIn(run, m, n)
            && After(c, b, run[..n]).retries == GrantedIn(c, b, run, m, n)
  {
    WindowCounted(c, start, run, m, n - 1);
    AfterOne(c, Budget(0, 0, start), run, n - 1);
    StepCounts(c, After(c, Budget(0, 0, start), run[..n - 1]), run[n - 1]);
  }

  /** A retry is granted exactly when, of the events before it in its own window, the retries are below the
      floor, there are none at all, or the retries are a share of all below the ratio. */
  lemma GrantedIff(c: Config, start: real, run: seq<Event>, m: nat, n: nat)
    requires InWindow(c, start, run, m, n + 1) && run[n].AskRetry?
    ensures var b := Budget(0, 0, start);
            var q, r := RequestsIn(run, m, n), GrantedIn(c, b, run, m, n);
            Granted(c, After(c, b, run[..n]), run[n]) <==>
            r < c.minRetries || q + r == 0 || r as real / (q + r) as real < c.ratio
  {
    WindowCounted(c, start, run, m, n);
  }

  lemma ShareOf(a: real, total: real, ratio: real)
    requires total > 0.0
    ensures a / total < ratio <==> a < ratio * total
  {
    assert a == (a / total) * total;
    if a / total < ratio {
      assert (ratio - a / total) * total > 0.0;
    } else {
      assert (a / total - ratio) * total >= 0.0;
    }
  }

  lemma RetryKeepsWithin(c: Config, b: Budget)
    requires c.ratio >= 0.0 && Allows(c, b)
    ensures Within(c, b.(retries := b.retries + 1))
  {
    if b.retries >= c.minRetries && b.requests + b.retries > 0 {
      ShareOf(b.retries as real, (b.requests + b.retries) as real, c.ratio);
    }
  }

  lemma RequestKeepsWithin(c: Config, b: Budget)
    requires c.ratio >= 0.0 && Within(c, b)
    ensures Within(c, b.(requests := b.requests + 1))
  {
    if b.retries >= 1 {
      var n := (b.requests + b.retries - 1) as real;
      assert c.ratio * (n + 1.0) == c.ratio * n + c.ratio;
    }
  }

  /** In every run, under any interleaving of requests, the budget stays within its bound. */
  lemma {:induction false} BudgetBound(c: Config, b: Budget, run: seq<Event>)
    requires c.ratio >= 0.0 && b.requests == b.retries == 0
    ensures Within(c, After(c, b, run))
  {
    if run == [] {
    } else {
      var pre, e := run[..|run| - 1], run[|run| - 1];
      BudgetBound(c, b, pre);
      var cur := Current(c, After(c, b, pre), e.now);
      match e
      case Request(_) => RequestKeepsWithin(c, cur);
      case AskRetry(_) => if Allows(c, cur) { RetryKeepsWithin(c, cur); }
    }
  }

  /** So in every window of every run the granted retries are within the floor, or all but the last of them
      are less than the ratio's share of everything but the last. */
  lemma WindowBound(c: Config, start: real, run: seq<Event>, m: nat, n: nat)
    requires c.ratio >= 0.0 && InWindow(c, start, run, m, n)
    ensures WithinShare(c, RequestsIn(run, m, n), GrantedIn(c, Budget(0, 0, start), run, m, n))
  {
    CountersCount(c, start, run, m, n);
    BudgetBound(c, Budget(0, 0, start), run[..n]);
  }

  /** For a ratio below one, a bound on the retries of a window with `requests` requests. */
  function Cap(c: Config, requests: nat): real
    requires c.ratio < 1.0
  {
    1.0 + requests as real * c.ratio / (1.0 - c.ratio)
  }

  lemma WithinCap(c: Config, b: Budget)
    requires 0.0 <= c.ratio < 1.0 && Within(c, b) && b.retries > Max(c.minRetries, 1)
    ensures b.retries as real < Cap(c, b.requests)
  {
    Share(b.requests as real, (b.retries - 1) as real, c.ratio);
  }

  lemma Share(q: real, r: real, ratio: real)
    requires 0.0 <= ratio < 1.0 && r < ratio * (q + r)
    ensures r < q * ratio / (1.0 - ratio)
  {
    var d := 1.0 - ratio;
    assert r * d < q * ratio;
    ShareOf(q * ratio, d, r);
    assert !(q * ratio / d < r);
    assert q * ratio / d * d == q * ratio;
  }

  /** Read as a share of the requests: for a ratio below one, a window with q requests has, beyond the
      floor, fewer than 1 + q * ratio / (1 - ratio) retries. */
  lemma RetriesPerRequests(c: Config, b: Budget, run: seq<Event>)
    requires 0.0 <= c.ratio < 1.0 && b.requests == b.retries == 0
    requires After(c, b, run).retries > Max(c.minRetries, 1)
    ensures After(c, b, run).retries as real < Cap(c, After(c, b, run).requests)
  {
    BudgetBound(c, b, run);
    WithinCap(c, After(c, b, run));
  }

  /** The share of all that the ratio allows. */
  function Allowed(c: Config, b: Budget): real { c.ratio * (b.requests + b.retries) as real }

  lemma WithinBelowOne(c: Config, b: Budget)
    requires c.ratio >= 0.0 && Within(c, b) && b.retries > Max(c.minRetries, 1)
    ensures b.retries as real < Allowed(c, b) + 1.0
  {
    var n := (b.requests + b.retries - 1) as real;
    assert c.ratio * (n + 1.0) == c.ratio * n + c.ratio;
  }

  /** The documented cap, that at most `ratio` of all requests are retries, is never passed by a whole
      retry beyond the floor. */
  lemma OvershootBelowOne(c: Config, b: Budget, run: seq<Event>)
    requires c.ratio >= 0.0 && b.requests == b.retries == 0
    requires After(c, b, run).retries > Max(c.minRetries, 1)
    ensures After(c, b, run).retries as real < Allowed(c, After(c, b, run)) + 1.0
  {
    BudgetBound(c, b, run);
    WithinBelowOne(c, After(c, b, run));
  }

  /** How far the retries are below the ratio's share. */
  function Headroom(c: Config, b: Budget): real { Allowed(c, b) - b.retries as real }

  /** A granted retry keeps the documented share exactly when it found room for all of it, less what the
      retry itself adds to the share; the budget asks only for some room. */
  lemma ShareKeptIff(c: Config, b: Budget, now: real)
    requires Allows(c, Current(c, b, now))
    ensures Headroom(c, Step(c, b, AskRetry(now))) >= 0.0 <==> Headroom(c, Current(c, b, now)) >= 1.0 - c.ratio
  {
    var cur := Current(c, b, now);
    var n := (cur.requests + cur.retries) as real;
    assert c.ratio * (n + 1.0) == c.ratio * n + c.ratio;
  }

  lemma AfterNext(c: Config, b: Budget, run: seq<Event>, e: Event)
    ensures After(c, b, run + [e]) == Step(c, After(c, b, run), e)
  {
    assert (run + [e])[..|run|] == run;
  }

  lemma RequestsAdd(c: Config, b: Budget, run: seq<Event>, now: real)
    requires now - After(c, b, run).windowStart < c.window
    ensures After(c, b, run + [Request(now)]) == After(c, b, run).(requests := After(c, b, run).requests + 1)
  {
    AfterNext(c, b, run, Request(now));
  }

  lemma ThreeRequests(c: Config) returns (run: seq<Event>)
    requires c.window > 1.0
    ensures run == [Request(1.0), Request(1.0), Request(1.0)] && After(c, Budget(0, 0, 0.0), run) == Budget(3, 0, 0.0)
  {
    var b, e := Budget(0, 0, 0.0), Request(1.0);
    RequestsAdd(c, b, [], 1.0);
    RequestsAdd(c, b, [] + [e], 1.0);
    RequestsAdd(c, b, [] + [e] + [e], 1.0);
    run := [] + [e] + [e] + [e];
  }

  /** But it can be passed by part of one: a retry after three requests is a quarter of them. */
  lemma OvershootsByOne() returns (run: seq<Event>)
    ensures run == [Request(1.0), Request(1.0), Request(1.0), AskRetry(1.0)]
    ensures var b := After(Config(0.2, 0, 10.0), Budget(0, 0, 0.0), run);
            b == Budget(3, 1, 0.0) && b.retries as real / (b.requests + b.retries) as real > 0.2
  {
    var c := Config(0.2, 0, 10.0);
    run := ThreeRequests(c);
    AfterNext(c, Budget(0, 0, 0.0), run, AskRetry(1.0));
    run := run + [AskRetry(1.0)];
  }

  /** The documented promise: beyond the floor, at most `ratio` of all requests are retries. */
  predicate ShareKept(c: Config, b: Budget) {
    b.retries <= c.minRetries || Headroom(c, b) >= 0.0
  }

  ghost predicate ShareAlways(c: Config) {
    forall start: real, run: seq<Event> :: ShareKept(c, After(c, Budget(0, 0, start), run))
  }

  predicate IsWhole(x: real) { x == x.Floor as real }

  /** How many retries the ratio allows for each request. */
  function PerRequest(c: Config): real
    requires c.ratio < 1.0
  {
    c.ratio / (1.0 - c.ratio)
  }

  /** Which settings keep the promise: the share takes in every retry, or there is a floor and each request
      adds a whole number of retries to the share. */
  predicate KeepsShare(c: Config) {
    c.ratio >= 1.0 || (c.minRetries >= 1 && (c.ratio <= 0.0 || IsWhole(PerRequest(c))))
  }

  lemma Scaled(m: real, x: real, y: real)
    requires m > 0.0
    ensures x < y <==> m * x < m * y
  {
    if x < y {
      assert m * (y - x) > 0.0;
    } else {
      assert m * (x - y) >= 0.0;
    }
  }

  /** The share of all, read as a share of the requests. */
  lemma ByRequests(c: Config, q: real, r: real)
    requires c.ratio < 1.0
    ensures r < c.ratio * (q + r) <==> r < PerRequest(c) * q
    ensures r <= c.ratio * (q + r) <==> r <= PerRequest(c) * q
  {
    var d := 1.0 - c.ratio;
    assert PerRequest(c) * d == c.ratio;
    assert d * (PerRequest(c) * q) == c.ratio * q;
    assert d * r == r - c.ratio * r;
    assert c.ratio * (q + r) == c.ratio * q + c.ratio * r;
    Scaled(d, r, PerRequest(c) * q);
    Scaled(d, PerRequest(c) * q, r);
  }

  /** What `q` requests add, when each adds `x`. */
  function Sum(x: real, q: nat): real {
    if q == 0 then 0.0 else Sum(x, q - 1) + x
  }

  lemma {:induction false} SumTimes(x: real, q: nat)
    ensures Sum(x, q) == x * q as real
  {
    if q == 0 {
    } else {
      SumTimes(x, q - 1);
      assert x * q as real == x * (q - 1) as real + x;
    }
  }

  lemma AllowsByRequests(c: Config, b: Budget)
    requires c.ratio < 1.0 && b.retries >= c.minRetries && b.requests + b.retries > 0
    ensures Allows(c, b) <==> b.retries as real < Sum(PerRequest(c), b.requests)
  {
    ShareOf(b.retries as real, (b.requests + b.retries) as real, c.ratio);
    ByRequests(c, b.requests as real, b.retries as real);
    SumTimes(PerRequest(c), b.requests);
  }

  lemma KeptByRequests(c: Config, b: Budget)
    requires c.ratio < 1.0
    ensures Headroom(c, b) >= 0.0 <==> b.retries as real <= Sum(PerRequest(c), b.requests)
  {
    ByRequests(c, b.requests as real, b.retries as real);
    SumTimes(PerRequest(c), b.requests);
  }

  lemma WholeNumber(x: real, n: int)
    requires x == n as real
    ensures IsWhole(x)
  {
  }

  lemma {:induction false} WholeSum(x: real, q: nat)
    requires IsWhole(x)
    ensures IsWhole(Sum(x, q))
  {
    if q == 0 {
    } else {
      WholeSum(x, q - 1);
      WholeNumber(Sum(x, q), Sum(x, q - 1).Floor + x.Floor);
    }
  }

  lemma NextWhole(y: real, r: nat)
    requires IsWhole(y) && r as real < y
    ensures (r + 1) as real <= y
  {
    var n := y.Floor;
    assert r < n;
  }

  /** A share that is a whole number has room for a whole retry or for none. */
  lemma WholeRoom(x: real, q: nat, r: nat)
    requires IsWhole(x) && r as real < Sum(x, q)
    ensures (r + 1) as real <= Sum(x, q)
  {
    WholeSum(x, q);
    NextWhole(Sum(x, q), r);
  }

  lemma {:induction false} NoRoom(x: real, q: nat)
    requires x <= 0.0
    ensures Sum(x, q) <= 0.0
  {
    if q == 0 {
    } else {
      NoRoom(x, q - 1);
    }
  }

  lemma PerRequestSign(c: Config)
    requires c.ratio < 1.0
    ensures PerRequest(c) > 0.0 <==> c.ratio > 0.0
  {
    ShareOf(-c.ratio, 1.0 - c.ratio, 0.0);
    assert -c.ratio / (1.0 - c.ratio) == -PerRequest(c);
  }

  lemma Product(x: real, y: real)
    requires x >= 0.0 && y >= 0.0
    ensures x * y >= 0.0
  {
  }

  lemma AllRetriesFit(c: Config, b: Budget)
    requires c.ratio >= 1.0
    ensures Headroom(c, b) >= 0.0
  {
    var n := (b.requests + b.retries) as real;
    Product(c.ratio - 1.0, n);
    assert (c.ratio - 1.0) * n == c.ratio * n - n;
  }

  /** Beyond the floor, a granted retry fits the share. */
  lemma GrantFits(c: Config, b: Budget)
    requires KeepsShare(c) && c.ratio < 1.0 && b.retries >= c.minRetries && Allows(c, b)
    ensures Headroom(c, b.(retries := b.retries + 1)) >= 0.0
  {
    AllowsByRequests(c, b);
    KeptByRequests(c, b.(retries := b.retries + 1));
    if c.ratio > 0.0 {
      WholeRoom(PerRequest(c), b.requests, b.retries);
    } else {
      PerRequestSign(c);
      NoRoom(PerRequest(c), b.requests);
    }
  }

  lemma RetryKeepsShare(c: Config, b: Budget)
    requires KeepsShare(c) && Allows(c, b)
    ensures ShareKept(c, b.(retries := b.retries + 1))
  {
    if c.ratio >= 1.0 {
      AllRetriesFit(c, b.(retries := b.retries + 1));
    } else if b.retries >= c.minRetries {
      GrantFits(c, b);
    }
  }

  lemma RequestKeepsShare(c: Config, b: Budget)
    requires ShareKept(c, b)
    ensures ShareKept(c, b.(requests := b.requests + 1))
  {
    var n := (b.requests + b.retries) as real;
    assert c.ratio * (n + 1.0) == c.ratio * n + c.ratio;
    assert c.ratio < 0.0 ==> c.ratio * n <= 0.0;
  }

  lemma {:induction false} KeptInRuns(c: Config, b: Budget, run: seq<Event>)
    requires KeepsShare(c) && b.requests == b.retries == 0
    ensures ShareKept(c, After(c, b, run))
  {
    if run == [] {
    } else {
      var pre, e := run[..|run| - 1], run[|run| - 1];
      KeptInRuns(c, b, pre);
      var cur := Current(c, After(c, b, pre), e.now);
      match e
      case Request(_) => RequestKeepsShare(c, cur);
      case AskRetry(_) => if Allows(c, cur) { RetryKeepsShare(c, cur); }
    }
  }

  /** Without a floor, a retry asked for when the window has just ended is granted and is all there is. */
  lemma LoneRetry(c: Config) returns (run: seq<Event>)
    requires c.ratio < 1.0 && c.minRetries == 0
    ensures !ShareKept(c, After(c, Budget(0, 0, 0.0), run))
  {
    var first := [Request(0.0)];
    run := first + [AskRetry(After(c, Budget(0, 0, 0.0), first).windowStart + c.window)];
    AfterNext(c, Budget(0, 0, 0.0), first, run[1]);
  }

  lemma {:induction false} ManyRequests(c: Config, q: nat)
    requires c.window > 0.0
    ensures After(c, Budget(0, 0, 0.0), Copies(Request(0.0), q)) == Budget(q, 0, 0.0)
  {
    if q == 0 {
    } else {
      ManyRequests(c, q - 1);
      assert Copies(Request(0.0), q) == Copies(Request(0.0), q - 1) + [Request(0.0)];
      RequestsAdd(c, Budget(0, 0, 0.0), Copies(Request(0.0), q - 1), 0.0);
    }
  }

  function Burst(q: nat, r: nat): seq<Event> { Copies(Request(0.0), q) + Copies(AskRetry(0.0), r) }

  /** After `q` requests, the retries are all counted when the budget allows each. */
  lemma {:induction false} BurstGranted(c: Config, q: nat, r: nat)
    requires c.window > 0.0 && forall k: nat | k < r :: Allows(c, Budget(q, k, 0.0))
    ensures After(c, Budget(0, 0, 0.0), Burst(q, r)) == Budget(q, r, 0.0)
  {
    if r == 0 {
      ManyRequests(c, q);
      assert Burst(q, 0) == Copies(Request(0.0), q);
    } else {
      BurstGranted(c, q, r - 1);
      assert Burst(q, r) == Burst(q, r - 1) + [AskRetry(0.0)];
      AfterNext(c, Budget(0, 0, 0.0), Burst(q, r - 1), AskRetry(0.0));
    }
  }

  lemma BelowShareAllows(c: Config, q: nat, k: nat)
    requires c.ratio < 1.0 && q > 0 && k as real < Sum(PerRequest(c), q)
    ensures Allows(c, Budget(q, k, 0.0))
  {
    if k >= c.minRetries {
      AllowsByRequests(c, Budget(q, k, 0.0));
    }
  }

  /** Enough requests that what they add to the share is beyond the floor. */
  lemma BeyondFloor(x: real, floor: nat) returns (q: nat)
    requires x > 0.0
    ensures q > 0 && Sum(x, q) > floor as real
  {
    var y := floor as real / x;
    q := y.Floor + 1;
    assert x * y == floor as real;
    Scaled(x, y, q as real);
    SumTimes(x, q);
  }

  lemma WholeRest(x: real, y: real)
    requires IsWhole(y) && IsWhole(y + x)
    ensures IsWhole(x)
  {
    var m := (y + x).Floor - y.Floor;
    assert x == m as real;
  }

  lemma PartLeft(x: real, floor: nat) returns (q: nat)
    requires x > 0.0 && !IsWhole(x)
    ensures q > 0 && Sum(x, q) > floor as real && !IsWhole(Sum(x, q))
  {
    q := BeyondFloor(x, floor);
    if IsWhole(Sum(x, q)) {
      if IsWhole(Sum(x, q + 1)) {
        WholeRest(x, Sum(x, q));
      }
      q := q + 1;
    }
  }

  /** When a request adds part of a retry to the share, some number of requests leaves part of a retry, and
      the budget grants it whole. */
  lemma PartGranted(c: Config) returns (run: seq<Event>)
    requires c.window > 0.0 && 0.0 < c.ratio < 1.0 && !IsWhole(PerRequest(c))
    ensures !ShareKept(c, After(c, Budget(0, 0, 0.0), run))
  {
    PerRequestSign(c);
    var q := PartLeft(PerRequest(c), c.minRetries);
    var r: nat := Sum(PerRequest(c), q).Floor + 1;
    forall k: nat | k < r ensures Allows(c, Budget(q, k, 0.0)) {
      BelowShareAllows(c, q, k);
    }
    run := Burst(q, r);
    BurstGranted(c, q, r);
    KeptByRequests(c, Budget(q, r, 0.0));
  }

  /** Exactly which settings keep the documented share in every run. */
  lemma ShareAlwaysIff(c: Config)
    requires c.window > 0.0
    ensures ShareAlways(c) <==> KeepsShare(c)
  {
    if KeepsShare(c) {
      forall start: real, run: seq<Event> ensures ShareKept(c, After(c, Budget(0, 0, start), run)) {
        KeptInRuns(c, Budget(0, 0, start), run);
      }
    } else if c.minRetries == 0 {
      var _ := LoneRetry(c);
    } else {
      var _ := PartGranted(c);
    }
  }
}
