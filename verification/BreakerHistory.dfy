/** What a circuit is, told from its calls alone: when it tripped, when a probe was let through, and what was
    recorded since. */
module CircuitHistory {
  import opened Options
  import opened Circuit

  /** One call on the circuit. */
  datatype Timed = Timed(op: Op, now: int)

  /** The circuit after these calls on a new one. */
  function Fold(c: Settings, h: seq<Timed>): State {
    if h == [] then Closed(0) else Next(c, Fold(c, h[..|h| - 1]), h[|h| - 1].op, h[|h| - 1].now)
  }

  /** The failures recorded since the last recorded success. */
  function InARow(h: seq<Timed>): nat {
    if h == [] then 0
    else
      var pre, op := h[..|h| - 1], h[|h| - 1].op;
      if op.Check? then InARow(pre) else if op.success then 0 else InARow(pre) + 1
  }

  /** Call i records a failure that trips the circuit: that of a probe or, on a circuit that is not open, the
      one that completes a row of max(1, threshold). */
  ghost predicate Trips(c: Settings, h: seq<Timed>, i: nat)
    requires i < |h|
    decreases i, 1
  {
    && h[i].op == Record(false)
    && (Probed(c, h[..i]) || (!Tripped(c, h[..i]) && InARow(h[..i + 1]) == TripsAt(c)))
  }

  /** The circuit tripped at call i, and no check has come after the recovery time since. */
  ghost predicate OpenSince(c: Settings, h: seq<Timed>, i: nat)
    requires i < |h|
    decreases i, 2
  {
    Trips(c, h, i) && forall k | i < k < |h| :: h[k].op.Check? ==> h[k].now < h[i].now + c.recovery
  }

  ghost predicate Tripped(c: Settings, h: seq<Timed>)
    decreases |h|, 0
  {
    exists i | 0 <= i < |h| :: OpenSince(c, h, i)
  }

  /** Call j is the check that found the recovery time over, and no outcome has been recorded since. */
  ghost predicate ProbedSince(c: Settings, h: seq<Timed>, j: nat)
    requires j < |h|
    decreases j, 3
  {
    && h[j].op.Check?
    && (exists i | 0 <= i < j :: OpenSince(c, h[..j], i) && h[j].now >= h[i].now + c.recovery)
    && forall k | j < k < |h| :: h[k].op.Check?
  }

  ghost predicate Probed(c: Settings, h: seq<Timed>)
    decreases |h|, 0
  {
    exists j | 0 <= j < |h| :: ProbedSince(c, h, j)
  }

  // ---- one call more --------------------------------------------------------------------------

  lemma TripsEarlier(c: Settings, h: seq<Timed>, e: Timed, i: nat)
    requires i < |h|
    ensures Trips(c, h + [e], i) <==> Trips(c, h, i)
  {
    assert (h + [e])[..i] == h[..i] && (h + [e])[..i + 1] == h[..i + 1];
  }

  lemma OpenNext(c: Settings, h: seq<Timed>, e: Timed, i: nat)
    requires i < |h|
    ensures OpenSince(c, h + [e], i) <==>
            OpenSince(c, h, i) && (e.op.Check? ==> e.now < h[i].now + c.recovery)
  {
    TripsEarlier(c, h, e, i);
    assert (h + [e])[|h|] == e && forall k | 0 <= k < |h| :: (h + [e])[k] == h[k];
  }

  lemma OpenNow(c: Settings, h: seq<Timed>, e: Timed)
    ensures OpenSince(c, h + [e], |h|) <==>
            e.op == Record(false) && (Probed(c, h) || (!Tripped(c, h) && InARow(h) + 1 == TripsAt(c)))
  {
    var next := h + [e];
    assert next[..|h|] == h && next[..|h| + 1] == next;
  }

  lemma ProbedNext(c: Settings, h: seq<Timed>, e: Timed, j: nat)
    requires j < |h|
    ensures ProbedSince(c, h + [e], j) <==> ProbedSince(c, h, j) && e.op.Check?
  {
    assert (h + [e])[..j] == h[..j];
    assert (h + [e])[|h|] == e && forall k | 0 <= k < |h| :: (h + [e])[k] == h[k];
  }

  lemma ProbedNow(c: Settings, h: seq<Timed>, e: Timed)
    ensures ProbedSince(c, h + [e], |h|) <==>
            e.op.Check? && exists i | 0 <= i < |h| :: OpenSince(c, h, i) && e.now >= h[i].now + c.recovery
  {
    assert (h + [e])[..|h|] == h;
  }

  // ---- the history decides --------------------------------------------------------------------

  /** How many requests an episode that started `n` checks ago, that check included, has let through. */
  function LetThrough(c: Settings, n: nat): nat { if n < ProbeLimit(c) then n else ProbeLimit(c) }

  /** The circuit is the one that its history tells of. */
  ghost predicate Told(c: Settings, h: seq<Timed>, s: State) {
    match s
    case Closed(failures) => failures == InARow(h) < TripsAt(c) && !Tripped(c, h) && !Probed(c, h)
    case Open(until) => OpenUntil(c, h, until) && !Probed(c, h)
    case HalfOpen(inFlight) => HalfOpenWith(c, h, inFlight) && !Tripped(c, h)
  }

  ghost predicate OpenUntil(c: Settings, h: seq<Timed>, until: int) {
    && Tripped(c, h)
    && forall i | 0 <= i < |h| :: OpenSince(c, h, i) ==> until == h[i].now + c.recovery
  }

  ghost predicate HalfOpenWith(c: Settings, h: seq<Timed>, inFlight: nat) {
    && Probed(c, h)
    && forall j | 0 <= j < |h| :: ProbedSince(c, h, j) ==> inFlight == LetThrough(c, |h| - j)
  }

  /** Call i, or check j, of the longer history is an earlier one or the new one. */
  lemma Earlier(c: Settings, h: seq<Timed>, e: Timed)
    ensures forall i | 0 <= i < |h| ::
              OpenSince(c, h + [e], i) <==> OpenSince(c, h, i) && (e.op.Check? ==> e.now < h[i].now + c.recovery)
    ensures forall j | 0 <= j < |h| :: ProbedSince(c, h + [e], j) <==> ProbedSince(c, h, j) && e.op.Check?
  {
    forall i | 0 <= i < |h|
      ensures OpenSince(c, h + [e], i) <==> OpenSince(c, h, i) && (e.op.Check? ==> e.now < h[i].now + c.recovery)
    {
      OpenNext(c, h, e, i);
    }
    forall j | 0 <= j < |h| ensures ProbedSince(c, h + [e], j) <==> ProbedSince(c, h, j) && e.op.Check? {
      ProbedNext(c, h, e, j);
    }
  }

  lemma TrippedAt(c: Settings, h: seq<Timed>) returns (i: nat)
    requires Tripped(c, h)
    ensures i < |h| && OpenSince(c, h, i)
  {
    i :| 0 <= i < |h| && OpenSince(c, h, i);
  }

  lemma ProbedAt(c: Settings, h: seq<Timed>) returns (j: nat)
    requires Probed(c, h)
    ensures j < |h| && ProbedSince(c, h, j)
  {
    j :| 0 <= j < |h| && ProbedSince(c, h, j);
  }

  lemma InARowNext(h: seq<Timed>, e: Timed)
    ensures InARow(h + [e]) == if e.op.Check? then InARow(h) else if e.op.success then 0 else InARow(h) + 1
  {
    assert (h + [e])[..|h|] == h;
  }

  lemma ClosedTold(c: Settings, h: seq<Timed>, e: Timed, s: State)
    requires s.Closed? && Told(c, h, s)
    ensures Told(c, h + [e], Next(c, s, e.op, e.now))
  {
    Earlier(c, h, e);
    OpenNow(c, h, e);
    ProbedNow(c, h, e);
    InARowNext(h, e);
  }

  lemma OpenTold(c: Settings, h: seq<Timed>, e: Timed, s: State)
    requires s.Open? && Told(c, h, s)
    ensures Told(c, h + [e], Next(c, s, e.op, e.now))
  {
    Earlier(c, h, e);
    OpenNow(c, h, e);
    ProbedNow(c, h, e);
    var i := TrippedAt(c, h);
    assert OpenSince(c, h + [e], i) || ProbedSince(c, h + [e], |h|);
  }

  lemma ProbeTold(c: Settings, h: seq<Timed>, e: Timed, s: State)
    requires s.HalfOpen? && Told(c, h, s) && e.op.Check?
    ensures Told(c, h + [e], Next(c, s, e.op, e.now))
  {
    Earlier(c, h, e);
    OpenNow(c, h, e);
    ProbedNow(c, h, e);
    var j := ProbedAt(c, h);
    assert ProbedSince(c, h + [e], j);
  }

  lemma OutcomeTold(c: Settings, h: seq<Timed>, e: Timed, s: State)
    requires s.HalfOpen? && Told(c, h, s) && e.op.Record?
    ensures Told(c, h + [e], Next(c, s, e.op, e.now))
  {
    Earlier(c, h, e);
    OpenNow(c, h, e);
    ProbedNow(c, h, e);
    InARowNext(h, e);
    assert e.op == Record(false) ==> OpenSince(c, h + [e], |h|);
  }

  /** A circuit is open exactly since it tripped, half-open exactly since the check that found its recovery
      time over, if no outcome was recorded since then, and otherwise closed with the failures in a row. */
  lemma {:induction false} HistoryDecides(c: Settings, h: seq<Timed>)
    ensures Told(c, h, Fold(c, h))
  {
    if h == [] {
    } else {
      var pre, e := h[..|h| - 1], h[|h| - 1];
      assert h == pre + [e];
      HistoryDecides(c, pre);
      var s := Fold(c, pre);
      match s
      case Closed(_) => ClosedTold(c, pre, e, s);
      case Open(_) => OpenTold(c, pre, e, s);
      case HalfOpen(_) => if e.op.Check? { ProbeTold(c, pre, e, s); } else { OutcomeTold(c, pre, e, s); }
    }
  }

  /** A check at `now` after these calls is let through: every trip is a recovery time ago, and an episode has
      had fewer checks than there are probes. */
  ghost predicate LetsIn(c: Settings, h: seq<Timed>, now: int) {
    && (forall i | 0 <= i < |h| :: OpenSince(c, h, i) ==> now >= h[i].now + c.recovery)
    && (forall j | 0 <= j < |h| :: ProbedSince(c, h, j) ==> |h| - j < c.probes)
  }

  lemma HistoryAnswers(c: Settings, h: seq<Timed>, now: int)
    ensures Allows(c, Fold(c, h), now) <==> LetsIn(c, h, now)
  {
    HistoryDecides(c, h);
    match Fold(c, h)
    case Closed(_) =>
    case Open(_) => var i := TrippedAt(c, h);
    case HalfOpen(_) => var j := ProbedAt(c, h);
  }
}

/** Both stores keep the circuit that the calls tell of, counted since they last forgot it. */
module BreakerHistories {
  import opened Options
  import opened Circuit
  import opened CircuitHistory
  import M = MemoryBreaker
  import R = RedisBreaker

  // ---- the in-memory store --------------------------------------------------------------------

  /** The calls on `key` since housekeeping last dropped its circuit. */
  function Since(c: M.Config, s: M.Store, run: seq<M.Event>, key: string): seq<Timed>
    decreases |run|, 0
  {
    if run == [] then []
    else
      var pre, e := run[..|run| - 1], run[|run| - 1];
      var kept := Found(c, s, pre, e, key);
      if e.key == key then kept + [Timed(e.op, e.now)] else kept
  }

  /** Those that call `e` after the run finds. */
  function Found(c: M.Config, s: M.Store, run: seq<M.Event>, e: M.Event, key: string): seq<Timed>
    decreases |run|, 1
  {
    if key in M.Prepared(c, M.After(c, s, run), e).circuits then Since(c, s, run, key) else []
  }

  lemma FoldNext(c: Settings, h: seq<Timed>, e: Timed)
    ensures Fold(c, h + [e]) == Next(c, Fold(c, h), e.op, e.now)
  {
    assert (h + [e])[..|h|] == h;
  }

  lemma {:induction false} StoreFolds(c: M.Config, s: M.Store, run: seq<M.Event>, key: string)
    requires s.circuits == map[]
    ensures M.StateOf(M.After(c, s, run), key) == Fold(c.settings, Since(c, s, run, key))
  {
    if run == [] {
    } else {
      var pre, e := run[..|run| - 1], run[|run| - 1];
      StoreFolds(c, s, pre, key);
      M.StepAt(c, M.After(c, s, pre), e, key);
      FoldNext(c.settings, Found(c, s, pre, e, key), Timed(e.op, e.now));
    }
  }

  /** In every run of the store, with all its forgetting, each circuit is the one its calls tell of. */
  lemma StoreTold(c: M.Config, s: M.Store, run: seq<M.Event>, key: string)
    requires s.circuits == map[]
    ensures Told(c.settings, Since(c, s, run, key), M.StateOf(M.After(c, s, run), key))
  {
    StoreFolds(c, s, run, key);
    HistoryDecides(c.settings, Since(c, s, run, key));
  }

  /** And each check is answered as they say. */
  lemma StoreAnswers(c: M.Config, s: M.Store, run: seq<M.Event>, e: M.Event)
    requires s.circuits == map[]
    ensures M.Admits(c, M.After(c, s, run), e) <==> LetsIn(c.settings, Found(c, s, run, e, e.key), e.now)
  {
    StoreFolds(c, s, run, e.key);
    M.StepAt(c, M.After(c, s, run), e, e.key);
    HistoryAnswers(c.settings, Found(c, s, run, e, e.key), e.now);
  }

  /** The outcome of a probe decides. After a success the circuit is closed with no failures, and the next
      check is let through whenever it comes. */
  lemma SuccessCloses(c: M.Config, s: M.Store, e: M.Event, check: M.Event)
    requires M.StateOf(M.Prepared(c, s, e), e.key).HalfOpen? && e.op == Record(true) && check.key == e.key
    ensures M.StateOf(M.Step(c, s, e), e.key) == Closed(0) && M.Admits(c, M.Step(c, s, e), check)
  {
    M.StepAt(c, s, e, e.key);
    M.StepAt(c, M.Step(c, s, e), check, e.key);
  }

  /** After a failure it is open again, and whatever calls come, on any key, all checks of it are rejected until
      a recovery time after that failure. */
  lemma {:induction false} FailureReopens(c: M.Config, s: M.Store, e: M.Event, rest: seq<M.Event>)
    requires M.StateOf(M.Prepared(c, s, e), e.key).HalfOpen? && e.op == Record(false)
    requires M.Legal(c, M.Step(c, s, e), rest)
    requires forall i | 0 <= i < |rest| :: rest[i].now < e.now + c.settings.recovery
    ensures M.StateOf(M.Step(c, s, e), e.key) == Open(e.now + c.settings.recovery)
    ensures M.Rejects(c, M.Step(c, s, e), rest, e.key)
  {
    M.StepAt(c, s, e, e.key);
    M.OpenRejectsUntilDeadline(c, M.Step(c, s, e), rest, e.key, e.now + c.settings.recovery);
  }

  // ---- the scripts ----------------------------------------------------------------------------

  /** The calls on `key` since one of them last found no hash. */
  function Ran(c: Settings, calls: seq<R.Call>, key: string): seq<Timed>
    decreases |calls|, 0
  {
    if calls == [] then []
    else
      var pre, call := calls[..|calls| - 1], calls[|calls| - 1];
      if call.key != key then Ran(c, pre, key) else Seen(c, pre, key, call.now) + [Timed(R.OpOf(call), call.now)]
  }

  /** Those that a call at `now` finds. */
  function Seen(c: Settings, calls: seq<R.Call>, key: string, now: int): seq<Timed>
    decreases |calls|, 1
  {
    if R.Live(R.After(c, calls), key, now) then Ran(c, calls, key) else []
  }

  lemma CallStores(c: Settings, db: R.Db, call: R.Call, key: string)
    requires R.DbOk(c, db, call.now)
    ensures R.DbOk(c, R.Run1(c, db, call), call.now)
    ensures R.Stored(c, R.Run1(c, db, call), key, call.now) ==
            if call.key != key then R.Stored(c, db, key, call.now)
            else Next(c, if R.Live(db, key, call.now) then R.Stored(c, db, key, call.now) else Closed(0),
                      R.OpOf(call), call.now)
  {
    R.ScriptRefines(c, db, call);
  }

  lemma {:induction false} ScriptsFold(c: Settings, calls: seq<R.Call>, key: string, now: int)
    requires R.Ordered(calls) && (calls != [] ==> calls[|calls| - 1].now <= now)
    ensures R.DbOk(c, R.After(c, calls), now)
    ensures R.Stored(c, R.After(c, calls), key, now) == Fold(c, Ran(c, calls, key))
  {
    R.RunOk(c, calls, now);
    if calls == [] {
    } else {
      var pre, call := calls[..|calls| - 1], calls[|calls| - 1];
      ScriptsFold(c, pre, key, call.now);
      CallStores(c, R.After(c, pre), call, key);
      FoldNext(c, Seen(c, pre, key, call.now), Timed(R.OpOf(call), call.now));
    }
  }

  /** In every ordered run of the scripts, with all expiries, each hash is the circuit its calls tell of. */
  lemma ScriptsTold(c: Settings, calls: seq<R.Call>, key: string, now: int)
    requires R.Ordered(calls) && (calls != [] ==> calls[|calls| - 1].now <= now)
    ensures R.DbOk(c, R.After(c, calls), now)
    ensures Told(c, Ran(c, calls, key), R.Stored(c, R.After(c, calls), key, now))
  {
    ScriptsFold(c, calls, key, now);
    HistoryDecides(c, Ran(c, calls, key));
  }

  /** And each check is answered as they say. */
  lemma ScriptsAnswer(c: Settings, calls: seq<R.Call>, key: string, now: int)
    requires R.Ordered(calls) && (calls != [] ==> calls[|calls| - 1].now <= now)
    ensures R.ActionOf(R.CheckCode(c, R.Fields(R.After(c, calls), key, now), now)) == Allow <==>
            LetsIn(c, Seen(c, calls, key, now), now)
  {
    ScriptsFold(c, calls, key, now);
    R.AnswerRefines(c, R.After(c, calls), key, now);
    HistoryAnswers(c, Seen(c, calls, key, now), now);
  }

  /** A positive reply says how long the circuit stays open: until a recovery time after it tripped. */
  lemma ScriptsSayHowLong(c: Settings, calls: seq<R.Call>, key: string, now: int, i: nat)
    requires R.Ordered(calls) && (calls != [] ==> calls[|calls| - 1].now <= now)
    requires i < |Seen(c, calls, key, now)| && OpenSince(c, Seen(c, calls, key, now), i)
    ensures var code, until := R.CheckCode(c, R.Fields(R.After(c, calls), key, now), now),
                               Seen(c, calls, key, now)[i].now + c.recovery;
            if now < until then code == until - now else code == -1
  {
    ScriptsFold(c, calls, key, now);
    HistoryDecides(c, Seen(c, calls, key, now));
  }

  /** A record, at n, of an outcome while the hash of its key is half-open. */
  ghost predicate Outcome(c: Settings, calls: seq<R.Call>, n: nat, key: string, success: bool) {
    && R.Ordered(calls) && n < |calls| && calls[n] == R.RecordCall(key, success, calls[n].now)
    && R.DbOk(c, R.After(c, calls[..n]), calls[n].now)
    && R.View(c, R.After(c, calls[..n]), key, calls[n].now).HalfOpen?
  }

  lemma OutcomeMoves(c: Settings, calls: seq<R.Call>, n: nat, key: string, success: bool)
    requires Outcome(c, calls, n, key, success)
    ensures var db := R.After(c, calls[..n + 1]);
            && R.DbOk(c, db, calls[n].now) && key in db
            && R.Stored(c, db, key, calls[n].now) == if success then Closed(0) else Open(calls[n].now + c.recovery)
  {
    assert calls[..n + 1][..n] == calls[..n];
    R.ScriptRefines(c, R.After(c, calls[..n]), calls[n]);
  }

  /** The same for the scripts and all their callers: after a success the next check is let through. */
  lemma ScriptsClose(c: Settings, calls: seq<R.Call>, n: nat, key: string, now: int)
    requires Outcome(c, calls, n, key, true)
    ensures R.ActionOf(R.CheckCode(c, R.Fields(R.After(c, calls[..n + 1]), key, now), now)) == Allow
  {
    OutcomeMoves(c, calls, n, key, true);
  }

  /** After a failure every check before the end of the recovery time is rejected. */
  lemma ScriptsReopen(c: Settings, calls: seq<R.Call>, n: nat, m: nat, key: string)
    requires Outcome(c, calls, n, key, false) && n < m < |calls| && calls[m].now < calls[n].now + c.recovery
    ensures R.ActionOf(R.CheckCode(c, R.Fields(R.After(c, calls[..m]), key, calls[m].now), calls[m].now)) == Reject
  {
    OutcomeMoves(c, calls, n, key, false);
    R.OpenRejectsUntilDeadline(c, calls, n + 1, m, key, calls[n].now + c.recovery);
  }
}
