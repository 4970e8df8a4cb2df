/** The in-memory breaker and the Redis scripts answer alike on the same calls, as long as neither
    forgets a circuit that matters. */
module BreakerTwins {
  import opened Options
  import opened Circuit
  import M = MemoryBreaker
  import R = RedisBreaker

  function CallOf(e: M.Event): R.Call {
    match e.op
    case Check => R.CheckCall(e.key, e.now)
    case Record(success) => R.RecordCall(e.key, success, e.now)
  }

  function CallsOf(run: seq<M.Event>): (calls: seq<R.Call>)
    ensures |calls| == |run|
  {
    if run == [] then [] else CallsOf(run[..|run| - 1]) + [CallOf(run[|run| - 1])]
  }

  /** Housekeeping only ever forgets circuits that were closed with no failures. */
  ghost predicate Remembers(c: M.Config, s: M.Store, run: seq<M.Event>) {
    run != [] ==>
      var pre, e := run[..|run| - 1], run[|run| - 1];
      && Remembers(c, s, pre)
      && forall k | k in M.After(c, s, pre).circuits ::
           k in M.Prepared(c, M.After(c, s, pre), e).circuits || M.StateOf(M.After(c, s, pre), k) == Closed(0)
  }

  lemma {:induction false} MemoryMatchesReference(c: M.Config, s: M.Store, run: seq<M.Event>, key: string)
    requires s.circuits == map[] && Remembers(c, s, run)
    ensures M.StateOf(M.After(c, s, run), key) == R.Reference(c.settings, CallsOf(run), key)
  {
    if run == [] {
    } else {
      var pre, e := run[..|run| - 1], run[|run| - 1];
      MemoryMatchesReference(c, s, pre, key);
      M.StepAt(c, M.After(c, s, pre), e, key);
      assert CallsOf(run)[..|run| - 1] == CallsOf(pre);
    }
  }

  // ---- exactly when the store's forgetting shows ----------------------------------------------

  /** A check of `key` at `now`, whose housekeeping evicts `victim`. */
  function CheckAt(key: string, now: int, victim: Option<string>): M.Event {
    M.Event(Check, key, now, victim)
  }

  /** Calls on one key at one instant. Only the first of them can find the store full. */
  function EventsAt(key: string, ops: seq<Op>, now: int, victim: Option<string>): (run: seq<M.Event>)
    ensures |run| == |ops|
  {
    if ops == [] then []
    else
      EventsAt(key, ops[..|ops| - 1], now, victim)
      + [M.Event(ops[|ops| - 1], key, now, if |ops| == 1 then victim else None)]
  }

  /** The check that follows those calls. */
  function CheckAfter(key: string, ops: seq<Op>, now: int, victim: Option<string>): M.Event {
    CheckAt(key, now, if ops == [] then victim else None)
  }

  /** The circuit that a check of `key` finds. */
  function Found(c: M.Config, s: M.Store, e: M.Event): State { M.StateOf(M.Prepared(c, s, e), e.key) }

  /** After a call the entry of its key is safe from housekeeping for the rest of the instant. */
  lemma FoundNext(c: M.Config, s: M.Store, e: M.Event)
    ensures Found(c, M.Step(c, s, e), CheckAt(e.key, e.now, None))
         == Next(c.settings, Found(c, s, CheckAt(e.key, e.now, e.victim)), e.op, e.now)
    ensures M.VictimOk(c, M.Cleaned(c, M.Step(c, s, e), e.now), e.key, e.now, None)
  {
    var next := M.Step(c, s, e);
    assert e.now < next.nextCleanup && e.key in next.circuits;
  }

  lemma MemoryNext(c: M.Config, s: M.Store, run: seq<M.Event>, e: M.Event)
    requires M.Legal(c, s, run) && M.VictimOk(c, M.Cleaned(c, M.After(c, s, run), e.now), e.key, e.now, e.victim)
    ensures M.After(c, s, run + [e]) == M.Step(c, M.After(c, s, run), e)
    ensures M.Legal(c, s, run + [e]) && CallsOf(run + [e]) == CallsOf(run) + [CallOf(e)]
  {
    assert (run + [e])[..|run|] == run;
  }

  /** The run is legal, makes these calls, and a check of `key` after it finds this circuit. */
  ghost predicate RanTo(
    c: M.Config, s: M.Store, run: seq<M.Event>, calls: seq<R.Call>, e: M.Event, state: State)
  {
    && M.Legal(c, s, run) && CallsOf(run) == calls
    && M.VictimOk(c, M.Cleaned(c, M.After(c, s, run), e.now), e.key, e.now, e.victim)
    && Found(c, M.After(c, s, run), e) == state
  }

  lemma RanToNext(
    c: M.Config, s: M.Store, run: seq<M.Event>, calls: seq<R.Call>, op: Op, e: M.Event, state: State)
    requires RanTo(c, s, run, calls, e, state) && e.op.Check?
    ensures RanTo(c, s, run + [e.(op := op)], calls + [R.CallFor(e.key, op, e.now)], e.(victim := None),
                  Next(c.settings, state, op, e.now))
  {
    MemoryNext(c, s, run, e.(op := op));
    FoundNext(c, M.After(c, s, run), e.(op := op));
  }

  lemma EventsAtNext(run: seq<M.Event>, calls: seq<R.Call>, key: string, ops: seq<Op>, now: int, victim: Option<string>)
    requires ops != []
    ensures var pre, op := ops[..|ops| - 1], ops[|ops| - 1];
            && run + EventsAt(key, ops, now, victim)
               == run + EventsAt(key, pre, now, victim) + [CheckAfter(key, pre, now, victim).(op := op)]
            && calls + R.CallsAt(key, ops, now) == calls + R.CallsAt(key, pre, now) + [R.CallFor(key, op, now)]
  {
  }

  lemma {:induction false} EventsAtRun(
    c: M.Config, s: M.Store, run: seq<M.Event>, calls: seq<R.Call>, key: string, ops: seq<Op>, now: int,
    victim: Option<string>, state: State)
    requires RanTo(c, s, run, calls, CheckAt(key, now, victim), state)
    ensures RanTo(c, s, run + EventsAt(key, ops, now, victim), calls + R.CallsAt(key, ops, now),
                  CheckAfter(key, ops, now, victim), Ran(c.settings, state, ops, now))
  {
    if ops == [] {
      assert run + [] == run && calls + [] == calls;
    } else {
      var pre, op := ops[..|ops| - 1], ops[|ops| - 1];
      EventsAtRun(c, s, run, calls, key, pre, now, victim, state);
      RanToNext(c, s, run + EventsAt(key, pre, now, victim), calls + R.CallsAt(key, pre, now), op,
                CheckAfter(key, pre, now, victim), Ran(c.settings, state, pre, now));
      EventsAtNext(run, calls, key, ops, now, victim);
    }
  }

  /** The store answers a check as the reference does. */
  predicate AnswersAt(c: M.Config, s: M.Store, run: seq<M.Event>, e: M.Event) {
    M.Admits(c, M.After(c, s, run), e) <==> Allows(c.settings, R.Reference(c.settings, CallsOf(run), e.key), e.now)
  }

  /** Whatever calls on `key` come at `now`, checks after them are answered as the reference answers them. */
  ghost predicate AnswersLike(
    c: M.Config, s: M.Store, run: seq<M.Event>, key: string, now: int, victim: Option<string>)
  {
    forall ops: seq<Op> ::
      AnswersAt(c, s, run + EventsAt(key, ops, now, victim), CheckAfter(key, ops, now, victim))
  }

  /** Housekeeping at `now` drops the circuit of `key` although it was not closed with no failures. */
  predicate Drops(c: M.Config, s: M.Store, run: seq<M.Event>, key: string, now: int, victim: Option<string>) {
    && key in M.After(c, s, run).circuits
    && key !in M.Prepared(c, M.After(c, s, run), CheckAt(key, now, victim)).circuits
    && R.Reference(c.settings, CallsOf(run), key) != Closed(0)
  }

  lemma AnswersByRan(
    c: M.Config, s: M.Store, run: seq<M.Event>, key: string, ops: seq<Op>, now: int, victim: Option<string>)
    requires M.Legal(c, s, run) && M.VictimOk(c, M.Cleaned(c, M.After(c, s, run), now), key, now, victim)
    ensures AnswersAt(c, s, run + EventsAt(key, ops, now, victim), CheckAfter(key, ops, now, victim)) <==>
            (Allows(c.settings, Ran(c.settings, Found(c, M.After(c, s, run), CheckAt(key, now, victim)), ops, now), now)
             <==> Allows(c.settings, Ran(c.settings, R.Reference(c.settings, CallsOf(run), key), ops, now), now))
  {
    var found := Found(c, M.After(c, s, run), CheckAt(key, now, victim));
    EventsAtRun(c, s, run, CallsOf(run), key, ops, now, victim, found);
    R.ReferenceRan(c.settings, CallsOf(run), key, ops, now);
  }

  /** After every run that dropped only reset circuits, the store goes on answering like a breaker that
      never forgets exactly when housekeeping does not drop a circuit that matters now. */
  lemma AnswersLikeIff(
    c: M.Config, s: M.Store, run: seq<M.Event>, key: string, now: int, victim: Option<string>)
    requires s.circuits == map[] && M.Legal(c, s, run) && Remembers(c, s, run)
    requires M.VictimOk(c, M.Cleaned(c, M.After(c, s, run), now), key, now, victim)
    ensures AnswersLike(c, s, run, key, now, victim) <==> !Drops(c, s, run, key, now, victim)
  {
    MemoryMatchesReference(c, s, run, key);
    M.CountsStreak(c, s, run, key);
    var r := R.Reference(c.settings, CallsOf(run), key);
    if Drops(c, s, run, key, now, victim) {
      ExperimentTells(c.settings, r, now);
      AnswersByRan(c, s, run, key, Experiment(c.settings, r), now, victim);
    } else {
      M.StepAt(c, M.After(c, s, run), CheckAt(key, now, victim), key);
      forall ops: seq<Op>
        ensures AnswersAt(c, s, run + EventsAt(key, ops, now, victim), CheckAfter(key, ops, now, victim))
      {
        AnswersByRan(c, s, run, key, ops, now, victim);
      }
    }
  }

  // ---- a failure that the store forgets -------------------------------------------------------

  /** A store that holds one circuit, last seen at time 0. */
  function Holding(key: string, state: State, nextCleanup: int): M.Store {
    M.Store(map[key := M.Entry(state, 0)], nextCleanup)
  }

  /** The circuit after one failure at time 0. */
  function Failed(c: M.Config): State { Next(c.settings, Closed(0), Record(false), 0) }

  /** A circuit with one failure may go from here on. */
  function Later(c: M.Config): int { Max(c.idleTtl + 1, c.settings.recovery) }

  function FirstCleanup(c: M.Config): int { if Later(c) < M.CLEANUP_INTERVAL then Later(c) else M.CLEANUP_INTERVAL }

  /** A call that housekeeping drops nothing for. */
  ghost predicate Keeps(c: M.Config, s: M.Store, e: M.Event, t: M.Store) {
    && M.VictimOk(c, M.Cleaned(c, s, e.now), e.key, e.now, e.victim) && t == M.Step(c, s, e)
    && forall k | k in s.circuits :: k in M.Prepared(c, s, e).circuits
  }

  lemma KeepsCheck(c: M.Config, key: string, nextCleanup: int)
    requires nextCleanup > 0
    ensures Keeps(c, M.Store(map[], nextCleanup), CheckAt(key, 0, None), Holding(key, Closed(0), nextCleanup))
  {
  }

  lemma KeepsFailure(c: M.Config, key: string, nextCleanup: int)
    requires nextCleanup > 0
    ensures Keeps(c, Holding(key, Closed(0), nextCleanup), M.Event(Record(false), key, 0, None),
                  Holding(key, Failed(c), nextCleanup))
  {
  }

  lemma KeepsNext(c: M.Config, s: M.Store, run: seq<M.Event>, e: M.Event, t: M.Store)
    requires M.Legal(c, s, run) && Remembers(c, s, run) && Keeps(c, M.After(c, s, run), e, t)
    ensures M.Legal(c, s, run + [e]) && Remembers(c, s, run + [e]) && M.After(c, s, run + [e]) == t
  {
    assert (run + [e])[..|run|] == run;
  }

  lemma CleanupForgets(c: M.Config, key: string)
    ensures key !in M.Cleaned(c, Holding(key, Failed(c), FirstCleanup(c)), Later(c)).circuits
    ensures M.VictimOk(c, M.Cleaned(c, Holding(key, Failed(c), FirstCleanup(c)), Later(c)), key, Later(c), None)
  {
    assert M.Evictable(c, M.Entry(Failed(c), 0), Later(c));
  }

  /** Under every configuration the store can drop a circuit that matters: an admitted request that fails is
      forgotten once it has been idle for the time to live and the circuit is not open. */
  lemma FailureForgotten(c: M.Config, key: string) returns (created: int, run: seq<M.Event>)
    ensures created <= 0 && run == [CheckAt(key, 0, None), M.Event(Record(false), key, 0, None)]
    ensures var s := M.Store(map[], created + M.CLEANUP_INTERVAL);
            && M.Legal(c, s, run) && Remembers(c, s, run) && M.Admits(c, s, run[0])
            && M.VictimOk(c, M.Cleaned(c, M.After(c, s, run), Later(c)), key, Later(c), None)
            && Drops(c, s, run, key, Later(c), None) && !AnswersLike(c, s, run, key, Later(c), None)
  {
    created := FirstCleanup(c) - M.CLEANUP_INTERVAL;
    var s := M.Store(map[], FirstCleanup(c));
    var check, failure := CheckAt(key, 0, None), M.Event(Record(false), key, 0, None);
    KeepsCheck(c, key, FirstCleanup(c));
    KeepsNext(c, s, [], check, Holding(key, Closed(0), FirstCleanup(c)));
    KeepsFailure(c, key, FirstCleanup(c));
    KeepsNext(c, s, [] + [check], failure, Holding(key, Failed(c), FirstCleanup(c)));
    run := [] + [check] + [failure];
    CleanupForgets(c, key);
    MemoryMatchesReference(c, s, run, key);
    AnswersLikeIff(c, s, run, key, Later(c), None);
  }

  /** The twins give the same answer to the next check, whatever checks and records came before. */
  lemma TwinsAgree(c: M.Config, s: M.Store, pre: seq<M.Event>, e: M.Event)
    requires s.circuits == map[] && Remembers(c, s, pre + [e]) && e.op.Check?
    requires R.Ordered(CallsOf(pre + [e])) && R.Remembered(c.settings, CallsOf(pre + [e]))
    ensures var fields := R.Fields(R.After(c.settings, CallsOf(pre)), e.key, e.now);
            M.Admits(c, M.After(c, s, pre), e) <==> R.ActionOf(R.CheckCode(c.settings, fields, e.now)) == Allow
  {
    var run := pre + [e];
    assert run[..|run| - 1] == pre;
    assert CallsOf(run) == CallsOf(pre) + [R.CheckCall(e.key, e.now)];
    MemoryMatchesReference(c, s, pre, e.key);
    M.StepAt(c, M.After(c, s, pre), e, e.key);
    R.AnswersMatchReference(c.settings, CallsOf(pre), e.key, e.now);
  }
}
