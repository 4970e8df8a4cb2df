/** The automaton of one circuit (src/middleware/circuit_breaker.rs). Both the in-memory store and
    the Redis scripts drive it, each in its own representation. */
module Circuit {
  import opened Options

  datatype Action = Allow | Reject

  datatype State = Closed(failures: nat) | Open(until: int) | HalfOpen(inFlight: nat)

  datatype Settings = Settings(threshold: nat, recovery: nat, probes: nat)

  datatype Op = Check | Record(success: bool)

  /** The streak of failures that trips a closed circuit: a threshold of zero trips on the first. */
  function TripsAt(c: Settings): nat { Max(1, c.threshold) }

  /** How many requests one half-open episode lets through. */
  function ProbeLimit(c: Settings): nat { Max(1, c.probes) }

  predicate Allows(c: Settings, s: State, now: int) {
    match s
    case Closed(_) => true
    case Open(until) => now >= until
    case HalfOpen(inFlight) => inFlight < c.probes
  }

  function AfterCheck(c: Settings, s: State, now: int): State {
    match s
    case Closed(_) => s
    case Open(until) => if now >= until then HalfOpen(1) else s
    case HalfOpen(inFlight) => if inFlight < c.probes then HalfOpen(inFlight + 1) else s
  }

  function AfterRecord(c: Settings, s: State, success: bool, now: int): State {
    match s
    case Closed(failures) =>
      if success then Closed(0)
      else if failures + 1 >= c.threshold then Open(now + c.recovery)
      else Closed(failures + 1)
    case HalfOpen(_) => if success then Closed(0) else Open(now + c.recovery)
    case Open(_) => s
  }

  function Next(c: Settings, s: State, op: Op, now: int): State {
    match op
    case Check => AfterCheck(c, s, now)
    case Record(success) => AfterRecord(c, s, success, now)
  }

  /** What every reachable circuit satisfies; it also bounds the two `u32` counters. */
  predicate Bounded(c: Settings, s: State) {
    match s
    case Closed(failures) => failures < TripsAt(c)
    case Open(_) => true
    case HalfOpen(inFlight) => 1 <= inFlight <= ProbeLimit(c)
  }

  /** The circuit after some calls at one instant, latest last. */
  function Ran(c: Settings, s: State, ops: seq<Op>, now: int): State {
    if ops == [] then s else Next(c, Ran(c, s, ops[..|ops| - 1], now), ops[|ops| - 1], now)
  }

  /** No experiment at this instant tells the two circuits apart. */
  ghost predicate Indistinguishable(c: Settings, s: State, t: State, now: int) {
    forall ops: seq<Op> :: Allows(c, Ran(c, s, ops, now), now) == Allows(c, Ran(c, t, ops, now), now)
  }

  lemma {:induction false} FailuresRan(c: Settings, f: nat, n: nat, now: int)
    requires f + n < TripsAt(c)
    ensures Ran(c, Closed(f), Copies(Record(false), n), now) == Closed(f + n)
  {
    if n == 0 {
    } else {
      FailuresRan(c, f, n - 1, now);
      assert Copies(Record(false), n)[..n - 1] == Copies(Record(false), n - 1);
    }
  }

  lemma {:induction false} ChecksRan(c: Settings, s: State, n: nat, now: int)
    requires n >= 1 && (s.HalfOpen? || (s.Open? && now >= s.until))
    ensures var r := Ran(c, s, Copies(Check, n), now);
            r.HalfOpen? && r.inFlight >= (if n <= c.probes then n else c.probes)
  {
    assert Copies(Check, n)[..n - 1] == Copies(Check, n - 1);
    if n > 1 {
      ChecksRan(c, s, n - 1, now);
    }
  }

  lemma {:induction false} ChecksKeepClosed(c: Settings, f: nat, n: nat, now: int)
    ensures Ran(c, Closed(f), Copies(Check, n), now) == Closed(f)
  {
    if n == 0 {
    } else {
      ChecksKeepClosed(c, f, n - 1, now);
      assert Copies(Check, n)[..n - 1] == Copies(Check, n - 1);
    }
  }

  /** Once a circuit is not closed, one check more than there are probes is answered `Reject`. */
  lemma {:induction false} ChecksExhaust(c: Settings, s: State, n: nat, now: int)
    requires !s.Closed? && n >= 1
    ensures !Ran(c, s, Copies(Check, n), now).Closed?
    ensures n > c.probes ==> !Allows(c, Ran(c, s, Copies(Check, n), now), now)
  {
    if s.Open? && now < s.until {
      ChecksKeepOpen(c, s, n, now);
    } else {
      ChecksRan(c, s, n, now);
    }
  }

  lemma {:induction false} ChecksKeepOpen(c: Settings, s: State, n: nat, now: int)
    requires s.Open? && now < s.until
    ensures Ran(c, s, Copies(Check, n), now) == s
  {
    if n == 0 {
    } else {
      ChecksKeepOpen(c, s, n - 1, now);
      assert Copies(Check, n)[..n - 1] == Copies(Check, n - 1);
    }
  }

  lemma {:induction false} RanAdds(c: Settings, s: State, a: seq<Op>, b: seq<Op>, now: int)
    ensures Ran(c, s, a + b, now) == Ran(c, Ran(c, s, a, now), b, now)
  {
    if b == [] {
      assert a + b == a;
    } else {
      RanAdds(c, s, a, b[..|b| - 1], now);
      assert (a + b)[..|a + b| - 1] == a + b[..|b| - 1];
    }
  }

  /** The failures that trip the older streak of `s` but not a fresh one. */
  function Fails(c: Settings, s: State): nat {
    if s.Closed? && s.failures < TripsAt(c) then TripsAt(c) - s.failures else 0
  }

  /** An experiment that tells `s` from a fresh circuit: those failures, then enough checks to use up the
      probes. */
  function Experiment(c: Settings, s: State): seq<Op> {
    Copies(Record(false), Fails(c, s)) + Copies(Check, c.probes + 1)
  }

  lemma FailuresTell(c: Settings, s: State, now: int)
    requires Bounded(c, s) && s != Closed(0)
    ensures !Ran(c, s, Copies(Record(false), Fails(c, s)), now).Closed?
    ensures Ran(c, Closed(0), Copies(Record(false), Fails(c, s)), now).Closed?
  {
    if s.Closed? {
      var n := Fails(c, s);
      assert Copies(Record(false), n)[..n - 1] == Copies(Record(false), n - 1);
      FailuresRan(c, s.failures, n - 1, now);
      FailuresRan(c, 0, n, now);
    }
  }

  lemma ExperimentTells(c: Settings, s: State, now: int)
    requires Bounded(c, s) && s != Closed(0)
    ensures !Allows(c, Ran(c, s, Experiment(c, s), now), now)
    ensures Allows(c, Ran(c, Closed(0), Experiment(c, s), now), now)
  {
    var fails, checks := Copies(Record(false), Fails(c, s)), Copies(Check, c.probes + 1);
    FailuresTell(c, s, now);
    RanAdds(c, s, fails, checks, now);
    RanAdds(c, Closed(0), fails, checks, now);
    ChecksExhaust(c, Ran(c, s, fails, now), c.probes + 1, now);
    ChecksKeepClosed(c, Ran(c, Closed(0), fails, now).failures, c.probes + 1, now);
  }

  /** Forgetting a circuit, which both stores do to idle ones, goes unnoticed exactly when the circuit
      was closed with no failures. */
  lemma ForgettingIsInvisibleIff(c: Settings, s: State, now: int)
    requires Bounded(c, s)
    ensures Indistinguishable(c, s, Closed(0), now) <==> s == Closed(0)
  {
    if s != Closed(0) {
      ExperimentTells(c, s, now);
    }
  }
}

/** The in-memory store: a map of circuits with idle cleanup and capacity eviction. */
module MemoryBreaker {
  import opened Options
  import opened Circuit

  const CLEANUP_INTERVAL := 30_000

  datatype Entry = Entry(state: State, lastSeen: int)

  datatype Config = Config(settings: Settings, maxKeys: nat, idleTtl: nat)

  datatype Store = Store(circuits: map<string, Entry>, nextCleanup: int)

  /** One locked call. `victim` is the entry that `evict_if_needed` removed, if any: the hash map
      leaves open which of several equally old entries that is. */
  datatype Event = Event(op: Op, key: string, now: int, victim: Option<string>)

  function Idle(e: Entry, now: int): (d: nat)
    ensures now >= e.lastSeen ==> d == now - e.lastSeen
  {
    Max(0, now - e.lastSeen)
  }

  predicate Evictable(c: Config, e: Entry, now: int) {
    Idle(e, now) > c.idleTtl && (e.state.Open? ==> now >= e.state.until)
  }

  function Cleaned(c: Config, s: Store, now: int): Store {
    if now < s.nextCleanup then s
    else Store(map k | k in s.circuits && !Evictable(c, s.circuits[k], now) :: s.circuits[k],
               now + CLEANUP_INTERVAL)
  }

  predicate Oldest(c: Config, s: Store, now: int, v: string) {
    && v in s.circuits && Evictable(c, s.circuits[v], now)
    && forall k | k in s.circuits && Evictable(c, s.circuits[k], now) ::
         s.circuits[v].lastSeen <= s.circuits[k].lastSeen
  }

  predicate VictimOk(c: Config, s: Store, key: string, now: int, victim: Option<string>) {
    if key in s.circuits || |s.circuits| < c.maxKeys then victim.None?
    else match victim
      case None => forall k | k in s.circuits :: !Evictable(c, s.circuits[k], now)
      case Some(v) => Oldest(c, s, now, v)
  }

  function Evicted(s: Store, victim: Option<string>): Store {
    match victim
    case None => s
    case Some(v) => s.(circuits := s.circuits - {v})
  }

  /** The store after the housekeeping with which every call starts. */
  function Prepared(c: Config, s: Store, e: Event): Store {
    Evicted(Cleaned(c, s, e.now), e.victim)
  }

  /** A key that is not in the map is a closed circuit with no failures. */
  function StateOf(s: Store, key: string): State {
    if key in s.circuits then s.circuits[key].state else Closed(0)
  }

  function Step(c: Config, s: Store, e: Event): Store {
    var p := Prepared(c, s, e);
    p.(circuits := p.circuits[e.key := Entry(Next(c.settings, StateOf(p, e.key), e.op, e.now), e.now)])
  }

  /** Whether the call answers `Allow`. */
  predicate Admits(c: Config, s: Store, e: Event) {
    Allows(c.settings, StateOf(Prepared(c, s, e), e.key), e.now)
  }

  class SharedState {
    var circuits: map<string, Entry>
    var nextCleanup: int
    const threshold: nat
    const recovery: nat
    const halfOpenProbes: nat
    const maxKeys: nat
    const idleTtl: nat

    ghost function Cfg(): Config {
      Config(Settings(threshold, recovery, halfOpenProbes), maxKeys, idleTtl)
    }

    ghost function Value(): Store
      reads this
    {
      Store(circuits, nextCleanup)
    }

    constructor (threshold: nat, recovery: nat, halfOpenProbes: nat, maxKeys: nat, idleTtl: nat, now: int)
      ensures Value() == Store(map[], now + CLEANUP_INTERVAL)
      ensures Cfg() == Config(Settings(threshold, recovery, halfOpenProbes), Max(1, maxKeys), idleTtl)
    {
      this.threshold, this.recovery, this.halfOpenProbes := threshold, recovery, halfOpenProbes;
      this.maxKeys, this.idleTtl := Max(1, maxKeys), idleTtl;
      circuits, nextCleanup := map[], now + CLEANUP_INTERVAL;
    }

    predicate CanEvictEntry(e: Entry, now: int)
      ensures CanEvictEntry(e, now) == Evictable(Cfg(), e, now)
    {
      if Idle(e, now) <= idleTtl then false
      else match e.state
        case Open(until) => now >= until
        case _ => true
    }

    method MaybeCleanup(now: int)
      modifies this
      ensures Value() == Cleaned(Cfg(), old(Value()), now)
    {
      if now < nextCleanup {
        return;
      }
      circuits := map k | k in circuits && (Idle(circuits[k], now) <= idleTtl
                                            || (circuits[k].state.Open? && now < circuits[k].state.until))
        :: circuits[k];
      nextCleanup := now + CLEANUP_INTERVAL;
    }

    /** The scan for the longest idle entry that may go. */
    method FindOldest(now: int) returns (victim: Option<string>)
      ensures victim.None? ==> forall k | k in circuits :: !Evictable(Cfg(), circuits[k], now)
      ensures victim.Some? ==> Oldest(Cfg(), Value(), now, victim.value)
    {
      victim := None;
      var rest := circuits.Keys;
      while rest != {}
        invariant rest <= circuits.Keys
        invariant victim.None? ==> forall k | k in circuits && k !in rest :: !Evictable(Cfg(), circuits[k], now)
        invariant victim.Some? ==> victim.value in circuits && Evictable(Cfg(), circuits[victim.value], now)
        invariant victim.Some? ==> forall k | k in circuits && k !in rest && Evictable(Cfg(), circuits[k], now) ::
                    circuits[victim.value].lastSeen <= circuits[k].lastSeen
        decreases rest
      {
        var k :| k in rest;
        rest := rest - {k};
        if CanEvictEntry(circuits[k], now)
           && (victim.None? || circuits[k].lastSeen < circuits[victim.value].lastSeen) {
          victim := Some(k);
        }
      }
    }

    method EvictIfNeeded(key: string, now: int) returns (ghost victim: Option<string>)
      modifies this`circuits
      ensures VictimOk(Cfg(), old(Value()), key, now, victim)
      ensures Value() == Evicted(old(Value()), victim)
    {
      if key in circuits || |circuits| < maxKeys {
        return None;
      }
      var oldest := FindOldest(now);
      victim := oldest;
      match oldest
      case Some(k) => circuits := circuits - {k};
      case None =>
    }

    method Check(key: string, now: int) returns (action: Action, ghost e: Event)
      modifies this
      ensures e == Event(Op.Check, key, now, e.victim)
      ensures VictimOk(Cfg(), Cleaned(Cfg(), old(Value()), now), key, now, e.victim)
      ensures Value() == Step(Cfg(), old(Value()), e)
      ensures action == Allow <==> Admits(Cfg(), old(Value()), e)
    {
      MaybeCleanup(now);
      ghost var victim := EvictIfNeeded(key, now);
      e := Event(Op.Check, key, now, victim);
      var state := if key in circuits then circuits[key].state else Closed(0);
      match state {
        case Closed(_) => action := Allow;
        case Open(until) =>
          if now >= until {
            state := HalfOpen(1);
            action := Allow;
          } else {
            action := Reject;
          }
        case HalfOpen(inFlight) =>
          if inFlight < halfOpenProbes {
            state := HalfOpen(inFlight + 1);
            action := Allow;
          } else {
            action := Reject;
          }
      }
      circuits := circuits[key := Entry(state, now)];
    }

    method Record(key: string, success: bool, now: int) returns (ghost e: Event)
      modifies this
      ensures e == Event(Op.Record(success), key, now, e.victim)
      ensures VictimOk(Cfg(), Cleaned(Cfg(), old(Value()), now), key, now, e.victim)
      ensures Value() == Step(Cfg(), old(Value()), e)
    {
      MaybeCleanup(now);
      ghost var victim := EvictIfNeeded(key, now);
      e := Event(Op.Record(success), key, now, victim);
      var state := if key in circuits then circuits[key].state else Closed(0);
      match state {
        case Closed(failures) =>
          if success {
            state := Closed(0);
          } else if failures + 1 >= threshold {
            state := Open(now + recovery);
          } else {
            state := Closed(failures + 1);
          }
        case HalfOpen(_) =>
          state := if success then Closed(0) else Open(now + recovery);
        case Open(_) =>
      }
      circuits := circuits[key := Entry(state, now)];
    }
  }

  // ---- whole runs -----------------------------------------------------------------------------

  function After(c: Config, s: Store, run: seq<Event>): Store {
    if run == [] then s
    else Step(c, After(c, s, run[..|run| - 1]), run[|run| - 1])
  }

  predicate Legal(c: Config, s: Store, run: seq<Event>) {
    run != [] ==>
      var pre, e := run[..|run| - 1], run[|run| - 1];
      Legal(c, s, pre) && VictimOk(c, Cleaned(c, After(c, s, pre), e.now), e.key, e.now, e.victim)
  }

  /** A streak of `k` failures on `key` after event `e`: a recorded success ends it, a recorded failure
      extends it, and an entry that housekeeping forgot starts again. */
  function Extend(k: nat, kept: bool, e: Event, key: string): nat {
    var before := if kept then k else 0;
    if e.key != key || e.op.Check? then before
    else if e.op.success then 0
    else before + 1
  }

  /** The failures recorded in a row on `key` since its circuit was created, forgotten or last reset,
      counted over the calls; only whether housekeeping forgot it is read off the store. */
  function Streak(c: Config, s: Store, run: seq<Event>, key: string): nat {
    if run == [] then 0
    else
      var pre, e := run[..|run| - 1], run[|run| - 1];
      Extend(Streak(c, s, pre, key), key in Prepared(c, After(c, s, pre), e).circuits, e, key)
  }

  /** One call changes the circuit of its own key as the automaton says and no other circuit,
      except that housekeeping may forget an entry. */
  lemma StepAt(c: Config, s: Store, e: Event, key: string)
    ensures var p, s' := Prepared(c, s, e), Step(c, s, e);
            && (key == e.key ==>
                  key in s'.circuits && StateOf(s', key) == Next(c.settings, StateOf(p, key), e.op, e.now))
            && (key != e.key ==> (key in s'.circuits <==> key in p.circuits) && StateOf(s', key) == StateOf(p, key))
            && (key in p.circuits ==> key in s.circuits && p.circuits[key] == s.circuits[key])
  {
  }

  ghost predicate Counts(c: Config, s: Store, key: string, k: nat) {
    && Bounded(c.settings, StateOf(s, key))
    && (key in s.circuits && StateOf(s, key).Closed? ==> StateOf(s, key).failures == k)
  }

  lemma StepCounts(c: Config, s: Store, e: Event, key: string, k: nat)
    requires Counts(c, s, key, k)
    ensures Counts(c, Step(c, s, e), key, Extend(k, key in Prepared(c, s, e).circuits, e, key))
  {
    StepAt(c, s, e, key);
  }

  lemma {:induction false} CountsStreak(c: Config, s: Store, run: seq<Event>, key: string)
    requires s.circuits == map[]
    ensures Counts(c, After(c, s, run), key, Streak(c, s, run, key))
  {
    if run == [] {
    } else {
      var pre, e := run[..|run| - 1], run[|run| - 1];
      CountsStreak(c, s, pre, key);
      StepCounts(c, After(c, s, pre), e, key, Streak(c, s, pre, key));
    }
  }

  lemma OpensOnStreak(c: Config, s: Store, e: Event, key: string, k: nat)
    requires Counts(c, s, key, k) && StateOf(Prepared(c, s, e), key).Closed?
    ensures var after, k' := StateOf(Step(c, s, e), key), Extend(k, key in Prepared(c, s, e).circuits, e, key);
            && (after.Open? <==> e.key == key && e.op == Op.Record(false) && k' == TripsAt(c.settings))
            && (after.Open? ==> after.until == e.now + c.settings.recovery)
  {
    StepAt(c, s, e, key);
  }

  /** A closed circuit opens exactly on the failure that completes a streak of max(1, threshold)
      since its creation or last reset; it then stays open until the recovery time has passed. */
  lemma OpensExactlyAtThreshold(c: Config, s: Store, pre: seq<Event>, e: Event, key: string)
    requires s.circuits == map[]
    requires StateOf(Prepared(c, After(c, s, pre), e), key).Closed?
    ensures var after := StateOf(After(c, s, pre + [e]), key);
            && (after.Open? <==> e.key == key && e.op == Op.Record(false)
                                 && Streak(c, s, pre + [e], key) == TripsAt(c.settings))
            && (after.Open? ==> after.until == e.now + c.settings.recovery)
  {
    var run := pre + [e];
    assert run[..|run| - 1] == pre && run[|run| - 1] == e;
    CountsStreak(c, s, pre, key);
    OpensOnStreak(c, After(c, s, pre), e, key, Streak(c, s, pre, key));
  }

  /** Every check of `key` in the run is answered `Reject`. */
  predicate Rejects(c: Config, s: Store, run: seq<Event>, key: string) {
    run != [] ==>
      var pre, e := run[..|run| - 1], run[|run| - 1];
      Rejects(c, s, pre, key) && (e.key == key && e.op.Check? ==> !Admits(c, After(c, s, pre), e))
  }

  lemma OpenHolds(c: Config, s: Store, e: Event, key: string, until: int)
    requires VictimOk(c, Cleaned(c, s, e.now), e.key, e.now, e.victim) && e.now < until
    requires key in s.circuits && s.circuits[key].state == Open(until)
    ensures key in Step(c, s, e).circuits && Step(c, s, e).circuits[key].state == Open(until)
    ensures e.key == key ==> !Admits(c, s, e)
  {
  }

  /** Whatever checks, records, cleanups and evictions happen, on this key or on others, an open
      circuit keeps its deadline until that deadline passes, and rejects every check before it. */
  lemma {:induction false} OpenRejectsUntilDeadline(c: Config, s: Store, run: seq<Event>, key: string, until: int)
    requires Legal(c, s, run)
    requires key in s.circuits && s.circuits[key].state == Open(until)
    requires forall i | 0 <= i < |run| :: run[i].now < until
    ensures key in After(c, s, run).circuits && After(c, s, run).circuits[key].state == Open(until)
    ensures Rejects(c, s, run, key)
  {
    if run == [] {
    } else {
      var pre, e := run[..|run| - 1], run[|run| - 1];
      OpenRejectsUntilDeadline(c, s, pre, key, until);
      OpenHolds(c, After(c, s, pre), e, key, until);
    }
  }

  // ---- housekeeping over whole runs -----------------------------------------------------------

  /** Housekeeping may drop the entry. */
  predicate MayGo(c: Config, e: Entry, now: int) {
    now > e.lastSeen + c.idleTtl && (e.state.Open? ==> now >= e.state.until)
  }

  /** What a call drops may go, what it keeps is as it was, at cleanup time nothing that may go is kept, and what
      it drops for lack of room has been idle longest of all that may go. */
  lemma Housekeeping(c: Config, s: Store, e: Event)
    requires VictimOk(c, Cleaned(c, s, e.now), e.key, e.now, e.victim)
    ensures var p := Prepared(c, s, e).circuits;
            && (forall k | k in s.circuits && k !in p :: MayGo(c, s.circuits[k], e.now))
            && (forall k | k in p :: k in s.circuits && p[k] == s.circuits[k])
            && (e.now >= s.nextCleanup ==> forall k | k in p :: !MayGo(c, p[k], e.now))
            && var m := Cleaned(c, s, e.now).circuits;
               forall k, l | k in m && k !in p && l in m && MayGo(c, m[l], e.now) :: m[k].lastSeen <= m[l].lastSeen
  {
  }

  /** When `key` was last called. */
  function LastCall(run: seq<Event>, key: string): Option<int> {
    if run == [] then None
    else if run[|run| - 1].key == key then Some(run[|run| - 1].now)
    else LastCall(run[..|run| - 1], key)
  }

  /** Idleness is counted from there: every call, of any outcome, starts it anew. */
  lemma {:induction false} SeenAtLastCall(c: Config, s: Store, run: seq<Event>, key: string)
    requires s.circuits == map[] && key in After(c, s, run).circuits
    ensures LastCall(run, key) == Some(After(c, s, run).circuits[key].lastSeen)
  {
    if run == [] {
    } else {
      var pre, e := run[..|run| - 1], run[|run| - 1];
      if e.key != key {
        assert key in Prepared(c, After(c, s, pre), e).circuits;
        SeenAtLastCall(c, s, pre, key);
      }
    }
  }

  /** A new key finds the store full, and no entry may go. */
  predicate Overflows(c: Config, s: Store, e: Event) {
    var m := Cleaned(c, s, e.now).circuits;
    e.key !in m && |m| >= c.maxKeys && forall k | k in m :: !MayGo(c, m[k], e.now)
  }

  /** Room for a new key is made as long as some entry may go. */
  lemma StepSize(c: Config, s: Store, e: Event)
    requires VictimOk(c, Cleaned(c, s, e.now), e.key, e.now, e.victim)
    ensures var m := Cleaned(c, s, e.now).circuits;
            |Step(c, s, e).circuits|
            == |m| + if e.key !in m && (|m| < c.maxKeys || Overflows(c, s, e)) then 1 else 0
  {
    var m, p := Cleaned(c, s, e.now).circuits, Prepared(c, s, e).circuits;
    WithSize(p, e.key, Step(c, s, e).circuits[e.key]);
    if e.victim.Some? { WithoutSize(m, e.victim.value); }
  }

  function OverflowsIn(c: Config, s: Store, run: seq<Event>): nat
  {
    if run == [] then 0
    else
      var pre, e := run[..|run| - 1], run[|run| - 1];
      OverflowsIn(c, s, pre) + if Overflows(c, After(c, s, pre), e) then 1 else 0
  }

  /** In every run the store holds at most `max_keys` entries, and one more for each call that found it full
      with no entry that may go. */
  lemma {:induction false} CapacityBound(c: Config, s: Store, run: seq<Event>)
    requires s.circuits == map[] && Legal(c, s, run)
    ensures |After(c, s, run).circuits| <= c.maxKeys + OverflowsIn(c, s, run)
  {
    if run == [] {
    } else {
      var pre, e := run[..|run| - 1], run[|run| - 1];
      CapacityBound(c, s, pre);
      SubmapSize(Cleaned(c, After(c, s, pre), e.now).circuits, After(c, s, pre).circuits);
      StepSize(c, After(c, s, pre), e);
    }
  }

  // ---- half-open episodes ---------------------------------------------------------------------

  /** 1 if this call lets a request on `key` through, else 0. */
  function Grants(c: Config, s: Store, e: Event, key: string): nat {
    if e.key == key && e.op.Check? && Admits(c, s, e) then 1 else 0
  }

  /** How many requests on `key` were let through since its circuit last became half-open, or 0 when it is
      not half-open. */
  function GrantedSince(c: Config, s: Store, run: seq<Event>, key: string): nat {
    if run == [] || !StateOf(After(c, s, run), key).HalfOpen? then 0
    else
      var pre, e := run[..|run| - 1], run[|run| - 1];
      GrantedSince(c, s, pre, key) + Grants(c, After(c, s, pre), e, key)
  }

  function Probes(state: State): nat { if state.HalfOpen? then state.inFlight else 0 }

  lemma EpisodeStep(c: Config, s: Store, e: Event, key: string)
    requires StateOf(Step(c, s, e), key).HalfOpen?
    ensures StateOf(Step(c, s, e), key).inFlight == Probes(StateOf(s, key)) + Grants(c, s, e, key)
  {
    StepAt(c, s, e, key);
  }

  /** The circuit counts exactly those requests, whether or not their outcomes are recorded. */
  lemma {:induction false} CountsGrants(c: Config, s: Store, run: seq<Event>, key: string)
    requires s.circuits == map[]
    ensures GrantedSince(c, s, run, key) == Probes(StateOf(After(c, s, run), key))
  {
    if run == [] {
    } else {
      var pre, e := run[..|run| - 1], run[|run| - 1];
      CountsGrants(c, s, pre, key);
      if StateOf(After(c, s, run), key).HalfOpen? { EpisodeStep(c, After(c, s, pre), e, key); }
    }
  }

  /** So no half-open episode lets through more requests than there are probes. */
  lemma HalfOpenBound(c: Config, s: Store, run: seq<Event>, key: string)
    requires s.circuits == map[]
    ensures GrantedSince(c, s, run, key) <= ProbeLimit(c.settings)
    ensures StateOf(After(c, s, run), key).HalfOpen? <==> GrantedSince(c, s, run, key) >= 1
  {
    CountsGrants(c, s, run, key);
    CountsStreak(c, s, run, key);
  }

  /** The probes are used up. */
  predicate Stuck(c: Config, s: Store, key: string) {
    key in s.circuits && s.circuits[key].state.HalfOpen? && s.circuits[key].state.inFlight >= c.settings.probes
  }

  /** No outcome of `key` is recorded in the run, and no call comes when `key` has been idle for longer than
      the time to live. */
  predicate Unrecorded(c: Config, s: Store, run: seq<Event>, key: string) {
    run != [] ==>
      var pre, e := run[..|run| - 1], run[|run| - 1];
      && Unrecorded(c, s, pre, key) && (e.key == key ==> e.op.Check?)
      && (key in After(c, s, pre).circuits ==> e.now <= After(c, s, pre).circuits[key].lastSeen + c.idleTtl)
  }

  lemma StuckHolds(c: Config, s: Store, e: Event, key: string)
    requires VictimOk(c, Cleaned(c, s, e.now), e.key, e.now, e.victim) && Stuck(c, s, key)
    requires (e.key == key ==> e.op.Check?) && e.now <= s.circuits[key].lastSeen + c.idleTtl
    ensures Stuck(c, Step(c, s, e), key) && (e.key == key ==> !Admits(c, s, e))
  {
  }

  /** A probe whose outcome is never recorded wedges the circuit: every check of the key is rejected for as
      long as it is not left idle. */
  lemma {:induction false} StuckUntilRecord(c: Config, s: Store, run: seq<Event>, key: string)
    requires Legal(c, s, run) && Stuck(c, s, key) && Unrecorded(c, s, run, key)
    ensures Stuck(c, After(c, s, run), key) && Rejects(c, s, run, key)
  {
    if run == [] {
    } else {
      var pre, e := run[..|run| - 1], run[|run| - 1];
      StuckUntilRecord(c, s, pre, key);
      StuckHolds(c, After(c, s, pre), e, key);
    }
  }
}
