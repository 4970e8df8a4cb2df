/** Many proxy instances sharing one Redis, each with a local cache of check results. A script call
    and the arrival of its reply are separate steps, so calls of all instances interleave freely. */
module BreakerCluster {
  import opened Options
  import opened Circuit
  import R = RedisBreaker

  const CLEANUP_INTERVAL := 30_000

  datatype Cached = Cached(action: Action, expiresAt: int)

  datatype Local = Local(entries: map<string, Cached>, nextCleanup: int)

  /** `cacheTtl` lists the instances that cache, with their time to live. */
  datatype Config = Config(settings: Settings, cacheTtl: map<nat, nat>)

  /** A reply on its way back to an instance; `ranAt` is when the script ran. */
  datatype Msg = CheckReply(inst: nat, key: string, code: int, ranAt: int) | RecordReply(inst: nat, key: string)

  datatype Sys = Sys(db: R.Db, locals: map<nat, Local>, inflight: multiset<Msg>)

  datatype Event =
    | Look(inst: nat, key: string, now: int)                      // check() consults the cache
    | RunCheck(inst: nat, key: string, now: int)                  // CB_CHECK_LUA runs
    | GetCheck(msg: Msg, now: int)                                // its reply arrives
    | RunRecord(inst: nat, key: string, success: bool, now: int)  // CB_RECORD_LUA runs
    | GetRecord(msg: Msg, now: int)                               // its reply arrives

  function Pruned(l: Local, now: int): Local {
    if now < l.nextCleanup then l
    else Local(map k | k in l.entries && now < l.entries[k].expiresAt :: l.entries[k], now + CLEANUP_INTERVAL)
  }

  function Lookup(l: Local, key: string, now: int): Option<Action> {
    if key in l.entries && now < l.entries[key].expiresAt then Some(l.entries[key].action) else None
  }

  /** What an instance keeps of a return code: closed for the whole time to live, open for at most
      the time left until recovery, half-open never. */
  function Kept(ttl: nat, code: int, now: int): Option<Cached> {
    if code == 0 then Some(Cached(Allow, now + ttl))
    else if code > 0 then Some(Cached(Reject, now + if ttl < code then ttl else code))
    else None
  }

  /** The cache of one instance, as the store updates it. */
  class LocalCache {
    var entries: map<string, Cached>
    var nextCleanup: int

    ghost function Value(): Local
      reads this
    {
      Local(entries, nextCleanup)
    }

    method MaybeCleanup(now: int)
      modifies this
      ensures Value() == Pruned(old(Value()), now)
    {
      if now < nextCleanup {
        return;
      }
      entries := map k | k in entries && now < entries[k].expiresAt :: entries[k];
      nextCleanup := now + CLEANUP_INTERVAL;
    }

    /** The cached answer, if any. Cleaning up never takes away an answer that is still good. */
    method Consult(key: string, now: int) returns (answer: Option<Action>)
      modifies this
      ensures Value() == Pruned(old(Value()), now)
      ensures answer == Lookup(old(Value()), key, now) == Lookup(Value(), key, now)
    {
      MaybeCleanup(now);
      answer := None;
      if key in entries && now < entries[key].expiresAt {
        answer := Some(entries[key].action);
      }
    }

    method Keep(key: string, code: int, ttl: nat, now: int)
      modifies this
      ensures Value() == Learned(old(Value()), key, Kept(ttl, code, now))
    {
      var action := R.ActionOf(code);
      if code == 0 {
        entries := entries[key := Cached(action, now + ttl)];
      } else if code > 0 {
        var remaining := code;
        entries := entries[key := Cached(action, now + if ttl < remaining then ttl else remaining)];
      }
    }

    method Invalidate(key: string)
      modifies this
      ensures Value() == old(Value()).(entries := old(entries) - {key})
    {
      entries := entries - {key};
    }
  }

  function Learned(l: Local, key: string, kept: Option<Cached>): Local {
    if kept.Some? then l.(entries := l.entries[key := kept.value]) else l
  }

  function LocalOf(s: Sys, inst: nat): Local {
    if inst in s.locals then s.locals[inst] else Local(map[], CLEANUP_INTERVAL)
  }

  function Code(c: Config, db: R.Db, key: string, now: int): int {
    R.CheckCode(c.settings, R.Fields(db, key, now), now)
  }

  function NextDb(c: Config, db: R.Db, e: Event): R.Db {
    match e
    case RunCheck(_, key, now) => R.CheckScript(c.settings, db, key, now)
    case RunRecord(_, key, success, now) => R.RecordScript(c.settings, db, key, success, now)
    case _ => db
  }

  predicate Enabled(c: Config, s: Sys, e: Event) {
    match e
    case Look(inst, _, _) => inst in c.cacheTtl
    case GetCheck(msg, _) => msg in s.inflight && msg.CheckReply?
    case GetRecord(msg, _) => msg in s.inflight && msg.RecordReply?
    case _ => true
  }

  function Step(c: Config, s: Sys, e: Event): Sys {
    match e
    case Look(inst, _, now) => s.(locals := s.locals[inst := Pruned(LocalOf(s, inst), now)])
    case RunCheck(inst, key, now) =>
      s.(db := NextDb(c, s.db, e),
         inflight := s.inflight + multiset{CheckReply(inst, key, Code(c, s.db, key, now), now)})
    case RunRecord(inst, key, _, _) =>
      s.(db := NextDb(c, s.db, e),
         inflight := s.inflight + multiset{RecordReply(inst, key)})
    case GetCheck(msg, now) =>
      var kept := if msg.inst in c.cacheTtl && msg.CheckReply? then Kept(c.cacheTtl[msg.inst], msg.code, now) else None;
      s.(locals := s.locals[msg.inst := Learned(LocalOf(s, msg.inst), msg.key, kept)],
         inflight := s.inflight - multiset{msg})
    case GetRecord(msg, _) =>
      var l := LocalOf(s, msg.inst);
      var forgot := l.(entries := l.entries - {msg.key});
      s.(locals := if msg.inst in c.cacheTtl then s.locals[msg.inst := forgot] else s.locals,
         inflight := s.inflight - multiset{msg})
  }

  function After(c: Config, run: seq<Event>): Sys {
    if run == [] then Sys(map[], map[], multiset{})
    else Step(c, After(c, run[..|run| - 1]), run[|run| - 1])
  }

  predicate EnabledAt(c: Config, run: seq<Event>, i: nat)
    requires i < |run|
  {
    Enabled(c, After(c, run[..i]), run[i])
  }

  /** A run of the cluster: every step is possible where it is taken, and time does not go back. */
  ghost predicate Legal(c: Config, run: seq<Event>) {
    && (forall i: nat | i < |run| :: EnabledAt(c, run, i))
    && (forall i, j | 0 <= i < j < |run| :: run[i].now <= run[j].now)
  }

  lemma LegalPrefix(c: Config, run: seq<Event>, n: nat)
    requires Legal(c, run) && n <= |run|
    ensures Legal(c, run[..n])
  {
    forall i: nat | i < n ensures EnabledAt(c, run[..n], i) {
      assert EnabledAt(c, run, i);
      assert run[..n][..i] == run[..i];
    }
  }

  // ---- the shared database --------------------------------------------------------------------

  function CallIn(e: Event): seq<R.Call> {
    match e
    case RunCheck(_, key, now) => [R.CheckCall(key, now)]
    case RunRecord(_, key, success, now) => [R.RecordCall(key, success, now)]
    case _ => []
  }

  function Calls(run: seq<Event>): seq<R.Call> {
    if run == [] then [] else Calls(run[..|run| - 1]) + CallIn(run[|run| - 1])
  }

  /** In time order, and all at `now` or before. */
  ghost predicate OrderedTo(calls: seq<R.Call>, now: int) {
    R.Ordered(calls) && forall i | 0 <= i < |calls| :: calls[i].now <= now
  }

  lemma OrderedToNext(calls: seq<R.Call>, e: Event)
    requires OrderedTo(calls, e.now)
    ensures OrderedTo(calls + CallIn(e), e.now)
  {
  }

  lemma {:induction false} CallsOrdered(run: seq<Event>, now: int)
    requires (forall i, j | 0 <= i < j < |run| :: run[i].now <= run[j].now) && (run != [] ==> run[|run| - 1].now <= now)
    ensures OrderedTo(Calls(run), now)
  {
    if run == [] {
    } else {
      CallsOrdered(run[..|run| - 1], run[|run| - 1].now);
      OrderedToNext(Calls(run[..|run| - 1]), run[|run| - 1]);
    }
  }

  /** The database after a run of the cluster, without the caches and replies around it. */
  function DbAfter(c: Config, run: seq<Event>): R.Db {
    if run == [] then map[] else NextDb(c, DbAfter(c, run[..|run| - 1]), run[|run| - 1])
  }

  lemma {:induction false} DbAfterIsDb(c: Config, run: seq<Event>)
    ensures After(c, run).db == DbAfter(c, run)
  {
    if run == [] {
    } else {
      DbAfterIsDb(c, run[..|run| - 1]);
    }
  }

  /** Whatever the interleaving, the database is the result of one run of script calls, in the order
      of time. */
  lemma {:induction false} DatabaseIsSerial(c: Config, run: seq<Event>)
    ensures DbAfter(c, run) == R.After(c.settings, Calls(run))
  {
    if run == [] {
    } else {
      var pre, e := run[..|run| - 1], run[|run| - 1];
      DatabaseIsSerial(c, pre);
      match e
      case RunCheck(_, key, now) => R.AfterNext(c.settings, Calls(pre), R.CheckCall(key, now), key);
      case RunRecord(_, key, success, now) =>
        R.AfterNext(c.settings, Calls(pre), R.RecordCall(key, success, now), key);
      case _ => assert Calls(run) == Calls(pre);
    }
  }

  /** The answer of Redis to the check that step `j` runs. */
  function CodeAt(c: Config, run: seq<Event>, j: nat): int
    requires j < |run| && run[j].RunCheck?
  {
    Code(c, DbAfter(c, run[..j]), run[j].key, run[j].now)
  }

  /** 1 if this step lets a request on `key` through, else 0. */
  function Grants(c: Config, db: R.Db, e: Event, key: string): nat {
    if e.RunCheck? && e.key == key && R.ActionOf(Code(c, db, key, e.now)) == Allow then 1 else 0
  }

  /** How many of the steps m to n - 1 let a request on `key` through. */
  function Granted(c: Config, run: seq<Event>, key: string, m: nat, n: nat): nat
    requires m <= n <= |run|
  {
    if m == n then 0
    else Granted(c, run, key, m, n - 1) + Grants(c, DbAfter(c, run[..n - 1]), run[n - 1], key)
  }

  /** The probes the hash of `key` counts, or 0 when the circuit is not half-open. */
  function Probes(db: R.Db, key: string): int {
    if key in db && db[key].state == 2 then db[key].inFlight else 0
  }

  predicate Probing(db: R.Db, key: string) { key in db && db[key].state == 2 }

  /** A half-open episode: step m finds an open circuit past its deadline, and the circuit has not
      left the half-open state before step n. */
  ghost predicate Episode(c: Config, run: seq<Event>, key: string, m: nat, n: nat) {
    && m < n <= |run| && run[m].RunCheck? && run[m].key == key
    && !Probing(DbAfter(c, run[..m]), key)
    && forall j | m < j <= n :: Probing(DbAfter(c, run[..j]), key)
  }

  lemma EpisodeStart(c: Config, db: R.Db, e: Event, key: string)
    requires e.RunCheck? && e.key == key && !Probing(db, key) && Probing(NextDb(c, db, e), key)
    ensures Probes(NextDb(c, db, e), key) == 1 == Grants(c, db, e, key)
  {
  }

  lemma EpisodeStep(c: Config, db: R.Db, e: Event, key: string)
    requires Probing(db, key) && Probing(NextDb(c, db, e), key)
    ensures Probes(NextDb(c, db, e), key) == Probes(db, key) + Grants(c, db, e, key)
  {
  }

  /** In an episode Redis has let through exactly as many requests as the hash counts, whether or not
      their outcomes were ever recorded. */
  lemma {:induction false} EpisodeCountsGrants(c: Config, run: seq<Event>, key: string, m: nat, n: nat)
    requires Episode(c, run, key, m, n)
    ensures Granted(c, run, key, m, n) == Probes(DbAfter(c, run[..n]), key)
  {
    var db, e := DbAfter(c, run[..n - 1]), run[n - 1];
    assert run[..n][..n - 1] == run[..n - 1];
    assert Probing(DbAfter(c, run[..n]), key);
    if n - 1 == m {
      EpisodeStart(c, db, e, key);
    } else {
      EpisodeCountsGrants(c, run, key, m, n - 1);
      EpisodeStep(c, db, e, key);
    }
  }

  /** The half-open bound: between the switch from open to half-open and the end of the episode, Redis
      lets at most max(1, half_open_probes) requests through, from all instances together. */
  lemma HalfOpenBound(c: Config, run: seq<Event>, key: string, m: nat, n: nat)
    requires Legal(c, run) && Episode(c, run, key, m, n)
    ensures 1 <= Granted(c, run, key, m, n) <= ProbeLimit(c.settings)
  {
    EpisodeCountsGrants(c, run, key, m, n);
    assert Probing(DbAfter(c, run[..n]), key);
    ProbesBounded(c, run[..n], key);
  }

  lemma ProbesBounded(c: Config, run: seq<Event>, key: string)
    requires forall i, j | 0 <= i < j < |run| :: run[i].now <= run[j].now
    requires run != [] && Probing(DbAfter(c, run), key)
    ensures 1 <= Probes(DbAfter(c, run), key) <= ProbeLimit(c.settings)
  {
    DatabaseIsSerial(c, run);
    CallsOrdered(run, run[|run| - 1].now);
    R.RunOk(c.settings, Calls(run), run[|run| - 1].now);
  }

  // ---- the local caches -----------------------------------------------------------------------

  /** Step `j` ran the check whose reply is `msg`. */
  predicate RanAs(c: Config, run: seq<Event>, msg: Msg, j: nat) {
    && j < |run| && msg.CheckReply?
    && run[j] == RunCheck(msg.inst, msg.key, msg.ranAt) && CodeAt(c, run, j) == msg.code
  }

  /** Step `d` received the reply of the check that step `j` ran, and cached it as `e`. */
  predicate CachedBy(c: Config, run: seq<Event>, inst: nat, key: string, e: Cached, j: nat, d: nat) {
    && j < d < |run| && inst in c.cacheTtl
    && run[d].GetCheck? && run[d].msg.CheckReply? && run[d].msg.inst == inst && run[d].msg.key == key
    && RanAs(c, run, run[d].msg, j)
    && Kept(c.cacheTtl[inst], run[d].msg.code, run[d].now) == Some(e)
  }

  ghost predicate Sourced(c: Config, run: seq<Event>, msg: Msg) {
    msg.CheckReply? ==> exists j: nat :: RanAs(c, run, msg, j)
  }

  ghost predicate Backed(c: Config, run: seq<Event>, inst: nat, key: string, e: Cached) {
    exists j: nat, d: nat :: CachedBy(c, run, inst, key, e, j, d)
  }

  lemma SourcedLater(c: Config, pre: seq<Event>, e: Event, msg: Msg)
    requires Sourced(c, pre, msg)
    ensures Sourced(c, pre + [e], msg)
  {
    if msg.CheckReply? {
      var j: nat :| RanAs(c, pre, msg, j);
      assert (pre + [e])[..j] == pre[..j];
      assert RanAs(c, pre + [e], msg, j);
    }
  }

  lemma BackedLater(c: Config, pre: seq<Event>, e: Event, inst: nat, key: string, entry: Cached)
    requires Backed(c, pre, inst, key, entry)
    ensures Backed(c, pre + [e], inst, key, entry)
  {
    var j: nat, d: nat :| CachedBy(c, pre, inst, key, entry, j, d);
    assert (pre + [e])[..j] == pre[..j];
    assert CachedBy(c, pre + [e], inst, key, entry, j, d);
  }

  lemma {:induction false} RepliesAreSourced(c: Config, run: seq<Event>, msg: Msg)
    requires Legal(c, run) && msg in After(c, run).inflight
    ensures Sourced(c, run, msg)
  {
    if run == [] {
    } else {
      var pre, e := run[..|run| - 1], run[|run| - 1];
      assert run == pre + [e];
      LegalPrefix(c, run, |run| - 1);
      if msg in After(c, pre).inflight {
        RepliesAreSourced(c, pre, msg);
        SourcedLater(c, pre, e, msg);
      } else {
        FreshMsg(c, After(c, pre), e, msg);
        DbAfterIsDb(c, pre);
        assert msg.CheckReply? ==> RanAs(c, run, msg, |run| - 1);
      }
    }
  }

  lemma FreshMsg(c: Config, s: Sys, e: Event, msg: Msg)
    requires msg in Step(c, s, e).inflight && msg !in s.inflight
    ensures msg.CheckReply? ==>
              e == RunCheck(msg.inst, msg.key, msg.ranAt) && msg.code == Code(c, s.db, msg.key, msg.ranAt)
  {
  }

  lemma {:induction false} EntriesAreBacked(c: Config, run: seq<Event>, inst: nat, key: string)
    requires Legal(c, run) && key in LocalOf(After(c, run), inst).entries
    ensures Backed(c, run, inst, key, LocalOf(After(c, run), inst).entries[key])
  {
    if run == [] {
    } else {
      var pre, e := run[..|run| - 1], run[|run| - 1];
      var s := After(c, pre);
      var entry := LocalOf(After(c, run), inst).entries[key];
      assert run == pre + [e];
      LegalPrefix(c, run, |run| - 1);
      if key in LocalOf(s, inst).entries && LocalOf(s, inst).entries[key] == entry {
        EntriesAreBacked(c, pre, inst, key);
        BackedLater(c, pre, e, inst, key, entry);
      } else {
        FreshEntry(c, s, e, inst, key);
        assert EnabledAt(c, run, |run| - 1);
        RepliesAreSourced(c, pre, e.msg);
        SourcedLater(c, pre, e, e.msg);
        var j: nat :| RanAs(c, run, e.msg, j);
        assert CachedBy(c, run, inst, key, entry, j, |run| - 1);
      }
    }
  }

  lemma FreshEntry(c: Config, s: Sys, e: Event, inst: nat, key: string)
    requires key in LocalOf(Step(c, s, e), inst).entries
    requires key in LocalOf(s, inst).entries ==>
               LocalOf(s, inst).entries[key] != LocalOf(Step(c, s, e), inst).entries[key]
    ensures e.GetCheck? && e.msg.CheckReply? && e.msg.inst == inst && e.msg.key == key && inst in c.cacheTtl
    ensures Kept(c.cacheTtl[inst], e.msg.code, e.now) == Some(LocalOf(Step(c, s, e), inst).entries[key])
  {
  }

  /** The answer a cache gives at `now` is one that Redis gave this instance at step j and that arrived
      at step d, less than the time to live before; it was not a half-open answer; and if it is a
      rejection, `now` is less than the reply's travel time past the recovery deadline. */
  ghost predicate ServedFrom(
    c: Config, run: seq<Event>, inst: nat, key: string, now: int, answer: Action, j: nat, d: nat)
  {
    && j < d < |run| && inst in c.cacheTtl
    && run[j].RunCheck? && run[j].inst == inst && run[j].key == key
    && run[d].GetCheck? && run[d].msg == CheckReply(inst, key, CodeAt(c, run, j), run[j].now)
    && CodeAt(c, run, j) >= 0 && answer == R.ActionOf(CodeAt(c, run, j))
    && now < run[d].now + c.cacheTtl[inst]
    && (answer == Reject ==>
         var h := R.Fields(DbAfter(c, run[..j]), key, run[j].now);
         h.state == 1 && now < h.untilMs + (run[d].now - run[j].now))
  }

  lemma ServesWhatItCached(c: Config, run: seq<Event>, inst: nat, key: string, e: Cached, now: int, j: nat, d: nat)
    requires CachedBy(c, run, inst, key, e, j, d) && now < e.expiresAt
    ensures ServedFrom(c, run, inst, key, now, e.action, j, d)
  {
  }

  /** Bounded staleness, in every run of the cluster: an answer from a local cache at `now` was given
      by Redis later than `now` minus the time to live minus the reply's travel time. */
  lemma CacheStaleness(c: Config, run: seq<Event>, inst: nat, key: string, now: int) returns (j: nat, d: nat)
    requires Legal(c, run) && Lookup(LocalOf(After(c, run), inst), key, now).Some?
    ensures ServedFrom(c, run, inst, key, now, Lookup(LocalOf(After(c, run), inst), key, now).value, j, d)
    ensures run[j].now > now - c.cacheTtl[inst] - (run[d].now - run[j].now)
  {
    EntriesAreBacked(c, run, inst, key);
    var entry := LocalOf(After(c, run), inst).entries[key];
    j, d :| CachedBy(c, run, inst, key, entry, j, d);
    ServesWhatItCached(c, run, inst, key, entry, now, j, d);
  }

  // ---- seeing one's own record ----------------------------------------------------------------

  predicate RepliesTo(e: Event, inst: nat, key: string) {
    e.GetCheck? && e.msg.CheckReply? && e.msg.inst == inst && e.msg.key == key && e.msg.code >= 0
  }

  lemma RecordDrops(c: Config, s: Sys, e: Event, inst: nat, key: string)
    requires e.GetRecord? && e.msg.inst == inst && e.msg.key == key && inst in c.cacheTtl
    ensures key !in LocalOf(Step(c, s, e), inst).entries
  {
  }

  /** Step `d` cached the answer that `inst` now has for `key`. */
  predicate Brought(c: Config, run: seq<Event>, inst: nat, key: string, entry: Cached, d: nat) {
    && d < |run| && inst in c.cacheTtl && RepliesTo(run[d], inst, key)
    && Kept(c.cacheTtl[inst], run[d].msg.code, run[d].now) == Some(entry)
  }

  /** Invalidation by a record lasts until the next check reply: after the reply to a record of `key`
      arrived at step g, the instance has a cached answer for it only if a closed or open reply to a
      check of it arrived later, and then it is that reply's. */
  lemma {:induction false} InvalidatedUntilNextReply(c: Config, run: seq<Event>, g: nat, inst: nat, key: string)
    requires g < |run| && run[g].GetRecord? && run[g].msg.inst == inst && run[g].msg.key == key
    requires inst in c.cacheTtl && key in LocalOf(After(c, run), inst).entries
    ensures exists d: nat :: g < d && Brought(c, run, inst, key, LocalOf(After(c, run), inst).entries[key], d)
  {
    var pre, e := run[..|run| - 1], run[|run| - 1];
    var s, entry := After(c, pre), LocalOf(After(c, run), inst).entries[key];
    if g == |pre| {
      RecordDrops(c, s, e, inst, key);
    } else if key in LocalOf(s, inst).entries && LocalOf(s, inst).entries[key] == entry {
      InvalidatedUntilNextReply(c, pre, g, inst, key);
      var d: nat :| g < d && Brought(c, pre, inst, key, entry, d);
      assert Brought(c, run, inst, key, entry, d);
    } else {
      FreshEntry(c, s, e, inst, key);
      assert Brought(c, run, inst, key, entry, |run| - 1);
    }
  }

  /** A reply on `key` reaches the instance, to a record or to a check that did not find it half-open. */
  predicate Reaches(e: Event, inst: nat, key: string) {
    && (e.GetCheck? || e.GetRecord?) && e.msg.inst == inst && e.msg.key == key
    && (e.msg.CheckReply? ==> e.msg.code >= 0)
  }

  /** Consulting the cache at cleanup time leaves no answer in it that has run out. */
  lemma LookForgets(c: Config, s: Sys, inst: nat, key: string, now: int, k: string)
    requires now >= LocalOf(s, inst).nextCleanup && k in LocalOf(Step(c, s, Look(inst, key, now)), inst).entries
    ensures Lookup(LocalOf(s, inst), k, now).Some?
  {
  }

  /** For how long an answer is kept: a closed one for the time to live, an open one for no longer than the
      circuit stays open. */
  function Lifetime(ttl: nat, code: nat): nat { if code == 0 || ttl < code then ttl else code }

  lemma KeptAtFirst(c: Config, s: Sys, msg: Msg, now: int, t: int)
    requires msg.CheckReply? && msg.inst in c.cacheTtl && msg.code >= 0 && t >= now
    ensures Lookup(LocalOf(Step(c, s, GetCheck(msg, now)), msg.inst), msg.key, t) ==
            if t < now + Lifetime(c.cacheTtl[msg.inst], msg.code) then Some(if msg.code == 0 then Allow else Reject)
            else None
  {
  }

  lemma KeptByOthers(c: Config, s: Sys, e: Event, inst: nat, key: string, t: int)
    requires Enabled(c, s, e) && !Reaches(e, inst, key) && e.now <= t
    ensures Lookup(LocalOf(Step(c, s, e), inst), key, t) == Lookup(LocalOf(s, inst), key, t)
  {
  }

  /** A cached answer is given for all of its lifetime, and no longer, unless another reply on the key reaches
      the instance. */
  lemma {:induction false} AnswersForLifetime(c: Config, run: seq<Event>, d: nat, msg: Msg, t: int)
    requires Legal(c, run) && d < |run| && run[d] == GetCheck(msg, run[d].now) && msg.inst in c.cacheTtl
    requires msg.CheckReply? && msg.code >= 0 && run[|run| - 1].now <= t
    requires forall i | d < i < |run| :: !Reaches(run[i], msg.inst, msg.key)
    ensures Lookup(LocalOf(After(c, run), msg.inst), msg.key, t) ==
            if t < run[d].now + Lifetime(c.cacheTtl[msg.inst], msg.code)
            then Some(if msg.code == 0 then Allow else Reject)
            else None
  {
    var pre, e := run[..|run| - 1], run[|run| - 1];
    if d == |pre| {
      KeptAtFirst(c, After(c, pre), msg, e.now, t);
    } else {
      LegalPrefix(c, run, |pre|);
      AnswersForLifetime(c, pre, d, msg, t);
      assert EnabledAt(c, run, |pre|);
      KeptByOthers(c, After(c, pre), e, msg.inst, msg.key, t);
    }
  }

  lemma RanAsInPrefix(c: Config, run: seq<Event>, n: nat, msg: Msg, j: nat)
    requires n <= |run| && RanAs(c, run[..n], msg, j)
    ensures RanAs(c, run, msg, j)
  {
    assert run[..n][..j] == run[..j];
  }

  lemma FreshIsRan(c: Config, run: seq<Event>, msg: Msg)
    requires run != [] && msg.CheckReply?
    requires msg in After(c, run).inflight && msg !in After(c, run[..|run| - 1]).inflight
    ensures RanAs(c, run, msg, |run| - 1)
  {
    FreshMsg(c, After(c, run[..|run| - 1]), run[|run| - 1], msg);
    DbAfterIsDb(c, run[..|run| - 1]);
  }

  /** A reply that was not on its way after n steps belongs to a check that ran since. */
  lemma {:induction false} ReplyRanSince(c: Config, run: seq<Event>, n: nat, msg: Msg) returns (j: nat)
    requires n <= |run| && msg.CheckReply?
    requires msg in After(c, run).inflight && msg !in After(c, run[..n]).inflight
    ensures n <= j < |run| && RanAs(c, run, msg, j)
  {
    assert n < |run| by { assert run[..|run|] == run; }
    var m := |run| - 1;
    var pre := run[..m];
    if msg in After(c, pre).inflight {
      assert pre[..n] == run[..n];
      j := ReplyRanSince(c, pre, n, msg);
      RanAsInPrefix(c, run, m, msg, j);
    } else {
      FreshIsRan(c, run, msg);
      j := m;
    }
  }

  /** No closed or open reply to a check of `key` is on its way to `inst`. */
  ghost predicate Quiet(s: Sys, inst: nat, key: string) {
    forall msg :: msg in s.inflight && msg.CheckReply? && msg.inst == inst && msg.key == key ==> msg.code < 0
  }

  /** A closed or open reply that arrives at step d belongs to a check that ran after step r, if none was
      on its way then. */
  lemma QuietReply(c: Config, run: seq<Event>, r: nat, d: nat, inst: nat, key: string) returns (j: nat)
    requires Legal(c, run) && r < d < |run| && run[r].RunRecord? && Quiet(After(c, run[..r]), inst, key)
    requires RepliesTo(run[d], inst, key)
    ensures r < j < d && RanAs(c, run, run[d].msg, j)
  {
    assert EnabledAt(c, run, d);
    assert run[..d][..r] == run[..r];
    j := ReplyRanSince(c, run[..d], r, run[d].msg);
    RanAsInPrefix(c, run, d, run[d].msg, j);
  }

  /** So a record made when no such reply is on its way is seen by its instance from the arrival of its
      reply on: every answer the cache gives then is that of a check that ran after the record. */
  lemma QuietRecordIsSeen(c: Config, run: seq<Event>, r: nat, g: nat, inst: nat, key: string, now: int)
    returns (j: nat, d: nat)
    requires Legal(c, run) && r < g < |run| && run[r].RunRecord? && Quiet(After(c, run[..r]), inst, key)
    requires run[g].GetRecord? && run[g].msg.inst == inst && run[g].msg.key == key && inst in c.cacheTtl
    requires Lookup(LocalOf(After(c, run), inst), key, now).Some?
    ensures r < j && g < d
    ensures ServedFrom(c, run, inst, key, now, Lookup(LocalOf(After(c, run), inst), key, now).value, j, d)
  {
    InvalidatedUntilNextReply(c, run, g, inst, key);
    var entry := LocalOf(After(c, run), inst).entries[key];
    d :| g < d && Brought(c, run, inst, key, entry, d);
    j := QuietReply(c, run, r, d, inst, key);
    ServesWhatItCached(c, run, inst, key, entry, now, j, d);
  }

  lemma LegalNext(c: Config, run: seq<Event>, e: Event)
    requires Legal(c, run) && Enabled(c, After(c, run), e) && (run != [] ==> run[|run| - 1].now <= e.now)
    ensures Legal(c, run + [e]) && After(c, run + [e]) == Step(c, After(c, run), e)
  {
    var next := run + [e];
    assert next[..|run|] == run;
    forall i: nat | i < |next| ensures EnabledAt(c, next, i) {
      if i < |run| {
        assert EnabledAt(c, run, i);
        assert next[..i] == run[..i];
      }
    }
  }

  ghost predicate Leads(c: Config, run: seq<Event>, s: Sys) {
    Legal(c, run) && After(c, run) == s
  }

  lemma LeadsOn(c: Config, run: seq<Event>, s: Sys, e: Event) returns (next: seq<Event>)
    requires Leads(c, run, s) && Enabled(c, s, e) && (run != [] ==> run[|run| - 1].now <= e.now)
    ensures Leads(c, next, Step(c, s, e))
    ensures |next| == |run| + 1 && next[|run|] == e && forall i :: 0 <= i < |run| ==> next[i] == run[i]
  {
    LegalNext(c, run, e);
    next := run + [e];
  }

  /** The states that a record, its reply and a late reply to a check lead through. */
  lemma LateReplySteps(c: Config, s: Sys, msg: Msg, success: bool, now: int) returns (s1: Sys, s2: Sys, s3: Sys)
    requires msg in s.inflight && msg.CheckReply? && msg.code >= 0
    requires msg.inst in c.cacheTtl && c.cacheTtl[msg.inst] > 0
    ensures s1 == Step(c, s, RunRecord(msg.inst, msg.key, success, now))
    ensures RecordReply(msg.inst, msg.key) in s1.inflight
    ensures s2 == Step(c, s1, GetRecord(RecordReply(msg.inst, msg.key), now)) && msg in s2.inflight
    ensures s3 == Step(c, s2, GetCheck(msg, now))
    ensures Lookup(LocalOf(s3, msg.inst), msg.key, now) == Some(R.ActionOf(msg.code))
    ensures s3.db == R.RecordScript(c.settings, s.db, msg.key, success, now)
  {
    s1 := Step(c, s, RunRecord(msg.inst, msg.key, success, now));
    s2 := Step(c, s1, GetRecord(RecordReply(msg.inst, msg.key), now));
    s3 := Step(c, s2, GetCheck(msg, now));
  }

  /** And only such a record: any closed or open reply that is on its way can arrive after the record's
      reply, and then the cache answers as Redis did before the record. */
  lemma LateReplyHidesRecord(c: Config, run: seq<Event>, s: Sys, msg: Msg, success: bool, now: int)
    returns (next: seq<Event>)
    requires Leads(c, run, s) && msg in s.inflight && msg.CheckReply? && msg.code >= 0
    requires msg.inst in c.cacheTtl && c.cacheTtl[msg.inst] > 0 && (run != [] ==> run[|run| - 1].now <= now)
    ensures Legal(c, next) && |next| == |run| + 3 && forall i :: 0 <= i < |run| ==> next[i] == run[i]
    ensures next[|run|] == RunRecord(msg.inst, msg.key, success, now)
    ensures next[|run| + 1] == GetRecord(RecordReply(msg.inst, msg.key), now) && next[|run| + 2] == GetCheck(msg, now)
    ensures Lookup(LocalOf(After(c, next), msg.inst), msg.key, now) == Some(R.ActionOf(msg.code))
    ensures After(c, next).db == R.RecordScript(c.settings, s.db, msg.key, success, now)
  {
    var s1, s2, s3 := LateReplySteps(c, s, msg, success, now);
    next := LeadsOn(c, run, s, RunRecord(msg.inst, msg.key, success, now));
    next := LeadsOn(c, next, s1, GetRecord(RecordReply(msg.inst, msg.key), now));
    next := LeadsOn(c, next, s2, GetCheck(msg, now));
  }

  const FLAKY := Config(Settings(1, 30_000, 1), map[0 := 5_000])
  const LATE := CheckReply(0, "k", 0, 0)

  /** The cluster after `n` checks of a closed circuit at time 0. */
  function Asked(n: nat): Sys { Sys(map[], map[], multiset{}[LATE := n]) }

  /** The same after two checks, of which one was answered. */
  function Answered(): Sys {
    Sys(map[], map[0 := Local(map["k" := Cached(Allow, 5_000)], CLEANUP_INTERVAL)], multiset{LATE})
  }

  lemma AskedNext(n: nat)
    ensures Asked(n + 1) == Step(FLAKY, Asked(n), RunCheck(0, "k", 0))
  {
  }

  lemma AnsweredNext()
    ensures Enabled(FLAKY, Asked(2), GetCheck(LATE, 0)) && Answered() == Step(FLAKY, Asked(2), GetCheck(LATE, 0))
  {
  }

  lemma {:induction false} AskedRun(n: nat)
    ensures Leads(FLAKY, Copies(RunCheck(0, "k", 0), n), Asked(n))
  {
    var e := RunCheck(0, "k", 0);
    if n == 0 {
    } else {
      AskedRun(n - 1);
      AskedNext(n - 1);
      var next := LeadsOn(FLAKY, Copies(e, n - 1), Asked(n - 1), e);
      assert next == Copies(e, n);
    }
  }

  /** Two requests ask at once; the first is answered and goes ahead. */
  lemma TwoChecks() returns (run: seq<Event>)
    ensures run == [RunCheck(0, "k", 0), RunCheck(0, "k", 0), GetCheck(LATE, 0)] && Leads(FLAKY, run, Answered())
  {
    AskedRun(2);
    AnsweredNext();
    run := LeadsOn(FLAKY, Copies(RunCheck(0, "k", 0), 2), Asked(2), GetCheck(LATE, 0));
  }

  lemma FailureRejects(db: R.Db)
    requires db == R.RecordScript(FLAKY.settings, map[], "k", false, 1)
    ensures R.ActionOf(Code(FLAKY, db, "k", 1)) == Reject
  {
  }

  /** For instance: a closed answer comes back into the cache although the recorded failure has opened the
      circuit. So an instance does not always see its own record at once. */
  lemma StaleReplyAfterRecord() returns (run: seq<Event>)
    ensures run == [RunCheck(0, "k", 0), RunCheck(0, "k", 0), GetCheck(LATE, 0), RunRecord(0, "k", false, 1),
                    GetRecord(RecordReply(0, "k"), 1), GetCheck(LATE, 1)]
    ensures Legal(FLAKY, run)
    ensures Lookup(LocalOf(After(FLAKY, run), 0), "k", 1) == Some(Allow)
    ensures R.ActionOf(Code(FLAKY, After(FLAKY, run).db, "k", 1)) == Reject
  {
    run := TwoChecks();
    run := LateReplyHidesRecord(FLAKY, run, Answered(), LATE, false, 1);
    FailureRejects(After(FLAKY, run).db);
  }
}
