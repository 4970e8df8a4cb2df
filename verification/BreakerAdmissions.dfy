/** Every request that an instance lets through in a half-open episode, by Redis or by its cache. */
module BreakerAdmissions {
  import opened Options
  import opened Circuit
  import R = RedisBreaker
  import opened BreakerCluster

  /** 1 if this step answers a request on `key` with a cached `Allow`, else 0. */
  function CacheGrants(s: Sys, e: Event, key: string): nat {
    if e.Look? && e.key == key && Lookup(LocalOf(s, e.inst), key, e.now) == Some(Allow) then 1 else 0
  }

  /** How many of the steps m to n - 1 let a request on `key` through, by Redis or by a cache. */
  function Admitted(c: Config, run: seq<Event>, key: string, m: nat, n: nat): nat
    requires m <= n <= |run|
  {
    if m == n then 0
    else
      Admitted(c, run, key, m, n - 1) + Grants(c, DbAfter(c, run[..n - 1]), run[n - 1], key)
      + CacheGrants(After(c, run[..n - 1]), run[n - 1], key)
  }

  /** No check reply travels for longer. */
  ghost predicate Swift(run: seq<Event>, travel: nat) {
    forall d | 0 <= d < |run| && run[d].GetCheck? && run[d].msg.CheckReply? :: run[d].now - run[d].msg.ranAt <= travel
  }

  /** Every cached answer is gone within the recovery time of the check it answers. */
  ghost predicate Brief(c: Config, travel: nat) {
    forall inst | inst in c.cacheTtl :: c.cacheTtl[inst] == 0 || c.cacheTtl[inst] + travel <= c.settings.recovery
  }

  lemma OpenedByStep(c: Config, db: R.Db, e: Event, key: string, since: int)
    requires key in db && db[key].state == 1 ==> db[key].untilMs >= since + c.settings.recovery
    requires e.now >= since
    ensures var next := NextDb(c, db, e);
            key in next && next[key].state == 1 ==> next[key].untilMs >= since + c.settings.recovery
  {
  }

  lemma ClosedByCheck(c: Config, db: R.Db, e: Event, key: string)
    requires e.RunCheck? && e.key == key && Code(c, db, key, e.now) == 0
    ensures var next := NextDb(c, db, e); key in next ==> next[key].state != 1 && next[key].state != 2
  {
  }

  /** A circuit that was closed when step j ran has, if it is open later, a later deadline. */
  lemma {:induction false} OpenedSince(c: Config, run: seq<Event>, key: string, j: nat, n: nat)
    requires j < n <= |run| && run[j].RunCheck? && run[j].key == key && CodeAt(c, run, j) == 0
    requires forall a, b | 0 <= a < b < |run| :: run[a].now <= run[b].now
    ensures var db := DbAfter(c, run[..n]);
            key in db && db[key].state == 1 ==> db[key].untilMs >= run[j].now + c.settings.recovery
  {
    assert run[..n][..n - 1] == run[..n - 1];
    if n == j + 1 {
      ClosedByCheck(c, DbAfter(c, run[..j]), run[j], key);
    } else {
      OpenedSince(c, run, key, j, n - 1);
      OpenedByStep(c, DbAfter(c, run[..n - 1]), run[n - 1], key, run[j].now);
    }
  }

  /** An episode starts with an open circuit past its deadline. */
  lemma StartsOpen(c: Config, db: R.Db, e: Event, key: string)
    requires e.RunCheck? && e.key == key && !Probing(db, key) && Probing(NextDb(c, db, e), key)
    ensures key in db && db[key].state == 1 && e.now >= db[key].untilMs && Code(c, db, key, e.now) < 0
  {
  }

  lemma StaysProbing(c: Config, db: R.Db, e: Event, key: string)
    requires e.RunCheck? && e.key == key && Probing(db, key) && Probing(NextDb(c, db, e), key)
    ensures Code(c, db, key, e.now) < 0
  {
  }

  lemma ClosedBeforeEpisode(c: Config, run: seq<Event>, key: string, m: nat, n: nat, j: nat)
    requires Episode(c, run, key, m, n) && j < n && run[j].RunCheck? && run[j].key == key && CodeAt(c, run, j) == 0
    ensures j < m
  {
    var db := DbAfter(c, run[..j]);
    assert run[..j + 1][..j] == run[..j];
    if j == m {
      assert Probing(DbAfter(c, run[..j + 1]), key);
      StartsOpen(c, db, run[j], key);
    } else if j > m {
      assert Probing(DbAfter(c, run[..j + 1]), key) && Probing(db, key);
      StaysProbing(c, db, run[j], key);
    }
  }

  /** A closed answer is at least the recovery time old in every episode that follows it. */
  lemma ClosedAnswerIsOld(c: Config, run: seq<Event>, key: string, m: nat, n: nat, j: nat, i: nat)
    requires Legal(c, run) && Episode(c, run, key, m, n) && m <= i < n
    requires j < n && run[j].RunCheck? && run[j].key == key && CodeAt(c, run, j) == 0
    ensures run[i].now >= run[j].now + c.settings.recovery
  {
    ClosedBeforeEpisode(c, run, key, m, n, j);
    OpenedSince(c, run, key, j, m);
    assert run[..m + 1][..m] == run[..m];
    assert Probing(DbAfter(c, run[..m + 1]), key);
    StartsOpen(c, DbAfter(c, run[..m]), run[m], key);
  }

  /** The check behind a cached `Allow`. */
  lemma AllowedByClosed(c: Config, run: seq<Event>, i: nat, inst: nat, key: string, now: int, travel: nat)
    returns (j: nat)
    requires Legal(c, run) && Swift(run, travel) && Brief(c, travel) && i < |run| && run[i].now == now
    requires Lookup(LocalOf(After(c, run[..i]), inst), key, now) == Some(Allow)
    ensures j < i && run[j].RunCheck? && run[j].key == key && CodeAt(c, run, j) == 0
    ensures now < run[j].now + c.settings.recovery
  {
    LegalPrefix(c, run, i);
    var d: nat;
    j, d := CacheStaleness(c, run[..i], inst, key, now);
    assert run[..i][..j] == run[..j];
    assert run[..i][d] == run[d] && run[d].now <= now;
  }

  lemma NoCachedAllow(c: Config, run: seq<Event>, key: string, m: nat, n: nat, i: nat, travel: nat)
    requires Legal(c, run) && Swift(run, travel) && Brief(c, travel) && Episode(c, run, key, m, n) && m <= i < n
    ensures CacheGrants(After(c, run[..i]), run[i], key) == 0
  {
    if CacheGrants(After(c, run[..i]), run[i], key) == 1 {
      var j := AllowedByClosed(c, run, i, run[i].inst, key, run[i].now, travel);
      ClosedAnswerIsOld(c, run, key, m, n, j, i);
    }
  }

  lemma {:induction false} AdmittedIsGranted(
    c: Config, run: seq<Event>, key: string, m: nat, n: nat, k: nat, travel: nat)
    requires Legal(c, run) && Swift(run, travel) && Brief(c, travel) && Episode(c, run, key, m, n) && m <= k <= n
    ensures Admitted(c, run, key, m, k) == Granted(c, run, key, m, k)
  {
    if k == m {
    } else {
      AdmittedIsGranted(c, run, key, m, n, k - 1, travel);
      NoCachedAllow(c, run, key, m, n, k - 1, travel);
    }
  }

  /** With such caches the half-open bound is on all requests that any instance lets through. */
  lemma AdmissionBound(c: Config, run: seq<Event>, key: string, m: nat, n: nat, travel: nat)
    requires Legal(c, run) && Swift(run, travel) && Brief(c, travel) && Episode(c, run, key, m, n)
    ensures 1 <= Admitted(c, run, key, m, n) <= ProbeLimit(c.settings)
  {
    AdmittedIsGranted(c, run, key, m, n, n, travel);
    HalfOpenBound(c, run, key, m, n);
  }

  // ---- and without such caches there is no bound ----------------------------------------------

  lemma SwiftNext(run: seq<Event>, next: seq<Event>, travel: nat)
    requires Swift(run, travel) && |next| == |run| + 1 && forall i :: 0 <= i < |run| ==> next[i] == run[i]
    requires var e := next[|run|]; e.GetCheck? && e.msg.CheckReply? ==> e.now - e.msg.ranAt <= travel
    ensures Swift(next, travel)
  {
  }

  /** A reply by which `inst` learned, at time 0, that the circuit is closed. */
  function Closed0(inst: nat, key: string): Msg { CheckReply(inst, key, 0, 0) }

  /** A run in which that reply is on its way, `inst` has not used its cache, and Redis shows this circuit. */
  ghost predicate Waiting(
    c: Config, run: seq<Event>, s: Sys, inst: nat, key: string, now: int, travel: nat, state: State)
  {
    && Leads(c, run, s) && Swift(run, travel) && run != [] && run[|run| - 1].now <= now
    && inst !in s.locals && Closed0(inst, key) in s.inflight
    && R.DbOk(c.settings, s.db, now) && R.View(c.settings, s.db, key, now) == state
  }

  lemma WaitingFirst(c: Config, inst: nat, key: string, now: nat, travel: nat) returns (run: seq<Event>, s: Sys)
    ensures Waiting(c, run, s, inst, key, now, travel, Closed(0))
  {
    s := Step(c, After(c, []), RunCheck(inst, key, 0));
    run := LeadsOn(c, [], After(c, []), RunCheck(inst, key, 0));
    SwiftNext([], run, travel);
  }

  lemma WaitingOn(
    c: Config, run: seq<Event>, s: Sys, inst: nat, key: string, now: int, travel: nat, state: State, e: Event)
    returns (next: seq<Event>, t: Sys)
    requires Waiting(c, run, s, inst, key, now, travel, state) && Enabled(c, s, e) && e.now == now && !e.Look?
    requires if e.GetCheck? || e.GetRecord? then e.msg.inst != inst && (e.msg.CheckReply? ==> e.msg.ranAt == now)
             else e.key == key
    ensures t == Step(c, s, e)
    ensures Waiting(c, next, t, inst, key, now, travel,
                    match e
                    case RunCheck(_, _, _) => Next(c.settings, state, Check, now)
                    case RunRecord(_, _, success, _) => Next(c.settings, state, Record(success), now)
                    case _ => state)
  {
    t := Step(c, s, e);
    next := LeadsOn(c, run, s, e);
    SwiftNext(run, next, travel);
    match e
    case RunCheck(_, _, _) => R.MovedView(c.settings, s.db, R.CheckCall(key, now));
    case RunRecord(_, _, success, _) => R.MovedView(c.settings, s.db, R.RecordCall(key, success, now));
    case _ =>
  }

  /** Another instance asks, is let through and records a failure. */
  lemma WaitingNext(c: Config, run: seq<Event>, s: Sys, inst: nat, key: string, now: int, travel: nat, n: nat)
    returns (next: seq<Event>, t: Sys)
    requires Waiting(c, run, s, inst, key, now, travel, Closed(n))
    ensures Waiting(c, next, t, inst, key, now, travel, AfterRecord(c.settings, Closed(n), false, now))
  {
    var code := Code(c, s.db, key, now);
    next, t := WaitingOn(c, run, s, inst, key, now, travel, Closed(n), RunCheck(inst + 1, key, now));
    var reply := CheckReply(inst + 1, key, code, now);
    next, t := WaitingOn(c, next, t, inst, key, now, travel, Closed(n), GetCheck(reply, now));
    next, t := WaitingOn(c, next, t, inst, key, now, travel, Closed(n), RunRecord(inst + 1, key, false, now));
    var failed := AfterRecord(c.settings, Closed(n), false, now);
    next, t := WaitingOn(c, next, t, inst, key, now, travel, failed, GetRecord(RecordReply(inst + 1, key), now));
  }

  lemma {:induction false} WaitingFailures(c: Config, inst: nat, key: string, now: nat, travel: nat, n: nat)
    returns (run: seq<Event>, s: Sys)
    requires n < TripsAt(c.settings)
    ensures Waiting(c, run, s, inst, key, now, travel, Closed(n))
  {
    if n == 0 {
      run, s := WaitingFirst(c, inst, key, now, travel);
    } else {
      run, s := WaitingFailures(c, inst, key, now, travel, n - 1);
      run, s := WaitingNext(c, run, s, inst, key, now, travel, n - 1);
    }
  }

  lemma WaitingOpen(c: Config, inst: nat, key: string, now: nat, travel: nat) returns (run: seq<Event>, s: Sys)
    ensures Waiting(c, run, s, inst, key, now, travel, Open(now + c.settings.recovery))
  {
    var n := TripsAt(c.settings) - 1;
    run, s := WaitingFailures(c, inst, key, now, travel, n);
    run, s := WaitingNext(c, run, s, inst, key, now, travel, n);
  }

  lemma {:induction false} AdmittedPrefix(c: Config, run: seq<Event>, next: seq<Event>, key: string, m: nat, n: nat)
    requires m <= n <= |run| <= |next| && forall i :: 0 <= i < |run| ==> next[i] == run[i]
    ensures Admitted(c, next, key, m, n) == Admitted(c, run, key, m, n)
  {
    if m == n {
    } else {
      AdmittedPrefix(c, run, next, key, m, n - 1);
      assert next[..n - 1] == run[..n - 1];
    }
  }

  /** The circuit is half-open since step m, this many requests were let through since, and `inst` has a
      cached `Allow` that is still good. */
  ghost predicate Leaking(
    c: Config, run: seq<Event>, s: Sys, inst: nat, key: string, now: int, travel: nat, m: nat, k: nat)
  {
    && Leads(c, run, s) && Swift(run, travel) && run != [] && run[|run| - 1].now == now && inst in c.cacheTtl
    && Episode(c, run, key, m, |run|) && Admitted(c, run, key, m, |run|) == k
    && Lookup(LocalOf(s, inst), key, now) == Some(Allow)
  }

  lemma EpisodeNext(c: Config, run: seq<Event>, next: seq<Event>, key: string, m: nat)
    requires m < |run| && |next| == |run| + 1 && forall i :: 0 <= i < |run| ==> next[i] == run[i]
    requires Episode(c, run, key, m, |run|) && Probing(DbAfter(c, next), key)
    ensures Episode(c, next, key, m, |next|)
  {
    assert next[..|next|] == next;
    assert forall j | 0 <= j <= |run| :: next[..j] == run[..j];
  }

  lemma AdmittedNext(c: Config, run: seq<Event>, s: Sys, next: seq<Event>, key: string, m: nat)
    requires m <= |run| && |next| == |run| + 1 && forall i :: 0 <= i < |run| ==> next[i] == run[i]
    requires After(c, run) == s
    ensures Admitted(c, next, key, m, |next|) ==
            Admitted(c, run, key, m, |run|) + Grants(c, s.db, next[|run|], key) + CacheGrants(s, next[|run|], key)
  {
    assert next[..|run|] == run;
    DbAfterIsDb(c, run);
    AdmittedPrefix(c, run, next, key, m, |run|);
  }

  lemma LookKeeps(c: Config, s: Sys, inst: nat, key: string, now: int)
    requires Lookup(LocalOf(s, inst), key, now) == Some(Allow)
    ensures var e := Look(inst, key, now);
            && Step(c, s, e).db == s.db && Lookup(LocalOf(Step(c, s, e), inst), key, now) == Some(Allow)
            && Grants(c, s.db, e, key) == 0 && CacheGrants(s, e, key) == 1
  {
  }

  lemma LeakingNext(c: Config, run: seq<Event>, s: Sys, inst: nat, key: string, now: int, travel: nat, m: nat, k: nat)
    returns (next: seq<Event>, t: Sys)
    requires Leaking(c, run, s, inst, key, now, travel, m, k)
    ensures Leaking(c, next, t, inst, key, now, travel, m, k + 1)
  {
    var e := Look(inst, key, now);
    t := Step(c, s, e);
    LookKeeps(c, s, inst, key, now);
    next := LeadsOn(c, run, s, e);
    SwiftNext(run, next, travel);
    AdmittedNext(c, run, s, next, key, m);
    ProbingStays(c, run, s, next, t, key, m);
  }

  lemma ProbingStays(c: Config, run: seq<Event>, s: Sys, next: seq<Event>, t: Sys, key: string, m: nat)
    requires m < |run| && |next| == |run| + 1 && forall i :: 0 <= i < |run| ==> next[i] == run[i]
    requires Episode(c, run, key, m, |run|) && After(c, run) == s && After(c, next) == t && s.db == t.db
    ensures Episode(c, next, key, m, |next|)
  {
    assert run[..|run|] == run;
    DbAfterIsDb(c, run);
    DbAfterIsDb(c, next);
    EpisodeNext(c, run, next, key, m);
  }

  /** The closed reply arrives and is cached; then the circuit becomes half-open. */
  lemma LeakSteps(c: Config, s: Sys, inst: nat, key: string, now: int, travel: nat, t: int) returns (s1: Sys, s2: Sys)
    requires inst in c.cacheTtl && inst !in s.locals && Closed0(inst, key) in s.inflight
    requires R.DbOk(c.settings, s.db, now) && R.View(c.settings, s.db, key, now) == Open(t) && now <= t
    requires travel <= t < travel + c.cacheTtl[inst]
    ensures s1 == Step(c, s, GetCheck(Closed0(inst, key), travel)) && s2 == Step(c, s1, RunCheck(inst + 1, key, t))
    ensures !Probing(s1.db, key) && Probing(s2.db, key)
    ensures Grants(c, s1.db, RunCheck(inst + 1, key, t), key) == 1 && Lookup(LocalOf(s2, inst), key, t) == Some(Allow)
  {
    s1 := Step(c, s, GetCheck(Closed0(inst, key), travel));
    s2 := Step(c, s1, RunCheck(inst + 1, key, t));
    assert LocalOf(s1, inst) == Local(map[key := Cached(Allow, travel + c.cacheTtl[inst])], CLEANUP_INTERVAL);
    assert s.db[key].state == 1 && s.db[key].untilMs == t;
  }

  lemma {:induction false} EpisodeFirst(c: Config, run: seq<Event>, next: seq<Event>, key: string)
    requires |next| == |run| + 1 && forall i :: 0 <= i < |run| ==> next[i] == run[i]
    requires next[|run|].RunCheck? && next[|run|].key == key
    requires !Probing(DbAfter(c, run), key) && Probing(DbAfter(c, next), key)
    ensures Episode(c, next, key, |run|, |next|)
  {
    assert next[..|run|] == run && next[..|next|] == next;
  }

  lemma LeakStarts(c: Config, inst: nat, key: string, travel: nat) returns (run: seq<Event>, s: Sys, m: nat, t: int)
    requires inst in c.cacheTtl && c.cacheTtl[inst] > 0 && c.cacheTtl[inst] + travel > c.settings.recovery
    ensures Leaking(c, run, s, inst, key, t, travel, m, 1)
  {
    t := Max(travel, c.settings.recovery);
    var now := t - c.settings.recovery;
    run, s := WaitingOpen(c, inst, key, now, travel);
    var s1, s2 := LeakSteps(c, s, inst, key, now, travel, t);
    var run1 := LeadsOn(c, run, s, GetCheck(Closed0(inst, key), travel));
    SwiftNext(run, run1, travel);
    var run2 := LeadsOn(c, run1, s1, RunCheck(inst + 1, key, t));
    SwiftNext(run1, run2, travel);
    DbAfterIsDb(c, run1);
    DbAfterIsDb(c, run2);
    EpisodeFirst(c, run1, run2, key);
    AdmittedNext(c, run1, s1, run2, key, |run1|);
    run, s, m := run2, s2, |run1|;
  }

  lemma {:induction false} Leaks(c: Config, inst: nat, key: string, travel: nat, k: nat)
    returns (run: seq<Event>, s: Sys, m: nat, t: int)
    requires inst in c.cacheTtl && c.cacheTtl[inst] > 0 && c.cacheTtl[inst] + travel > c.settings.recovery
    ensures Leaking(c, run, s, inst, key, t, travel, m, k + 1)
  {
    if k == 0 {
      run, s, m, t := LeakStarts(c, inst, key, travel);
    } else {
      run, s, m, t := Leaks(c, inst, key, travel, k - 1);
      run, s := LeakingNext(c, run, s, inst, key, t, travel, m, k);
    }
  }

  /** In every run whose check replies travel for at most `travel`, no half-open episode lets more requests
      through than there are probes. */
  ghost predicate BoundsAdmissions(c: Config, travel: nat) {
    forall run, key, m, n | Legal(c, run) && Swift(run, travel) && Episode(c, run, key, m, n) ::
      Admitted(c, run, key, m, n) <= ProbeLimit(c.settings)
  }

  /** That is so exactly when every cached answer is gone within the recovery time of its check. */
  lemma BoundsAdmissionsIff(c: Config, travel: nat)
    ensures BoundsAdmissions(c, travel) <==> Brief(c, travel)
  {
    if Brief(c, travel) {
      forall run, key, m, n | Legal(c, run) && Swift(run, travel) && Episode(c, run, key, m, n)
        ensures Admitted(c, run, key, m, n) <= ProbeLimit(c.settings)
      {
        AdmissionBound(c, run, key, m, n, travel);
      }
    } else {
      var inst :| inst in c.cacheTtl && !(c.cacheTtl[inst] == 0 || c.cacheTtl[inst] + travel <= c.settings.recovery);
      var run, s, m, t := Leaks(c, inst, "k", travel, ProbeLimit(c.settings));
      assert Admitted(c, run, "k", m, |run|) > ProbeLimit(c.settings);
    }
  }

  /** For instance, with one probe, a recovery time of 10 and a cache of 100, a second request gets through. */
  lemma CacheOutlivesRecovery() returns (run: seq<Event>, m: nat)
    ensures var c := Config(Settings(1, 10, 1), map[0 := 100]);
            && Legal(c, run) && Swift(run, 0) && Episode(c, run, "k", m, |run|)
            && Admitted(c, run, "k", m, |run|) == 2 > ProbeLimit(c.settings) == 1
  {
    var s, t;
    run, s, m, t := Leaks(Config(Settings(1, 10, 1), map[0 := 100]), 0, "k", 0, 1);
  }
}
