# noxy, verified

noxy is an HTTP proxy whose behaviour is configured by a tree of rules. This project models the part
of it that decides things: the compiler that flattens the rule tree into layers, the three stateful
limiters (circuit breaker, token bucket, sliding window), each in memory and as Redis scripts, the retry
loop with its budget and its replay capture, the throttled response body, and the UTF-8 encoder of the
script runtime. `dafny verify dfyconfig.toml` checks all of it.

Objects that the proxy updates in place are classes here, and loops are loops. Each class has a value
(`Value()`), and each method says which step function takes the old value to the new one. What the proxy
promises is then proved about whole runs of those step functions: any number of keys, callers and
instances, in any order. Where an implementation may choose (which of several equally old entries to
evict), the step records the choice and the results hold for every choice.

| file | what it holds |
|---|---|
| `RuleWalk.dfy` | rule trees, the walk with its stacks, resolving exclusions |
| `RuleMeaning.dfy` | the meaning of a tree, and of two trees at one path |
| `RuleCompiler.dfy` | the compiled declarations against that meaning |
| `ScopeKeys.dfy` | scope labels and Redis keys |
| `CircuitBreaker.dfy` | the breaker automaton and its in-memory store |
| `BreakerRedis.dfy` | the breaker's two Lua scripts |
| `BreakerHistory.dfy` | what a circuit is, told from its calls alone, for both stores |
| `BreakerTwins.dfy` | the two stores compared |
| `BreakerCluster.dfy` | many instances with local caches on one Redis |
| `BreakerAdmissions.dfy` | all requests let through in a half-open episode, caches included |
| `TokenBucket.dfy`, `RateLimiter.dfy`, `RateLimiterRedis.dfy` | the token bucket, its store and its script |
| `SlidingWindow.dfy`, `SlidingWindowStore.dfy`, `SlidingWindowRedis.dfy` | the window queue, its store and its script |
| `SlidingWindowCap.dfy` | the documented cap, for the releases of the store |
| `RetryBudget.dfy`, `Retry.dfy` | retry budget; replay capture and attempt loop |
| `Throttle.dfy` | the throttled body |
| `Utf8.dfy` | the encoder, with a decoder to judge it by |

## Where the code and its documentation differ

The model follows the code. Each difference has a lemma with a concrete case and one that says exactly
when the documented property holds.

- A first global `match` shares path `[0]` with a listener's own rules (src/config.rs:914-919), so the two can
  shadow each other although neither is nested in the other: `FirstGlobalMatchCollides`. The compiled rules
  mean the nested tree exactly when no such collision happens: `CompilerCorrectIff`.
- The sliding window is documented as a hard cap (src/middleware/sliding_window.rs:143-146). It fails in two ways.
  Requests that wait at the same time are all released against the same entry, in any number and under every
  configuration: `OverlapBreaksCap`, `OverlapUncapped`, `StoreCapHoldsIff`. And cleanup forgets a release that is still inside the window when the effective time to
  live, which is one window for windows longer than the idle time (src/middleware/sliding_window.rs:34-36), is
  under two windows: `CleanupBreaksCap`. Without overlap the cap holds in all runs exactly when the effective time to
  live is at least two windows, less one tick: `CapAlwaysIff`.
- The retry budget is documented as at most `ratio` of all requests (src/middleware/retry.rs:349-358). The
  question is asked before the retry is counted, so the share can be passed, by less than one retry:
  `OvershootsByOne`, `OvershootBelowOne`. A retry keeps the share exactly when it finds room for all of it:
  `ShareKeptIff`. All runs keep it, beyond the floor, exactly when the ratio is at least one, or the floor is at
  least one and ratio / (1 - ratio) is a whole number or not positive: `ShareAlwaysIff`.
- A record invalidates the local cache so that its instance sees the change at once
  (src/middleware/circuit_breaker.rs:553-555). A check reply that is still on its way can bring the old answer
  back: `StaleReplyAfterRecord`. A record is seen at once, whatever happens next, when no closed or open reply
  for its key is on its way to the instance (`QuietRecordIsSeen`), and any such reply can hide it
  (`LateReplyHidesRecord`).
- The cache is said never to hold half-open answers because probes need coordination
  (src/middleware/circuit_breaker.rs:551-553). A closed answer from before can still let requests through while
  the circuit is half-open: `CacheOutlivesRecovery`. The bound on probes is one on all requests exactly when
  cached answers are gone within the recovery time: `BoundsAdmissionsIff`.
- Under every configuration, cleanup may drop a token bucket that is still in debt: `ForgettingLosesDebt`.
  Dropping changes no delay exactly for full buckets, and idle ones are full exactly when their last delay was
  short enough: `DropIsInvisibleIff`, `IdleMeansFullIff`. The expiry of its hash loses debt too, with every rate
  and burst: `ExpiryLosesDebt`, `ExpiryLosesSixtyTwo`. The replies of the script are those of a bucket that is
  never dropped exactly when the hash has not expired or the bucket is full: `ExactIff`.
- State in Redis is meant to be kept apart by scope (src/config.rs:1237-1244). Numbers start again from 0 in each
  listener (src/config.rs:900-913) while connections are shared by all, so two unrelated matches of two listeners
  share their state: `ListenersShareNumbers`. Two rules share it exactly when they are of one kind, serve one
  request key and have equal stacks of names and numbers: `StackIsolation`.
- The expiry of the breaker's hash forgets a streak of failures: `ExpiryForgetsStreak`. The scripts go on
  answering like a breaker that never forgets exactly when the hash has not expired or its circuit was closed
  with no failures, and so does the in-memory store when housekeeping spares it: `AnswersLikeIff` in
  `RedisBreaker` and in `BreakerTwins`. Under every configuration housekeeping drops such a circuit in some run:
  `FailureForgotten`.

## Model

| member | source | states |
|---|---|---|
| RuleWalk.AndPredicates | src/config.rs:707-718 | The conjunction accepts a request exactly when every predicate does, and is absent exactly when there is none |
| RuleWalk.RedisCache.Open | src/config.rs:1248-1260 | Gives the connection of the block's URL and prefix (`noxy:` by default), or fails if the URL cannot be opened; no URL and prefix is ever opened twice |
| RuleWalk.RedisCache.Initial | src/config.rs:928-945 | With its own redis a listener opens that one and fails exactly when its URL cannot be opened, whatever the process-wide one is; without, the same for the process-wide one; without both there is no connection |
| RuleWalk.WalkCtx.PushScope | src/config.rs:1237-1244 | A match adds its name or the next number to the scope, and only a number is used up |
| RuleWalk.WalkCtx.Enter | src/config.rs:1368-1387 | Entering a match pushes exactly its predicate, scope, redis and index; fails exactly for a bad matcher or an unopenable redis |
| RuleWalk.WalkCtx.Leave | src/config.rs:1389-1400 | Leaving pops exactly what that match pushed |
| RuleWalk.LeavingRestores | src/config.rs:1359-1401 | Entering, walking any body and leaving restores every stack |
| RuleWalk.WalkCtx.WalkMatch | src/config.rs:1359-1401 | A match compiles exactly when its matcher, its redis and all below it do; the stacks end as they began, and every leaf below carries its own lexical surroundings |
| RuleWalk.WalkCtx.WalkNode | src/config.rs:1274-1357 | The same for any node: a leaf becomes one declaration with the enclosing path, predicates, scope and nearest redis |
| RuleWalk.WalkCtx.WalkBody | src/config.rs:1263-1272 | The same for a body: declarations in document order, failure exactly if some node fails |
| RuleWalk.ResolveExclusions | src/config.rs:1406-1437 | In place, every exclusive declaration gets the scope predicates of exactly the same-kind declarations on strictly longer paths through its own; the others are untouched |
| RuleWalk.EffectivePredicate | src/config.rs:1441-1459 | A layer applies to a request exactly when its scope accepts and no exclusion does |
| RuleWalk.WalkListenerBody | src/config.rs:893-923 | Compiles exactly when globals and body do, and then gives the resolved declarations of the globals followed by those of the body |
| RuleWalk.CompileListener | src/config.rs:947-969 | The rules of one listener compile exactly when the redis in effect can be opened and all of them do, and then give its declarations |
| RuleWalk.Probe | src/config.rs:772-795 | The walk of the globals alone succeeds exactly when they compile |
| RuleWalk.CompileListeners | src/config.rs:769-819 | The rules of a configuration compile exactly when the globals and every listener's do, and each listener then gets the declarations of the globals and its own rules, numbered from 0, although all share the opened connections |
| RuleMeaning.ShadedIsDeeper | src/config.rs:1422-1433 | What strictly extends a leaf's own path and accepts the request is exactly what is active in a match beside it |
| RuleMeaning.ByPathIsOverlaid | src/config.rs:1406-1459 | Deciding by path prefixes is a recursion over the tree alone, even for two bodies at one path |
| RuleMeaning.AgreesIff | src/config.rs:914-919 | Two bodies at one path keep their own meanings exactly when neither shades a leaf the other lets fire |
| RuleMeaning.ListenerAgreesIff | src/config.rs:887-923 | The same for globals and a listener's rules |
| RuleCompiler.FiresAsJudged | src/config.rs:1406-1459 | In any list of declarations one fires exactly when its scope accepts and, if it is exclusive, no same-kind declaration nested strictly below accepts |
| RuleCompiler.InnermostWins | src/config.rs:1403-1437 | In any list, no two firing declarations of one exclusive kind are nested in one another |
| RuleCompiler.SomeoneFires | src/config.rs:1403-1437 | If the scope of an exclusive declaration accepts, then it or one of its kind below it fires |
| RuleCompiler.CapturesNearest | src/config.rs:1192-1211 | Following a declaration's path from the root leads to the body that holds its rule, and its connection is the last redis block on the way |
| RuleCompiler.ListenerRedis | src/config.rs:925-945 | In every compiled configuration, a rule with no redis block around it uses the connection of its listener's own redis; if that has none the process-wide one, and if there is none either no connection |
| RuleCompiler.CompiledVerdicts | src/config.rs:893-923 | For every configuration and request, which layers apply, as a function of the two trees alone |
| RuleCompiler.CompilerCorrectIff | src/config.rs:887-923 | The compiled layers apply as the tree semantics says (all enclosing matches accept and, for exclusive kinds, nothing of the kind is active more deeply), with the listener nested below the globals, exactly when bodies at path `[0]` do not collide |
| RuleCompiler.CompilerCorrect | src/config.rs:887-923 | In particular for every configuration whose first global node is not a match |
| RuleCompiler.FirstGlobalMatchCollides | src/config.rs:914-919 | For every exclusive kind and every request there is a configuration starting with a global match that loses its rule to one not nested in it |
| ScopeKeys.BeforeColon | src/config.rs:1930 | The longest colon-free prefix of the host |
| ScopeKeys.HostKey | src/config.rs:1926-1933 | The request key is all before the first colon of the URI's host, else of the Host header, else `unknown` |
| ScopeKeys.KeysEqualIff | src/redis.rs:55-57 | On one connection, keys built for colon-free request keys are equal exactly for equal kinds, scopes and request keys |
| ScopeKeys.JoinInjective | src/config.rs:1233-1235 | Labels of dot-free parts determine the parts |
| ScopeKeys.ScopesTellPaths | src/config.rs:1237-1244 | Within one body of unnamed matches, scopes are equal exactly for equal paths |
| ScopeKeys.SameScopeIff | src/config.rs:893-923 | Numbers run on from globals to listener, so scopes are equal exactly within one match, or outside all |
| ScopeKeys.StackIsolation | src/config.rs:1232-1261 | With dot-free names, two rules on one connection, of one listener or of two, use one Redis key exactly when they are of one kind, serve one request key and have equal scope stacks |
| ScopeKeys.ScopeIsolation | src/config.rs:1232-1261 | With unnamed matches, two rules of one listener on one connection use one Redis key exactly when they are of one kind, stand in one match scope and serve one request key |
| ScopeKeys.ListenersShareNumbers | src/config.rs:900-913 | Whatever the globals, the unnamed matches of two one-match listeners on the process-wide connection use one Redis key for every request key |
| ScopeKeys.NamesMayCollide | src/config.rs:1237-1244 | A match named like a number shares its scope with the match of that number |
| Circuit.FailuresRan | src/middleware/circuit_breaker.rs:120-166 | Failures below the threshold only add up |
| Circuit.ChecksRan | src/middleware/circuit_breaker.rs:99-117 | Checks after the deadline use up the half-open probes |
| Circuit.ForgettingIsInvisibleIff | src/middleware/circuit_breaker.rs:57-66 | No sequence of calls tells a forgotten circuit from a kept one exactly when it was closed with no failures, for every threshold, recovery time and number of probes |
| MemoryBreaker.SharedState.CanEvictEntry | src/middleware/circuit_breaker.rs:57-66 | Which entries housekeeping may drop |
| MemoryBreaker.SharedState.MaybeCleanup | src/middleware/circuit_breaker.rs:42-55 | Drops exactly the entries that may go, at most once per interval |
| MemoryBreaker.SharedState.FindOldest | src/middleware/circuit_breaker.rs:72-77 | Finds an entry that may go and has been idle longest, or there is none |
| MemoryBreaker.SharedState.EvictIfNeeded | src/middleware/circuit_breaker.rs:68-81 | Drops one such entry exactly when a new key finds the store full |
| MemoryBreaker.SharedState.Check | src/middleware/circuit_breaker.rs:83-118 | Steps the circuit of its key and answers as the automaton does |
| MemoryBreaker.SharedState.Record | src/middleware/circuit_breaker.rs:120-166 | Steps the circuit of its key with the outcome |
| MemoryBreaker.StepAt | src/middleware/circuit_breaker.rs:83-166 | A call changes no circuit but its own, except that housekeeping may forget entries |
| MemoryBreaker.CountsStreak | src/middleware/circuit_breaker.rs:120-166 | In every run the counter of a closed circuit is the number of failures recorded in a row in the history |
| MemoryBreaker.OpensExactlyAtThreshold | src/middleware/circuit_breaker.rs:120-166 | In every run a closed circuit opens exactly on the failure that makes the streak max(1, threshold), for the recovery time |
| MemoryBreaker.OpenRejectsUntilDeadline | src/middleware/circuit_breaker.rs:42-166 | Whatever calls, cleanups and evictions happen on any key, an open circuit stays and rejects every check until its deadline |
| MemoryBreaker.CountsGrants | src/middleware/circuit_breaker.rs:99-117 | In every run a half-open circuit counts exactly the requests let through since it became half-open, recorded or not |
| MemoryBreaker.HalfOpenBound | src/middleware/circuit_breaker.rs:99-117 | So they are never more than max(1, half_open_probes) |
| MemoryBreaker.StuckUntilRecord | src/middleware/circuit_breaker.rs:420 | A half-open circuit with all probes used and no outcome recorded rejects every check of the key, in every run that does not leave it idle |
| MemoryBreaker.Housekeeping | src/middleware/circuit_breaker.rs:42-81 | A call drops only entries idle past the time to live and not open before their deadline, keeps the others as they were, keeps no such entry at cleanup time, and evicts the longest idle one |
| MemoryBreaker.SeenAtLastCall | src/middleware/circuit_breaker.rs:83-166 | In every run idleness counts from the last call on the key, whatever it was |
| MemoryBreaker.StepSize | src/middleware/circuit_breaker.rs:68-81 | A new key leaves the number of entries as it was exactly when the store is full and some entry may go |
| MemoryBreaker.CapacityBound | src/middleware/circuit_breaker.rs:68-81 | In every run the store holds at most max_keys entries, and one more for each call that found it full with none that may go |
| CircuitHistory.HistoryDecides | src/middleware/circuit_breaker.rs:83-166 | After any calls a circuit is open exactly since it tripped, until a recovery time later, if no check came after that; half-open exactly since such a check, if no outcome was recorded since, counting the checks up to the probes; otherwise closed, counting the failures since the last success. It trips on the failure of a probe, or on the failure that completes a row of max(1, threshold) |
| CircuitHistory.HistoryAnswers | src/middleware/circuit_breaker.rs:83-118 | So a check is let through exactly when every trip is a recovery time ago and an episode has had fewer checks than there are probes |
| BreakerHistories.StoreTold | src/middleware/circuit_breaker.rs:42-166 | In every run of the in-memory store, with all its forgetting, each circuit is the one told by the calls on it since it was last dropped |
| BreakerHistories.StoreAnswers | src/middleware/circuit_breaker.rs:83-118 | And each check is answered as they say |
| BreakerHistories.SuccessCloses | src/middleware/circuit_breaker.rs:153-157 | After a recorded success a half-open circuit is closed with no failures, and the next check of it is let through at any time |
| BreakerHistories.FailureReopens | src/middleware/circuit_breaker.rs:158-162 | After a recorded failure it is open for the recovery time, and all checks of it in any run before then are rejected |
| RedisBreaker.Server.RunCheck | src/middleware/circuit_breaker.rs:467-505 | The script, command by command: its effect on the database and its return code |
| RedisBreaker.Server.RunRecord | src/middleware/circuit_breaker.rs:507-545 | The script, command by command: its effect on the database |
| RedisBreaker.ScriptRefines | src/middleware/circuit_breaker.rs:467-545 | Each script moves its circuit as the in-memory automaton does and touches no other key |
| RedisBreaker.AnswerRefines | src/middleware/circuit_breaker.rs:487-503 | The return code means Allow exactly when the automaton allows |
| RedisBreaker.RunOk | src/middleware/circuit_breaker.rs:467-545 | In every ordered run all hashes are well-formed and expiries lie the grace period after the last call |
| RedisBreaker.ScriptsRefineReference | src/middleware/circuit_breaker.rs:467-545 | In every ordered run in which no call finds its hash expired while its circuit still mattered, on all keys, the hashes are the circuits of a breaker that never forgets |
| RedisBreaker.AnswersMatchReference | src/middleware/circuit_breaker.rs:467-505 | So every check of such a run is answered as that breaker answers it |
| RedisBreaker.AnswersLikeIff | src/middleware/circuit_breaker.rs:467-545 | After such a run, whatever calls on a key come at one instant, the checks among them are answered as that breaker answers them exactly when the hash has not expired or the circuit was closed with no failures |
| RedisBreaker.ExpiryKeepsOpenCircuits | src/middleware/circuit_breaker.rs:507-545 | In every ordered run an open hash outlives its deadline by the grace period |
| RedisBreaker.OpenRejectsUntilDeadline | src/middleware/circuit_breaker.rs:467-545 | In every ordered run an open hash keeps its deadline, whatever calls come, and every check before it is rejected |
| RedisBreaker.FirstRecordStays | src/middleware/circuit_breaker.rs:507-545 | The hash that a record creates has no expiry until the next call on its key |
| RedisBreaker.CallExtends | src/middleware/circuit_breaker.rs:467-545 | Every call that finds the hash makes it expire exactly the recovery time and a minute later |
| RedisBreaker.StuckUntilRecord | src/middleware/circuit_breaker.rs:420 | The same for all callers of the scripts, as long as checks come within the expiry |
| RedisBreaker.ExpiryForgetsStreak | src/middleware/circuit_breaker.rs:507-545 | A streak interrupted for longer than the expiry is lost |
| BreakerHistories.ScriptsTold | src/middleware/circuit_breaker.rs:467-545 | In every ordered run of the scripts, with all expiries, each hash is the circuit told by the calls on its key since one of them last found no hash |
| BreakerHistories.ScriptsAnswer | src/middleware/circuit_breaker.rs:467-505 | And each check is answered as they say |
| BreakerHistories.ScriptsSayHowLong | src/middleware/circuit_breaker.rs:487-496 | The reply for a tripped circuit is the time left until a recovery time after it tripped |
| BreakerHistories.ScriptsClose | src/middleware/circuit_breaker.rs:535-537 | After a success recorded on a half-open hash, the next check of it is let through at any time |
| BreakerHistories.ScriptsReopen | src/middleware/circuit_breaker.rs:538-541 | After a failure recorded there, every check of it before the recovery time is over is rejected |
| BreakerTwins.MemoryMatchesReference | src/middleware/circuit_breaker.rs:83-166 | The in-memory store also is the breaker that never forgets, as long as it drops only reset circuits |
| BreakerTwins.AnswersLikeIff | src/middleware/circuit_breaker.rs:42-166 | After such a run, whatever calls on a key come at one instant, the store answers as that breaker exactly when housekeeping keeps the circuit or it was closed with no failures |
| BreakerTwins.FailureForgotten | src/middleware/circuit_breaker.rs:42-66 | For every configuration, a run of one admitted request that fails, and a time at which cleanup drops its circuit, so that the store no longer answers as that breaker |
| BreakerTwins.TwinsAgree | src/middleware/circuit_breaker.rs:83-166 | On the same calls, as long as neither forgets a circuit that matters, the in-memory store and the scripts give the same answer to every check |
| BreakerCluster.LocalCache.MaybeCleanup | src/middleware/circuit_breaker.rs:458-464 | Drops exactly the expired entries, at most once per interval |
| BreakerCluster.LocalCache.Consult | src/middleware/circuit_breaker.rs:623-632 | Answers with an unexpired entry; cleaning up first takes no answer away |
| BreakerCluster.LocalCache.Keep | src/middleware/circuit_breaker.rs:653-680 | Keeps closed answers for the time to live, open ones no longer than the time left, half-open ones never |
| BreakerCluster.LocalCache.Invalidate | src/middleware/circuit_breaker.rs:727-729 | A record removes the entry of its key and no other |
| BreakerCluster.DatabaseIsSerial | src/middleware/circuit_breaker.rs:611-731 | Whatever instances interleave, the database is that of one run of script calls in time order |
| BreakerCluster.EpisodeCountsGrants | src/middleware/circuit_breaker.rs:487-503 | In a half-open episode the hash counts exactly the requests that Redis lets through, recorded or not |
| BreakerCluster.HalfOpenBound | src/middleware/circuit_breaker.rs:487-503 | In every run of any number of instances, Redis lets at most max(1, half_open_probes) requests through in one half-open episode |
| BreakerCluster.RepliesAreSourced | src/middleware/circuit_breaker.rs:644-653 | Every reply on its way was given by Redis to an earlier check |
| BreakerCluster.EntriesAreBacked | src/middleware/circuit_breaker.rs:653-680 | Every cache entry comes from a reply that its own instance received |
| BreakerCluster.CacheStaleness | src/middleware/circuit_breaker.rs:612-731 | A cached answer was given by Redis later than the time to live plus the reply's travel time ago, was never half-open, and a rejection is not served past the recovery deadline plus that travel time |
| BreakerCluster.AnswersForLifetime | src/middleware/circuit_breaker.rs:623-680 | In every run a cached answer is given for all of its lifetime (the time to live, and for a rejection no more than the time left) and not after, unless a reply to a record, or a later closed or open reply, on the key arrives |
| BreakerCluster.LookForgets | src/middleware/circuit_breaker.rs:458-464 | Cleaning up keeps no answer that has run out |
| BreakerAdmissions.ClosedAnswerIsOld | src/middleware/circuit_breaker.rs:507-545 | In every half-open episode, a closed answer that Redis gave before it is at least the recovery time old |
| BreakerAdmissions.AdmissionBound | src/middleware/circuit_breaker.rs:612-681 | If every cached answer is gone within the recovery time of its check, all instances together, by Redis and by their caches, let at most max(1, half_open_probes) requests through in one half-open episode |
| BreakerAdmissions.BoundsAdmissionsIff | src/middleware/circuit_breaker.rs:612-681 | Given a bound on the travel time of replies, that holds in all runs exactly when for every caching instance the time to live is zero or, with that travel time, at most the recovery time |
| BreakerAdmissions.Leaks | src/middleware/circuit_breaker.rs:623-632 | Otherwise, for every number, a run of such replies in which that many requests get through in one episode |
| BreakerAdmissions.CacheOutlivesRecovery | src/middleware/circuit_breaker.rs:623-632 | For instance one probe, a recovery time of 10 and a cache of 100 |
| BreakerCluster.InvalidatedUntilNextReply | src/middleware/circuit_breaker.rs:691-731 | After a record's reply, an instance has no cached answer until another check reply arrives, and then that reply's |
| BreakerCluster.QuietRecordIsSeen | src/middleware/circuit_breaker.rs:594-597 | If no closed or open reply for the key is on its way when a record is made, every answer cached after the record's reply is that of a check that ran after the record |
| BreakerCluster.LateReplyHidesRecord | src/middleware/circuit_breaker.rs:594-597 | From every reachable state with such a reply on its way, a continuation in which the cache answers as Redis did before the record |
| BreakerCluster.StaleReplyAfterRecord | src/middleware/circuit_breaker.rs:553-555 | A run in which that reply is older than the record and hides the circuit it opened |
| TokenBucket.TakeMovesLevel | src/middleware/rate_limiter.rs:32-45 | Each request moves the bucket's debt line on by one token |
| TokenBucket.Conformance | src/middleware/rate_limiter.rs:32-45 | For any two requests on a key, releases keep their order and number at most max(burst, 1) plus rate times the time between the two releases |
| TokenBucket.DropIsInvisibleIff | src/middleware/rate_limiter.rs:76-100 | Dropping a bucket changes no delay that any later requests are given exactly when it is full |
| TokenBucket.IdleMeansFullIff | src/middleware/rate_limiter.rs:63-74 | A bucket idle past the time to live is full exactly when its last delay was at most that time less the refill time |
| RateLimitStore.SharedState.TtlInEffect | src/middleware/rate_limiter.rs:72-74 | The time to live is at least the configured one and the refill time |
| RateLimitStore.SharedState.MaybeCleanup | src/middleware/rate_limiter.rs:76-84 | Drops exactly the idle buckets, at most once per interval |
| RateLimitStore.SharedState.FindOldest | src/middleware/rate_limiter.rs:90-96 | Finds an idle bucket that has been idle longest, or there is none |
| RateLimitStore.SharedState.EvictIfNeeded | src/middleware/rate_limiter.rs:86-100 | Drops one such bucket exactly when a new key finds the store full |
| RateLimitStore.SharedState.Take | src/middleware/rate_limiter.rs:102-118 | Steps the bucket of its key and returns its delay, absent exactly when it is zero |
| RateLimitStore.ForgettingIsInvisible | src/middleware/rate_limiter.rs:63-118 | In every run that drops only full buckets, every release of every key is that of a bucket that is never dropped |
| RateLimitStore.RefilledIsFull | src/middleware/rate_limiter.rs:63-118 | A run drops only full buckets if each had last given no delay, or one of at most the effective time to live less the refill time |
| RateLimitStore.StoreConforms | src/middleware/rate_limiter.rs:63-118 | So the whole store conforms, key by key, in every such run |
| RateLimitStore.ForgettingLosesDebt | src/middleware/rate_limiter.rs:76-84 | For every configuration, a run from a new store in which cleanup drops a bucket that is not full and the last request is let go earlier than a bucket that is never dropped would let it |
| RateLimitStore.Housekeeping | src/middleware/rate_limiter.rs:76-100 | A call drops only buckets idle past both the idle time and the refill time, keeps the others as they were, keeps no such one at cleanup time, and evicts the longest idle one |
| RateLimitStore.SeenAtLastCall | src/middleware/rate_limiter.rs:86-118 | In every run idleness counts from the last request on the key |
| RateLimitStore.StepSize | src/middleware/rate_limiter.rs:86-118 | A new key leaves the number of buckets as it was exactly when the store is full and some may go |
| RateLimitStore.CapacityBound | src/middleware/rate_limiter.rs:86-118 | In every run the store holds at most max_keys buckets, and one more for each request that found it full with none idle |
| RateLimitScript.Server.RunTake | src/middleware/rate_limiter.rs:332-362 | The script, command by command: the hash it leaves and the delay it returns |
| RateLimitScript.ScriptKeepsBucket | src/middleware/rate_limiter.rs:332-362 | In every run in which no hash expires before its bucket is full, the hash is the in-memory bucket |
| RateLimitScript.ScriptRoundsUp | src/middleware/rate_limiter.rs:332-362 | The delays the script gives in such a run are those of that bucket, rounded up to whole milliseconds |
| RateLimitScript.ExpiredIsFull | src/middleware/rate_limiter.rs:414 | A hash never expires before its bucket is full if the last request had to wait at most the grace period |
| RateLimitScript.ExactIff | src/middleware/rate_limiter.rs:332-362 | After such a run in time order, requests at one instant, however many, are given the replies, in whole milliseconds, of a bucket that is never dropped exactly when the hash has not expired or the bucket is full |
| RateLimitScript.ExpiryLosesDebt | src/middleware/rate_limiter.rs:332-362 | For every rate and burst, a run at whose end the hash has expired although the bucket is not full |
| RateLimitScript.ExpiryLosesSixtyTwo | src/middleware/rate_limiter.rs:414 | For instance 62 requests at once or more, one token a second and a burst of one, 61.001 seconds later |
| WindowQueue.RequestedInv | src/middleware/sliding_window.rs:64-95 | After every run, however waiters overlap, releases are sorted, the queue's front is not in the future, and future reservations imply more than `count` entries |
| WindowQueue.RequestFinds | src/middleware/sliding_window.rs:79-94 | Every wait lies between nothing and one window, and the subtraction that gives it does not underflow |
| WindowQueue.UndelayedSeesRoom | src/middleware/sliding_window.rs:64-95 | On a queue that is never dropped, a request let through at once sees at most `count` releases in the window ending with it |
| WindowQueue.CapHoldsIff | src/middleware/sliding_window.rs:89-92 | On a queue that is never dropped, a release is a window after the one `count` places before exactly when the queue found has room or a young enough front |
| WindowQueue.HardCap | src/middleware/sliding_window.rs:64-95 | On a queue that is never dropped, and without overlapping waiters, every release is at least a window after the one `count` places before |
| WindowQueue.WindowHoldsAtMostCount | src/middleware/sliding_window.rs:143-146 | Releases so spaced never put more than `count` into a half-open interval as long as the window |
| WindowQueue.CapOverEveryWindow | src/middleware/sliding_window.rs:64-95 | Both together, for a queue that is never dropped |
| WindowQueue.OverlapBreaksCap | src/middleware/sliding_window.rs:89-92 | Two overlapping waiters released together |
| SlidingWindowStore.SharedState.MaybeCleanup | src/middleware/sliding_window.rs:38-46 | Drops exactly the idle queues, at most once per interval |
| SlidingWindowStore.SharedState.FindOldest | src/middleware/sliding_window.rs:52-58 | Finds an idle queue that has been idle longest, or there is none |
| SlidingWindowStore.SharedState.EvictIfNeeded | src/middleware/sliding_window.rs:48-62 | Drops one such queue exactly when a new key finds the store full |
| SlidingWindowStore.SharedState.Drain | src/middleware/sliding_window.rs:79-82 | The loop removes exactly the leading entries that have left the window |
| SlidingWindowStore.SharedState.Reserve | src/middleware/sliding_window.rs:79-94 | Queues the release and returns its delay, absent exactly when it is zero |
| SlidingWindowStore.SharedState.Take | src/middleware/sliding_window.rs:64-95 | Steps the queue of its key and no other, after housekeeping |
| SlidingWindowStore.DropIsInvisibleIff | src/middleware/sliding_window.rs:38-62 | Dropping a queue changes no delay that any later requests are given exactly when its last entry has left the window |
| SlidingWindowStore.TtlSufficesIff | src/middleware/sliding_window.rs:34-36 | Every idle queue is as good as empty exactly when the time to live is at least two windows less one tick |
| SlidingWindowStore.ForgettingIsInvisible | src/middleware/sliding_window.rs:34-95 | With such a time to live, in every run, the releases of every key are those of a queue that is never dropped |
| SlidingWindowStore.Housekeeping | src/middleware/sliding_window.rs:34-62 | A call drops only queues idle past both the idle time and the window, keeps the others as they were, keeps no such one at cleanup time, and evicts the longest idle one |
| SlidingWindowStore.SeenAtLastCall | src/middleware/sliding_window.rs:48-95 | In every run idleness counts from the last request on the key |
| SlidingWindowStore.StepSize | src/middleware/sliding_window.rs:48-95 | A new key leaves the number of queues as it was exactly when the store is full and some may go |
| SlidingWindowStore.CapacityBound | src/middleware/sliding_window.rs:48-95 | In every run the store holds at most max_keys queues, and one more for each request that found it full with none idle |
| SlidingWindowCap.StoreCap | src/middleware/sliding_window.rs:143-146 | The documented cap for the store: with such a time to live, in every run in which no request on the key arrives before the previous one is released, no half-open interval as long as the window holds more than `count` of its releases |
| SlidingWindowCap.StoreSeesRoom | src/middleware/sliding_window.rs:64-95 | With such a time to live, in every run, a request let through at once sees at most `count` releases in the window ending with it |
| SlidingWindowCap.StoreCapHoldsIff | src/middleware/sliding_window.rs:76-94 | With such a time to live, a release is a window after the one `count` places before exactly when the queue found in the store has room or a young enough front |
| SlidingWindowCap.CapAlwaysIff | src/middleware/sliding_window.rs:34-95 | Both the cap without overlap and the room seen hold in all runs of a store exactly when the effective time to live is at least two windows less one tick |
| SlidingWindowCap.ImpatientBreaksCap | src/middleware/sliding_window.rs:38-46 | Otherwise, for every such configuration, a run without overlapping waiters that breaks both |
| SlidingWindowCap.CleanupBreaksCap | src/middleware/sliding_window.rs:38-46 | For instance one request per ten ticks and a time to live of ten: arrivals 0, 0 and 11 |
| SlidingWindowCap.OverlapUncapped | src/middleware/sliding_window.rs:83-94 | For every configuration and every k, a run of the store in which `count` + k requests arrive together and the last k are all released one window later, within one interval |
| SlidingWindowScript.Server.RunTake | src/middleware/sliding_window.rs:300-331 | The script, command by command: the sorted set it leaves and the delay it returns |
| SlidingWindowScript.InsertAt | src/middleware/sliding_window.rs:300-331 | A new score stands after those up to it and before those after it |
| SlidingWindowScript.ScriptMatchesQueue | src/middleware/sliding_window.rs:300-331 | In every run the script gives each request the delay of the in-memory queue |
| SlidingWindowScript.ExpiryKeepsWindow | src/middleware/sliding_window.rs:300-331 | The expiry never drops a score still inside the window |
| RetryBudget.BudgetState.MaybeResetWindow | src/middleware/retry.rs:59-65 | Starts a new window exactly when the old one is over |
| RetryBudget.BudgetState.RecordRequest | src/middleware/retry.rs:67-70 | Counts one more request, in a new window if the old one is over |
| RetryBudget.BudgetState.AllowsRetry | src/middleware/retry.rs:72-82 | Grants up to the floor, and beyond it while the share of retries is below the ratio |
| RetryBudget.BudgetState.Spend | src/middleware/retry.rs:543-550 | Asking and counting under one lock is one step |
| RetryBudget.BudgetBound | src/middleware/retry.rs:59-86 | In every run, under any interleaving, retries stay within the floor, or all but the last one are below the ratio's share of everything before it |
| RetryBudget.CountersCount | src/middleware/retry.rs:59-86 | In every run the counters are the requests and granted retries of the current window, where windows are told from the times of the events alone: the first event a window length after one began opens the next |
| RetryBudget.GrantedIff | src/middleware/retry.rs:72-82 | A retry is granted exactly when, among the events before it in its window, the granted retries are below the floor, there are no events at all, or the retries are a share of all below the ratio |
| RetryBudget.WindowBound | src/middleware/retry.rs:349-358 | In every window of every run the granted retries r and the requests q satisfy r <= max(min_retries, 1) or r - 1 < ratio * (q + r - 1) |
| RetryBudget.RetriesPerRequests | src/middleware/retry.rs:349-358 | For a ratio below one, a window with q requests has, beyond the floor, fewer than 1 + q * ratio / (1 - ratio) retries |
| RetryBudget.OvershootBelowOne | src/middleware/retry.rs:349-358 | The documented share is passed by less than one retry |
| RetryBudget.ShareKeptIff | src/middleware/retry.rs:349-358 | A granted retry keeps the documented share exactly when the room it finds is at least one retry less the ratio |
| RetryBudget.ShareAlwaysIff | src/middleware/retry.rs:59-86 | In all runs the retries of a window are within the floor or within the documented share, exactly when the ratio is at least one, or the floor is at least one and ratio / (1 - ratio) is a whole number or the ratio not positive |
| RetryBudget.PartGranted | src/middleware/retry.rs:72-82 | Otherwise, with a floor, some number of requests and the retries the budget grants after them pass floor and share |
| RetryBudget.LoneRetry | src/middleware/retry.rs:78-79 | And without a floor, a retry at the start of a new window does |
| RetryBudget.OvershootsByOne | src/middleware/retry.rs:349-358 | A run that passes the documented share |
| ReplayBody.ReplayCapture.RecordChunk | src/middleware/retry.rs:671-684 | Appends a chunk that fits, and gives up for good on one that does not |
| ReplayBody.ReplayCapture.TakeSnapshot | src/middleware/retry.rs:686-694 | The bytes, only if complete and not given up |
| ReplayBody.RecordingBody.PollFrame | src/middleware/retry.rs:711-732 | Every frame, error, end and pending poll goes through unchanged, and the capture sees exactly it |
| ReplayBody.CapturedExactly | src/middleware/retry.rs:654-732 | After any number of polls the capture is complete exactly past the end, given up exactly after an error or too much data, and else holds exactly the data so far |
| ReplayBody.SnapshotIsBody | src/middleware/retry.rs:686-694 | A snapshot exists exactly for a wholly drawn, error-free body within the limit, and is its data |
| ReplayBody.DataAdds | src/middleware/retry.rs:671-684 | The data of a body is that of its parts, in order |
| ReplayBody.DataOfOne | src/middleware/retry.rs:671-684 | A data frame adds its bytes, anything else nothing |
| RetryLoop.Decide | src/middleware/retry.rs:527-632 | Over the three policy branches: which responses ask for a retry, and what the caller gets otherwise |
| RetryLoop.Draw | src/middleware/retry.rs:512-525 | Upstream's polls leave the capture of exactly those polls |
| RetryLoop.Call | src/middleware/retry.rs:477-636 | Under each policy every attempt before the last was answered with a listed status, or with a response for which the function asks for a retry at that attempt number; a response of that sort is returned only if the attempts are used up, the method is not to be retried, the body cannot be sent again or the budget refuses; a first answer not of that sort is returned after one attempt. Attempts are at most max_retries + 1, and one for methods not allowed; every retry sends exactly the original data, if the body has the size it announces; the result is the last attempt's; the loop ends by returning |
| Throttle.ThrottledBody.PollFrame | src/middleware/bandwidth_throttle.rs:112-167 | One poll: what it returns and what it holds back |
| Throttle.DeliveryConserves | src/middleware/bandwidth_throttle.rs:112-167 | After every run of polls, delivered, held and undrawn frames are together the original sequence |
| Throttle.RateBound | src/middleware/bandwidth_throttle.rs:112-167 | After every run, data bytes delivered are at most the rate times the time since the poll that took the first data frame from the inner body |
| Throttle.StartsAtFirstDraw | src/middleware/bandwidth_throttle.rs:143-145 | The body's clock starts with the poll that takes the first data frame |
| Throttle.HeldUntilDue | src/middleware/bandwidth_throttle.rs:112-167 | A held frame comes out at the first poll at which the rate allows all bytes up to it since that first draw, and not before |
| Throttle.NextAnswer | src/middleware/bandwidth_throttle.rs:129-167 | With nothing held back, a poll is pending if the inner body is; else it answers the end exactly when every item was delivered, and the next item exactly when it has no data or all bytes up to it are due since the first draw |
| Utf8.Shifts | src/middleware/script_runtime.js:8-20 | Shifting the bits right divides |
| Utf8.Masks | src/middleware/script_runtime.js:8-20 | Masking the low six bits takes the remainder |
| Utf8.OrJoins | src/middleware/script_runtime.js:8-20 | Joining disjoint bits adds |
| Utf8.FourByBits | src/middleware/script_runtime.js:13-18 | The four bytes of a code point, as the encoder computes them bit by bit |
| Utf8.EncodeAt | src/middleware/script_runtime.js:4-21 | The bytes pushed for one unit, and where the loop goes on |
| Utf8.EncodeUtf8 | src/middleware/script_runtime.js:1-24 | The loop ends, stays in bounds and gives the bytes of the whole string |
| Utf8.DecodesToPoints | src/middleware/script_runtime.js:1-24 | For every well-formed UTF-16 string (section 2.2 of RFC 2781), a strict decoder for section 3 of RFC 3629 gives back its code points |
| Utf8.RoundTripIff | src/middleware/script_runtime.js:1-24 | Decoding gives back the very string exactly when it was well-formed |

## Left out

- KDL parsing, command-line merging, scope validation of rules and process settings.
- TLS, CONNECT, listeners, connection pool, tunnels, signals and all other I/O.
- The five spellings of a match (`match`, `host`, `path`, `method`, `methods`) are one kind of node.
- Glob, regex and path matching: the predicate of a match is any predicate on requests, or an error.
- The bodies of middleware other than those above, and the order in which layers wrap each other; predicates are judged on one fixed request, although a layer may change the request that inner layers see.
- The fallback from Redis to an in-memory store on errors: scripts succeed, and each runs atomically.
- Clock readings: each call under a lock reads the clock once, and readings never go back.
- Rounding of `f64` token, rate and ratio values: they are exact reals, and recovery times, windows and time to live of the Redis forms are whole milliseconds.
- Integer widths: counters are unbounded; `MemoryBreaker` and `RedisBreaker` keep theirs below threshold and probes.
- Back-off delays, jitter and `Retry-After`: a retry policy says only whether to retry.
- HTTP trailers on replay: only data frames are captured and sent again.
- Members of a sorted set: the script's random suffix is taken to make each one new.
- Empty settings: `count`, windows, rate and bytes per second are positive.
- RuleWalk.WalkCtx.WalkBody: says nothing of the walker's stacks after a failed walk, whose context is thrown away.
- RetryLoop.Call: for a body that announces to be empty and is not, a retry sends nothing; that is stated, and no more.
- ScopeKeys.ScopeIsolation: for named matches and across listeners it is false (NamesMayCollide, ListenersShareNumbers); StackIsolation says when keys are equal then.
- RetryBudget.ShareAlwaysIff: over all runs of requests and retries on the budget; that one request asks for at most max_retries of them is not used.
- BreakerTwins.TwinsAgree: only for runs in which neither store forgets a circuit that matters; with forgetting it is false (ExpiryForgetsStreak, AnswersLikeIff).
- RateLimitScript.ScriptRoundsUp: only for runs in which no hash expires before its bucket is full; otherwise it is false (ExactIff, ExpiryLosesDebt).
