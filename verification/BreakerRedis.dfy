/** The Redis form of the breaker: the two Lua scripts over one hash per circuit. Times are Redis
    milliseconds, and `recovery` is a whole number of them. */
module RedisBreaker {
  import opened Options
  import opened Circuit

  const GRACE_MS := 60_000

  /** A Redis hash. A field that was never written reads as 0; `expireAt` is what PEXPIRE set. */
  datatype Hash = Hash(state: int, failures: int, untilMs: int, inFlight: int, expireAt: Option<int>)

  type Db = map<string, Hash>

  datatype Call = CheckCall(key: string, now: int) | RecordCall(key: string, success: bool, now: int)

  const EMPTY := Hash(0, 0, 0, 0, None)

  predicate Expired(h: Hash, now: int) { h.expireAt.Some? && now > h.expireAt.value }

  /** What Redis shows of a key: an expired key is gone. */
  predicate Live(db: Db, key: string, now: int) { key in db && !Expired(db[key], now) }

  /** The fields HMGET returns. */
  function Fields(db: Db, key: string, now: int): Hash {
    if Live(db, key, now) then db[key] else EMPTY
  }

  function Ttl(c: Settings): nat { c.recovery + GRACE_MS }

  /** PEXPIRE: no effect on a missing key. */
  function Pexpire(db: Db, key: string, ttl: nat, now: int): Db {
    if Live(db, key, now) then db[key := db[key].(expireAt := Some(now + ttl))] else db - {key}
  }

  /** The return code of CB_CHECK_LUA: 0 closed, positive open with the milliseconds left,
      -1 a half-open probe, -2 half-open and full. */
  function CheckCode(c: Settings, h: Hash, now: int): int {
    if h.state == 1 then (if now >= h.untilMs then -1 else h.untilMs - now)
    else if h.state == 2 then (if h.inFlight < c.probes then -1 else -2)
    else 0
  }

  function ActionOf(code: int): Action { if code > 0 || code == -2 then Reject else Allow }

  /** The database after CB_CHECK_LUA. */
  function CheckScript(c: Settings, db: Db, key: string, now: int): Db {
    var h := Fields(db, key, now);
    var db1 := Pexpire(db, key, Ttl(c), now);
    if key !in db1 then db1
    else if h.state == 1 && now >= h.untilMs then db1[key := db1[key].(state := 2, inFlight := 1)]
    else if h.state == 2 && h.inFlight < c.probes then db1[key := db1[key].(inFlight := h.inFlight + 1)]
    else db1
  }

  /** The database after CB_RECORD_LUA. PEXPIRE comes before HSET, so a hash that this call creates
      has no expiry yet. */
  function RecordScript(c: Settings, db: Db, key: string, success: bool, now: int): Db {
    var h := Fields(db, key, now);
    var db1 := Pexpire(db, key, Ttl(c), now);
    var h1 := if key in db1 then db1[key] else EMPTY;
    if h.state == 0 then
      if success then db1[key := h1.(failures := 0)]
      else if h.failures + 1 >= c.threshold then
        db1[key := h1.(state := 1, failures := h.failures + 1, untilMs := now + c.recovery, inFlight := 0)]
      else db1[key := h1.(failures := h.failures + 1)]
    else if h.state == 2 then
      if success then db1[key := h1.(state := 0, failures := 0, inFlight := 0)]
      else db1[key := h1.(state := 1, failures := 0, untilMs := now + c.recovery, inFlight := 0)]
    else db1
  }

  function Run1(c: Settings, db: Db, call: Call): Db {
    match call
    case CheckCall(key, now) => CheckScript(c, db, key, now)
    case RecordCall(key, success, now) => RecordScript(c, db, key, success, now)
  }

  /** A Redis server executing the scripts command by command; each script is atomic. */
  class Server {
    var db: Db

    method Hmget(key: string, now: int) returns (h: Hash)
      ensures h == Fields(db, key, now)
    {
      h := if key in db && !Expired(db[key], now) then db[key] else EMPTY;
    }

    method PexpireCommand(key: string, ttl: nat, now: int)
      modifies this
      ensures db == Pexpire(old(db), key, ttl, now)
    {
      if key in db && !Expired(db[key], now) {
        db := db[key := db[key].(expireAt := Some(now + ttl))];
      } else {
        db := db - {key};
      }
    }

    method RunCheck(c: Settings, key: string, now: int) returns (code: int)
      modifies this
      ensures db == CheckScript(c, old(db), key, now)
      ensures code == CheckCode(c, Fields(old(db), key, now), now)
    {
      var data := Hmget(key, now);
      PexpireCommand(key, Ttl(c), now);
      if data.state == 0 {
        return 0;
      } else if data.state == 1 {
        if now >= data.untilMs {
          db := db[key := db[key].(state := 2, inFlight := 1)];
          return -1;
        } else {
          return data.untilMs - now;
        }
      } else if data.state == 2 {
        if data.inFlight < c.probes {
          db := db[key := db[key].(inFlight := db[key].inFlight + 1)];
          return -1;
        } else {
          return -2;
        }
      }
      return 0;
    }

    /** HSET of the three or four fields a record writes; it creates a missing hash. */
    method Hset(key: string, h: Hash)
      modifies this
      ensures db == old(db)[key := h.(expireAt := if key in old(db) then old(db)[key].expireAt else None)]
    {
      db := db[key := h.(expireAt := if key in db then db[key].expireAt else None)];
    }

    method RunRecord(c: Settings, key: string, success: bool, now: int)
      modifies this
      ensures db == RecordScript(c, old(db), key, success, now)
    {
      var data := Hmget(key, now);
      PexpireCommand(key, Ttl(c), now);
      if data.state == 0 {
        if success {
          Hset(key, data.(failures := 0));
        } else {
          var failures := data.failures + 1;
          if failures >= c.threshold {
            Hset(key, data.(state := 1, failures := failures, untilMs := now + c.recovery, inFlight := 0));
          } else {
            Hset(key, data.(failures := failures));
          }
        }
      } else if data.state == 2 {
        if success {
          Hset(key, data.(state := 0, failures := 0, inFlight := 0));
        } else {
          Hset(key, data.(state := 1, failures := 0, untilMs := now + c.recovery, inFlight := 0));
        }
      }
    }
  }

  // ---- refinement of the automaton ------------------------------------------------------------

  /** What every hash the scripts write satisfies up to time `now`. The last line is why PEXPIRE
      cannot drop an open circuit before its deadline: the expiry lies the grace period after it. */
  predicate HashOk(c: Settings, h: Hash, now: int) {
    && h.state in {0, 1, 2} && h.failures >= 0 && h.inFlight >= 0
    && (h.state == 2 ==> 1 <= h.inFlight <= ProbeLimit(c))
    && (h.state == 0 ==> h.failures < TripsAt(c))
    && (h.state == 1 ==> h.untilMs <= now + c.recovery)
    && (h.state == 1 && h.expireAt.Some? ==> h.expireAt.value >= h.untilMs + GRACE_MS)
  }

  /** The circuit a hash stands for. */
  function Abs(h: Hash): State
    requires h.failures >= 0 && h.inFlight >= 0
  {
    if h.state == 1 then Open(h.untilMs)
    else if h.state == 2 then HalfOpen(h.inFlight)
    else Closed(h.failures)
  }

  ghost predicate DbOk(c: Settings, db: Db, now: int) {
    forall k | k in db :: HashOk(c, db[k], now)
  }

  /** The circuit a hash of the database stands for, and the one the scripts see: an expired or
      missing hash is a closed circuit with no failures. */
  function Stored(c: Settings, db: Db, key: string, now: int): State
    requires key in db ==> HashOk(c, db[key], now)
  {
    if key in db then Abs(db[key]) else Closed(0)
  }

  function View(c: Settings, db: Db, key: string, now: int): State
    requires key in db ==> HashOk(c, db[key], now)
  {
    Abs(Fields(db, key, now))
  }

  function OpOf(call: Call): Op {
    match call
    case CheckCall(_, _) => Check
    case RecordCall(_, success, _) => Record(success)
  }

  ghost predicate SameElsewhere(db: Db, db': Db, key: string) {
    forall k | k != key :: (k in db' <==> k in db) && (k in db ==> db'[k] == db[k])
  }

  /** Database `db'` is `db` after `op` on one circuit, as the automaton moves it, and no other. */
  ghost predicate Moved(c: Settings, db: Db, db': Db, key: string, op: Op, now: int) {
    && DbOk(c, db, now) && DbOk(c, db', now) && SameElsewhere(db, db', key)
    && Stored(c, db', key, now) == Next(c, View(c, db, key, now), op, now)
    && (key in db' ==> Live(db', key, now))
  }

  lemma CheckMoves(c: Settings, db: Db, key: string, now: int)
    requires DbOk(c, db, now)
    ensures Moved(c, db, CheckScript(c, db, key, now), key, Check, now)
  {
  }

  lemma RecordMoves(c: Settings, db: Db, key: string, success: bool, now: int)
    requires DbOk(c, db, now)
    ensures Moved(c, db, RecordScript(c, db, key, success, now), key, Record(success), now)
  {
  }

  /** Each script call moves its circuit as the automaton does and touches no other circuit. */
  lemma ScriptRefines(c: Settings, db: Db, call: Call)
    requires DbOk(c, db, call.now)
    ensures Moved(c, db, Run1(c, db, call), call.key, OpOf(call), call.now)
  {
    match call
    case CheckCall(key, now) => CheckMoves(c, db, key, now);
    case RecordCall(key, success, now) => RecordMoves(c, db, key, success, now);
  }

  /** The answer of CB_CHECK_LUA is the automaton's answer. */
  lemma AnswerRefines(c: Settings, db: Db, key: string, now: int)
    requires DbOk(c, db, now)
    ensures ActionOf(CheckCode(c, Fields(db, key, now), now)) == Allow <==> Allows(c, View(c, db, key, now), now)
  {
  }

  // ---- whole runs -----------------------------------------------------------------------------

  function After(c: Settings, calls: seq<Call>): Db {
    if calls == [] then map[] else Run1(c, After(c, calls[..|calls| - 1]), calls[|calls| - 1])
  }

  ghost predicate Ordered(calls: seq<Call>) {
    forall i, j | 0 <= i < j < |calls| :: calls[i].now <= calls[j].now
  }

  /** The reference: the circuit of `key` in a breaker that never forgets. */
  function Reference(c: Settings, calls: seq<Call>, key: string): State {
    if calls == [] then Closed(0)
    else
      var pre, call := calls[..|calls| - 1], calls[|calls| - 1];
      if call.key == key then Next(c, Reference(c, pre, key), OpOf(call), call.now) else Reference(c, pre, key)
  }

  /** The time of the last call on `key`. */
  function Last(calls: seq<Call>, key: string): Option<int> {
    if calls == [] then None
    else if calls[|calls| - 1].key == key then Some(calls[|calls| - 1].now)
    else Last(calls[..|calls| - 1], key)
  }

  /** The hash of `key` has expired by `now` although its circuit was not closed with no failures. */
  predicate Lost(c: Settings, calls: seq<Call>, key: string, now: int) {
    key in After(c, calls) && Expired(After(c, calls)[key], now) && Reference(c, calls, key) != Closed(0)
  }

  /** No call of the run finds the hash of its key lost. */
  predicate Remembered(c: Settings, calls: seq<Call>) {
    calls != [] ==>
      var pre, call := calls[..|calls| - 1], calls[|calls| - 1];
      Remembered(c, pre) && !Lost(c, pre, call.key, call.now)
  }

  ghost predicate ExpiryTracks(c: Settings, db: Db, calls: seq<Call>) {
    forall k | k in db && db[k].expireAt.Some? ::
      Last(calls, k).Some? && db[k].expireAt.value == Last(calls, k).value + Ttl(c)
  }

  lemma {:induction false} RunOk(c: Settings, calls: seq<Call>, now: int)
    requires Ordered(calls) && (calls != [] ==> calls[|calls| - 1].now <= now)
    ensures DbOk(c, After(c, calls), now)
    ensures ExpiryTracks(c, After(c, calls), calls)
  {
    if calls == [] {
    } else {
      var pre, call := calls[..|calls| - 1], calls[|calls| - 1];
      RunOk(c, pre, call.now);
      ScriptRefines(c, After(c, pre), call);
    }
  }

  /** In every ordered run of calls, from any number of callers and on any number of keys, that finds no
      hash lost, each circuit the scripts keep is the circuit of a breaker that never forgets. */
  lemma {:induction false} ScriptsRefineReference(c: Settings, calls: seq<Call>, key: string, now: int)
    requires Ordered(calls) && (calls != [] ==> calls[|calls| - 1].now <= now) && Remembered(c, calls)
    ensures DbOk(c, After(c, calls), now)
    ensures Stored(c, After(c, calls), key, now) == Reference(c, calls, key)
  {
    RunOk(c, calls, now);
    if calls == [] {
    } else {
      var pre, call := calls[..|calls| - 1], calls[|calls| - 1];
      ScriptsRefineReference(c, pre, key, call.now);
      RunOk(c, pre, call.now);
      assert call.key == key ==> View(c, After(c, pre), key, call.now) == Reference(c, pre, key);
      ScriptRefines(c, After(c, pre), call);
    }
  }

  /** Redis answers a check of `key` after the run as the reference does. */
  predicate AnswersAt(c: Settings, calls: seq<Call>, key: string, now: int) {
    ActionOf(CheckCode(c, Fields(After(c, calls), key, now), now)) == Allow
    <==> Allows(c, Reference(c, calls, key), now)
  }

  /** Hence every check of such a run is answered as the reference answers it. */
  lemma AnswersMatchReference(c: Settings, pre: seq<Call>, key: string, now: int)
    requires Ordered(pre + [CheckCall(key, now)]) && Remembered(c, pre + [CheckCall(key, now)])
    ensures AnswersAt(c, pre, key, now)
  {
    var run := pre + [CheckCall(key, now)];
    assert run[..|run| - 1] == pre;
    assert forall i | 0 <= i < |pre| :: pre[i] == run[i];
    ScriptsRefineReference(c, pre, key, now);
    RunOk(c, pre, now);
    AnswerRefines(c, After(c, pre), key, now);
  }

  // ---- exactly when the expiry shows ----------------------------------------------------------

  function CallFor(key: string, op: Op, now: int): Call {
    match op
    case Check => CheckCall(key, now)
    case Record(success) => RecordCall(key, success, now)
  }

  /** Calls on one key at one instant. */
  function CallsAt(key: string, ops: seq<Op>, now: int): seq<Call> {
    if ops == [] then [] else CallsAt(key, ops[..|ops| - 1], now) + [CallFor(key, ops[|ops| - 1], now)]
  }

  lemma AfterNext(c: Settings, calls: seq<Call>, call: Call, key: string)
    ensures After(c, calls + [call]) == Run1(c, After(c, calls), call)
    ensures call.key == key ==>
              Reference(c, calls + [call], key) == Next(c, Reference(c, calls, key), OpOf(call), call.now)
  {
    assert (calls + [call])[..|calls|] == calls;
  }

  lemma MovedView(c: Settings, db: Db, call: Call)
    requires DbOk(c, db, call.now)
    ensures DbOk(c, Run1(c, db, call), call.now)
    ensures View(c, Run1(c, db, call), call.key, call.now)
         == Next(c, View(c, db, call.key, call.now), OpOf(call), call.now)
  {
    ScriptRefines(c, db, call);
  }

  lemma {:induction false} ReferenceRan(c: Settings, calls: seq<Call>, key: string, ops: seq<Op>, now: int)
    ensures Reference(c, calls + CallsAt(key, ops, now), key) == Ran(c, Reference(c, calls, key), ops, now)
  {
    if ops == [] {
      assert calls + [] == calls;
    } else {
      var pre, call := ops[..|ops| - 1], CallFor(key, ops[|ops| - 1], now);
      ReferenceRan(c, calls, key, pre, now);
      assert calls + CallsAt(key, ops, now) == calls + CallsAt(key, pre, now) + [call];
      AfterNext(c, calls + CallsAt(key, pre, now), call, key);
    }
  }

  /** The scripts run the automaton from what they see. */
  lemma {:induction false} CallsAtRun(c: Settings, calls: seq<Call>, key: string, ops: seq<Op>, now: int)
    requires DbOk(c, After(c, calls), now)
    ensures DbOk(c, After(c, calls + CallsAt(key, ops, now)), now)
    ensures View(c, After(c, calls + CallsAt(key, ops, now)), key, now)
         == Ran(c, View(c, After(c, calls), key, now), ops, now)
  {
    if ops == [] {
      assert calls + [] == calls;
    } else {
      var pre, call := ops[..|ops| - 1], CallFor(key, ops[|ops| - 1], now);
      CallsAtRun(c, calls, key, pre, now);
      var run := calls + CallsAt(key, pre, now);
      assert calls + CallsAt(key, ops, now) == run + [call];
      AfterNext(c, run, call, key);
      MovedView(c, After(c, run), call);
    }
  }

  /** Whatever calls on `key` come at `now`, checks after them are answered as the reference answers them. */
  ghost predicate AnswersLike(c: Settings, calls: seq<Call>, key: string, now: int) {
    forall ops: seq<Op> :: AnswersAt(c, calls + CallsAt(key, ops, now), key, now)
  }

  lemma AnswersByRan(c: Settings, calls: seq<Call>, key: string, ops: seq<Op>, now: int)
    requires DbOk(c, After(c, calls), now)
    ensures AnswersAt(c, calls + CallsAt(key, ops, now), key, now) <==>
            (Allows(c, Ran(c, View(c, After(c, calls), key, now), ops, now), now)
             <==> Allows(c, Ran(c, Reference(c, calls, key), ops, now), now))
  {
    CallsAtRun(c, calls, key, ops, now);
    ReferenceRan(c, calls, key, ops, now);
    AnswerRefines(c, After(c, calls + CallsAt(key, ops, now)), key, now);
  }

  /** After every run that found no hash lost, the scripts go on answering like a breaker that never
      forgets exactly when the hash is not lost now. */
  lemma AnswersLikeIff(c: Settings, calls: seq<Call>, key: string, now: int)
    requires Ordered(calls) && (calls != [] ==> calls[|calls| - 1].now <= now) && Remembered(c, calls)
    ensures AnswersLike(c, calls, key, now) <==> !Lost(c, calls, key, now)
  {
    ScriptsRefineReference(c, calls, key, now);
    var s, r := View(c, After(c, calls), key, now), Reference(c, calls, key);
    if Lost(c, calls, key, now) {
      ExperimentTells(c, r, now);
      AnswersByRan(c, calls, key, Experiment(c, r), now);
    } else {
      forall ops: seq<Op> ensures AnswersAt(c, calls + CallsAt(key, ops, now), key, now) {
        AnswersByRan(c, calls, key, ops, now);
      }
    }
  }

  /** In every ordered run, an open circuit is still there, and still open, at every time up to its
      deadline and for the grace period after it. */
  lemma ExpiryKeepsOpenCircuits(c: Settings, calls: seq<Call>, key: string, now: int)
    requires Ordered(calls) && (calls != [] ==> calls[|calls| - 1].now <= now)
    requires key in After(c, calls) && After(c, calls)[key].state == 1
    requires now <= After(c, calls)[key].untilMs + GRACE_MS
    ensures Live(After(c, calls), key, now)
    ensures DbOk(c, After(c, calls), now) && View(c, After(c, calls), key, now) == Open(After(c, calls)[key].untilMs)
  {
    RunOk(c, calls, now);
  }

  /** A record that finds no hash makes one without an expiry, since PEXPIRE comes first: if no other call on
      the key follows, it stays for ever. */
  lemma FirstRecordStays(c: Settings, calls: seq<Call>, call: Call, later: int)
    requires call.RecordCall? && !Live(After(c, calls), call.key, call.now)
    ensures Live(After(c, calls + [call]), call.key, later)
  {
    AfterNext(c, calls, call, call.key);
  }

  /** Every other call that finds or leaves a hash moves its expiry to the recovery time and a minute later. */
  lemma CallExtends(c: Settings, calls: seq<Call>, call: Call, later: int)
    requires Live(After(c, calls), call.key, call.now)
    ensures Live(After(c, calls + [call]), call.key, later) <==> later <= call.now + c.recovery + 60_000
  {
    AfterNext(c, calls, call, call.key);
  }

  predicate OpenTo(db: Db, key: string, until: int) {
    key in db && db[key].state == 1 && db[key].untilMs == until
  }

  lemma OpenHolds(c: Settings, db: Db, call: Call, key: string, until: int)
    requires OpenTo(db, key, until) && call.now < until && (call.key == key ==> Live(db, key, call.now))
    ensures OpenTo(Run1(c, db, call), key, until)
  {
  }

  lemma {:induction false} StaysOpen(c: Settings, calls: seq<Call>, n: nat, m: nat, key: string, until: int)
    requires Ordered(calls) && n <= m < |calls| && calls[m].now < until && OpenTo(After(c, calls[..n]), key, until)
    ensures OpenTo(After(c, calls[..m]), key, until) && Live(After(c, calls[..m]), key, calls[m].now)
  {
    if m == n {
    } else {
      StaysOpen(c, calls, n, m - 1, key, until);
      assert calls[..m][..m - 1] == calls[..m - 1];
      OpenHolds(c, After(c, calls[..m - 1]), calls[m - 1], key, until);
    }
    ExpiryKeepsOpenCircuits(c, calls[..m], key, calls[m].now);
  }

  /** Whatever calls come, on this key or on others, an open hash keeps its deadline until that passes, and
      every check before it is rejected. */
  lemma OpenRejectsUntilDeadline(c: Settings, calls: seq<Call>, n: nat, m: nat, key: string, until: int)
    requires Ordered(calls) && n <= m < |calls| && calls[m].now < until && OpenTo(After(c, calls[..n]), key, until)
    ensures OpenTo(After(c, calls[..m]), key, until)
    ensures ActionOf(CheckCode(c, Fields(After(c, calls[..m]), key, calls[m].now), calls[m].now)) == Reject
  {
    StaysOpen(c, calls, n, m, key, until);
  }

  /** The probes of the hash are used up. */
  predicate Stuck(c: Settings, db: Db, key: string) {
    key in db && db[key].state == 2 && db[key].inFlight >= c.probes
  }

  /** A call that records no outcome of `key` and, if it is a check of it, comes within the expiry. */
  predicate Harmless(c: Settings, calls: seq<Call>, i: nat, key: string)
    requires i < |calls|
  {
    calls[i].key == key ==>
      && calls[i].CheckCall?
      && (Last(calls[..i], key).Some? ==> calls[i].now <= Last(calls[..i], key).value + Ttl(c))
  }

  lemma HarmlessFindsHash(c: Settings, calls: seq<Call>, i: nat, key: string)
    requires Ordered(calls) && i < |calls| && Harmless(c, calls, i, key) && calls[i].key == key
    requires key in After(c, calls[..i])
    ensures !Expired(After(c, calls[..i])[key], calls[i].now)
  {
    RunOk(c, calls[..i], calls[i].now);
  }

  lemma StuckHolds(c: Settings, db: Db, call: Call, key: string)
    requires Stuck(c, db, key) && (call.key == key ==> call.CheckCall? && !Expired(db[key], call.now))
    ensures Stuck(c, Run1(c, db, call), key)
    ensures call.key == key ==> CheckCode(c, Fields(db, key, call.now), call.now) == -2
  {
  }

  /** The call at i, if it is a check of `key`, is rejected. */
  predicate Refused(c: Settings, calls: seq<Call>, i: nat, key: string)
    requires i < |calls|
  {
    calls[i].key == key ==> CheckCode(c, Fields(After(c, calls[..i]), key, calls[i].now), calls[i].now) == -2
  }

  /** A probe whose outcome is never recorded wedges the circuit for all callers: every check of the key is
      rejected for as long as checks come within the expiry. */
  lemma {:induction false} StuckUntilRecord(c: Settings, calls: seq<Call>, n: nat, m: nat, key: string)
    requires Ordered(calls) && n <= m <= |calls| && Stuck(c, After(c, calls[..n]), key)
    requires forall i: nat | n <= i < |calls| :: Harmless(c, calls, i, key)
    ensures Stuck(c, After(c, calls[..m]), key)
    ensures forall i: nat | n <= i < m :: Refused(c, calls, i, key)
  {
    if m == n {
    } else {
      StuckUntilRecord(c, calls, n, m - 1, key);
      var pre := calls[..m - 1];
      assert calls[..m][..m - 1] == pre && Harmless(c, calls, m - 1, key);
      if calls[m - 1].key == key { HarmlessFindsHash(c, calls, m - 1, key); }
      StuckHolds(c, After(c, pre), calls[m - 1], key);
      assert Refused(c, calls, m - 1, key);
    }
  }

  /** A hash can be lost: with a threshold of 3, a streak of two failures is gone when the third comes
      after the expiry, although the reference trips on it. */
  lemma ExpiryForgetsStreak()
    ensures var c := Settings(3, 1000, 1);
            var calls := [RecordCall("k", false, 0), RecordCall("k", false, 1), RecordCall("k", false, 70_000)];
            && Ordered(calls) && Lost(c, calls[..2], "k", 70_000)
            && Reference(c, calls, "k") == Open(71_000)
            && CheckCode(c, Fields(After(c, calls), "k", 70_000), 70_000) == 0
  {
    var c := Settings(3, 1000, 1);
    var one, two, three := RecordCall("k", false, 0), RecordCall("k", false, 1), RecordCall("k", false, 70_000);
    var calls := [one, two, three];
    assert calls[..2] == [one, two] && [one, two][..1] == [one] && [one][..0] == [];
    assert After(c, [one]) == map["k" := Hash(0, 1, 0, 0, None)];
    assert After(c, [one, two]) == map["k" := Hash(0, 2, 0, 0, Some(61_001))];
    assert Reference(c, [one], "k") == Closed(1);
    assert Reference(c, [one, two], "k") == Closed(2);
  }
}
