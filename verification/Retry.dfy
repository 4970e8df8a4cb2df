/** Capturing a request body while it streams, so that it can be sent again. */
module ReplayBody {
  import opened Options

  type Bytes = seq<bv8>

  /** What a body yields: data, trailers or an error; after the last item it has ended. */
  datatype Item = Data(bytes: Bytes) | Trailers | Error

  datatype Poll = Pending | Ready(item: Item) | End

  datatype Capture = Capture(bytes: Bytes, overflowed: bool, complete: bool)

  /** All data bytes of a body, in order. */
  function DataOf(items: seq<Item>): Bytes {
    if items == [] then []
    else DataOf(items[..|items| - 1]) + if items[|items| - 1].Data? then items[|items| - 1].bytes else []
  }

  /** The data of two parts of a body is that of the first followed by that of the second. */
  lemma {:induction false} DataAdds(a: seq<Item>, b: seq<Item>)
    ensures DataOf(a + b) == DataOf(a) + DataOf(b)
  {
    if b == [] {
      assert a + b == a;
    } else {
      var pre := b[..|b| - 1];
      DataAdds(a, pre);
      assert (a + b)[..|a + b| - 1] == a + pre;
    }
  }

  lemma DataOfOne(item: Item)
    ensures DataOf([item]) == if item.Data? then item.bytes else []
  {
    assert [item][..0] == [];
  }

  function Chunk(c: Capture, chunk: Bytes, max: nat): Capture {
    if c.overflowed then c
    else if |c.bytes| + |chunk| > max then c.(bytes := [], overflowed := true)
    else c.(bytes := c.bytes + chunk)
  }

  function Seen(c: Capture, item: Item, max: nat): Capture {
    match item
    case Data(chunk) => Chunk(c, chunk, max)
    case Trailers => c
    case Error => c.(overflowed := true)
  }

  /** The capture after `polls` polls of the body that were not pending. */
  function Captured(items: seq<Item>, polls: nat, max: nat): Capture {
    if polls == 0 then Capture([], false, false)
    else
      var c := Captured(items, polls - 1, max);
      if polls <= |items| then Seen(c, items[polls - 1], max) else c.(complete := true)
  }

  function Snapshot(c: Capture): Option<Bytes> {
    if c.complete && !c.overflowed then Some(c.bytes) else None
  }

  class ReplayCapture {
    var bytes: Bytes
    const maxBytes: nat
    var overflowed: bool
    var complete: bool

    ghost function Value(): Capture
      reads this
    {
      Capture(bytes, overflowed, complete)
    }

    constructor (maxBytes: nat)
      ensures Value() == Capture([], false, false) && this.maxBytes == maxBytes
    {
      this.maxBytes := maxBytes;
      bytes, overflowed, complete := [], false, false;
    }

    method RecordChunk(chunk: Bytes)
      modifies this
      ensures Value() == Chunk(old(Value()), chunk, maxBytes)
    {
      if overflowed {
        return;
      }
      var newLen := |bytes| + |chunk|;
      if newLen > maxBytes {
        bytes := [];
        overflowed := true;
        return;
      }
      bytes := bytes + chunk;
    }

    method TakeSnapshot() returns (r: Option<Bytes>)
      ensures r == Snapshot(Value())
    {
      r := if complete && !overflowed then Some(bytes) else None;
    }
  }

  class RecordingBody {
    const items: seq<Item>
    var drawn: nat
    const capture: ReplayCapture

    ghost predicate Valid()
      reads this
    {
      drawn <= |items|
    }

    constructor (items: seq<Item>, capture: ReplayCapture)
      ensures Valid() && drawn == 0 && this.items == items && this.capture == capture
    {
      this.items, this.capture, drawn := items, capture, 0;
    }

    /** The frame goes through unchanged; the capture sees its data, an error or the end. */
    method PollFrame(pending: bool) returns (r: Poll)
      requires Valid()
      modifies this, capture
      ensures Valid()
      ensures pending ==> r == Pending && drawn == old(drawn) && capture.Value() == old(capture.Value())
      ensures !pending && old(drawn) < |items| ==>
                && r == Ready(items[old(drawn)]) && drawn == old(drawn) + 1
                && capture.Value() == Seen(old(capture.Value()), items[old(drawn)], capture.maxBytes)
      ensures !pending && old(drawn) == |items| ==>
                r == End && drawn == old(drawn) && capture.Value() == old(capture.Value()).(complete := true)
    {
      if pending {
        return Pending;
      }
      if drawn == |items| {
        capture.complete := true;
        return End;
      }
      var item := items[drawn];
      drawn := drawn + 1;
      match item {
        case Data(chunk) => capture.RecordChunk(chunk);
        case Trailers =>
        case Error => capture.overflowed := true;
      }
      r := Ready(item);
    }
  }

  /** The capture is exact until it overflows: up to any point it holds the data seen so far, unless that
      data is over the limit or an error was seen. */
  lemma {:induction false} CapturedExactly(items: seq<Item>, polls: nat, max: nat)
    ensures var c, n := Captured(items, polls, max), if polls <= |items| then polls else |items|;
            && (c.complete <==> polls > |items|)
            && (c.overflowed <==> Error in items[..n] || |DataOf(items[..n])| > max)
            && (!c.overflowed ==> c.bytes == DataOf(items[..n]))
  {
    if polls == 0 {
    } else {
      CapturedExactly(items, polls - 1, max);
      if polls <= |items| {
        DataNext(items, polls - 1);
      }
    }
  }

  lemma DataNext(items: seq<Item>, n: nat)
    requires n < |items|
    ensures DataOf(items[..n + 1]) == DataOf(items[..n]) + if items[n].Data? then items[n].bytes else []
    ensures Error in items[..n + 1] <==> Error in items[..n] || items[n] == Error
  {
    assert items[..n + 1][..n] == items[..n];
  }

  /** A snapshot is there exactly when the whole body was drawn, without an error and within the limit,
      and then it is exactly the data of the body. */
  lemma SnapshotIsBody(items: seq<Item>, polls: nat, max: nat)
    ensures Snapshot(Captured(items, polls, max))
            == if polls > |items| && Error !in items && |DataOf(items)| <= max then Some(DataOf(items)) else None
  {
    CapturedExactly(items, polls, max);
    assert items[..|items|] == items;
  }
}

/** The attempt loop of the retry service. */
module RetryLoop {
  import opened Options
  import opened ReplayBody

  datatype Response = Response(status: nat, body: Option<Bytes>)  // None: reading the body fails

  /** The three ways to decide, without the length of the delay before the retry. */
  datatype Policy =
    | ByStatus(statuses: set<nat>)
    | ByHeaders(wantsRetry: (Response, nat) -> bool)
    | ByBody(wantsBodyRetry: (Response, nat) -> bool)

  /** What upstream does with an attempt: it fails, or it answers after drawing `polls` times on the
      request body. */
  datatype Upstream = Fails | Answers(resp: Response, polls: nat)

  /** `methods` are the methods to retry; None means all of them. */
  datatype Config = Config(
    maxRetries: nat, policy: Policy, methods: Option<set<string>>, maxReplayBytes: nat, budgeted: bool)

  /** `sizeHint` is the exact size the body announces, if it does. */
  datatype Request = Request(method': string, items: seq<Item>, sizeHint: Option<nat>)

  /** The body of one attempt. */
  datatype Sent = Original | Replay(bytes: Bytes)

  datatype Result = Failure | Success(resp: Response)

  /** The methods retried by default, all idempotent by section 9.2.2 of RFC 9110. */
  const DEFAULT_METHODS := {"GET", "HEAD", "PUT", "DELETE", "OPTIONS", "TRACE"}

  predicate Retryable(c: Config, req: Request) { c.methods.None? || req.method' in c.methods.value }

  function Limit(c: Config, req: Request): nat { if Retryable(c, req) then c.maxRetries else 0 }

  predicate KnownEmpty(req: Request) { req.sizeHint == Some(0) }

  /** An announced size is the true size. */
  predicate Honest(req: Request) { req.sizeHint.Some? ==> |DataOf(req.items)| == req.sizeHint.value }

  predicate Wants(p: Policy, resp: Response, attempt: nat) {
    match p
    case ByStatus(statuses) => resp.status in statuses
    case ByHeaders(f) => f(resp, attempt)
    case ByBody(f) => f(resp, attempt)
  }

  /** The caller gets an error when upstream fails or, if the policy reads it, the response body does. */
  predicate Broken(p: Policy, up: Upstream) { up.Fails? || (p.ByBody? && up.resp.body.None?) }

  /** The request can be sent again after the first attempt drew `polls` times on its body. */
  predicate Replayable(c: Config, req: Request, polls: nat) {
    || KnownEmpty(req)
    || (polls > |req.items| && Error !in req.items && |DataOf(req.items)| <= c.maxReplayBytes)
  }

  /** What a retry sends: nothing for a body that announces to be empty, else the data of the original. */
  function ReplayOf(req: Request): Bytes { if KnownEmpty(req) then [] else DataOf(req.items) }

  /** Attempt number n is followed by another one. */
  predicate Continues(c: Config, req: Request, env: nat -> Upstream, grants: nat -> bool, n: nat) {
    && n < Limit(c, req)
    && !Broken(c.policy, env(n)) && Wants(c.policy, env(n).resp, n)
    && !env(0).Fails? && Replayable(c, req, env(0).polls)
    && (c.budgeted ==> grants(n))
  }

  /** Why a response that the policy would retry is returned all the same: the attempts are used up, the method
      is not to be retried, the body cannot be sent again, or the budget refuses. */
  predicate GivesUp(c: Config, req: Request, env: nat -> Upstream, grants: nat -> bool, n: nat) {
    || n == c.maxRetries
    || (c.methods.Some? && req.method' !in c.methods.value)
    || (req.sizeHint != Some(0) && env(0).Answers?
        && (env(0).polls <= |req.items| || Error in req.items || |DataOf(req.items)| > c.maxReplayBytes))
    || (c.budgeted && !grants(n))
  }

  lemma ContinuesAsked(c: Config, req: Request, env: nat -> Upstream, grants: nat -> bool, k: nat)
    requires forall n | 0 <= n < k :: Continues(c, req, env, grants, n)
    ensures forall n | 0 <= n < k :: env(n).Answers? && Wants(c.policy, env(n).resp, n)
    ensures c.policy.ByBody? ==> forall n | 0 <= n < k :: env(n).Answers? && env(n).resp.body.Some?
  {
    forall n | 0 <= n < k
      ensures env(n).Answers? && Wants(c.policy, env(n).resp, n) && (c.policy.ByBody? ==> env(n).resp.body.Some?)
    {
      assert Continues(c, req, env, grants, n);
    }
  }

  /** The policy's choice for one response, branch by branch as the loop makes it: retry, return this
      result, or go on to ask for the replay bytes. */
  method Decide(c: Config, limit: nat, attempt: nat, up: Upstream) returns (retry: bool, result: Result)
    requires attempt <= limit
    ensures result == if Broken(c.policy, up) then Failure else Success(up.resp)
    ensures retry <==> attempt < limit && !Broken(c.policy, up) && Wants(c.policy, up.resp, attempt)
  {
    if up.Fails? {
      return false, Failure;
    }
    var resp := up.resp;
    match c.policy {
      case ByBody(f) =>
        if resp.body.None? {
          return false, Failure;
        }
        if f(resp, attempt) && attempt < limit {
          return true, Success(resp);
        }
        return false, Success(resp);
      case ByHeaders(f) =>
        if f(resp, attempt) && attempt < limit {
          return true, Success(resp);
        }
        return false, Success(resp);
      case ByStatus(statuses) =>
        if attempt == limit || resp.status !in statuses {
          return false, Success(resp);
        }
        return true, Success(resp);
    }
  }

  /** Upstream draws on the first attempt's body. */
  method Draw(body: RecordingBody, polls: nat)
    requires body.Valid() && body.drawn == 0 && body.capture.Value() == Capture([], false, false)
    modifies body, body.capture
    ensures body.capture.Value() == Captured(body.items, polls, body.capture.maxBytes)
  {
    for i := 0 to polls
      invariant body.Valid() && body.drawn == (if i <= |body.items| then i else |body.items|)
      invariant body.capture.Value() == Captured(body.items, i, body.capture.maxBytes)
    {
      var _ := body.PollFrame(false);
    }
  }

  /** The whole exchange. `env` says what upstream does with each attempt and `grants` what the shared
      budget answers. Each attempt before the last one is followed by another exactly because the policy
      asks for it, the body can be replayed and the budget grants it; every repeated body is the data of
      the original, if that has the size it announces; and the loop never runs past its last attempt, so the
      `unreachable!()` behind it is not reached. */
  method Call(c: Config, req: Request, env: nat -> Upstream, grants: nat -> bool)
    returns (result: Result, sent: seq<Sent>)
    ensures 1 <= |sent| <= Limit(c, req) + 1
    ensures forall n | 0 <= n < |sent| - 1 :: Continues(c, req, env, grants, n)
    ensures !Continues(c, req, env, grants, |sent| - 1)
    ensures sent[0] == Original && forall n | 1 <= n < |sent| :: sent[n] == Replay(ReplayOf(req))
    ensures Honest(req) ==> ReplayOf(req) == DataOf(req.items)
    ensures result == if Broken(c.policy, env(|sent| - 1)) then Failure else Success(env(|sent| - 1).resp)
    ensures |sent| > 1 ==> Retryable(c, req) && |ReplayOf(req)| <= c.maxReplayBytes
    ensures |sent| > 1 && c.methods == Some(DEFAULT_METHODS) ==> req.method' !in {"POST", "PATCH", "CONNECT"}
    ensures |sent| <= c.maxRetries + 1 && (c.methods.Some? && req.method' !in c.methods.value ==> |sent| == 1)
    ensures match c.policy
            case ByStatus(statuses) =>
              && (forall n | 0 <= n < |sent| - 1 :: env(n).Answers? && env(n).resp.status in statuses)
              && (result.Success? && result.resp.status in statuses ==> GivesUp(c, req, env, grants, |sent| - 1))
              && (env(0).Answers? && env(0).resp.status !in statuses ==> |sent| == 1 && result == Success(env(0).resp))
            case ByHeaders(f) =>
              && (forall n | 0 <= n < |sent| - 1 :: env(n).Answers? && f(env(n).resp, n))
              && (result.Success? && f(result.resp, |sent| - 1) ==> GivesUp(c, req, env, grants, |sent| - 1))
              && (env(0).Answers? && !f(env(0).resp, 0) ==> |sent| == 1 && result == Success(env(0).resp))
            case ByBody(f) =>
              && (forall n | 0 <= n < |sent| - 1 :: env(n).Answers? && env(n).resp.body.Some? && f(env(n).resp, n))
              && (result.Success? && f(result.resp, |sent| - 1) ==> GivesUp(c, req, env, grants, |sent| - 1))
              && (env(0).Answers? && env(0).resp.body.Some? && !f(env(0).resp, 0) ==>
                    |sent| == 1 && result == Success(env(0).resp))
  {
    var limit := if Retryable(c, req) then c.maxRetries else 0;
    var capture := new ReplayCapture(c.maxReplayBytes);
    var knownEmpty := req.sizeHint == Some(0);
    var replayBytes: Option<Bytes> := if knownEmpty then Some([]) else None;
    sent := [];
    var attempt := 0;
    while true
      invariant attempt <= limit && |sent| == attempt
      invariant attempt > 0 ==> replayBytes == Some(ReplayOf(req)) && sent[0] == Original
      invariant attempt == 0 ==> replayBytes == (if knownEmpty then Some([]) else None)
      invariant attempt == 0 ==> capture.Value() == Capture([], false, false)
      invariant forall n | 1 <= n < attempt :: sent[n] == Replay(ReplayOf(req))
      invariant forall n | 0 <= n < attempt :: Continues(c, req, env, grants, n)
      invariant attempt > 0 ==> Continues(c, req, env, grants, 0)
      decreases limit - attempt
    {
      var up := env(attempt);
      if attempt == 0 {
        sent := [Original];
        if !knownEmpty && Retryable(c, req) && up.Answers? {
          var body := new RecordingBody(req.items, capture);
          Draw(body, up.polls);
        }
      } else {
        sent := sent + [Replay(if replayBytes.Some? then replayBytes.value else [])];
      }
      var retry;
      retry, result := Decide(c, limit, attempt, up);
      ContinuesAsked(c, req, env, grants, attempt);
      if !retry {
        return;
      }
      if replayBytes.None? {
        replayBytes := capture.TakeSnapshot();
        SnapshotIsBody(req.items, up.polls, c.maxReplayBytes);
      }
      if replayBytes.None? {
        return;
      }
      if c.budgeted && !grants(attempt) {
        return;
      }
      attempt := attempt + 1;
    }
  }
}
