/** The throttled response body (src/middleware/bandwidth_throttle.rs). Times are seconds; a clock reading
    is exact and each poll reads it once. */
module Throttle {
  import opened Options

  /** What the inner body yields: a data frame of some size, trailers, or an error. */
  datatype Item = Data(size: nat, tag: nat) | Trailers(tag: nat) | Failed(tag: nat)

  datatype Poll = Pending | Ready(item: Item) | End

  /** `inner` are the items the inner body has not yielded yet; a pending frame waits for its deadline. */
  datatype Body = Body(inner: seq<Item>, bytesDelivered: nat, start: Option<real>, pending: Option<(Item, real)>)

  /** One poll at `now`; `ready` says whether the inner body has something to yield. */
  datatype Event = Event(now: real, ready: bool)

  function SizeOf(item: Item): nat { if item.Data? then item.size else 0 }

  /** When, counted from the start, this many bytes may have been delivered. */
  function Expected(rate: nat, bytes: nat): real
    requires rate > 0
  {
    bytes as real / rate as real
  }

  /** The body after the poll. */
  function After1(rate: nat, b: Body, e: Event): Body
    requires rate > 0
  {
    if b.pending.Some? then
      if e.now < b.pending.value.1 then b else b.(pending := None)
    else if !e.ready || b.inner == [] then b
    else
      var item, rest := b.inner[0], b.inner[1..];
      if SizeOf(item) == 0 then b.(inner := rest)
      else
        var start := if b.start.Some? then b.start.value else e.now;
        var bytes := b.bytesDelivered + SizeOf(item);
        var due := start + Expected(rate, bytes);
        Body(rest, bytes, Some(start), if e.now >= due then None else Some((item, due)))
  }

  /** What the poll returns. */
  function Answer(rate: nat, b: Body, e: Event): Poll
    requires rate > 0
  {
    if b.pending.Some? then
      if e.now < b.pending.value.1 then Pending else Ready(b.pending.value.0)
    else if !e.ready then Pending
    else if b.inner == [] then End
    else if After1(rate, b, e).pending.Some? then Pending
    else Ready(b.inner[0])
  }

  class ThrottledBody {
    var inner: seq<Item>
    const bytesPerSecond: nat
    var bytesDelivered: nat
    var start: Option<real>
    var pending: Option<(Item, real)>

    ghost function Value(): Body
      reads this
    {
      Body(inner, bytesDelivered, start, pending)
    }

    constructor (inner: seq<Item>, bytesPerSecond: nat)
      requires bytesPerSecond > 0
      ensures Value() == Body(inner, 0, None, None) && this.bytesPerSecond == bytesPerSecond
    {
      this.inner, this.bytesPerSecond := inner, bytesPerSecond;
      bytesDelivered, start, pending := 0, None, None;
    }

    method PollFrame(now: real, ready: bool) returns (r: Poll)
      requires bytesPerSecond > 0
      modifies this
      ensures Value() == After1(bytesPerSecond, old(Value()), Event(now, ready))
      ensures r == Answer(bytesPerSecond, old(Value()), Event(now, ready))
    {
      if pending.Some? {
        if now < pending.value.1 {
          return Pending;
        }
        var frame := pending.value.0;
        pending := None;
        return Ready(frame);
      }
      if !ready {
        return Pending;
      }
      if inner == [] {
        return End;
      }
      var frame := inner[0];
      inner := inner[1..];
      var size := if frame.Data? then frame.size else 0;
      if size == 0 {
        return Ready(frame);
      }
      if start.None? {
        start := Some(now);
      }
      bytesDelivered := bytesDelivered + size;
      var expected := bytesDelivered as real / bytesPerSecond as real;
      var elapsed := now - start.value;
      if elapsed >= expected {
        return Ready(frame);
      }
      var delay := expected - elapsed;
      pending := Some((frame, now + delay));
      return Pending;
    }
  }

  // ---- whole polling runs ---------------------------------------------------------------------

  function After(rate: nat, b: Body, run: seq<Event>): Body
    requires rate > 0
  {
    if run == [] then b else After1(rate, After(rate, b, run[..|run| - 1]), run[|run| - 1])
  }

  /** The items handed on so far, in order. */
  function Delivered(rate: nat, b: Body, run: seq<Event>): seq<Item>
    requires rate > 0
  {
    if run == [] then []
    else
      var pre, e := run[..|run| - 1], run[|run| - 1];
      var a := Answer(rate, After(rate, b, pre), e);
      Delivered(rate, b, pre) + if a.Ready? then [a.item] else []
  }

  function Held(b: Body): seq<Item> { if b.pending.Some? then [b.pending.value.0] else [] }

  function Total(items: seq<Item>): nat {
    if items == [] then 0
    else Total(items[..|items| - 1]) + if items[|items| - 1].Data? then items[|items| - 1].size else 0
  }

  lemma PollConserves(rate: nat, b: Body, e: Event)
    requires rate > 0
    ensures var a, b' := Answer(rate, b, e), After1(rate, b, e);
            (if a.Ready? then [a.item] else []) + Held(b') + b'.inner == Held(b) + b.inner
  {
  }

  /** Nothing is lost, repeated or reordered: what was delivered, the frame held back and what is still to
      come are together the original body. */
  lemma {:induction false} DeliveryConserves(rate: nat, items: seq<Item>, run: seq<Event>)
    requires rate > 0
    ensures var b0 := Body(items, 0, None, None);
            Delivered(rate, b0, run) + Held(After(rate, b0, run)) + After(rate, b0, run).inner == items
  {
    if run == [] {
    } else {
      var b0, pre, e := Body(items, 0, None, None), run[..|run| - 1], run[|run| - 1];
      DeliveryConserves(rate, items, pre);
      PollConserves(rate, After(rate, b0, pre), e);
      var was, now := After(rate, b0, pre), After(rate, b0, run);
      Regroup(Delivered(rate, b0, pre), Answer(rate, was, e), Held(now), now.inner, Held(was) + was.inner, items);
    }
  }

  lemma Regroup(d: seq<Item>, a: Poll, held: seq<Item>, inner: seq<Item>, rest: seq<Item>, items: seq<Item>)
    requires d + rest == items && (if a.Ready? then [a.item] else []) + held + inner == rest
    ensures d + (if a.Ready? then [a.item] else []) + held + inner == items
  {
    var got := if a.Ready? then [a.item] else [];
    assert d + got + held + inner == d + (got + held + inner);
  }

  /** The body's accounts after it delivered `d`: the counter is the bytes delivered and held back, the
      pending frame is data and due when the counter says, and what is delivered was due. */
  ghost predicate Accounts(rate: nat, b: Body, d: seq<Item>, now: real)
    requires rate > 0
  {
    && b.bytesDelivered == Total(d) + Total(Held(b))
    && (b.start.None? ==> b.bytesDelivered == 0 && b.pending.None?)
    && (b.start.Some? ==> b.start.value <= now)
    && (b.pending.Some? ==> b.pending.value.1 == b.start.value + Expected(rate, b.bytesDelivered))
    && (b.start.Some? ==> b.start.value + Expected(rate, Total(d)) <= now)
  }

  lemma TotalNext(d: seq<Item>, item: Item)
    ensures Total(d + [item]) == Total(d) + SizeOf(item) && Total([item]) == SizeOf(item) && Total([]) == 0
  {
    assert (d + [item])[..|d|] == d;
    assert [item][..0] == [];
  }

  lemma ReleaseAccounts(rate: nat, b: Body, d: seq<Item>, was: real, now: real)
    requires rate > 0 && Accounts(rate, b, d, was) && was <= now && b.pending.Some? && now >= b.pending.value.1
    ensures Accounts(rate, b.(pending := None), d + [b.pending.value.0], now)
  {
    TotalNext(d, b.pending.value.0);
    TotalNext([], b.pending.value.0);
  }

  lemma PassAccounts(rate: nat, b: Body, d: seq<Item>, was: real, now: real)
    requires rate > 0 && Accounts(rate, b, d, was) && was <= now && b.pending.None?
    requires b.inner != [] && SizeOf(b.inner[0]) == 0
    ensures Accounts(rate, b.(inner := b.inner[1..]), d + [b.inner[0]], now)
  {
    TotalNext(d, b.inner[0]);
  }

  lemma DrawAccounts(rate: nat, b: Body, d: seq<Item>, was: real, e: Event)
    requires rate > 0 && Accounts(rate, b, d, was) && was <= e.now && b.pending.None?
    requires e.ready && b.inner != [] && SizeOf(b.inner[0]) > 0
    ensures var b' := After1(rate, b, e);
            Accounts(rate, b', if b'.pending.Some? then d else d + [b.inner[0]], e.now)
  {
    TotalNext(d, b.inner[0]);
    TotalNext([], b.inner[0]);
  }

  lemma PollAccounts(rate: nat, b: Body, d: seq<Item>, was: real, e: Event)
    requires rate > 0 && Accounts(rate, b, d, was) && was <= e.now
    ensures var a := Answer(rate, b, e);
            Accounts(rate, After1(rate, b, e), d + if a.Ready? then [a.item] else [], e.now)
  {
    assert d + [] == d;
    if b.pending.Some? {
      if e.now >= b.pending.value.1 {
        ReleaseAccounts(rate, b, d, was, e.now);
      }
    } else if e.ready && b.inner != [] {
      if SizeOf(b.inner[0]) == 0 {
        PassAccounts(rate, b, d, was, e.now);
      } else {
        DrawAccounts(rate, b, d, was, e);
      }
    }
  }

  ghost predicate InOrder(run: seq<Event>) { forall i, j | 0 <= i < j < |run| :: run[i].now <= run[j].now }

  lemma {:induction false} RunAccounts(rate: nat, items: seq<Item>, run: seq<Event>)
    requires rate > 0 && InOrder(run) && run != []
    ensures var b0 := Body(items, 0, None, None);
            Accounts(rate, After(rate, b0, run), Delivered(rate, b0, run), run[|run| - 1].now)
  {
    var b0, pre, e := Body(items, 0, None, None), run[..|run| - 1], run[|run| - 1];
    if pre != [] {
      RunAccounts(rate, items, pre);
      PollAccounts(rate, After(rate, b0, pre), Delivered(rate, b0, pre), pre[|pre| - 1].now, e);
    } else {
      PollAccounts(rate, b0, [], e.now, e);
    }
  }

  /** The bytes that the rate allows in some time. */
  function Allowance(rate: nat, elapsed: real): real { rate as real * elapsed }

  /** The poll takes a frame with data from the inner body. */
  predicate Draws(rate: nat, b: Body, e: Event)
    requires rate > 0
  {
    b.inner != [] && SizeOf(b.inner[0]) > 0 && |After1(rate, b, e).inner| < |b.inner|
  }

  /** When the first such poll of the run was. */
  function FirstDraw(rate: nat, b: Body, run: seq<Event>): Option<real>
    requires rate > 0
  {
    if run == [] then None
    else
      var pre, e := run[..|run| - 1], run[|run| - 1];
      var first := FirstDraw(rate, b, pre);
      if first.None? && Draws(rate, After(rate, b, pre), e) then Some(e.now) else first
  }

  /** The body's clock starts with that poll. */
  lemma {:induction false} StartsAtFirstDraw(rate: nat, b: Body, run: seq<Event>)
    requires rate > 0 && b.start.None?
    ensures After(rate, b, run).start == FirstDraw(rate, b, run)
  {
    if run == [] {
    } else {
      StartsAtFirstDraw(rate, b, run[..|run| - 1]);
    }
  }

  predicate WithinRate(rate: nat, first: Option<real>, sent: nat, now: real) {
    match first
    case None => sent == 0
    case Some(start) => sent as real <= Allowance(rate, now - start)
  }

  lemma DueMeansPaid(rate: nat, bytes: nat, elapsed: real)
    requires rate > 0
    ensures Expected(rate, bytes) <= elapsed <==> bytes as real <= Allowance(rate, elapsed)
  {
    assert bytes as real == Expected(rate, bytes) * rate as real;
    if Expected(rate, bytes) <= elapsed {
      assert (elapsed - Expected(rate, bytes)) * rate as real >= 0.0;
    } else {
      assert (Expected(rate, bytes) - elapsed) * rate as real > 0.0;
    }
  }

  lemma AccountsWithinRate(rate: nat, b: Body, d: seq<Item>, now: real)
    requires rate > 0 && Accounts(rate, b, d, now)
    ensures WithinRate(rate, b.start, Total(d), now)
  {
    if b.start.Some? {
      DueMeansPaid(rate, Total(d), now - b.start.value);
    }
  }

  /** The rate bound: after every run of polls, once a data frame was drawn, the data bytes delivered are at
      most the rate times the time since the poll that drew the first; before that there are none. */
  lemma RateBound(rate: nat, items: seq<Item>, run: seq<Event>)
    requires rate > 0 && InOrder(run) && run != []
    ensures var b0 := Body(items, 0, None, None);
            WithinRate(rate, FirstDraw(rate, b0, run), Total(Delivered(rate, b0, run)), run[|run| - 1].now)
  {
    var b0 := Body(items, 0, None, None);
    RunAccounts(rate, items, run);
    StartsAtFirstDraw(rate, b0, run);
    AccountsWithinRate(rate, After(rate, b0, run), Delivered(rate, b0, run), run[|run| - 1].now);
  }

  /** These items are due at `now`: the rate allows all their bytes in the time since the first draw. */
  predicate Due(rate: nat, first: Option<real>, items: seq<Item>, now: real) {
    first.Some? && Total(items) as real <= Allowance(rate, now - first.value)
  }

  lemma AccountsDue(rate: nat, b: Body, d: seq<Item>, was: real, e: Event)
    requires rate > 0 && Accounts(rate, b, d, was) && b.pending.Some?
    ensures Answer(rate, b, e) ==
            if Due(rate, b.start, d + Held(b), e.now) then Ready(b.pending.value.0) else Pending
  {
    TotalNext(d, b.pending.value.0);
    TotalNext([], b.pending.value.0);
    DueMeansPaid(rate, Total(d + Held(b)), e.now - b.start.value);
  }

  /** And a frame is not held longer than that: it comes out at the first poll at which the bytes up to it
      are due. */
  lemma HeldUntilDue(rate: nat, items: seq<Item>, run: seq<Event>, e: Event)
    requires rate > 0 && InOrder(run) && run != [] && After(rate, Body(items, 0, None, None), run).pending.Some?
    ensures var b0 := Body(items, 0, None, None);
            var b, d := After(rate, b0, run), Delivered(rate, b0, run);
            Answer(rate, b, e) ==
            if Due(rate, FirstDraw(rate, b0, run), d + Held(b), e.now) then Ready(b.pending.value.0) else Pending
  {
    var b0 := Body(items, 0, None, None);
    RunAccounts(rate, items, run);
    StartsAtFirstDraw(rate, b0, run);
    AccountsDue(rate, After(rate, b0, run), Delivered(rate, b0, run), run[|run| - 1].now, e);
  }

  lemma IdleAccounts(rate: nat, b: Body, d: seq<Item>, was: real, e: Event)
    requires rate > 0 && Accounts(rate, b, d, was) && b.pending.None? && b.inner != [] && e.ready
    ensures var start := if b.start.None? then Some(e.now) else b.start;
            Answer(rate, b, e) ==
            if SizeOf(b.inner[0]) == 0 || Due(rate, start, d + [b.inner[0]], e.now) then Ready(b.inner[0]) else Pending
  {
    TotalNext(d, b.inner[0]);
    var start := if b.start.None? then e.now else b.start.value;
    DueMeansPaid(rate, Total(d + [b.inner[0]]), e.now - start);
  }

  lemma FirstDrawNext(rate: nat, b: Body, run: seq<Event>, e: Event)
    requires rate > 0
    ensures FirstDraw(rate, b, run + [e]) ==
            if FirstDraw(rate, b, run).None? && Draws(rate, After(rate, b, run), e) then Some(e.now)
            else FirstDraw(rate, b, run)
  {
    assert (run + [e])[..|run|] == run;
  }

  /** What the next poll answers when nothing is held back and the inner body has something to yield: the end
      exactly when everything was delivered, else the next item exactly when it carries no data or the bytes
      up to it are due since the first draw. */
  predicate AnswersNext(rate: nat, items: seq<Item>, d: seq<Item>, first: Option<real>, now: real, a: Poll) {
    if d == items then a == End
    else
      && |d| < |items| && d == items[..|d|]
      && var next := items[|d|];
         var free := next.Data? ==> next.size == 0;
         a == if free || Due(rate, first, items[..|d| + 1], now) then Ready(next) else Pending
  }

  lemma LeftOver(items: seq<Item>, d: seq<Item>, inner: seq<Item>)
    requires d + inner == items
    ensures inner == [] <==> d == items
    ensures inner != [] ==> items[|d|] == inner[0] && d == items[..|d|] && d + [inner[0]] == items[..|d| + 1]
  {
    assert inner == items[|d|..];
  }

  lemma NextAnswer(rate: nat, items: seq<Item>, run: seq<Event>, e: Event)
    requires rate > 0 && InOrder(run + [e]) && After(rate, Body(items, 0, None, None), run).pending.None?
    ensures var b0 := Body(items, 0, None, None);
            var d, a := Delivered(rate, b0, run), Answer(rate, After(rate, b0, run), e);
            if e.ready then AnswersNext(rate, items, d, FirstDraw(rate, b0, run + [e]), e.now, a) else a == Pending
  {
    var b0 := Body(items, 0, None, None);
    var b, d := After(rate, b0, run), Delivered(rate, b0, run);
    DeliveryConserves(rate, items, run);
    assert d + [] + b.inner == d + b.inner;
    LeftOver(items, d, b.inner);
    StartsAtFirstDraw(rate, b0, run);
    FirstDrawNext(rate, b0, run, e);
    if e.ready && b.inner != [] {
      if run == [] {
        IdleAccounts(rate, b, d, e.now, e);
      } else {
        assert InOrder(run) by { assert forall i | 0 <= i < |run| :: (run + [e])[i] == run[i]; }
        RunAccounts(rate, items, run);
        IdleAccounts(rate, b, d, run[|run| - 1].now, e);
      }
    }
  }
}
