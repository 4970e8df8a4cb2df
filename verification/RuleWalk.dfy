/** The rule compiler: a tree of nested `match` blocks is walked with explicit stacks and flattened
    into declarations, and same-kind declarations nested more deeply are subtracted from those above. */
module RuleTree {
  import opened Options

  /** What host, path, method and header matchers may look at. */
  datatype Request = Request(verb: string, uriHost: Option<string>, headers: map<string, string>, path: string)

  type Predicate = Request -> bool

  datatype Kind =
    | Log | Latency | Bandwidth | Fault | RateLimit | SlidingWindow | Retry | CircuitBreaker | Respond
    | Block | SetRequestHeader | AppendRequestHeader | RemoveRequestHeader | SetResponseHeader
    | AppendResponseHeader | RemoveResponseHeader | RewritePath | RewritePathRegex | Upstream
    | Script | ScriptFile

  predicate Exclusive(k: Kind) {
    k in {Log, Latency, Bandwidth, Fault, Retry, CircuitBreaker, Respond}
  }

  /** What compiling a match's conditions gives: an error, no condition at all, or a predicate. */
  datatype Spec = Broken | Always | When(pred: Predicate)

  datatype RedisConfig = RedisConfig(url: string, prefix: Option<string>)

  datatype Node =
    | Leaf(kind: Kind, config: string)
    | Match(spec: Spec, name: Option<string>, redis: Option<RedisConfig>, body: seq<Node>)

  datatype Conn = Conn(url: string, prefix: string)

  function ConnOf(cfg: RedisConfig): Conn {
    Conn(cfg.url, if cfg.prefix.Some? then cfg.prefix.value else "noxy:")
  }

  /** The lexical surroundings of a node: enclosing predicates, match indices, scope labels and the
      nearest enclosing connection. */
  datatype Place = Place(preds: seq<Predicate>, path: seq<nat>, scopes: seq<string>, redis: Option<Conn>)

  datatype Spot = Spot(place: Place, leaf: Node)

  function Digit(n: nat): char
    requires n < 10
  {
    ('0' as int + n) as char
  }

  function Decimal(n: nat): string {
    if n < 10 then [Digit(n)] else Decimal(n / 10) + [Digit(n % 10)]
  }

  function Inside(m: Node, i: nat, at: Place, counter: nat): Place
    requires m.Match?
  {
    Place(if m.spec.When? then at.preds + [m.spec.pred] else at.preds,
          at.path + [i],
          at.scopes + [if m.name.Some? then m.name.value else Decimal(counter)],
          if m.redis.Some? then Some(ConnOf(m.redis.value)) else at.redis)
  }

  function Own(m: Node): nat {
    if m.Match? && m.name.None? then 1 else 0
  }

  /** How many unnamed matches the first n nodes hold, at any depth. */
  function Unnamed(body: seq<Node>, n: nat): nat
    requires n <= |body|
    decreases body, n
  {
    if n == 0 then 0 else Unnamed(body, n - 1) + UnnamedIn(body[n - 1])
  }

  function UnnamedIn(node: Node): nat
    decreases node
  {
    if node.Leaf? then 0 else Own(node) + Unnamed(node.body, |node.body|)
  }

  /** Every leaf of the first n nodes in document order, each with its lexical surroundings. */
  function Spots(body: seq<Node>, n: nat, at: Place, counter: nat): seq<Spot>
    requires n <= |body|
    decreases body, n
  {
    if n == 0 then [] else
    Spots(body, n - 1, at, counter) + SpotsIn(body[n - 1], n - 1, at, counter + Unnamed(body, n - 1))
  }

  function SpotsIn(node: Node, i: nat, at: Place, counter: nat): seq<Spot>
    decreases node
  {
    if node.Leaf? then [Spot(at, node)]
    else Spots(node.body, |node.body|, Inside(node, i, at, counter), counter + Own(node))
  }

  predicate Compiles(body: seq<Node>, reachable: string -> bool)
    decreases body
  {
    forall i :: 0 <= i < |body| ==> CompilesNode(body[i], reachable)
  }

  predicate CompilesNode(node: Node, reachable: string -> bool)
    decreases node
  {
    node.Match? ==>
      && !node.spec.Broken?
      && (node.redis.Some? ==> reachable(node.redis.value.url))
      && Compiles(node.body, reachable)
  }
}

/** The imperative walk and the in-place resolution of exclusions. */
module RuleWalk {
  import opened Options
  import opened RuleTree

  datatype Decl = Decl(
    path: seq<nat>, scopePred: Option<Predicate>, excluded: seq<Predicate>, leaf: Node,
    redis: Option<Conn>, scope: string)

  ghost predicate Accepts(p: Option<Predicate>, req: Request) {
    p.None? || p.value(req)
  }

  ghost predicate AllAccept(preds: seq<Predicate>, req: Request) {
    forall i :: 0 <= i < |preds| ==> preds[i](req)
  }

  function AndPredicates(preds: seq<Predicate>): (r: Option<Predicate>)
    ensures r.None? <==> preds == []
    ensures forall req :: Accepts(r, req) <==> AllAccept(preds, req)
  {
    if preds == [] then None
    else if |preds| == 1 then Some(preds[0])
    else Some((req: Request) => forall i :: 0 <= i < |preds| ==> preds[i](req))
  }

  function Join(parts: seq<string>): string {
    if parts == [] then "" else
    if |parts| == 1 then parts[0] else Join(parts[..|parts| - 1]) + "." + parts[|parts| - 1]
  }

  function Emit(s: Spot): Decl {
    Decl(s.place.path, AndPredicates(s.place.preds), [], s.leaf, s.place.redis, Join(s.place.scopes))
  }

  function Emitted(spots: seq<Spot>): (ds: seq<Decl>)
    ensures |ds| == |spots| && forall i :: 0 <= i < |ds| ==> ds[i] == Emit(spots[i])
  {
    seq(|spots|, i requires 0 <= i < |spots| => Emit(spots[i]))
  }

  lemma EmittedAdds(a: seq<Spot>, b: seq<Spot>)
    ensures Emitted(a + b) == Emitted(a) + Emitted(b)
  {
  }

  /** Vec::pop. */
  function Popped<T>(s: seq<T>): seq<T> {
    if s == [] then s else s[..|s| - 1]
  }

  function Last<T>(s: seq<T>): Option<T> {
    if s == [] then None else Some(s[|s| - 1])
  }

  /** The connections opened so far, shared by the listeners of one configuration. */
  class RedisCache {
    var conns: map<(string, string), Conn>
    ghost var opens: seq<(string, string)>
    const reachable: string -> bool

    ghost predicate Valid()
      reads this
    {
      && (forall k :: k in conns ==> conns[k] == Conn(k.0, k.1) && reachable(k.0))
      && (forall k :: k in conns <==> k in opens)
      && (forall i, j :: 0 <= i < j < |opens| ==> opens[i] != opens[j])
    }

    constructor (reachable: string -> bool)
      ensures Valid() && opens == [] && this.reachable == reachable
    {
      conns, opens, this.reachable := map[], [], reachable;
    }

    method Open(cfg: RedisConfig) returns (conn: Option<Conn>)
      requires Valid()
      modifies this
      ensures Valid()
      ensures conn == if reachable(cfg.url) then Some(ConnOf(cfg)) else None
      ensures conn.Some? ==> conn.value.url == cfg.url
      ensures conn.Some? ==> conn.value.prefix == if cfg.prefix.Some? then cfg.prefix.value else "noxy:"
      ensures conn.Some? ==> (cfg.url, conn.value.prefix) in conns
      ensures old(opens) <= opens
    {
      var prefix := if cfg.prefix.Some? then cfg.prefix.value else "noxy:";
      var key := (cfg.url, prefix);
      if key in conns { return Some(conns[key]); }
      if !reachable(cfg.url) { return None; }
      conns := conns[key := Conn(cfg.url, prefix)];
      opens := opens + [key];
      return Some(conns[key]);
    }

    /** A listener's own redis overrides the process-wide one. */
    method Initial(listener: Option<RedisConfig>, process: Option<RedisConfig>)
      returns (ok: bool, conn: Option<Conn>)
      requires Valid()
      modifies this
      ensures Valid() && old(opens) <= opens
      ensures ok ==> conn == Seed(listener, process)
      ensures listener.Some? ==>
                (ok <==> reachable(listener.value.url)) && (ok ==> conn == Some(ConnOf(listener.value)))
      ensures listener.None? && process.Some? ==>
                (ok <==> reachable(process.value.url)) && (ok ==> conn == Some(ConnOf(process.value)))
      ensures listener.None? && process.None? ==> ok && conn == None
    {
      var cfg := if listener.Some? then listener else process;
      if cfg.None? { return true, None; }
      conn := Open(cfg.value);
      ok := conn.Some?;
    }
  }

  function Seed(listener: Option<RedisConfig>, process: Option<RedisConfig>): Option<Conn> {
    if listener.Some? then Some(ConnOf(listener.value))
    else if process.Some? then Some(ConnOf(process.value))
    else None
  }

  /** The walker's fields as one value. */
  datatype State = State(
    preds: seq<Predicate>, path: seq<nat>, scopes: seq<string>, counter: nat, redis: seq<Conn>, out: seq<Decl>)

  function PlaceOf(s: State): Place {
    Place(s.preds, s.path, s.scopes, Last(s.redis))
  }

  /** All stacks as they were; the counter advanced past the unnamed matches; one declaration per
      leaf, carrying its lexical surroundings. */
  function Walked(s: State, body: seq<Node>, n: nat): State
    requires n <= |body|
  {
    s.(counter := s.counter + Unnamed(body, n),
       out := s.out + Emitted(Spots(body, n, PlaceOf(s), s.counter)))
  }

  function WalkedNode(s: State, node: Node, i: nat): State {
    s.(counter := s.counter + UnnamedIn(node),
       out := s.out + Emitted(SpotsIn(node, i, PlaceOf(s), s.counter)))
  }

  lemma WalkedNext(s: State, body: seq<Node>, n: nat)
    requires n < |body|
    ensures WalkedNode(Walked(s, body, n), body[n], n) == Walked(s, body, n + 1)
  {
    var a, b := Spots(body, n, PlaceOf(s), s.counter), SpotsIn(body[n], n, PlaceOf(s), s.counter + Unnamed(body, n));
    EmittedAdds(a, b);
    assert s.out + Emitted(a) + Emitted(b) == s.out + Emitted(a + b);
  }

  function Entered(s: State, m: Node, i: nat): State
    requires m.Match?
  {
    State(if m.spec.When? then s.preds + [m.spec.pred] else s.preds,
          s.path + [i],
          s.scopes + [if m.name.Some? then m.name.value else Decimal(s.counter)],
          s.counter + Own(m),
          if m.redis.Some? then s.redis + [ConnOf(m.redis.value)] else s.redis,
          s.out)
  }

  function Left(s: State, m: Node): State
    requires m.Match?
  {
    State(if m.spec.When? then Popped(s.preds) else s.preds, Popped(s.path), Popped(s.scopes), s.counter,
          if m.redis.Some? then Popped(s.redis) else s.redis, s.out)
  }

  lemma PopUndoesPush<T>(s: seq<T>, x: T)
    ensures Popped(s + [x]) == s && Last(s + [x]) == Some(x)
  {
  }

  /** Whatever the walk of a match's body pushes, leaving the match restores every stack. */
  lemma LeavingRestores(s: State, m: Node, i: nat)
    requires m.Match?
    ensures Left(Walked(Entered(s, m, i), m.body, |m.body|), m) == WalkedNode(s, m, i)
  {
    var e := Entered(s, m, i);
    PopUndoesPush(s.path, i);
    PopUndoesPush(s.scopes, e.scopes[|s.scopes|]);
    if m.spec.When? { PopUndoesPush(s.preds, m.spec.pred); }
    if m.redis.Some? { PopUndoesPush(s.redis, ConnOf(m.redis.value)); }
    assert PlaceOf(e) == Inside(m, i, PlaceOf(s), s.counter);
  }

  class WalkCtx {
    var preds: seq<Predicate>
    var path: seq<nat>
    var scopeStack: seq<string>
    var scopeCounter: nat
    var redisStack: seq<Conn>
    var out: seq<Decl>
    const cache: RedisCache

    ghost function Value(): State
      reads this
    {
      State(preds, path, scopeStack, scopeCounter, redisStack, out)
    }

    constructor (initial: Option<Conn>, cache: RedisCache)
      ensures Value() == Start(initial)
      ensures this.cache == cache
    {
      preds, path, scopeStack, scopeCounter, out := [], [], [], 0, [];
      redisStack := if initial.Some? then [initial.value] else [];
      this.cache := cache;
    }

    method PushScope(name: Option<string>)
      modifies this
      ensures Value() == old(Value()).(
                scopes := old(scopeStack) + [if name.Some? then name.value else Decimal(old(scopeCounter))],
                counter := old(scopeCounter) + if name.None? then 1 else 0)
    {
      var scope: string;
      if name.Some? {
        scope := name.value;
      } else {
        var n := scopeCounter;
        scopeCounter := scopeCounter + 1;
        scope := Decimal(n);
      }
      scopeStack := scopeStack + [scope];
    }

    method WalkBody(body: seq<Node>) returns (ok: bool)
      requires cache.Valid()
      modifies this, cache
      ensures cache.Valid() && old(cache.opens) <= cache.opens
      ensures ok == Compiles(body, cache.reachable)
      ensures ok ==> Value() == Walked(old(Value()), body, |body|)
      decreases body
    {
      for idx := 0 to |body|
        invariant cache.Valid() && old(cache.opens) <= cache.opens
        invariant forall i :: 0 <= i < idx ==> CompilesNode(body[i], cache.reachable)
        invariant Value() == Walked(old(Value()), body, idx)
      {
        WalkedNext(old(Value()), body, idx);
        ok := WalkNode(body[idx], idx);
        if !ok { return false; }
      }
      ok := true;
    }

    method WalkNode(node: Node, selfIdx: nat) returns (ok: bool)
      requires cache.Valid()
      modifies this, cache
      ensures cache.Valid() && old(cache.opens) <= cache.opens
      ensures ok == CompilesNode(node, cache.reachable)
      ensures ok ==> Value() == WalkedNode(old(Value()), node, selfIdx)
      decreases node, 1
    {
      if node.Match? {
        ok := WalkMatch(node, selfIdx);
      } else {
        out := out + [Decl(path, AndPredicates(preds), [], node, Last(redisStack), Join(scopeStack))];
        ok := true;
      }
    }

    method WalkMatch(m: Node, selfIdx: nat) returns (ok: bool)
      requires m.Match?
      requires cache.Valid()
      modifies this, cache
      ensures cache.Valid() && old(cache.opens) <= cache.opens
      ensures ok == CompilesNode(m, cache.reachable)
      ensures ok ==> Value() == WalkedNode(old(Value()), m, selfIdx)
      decreases m, 0
    {
      ghost var s := Value();
      ok := Enter(m, selfIdx);
      if !ok { return; }
      ok := WalkBody(m.body);
      Leave(m);
      LeavingRestores(s, m, selfIdx);
    }

    /** The pushes before a match's body is walked; a failure keeps what was pushed so far. */
    method Enter(m: Node, selfIdx: nat) returns (ok: bool)
      requires m.Match?
      requires cache.Valid()
      modifies this, cache
      ensures cache.Valid() && old(cache.opens) <= cache.opens
      ensures ok <==> !m.spec.Broken? && (m.redis.Some? ==> cache.reachable(m.redis.value.url))
      ensures ok ==> Value() == Entered(old(Value()), m, selfIdx)
    {
      if m.spec.Broken? { return false; }
      if m.spec.When? { preds := preds + [m.spec.pred]; }
      PushScope(m.name);
      if m.redis.Some? {
        var conn := cache.Open(m.redis.value);
        if conn.None? { return false; }
        redisStack := redisStack + [conn.value];
      }
      path := path + [selfIdx];
      ok := true;
    }

    /** The pops after it, on success and on failure alike. */
    method Leave(m: Node)
      requires m.Match?
      modifies this
      ensures Value() == Left(old(Value()), m)
    {
      path := Popped(path);
      if m.redis.Some? { redisStack := Popped(redisStack); }
      if m.spec.When? { preds := Popped(preds); }
      scopeStack := Popped(scopeStack);
    }
  }

  /** One path strictly extends another. */
  predicate Extends(longer: seq<nat>, shorter: seq<nat>) {
    |longer| > |shorter| && shorter <= longer
  }

  predicate AlwaysTrue(req: Request) {
    true
  }

  function OrAlways(p: Option<Predicate>): Predicate {
    if p.Some? then p.value else AlwaysTrue
  }

  predicate Overrides(d: Decl, path: seq<nat>, kind: Kind) {
    d.leaf.Leaf? && d.leaf.kind == kind && Extends(d.path, path)
  }

  /** The scope predicates, among the first n declarations, of same-kind ones nested strictly deeper. */
  function Exclusions(ds: seq<Decl>, path: seq<nat>, kind: Kind, n: nat): seq<Predicate>
    requires n <= |ds|
  {
    if n == 0 then [] else
    Exclusions(ds, path, kind, n - 1) +
    if Overrides(ds[n - 1], path, kind) then [OrAlways(ds[n - 1].scopePred)] else []
  }

  function ResolvedAt(ds: seq<Decl>, i: nat): Decl
    requires i < |ds|
  {
    if ds[i].leaf.Leaf? && Exclusive(ds[i].leaf.kind)
    then ds[i].(excluded := Exclusions(ds, ds[i].path, ds[i].leaf.kind, |ds|))
    else ds[i]
  }

  function Resolved(ds: seq<Decl>): (rs: seq<Decl>)
    ensures |rs| == |ds| && forall i :: 0 <= i < |rs| ==> rs[i] == ResolvedAt(ds, i)
  {
    seq(|ds|, i requires 0 <= i < |ds| => ResolvedAt(ds, i))
  }

  method ResolveExclusions(decls: array<Decl>)
    requires forall i :: 0 <= i < decls.Length ==> decls[i].leaf.Leaf?
    modifies decls
    ensures decls[..] == Resolved(old(decls[..]))
  {
    ghost var was := decls[..];
    var n := decls.Length;
    for i := 0 to n
      invariant forall k :: 0 <= k < i ==> decls[k] == ResolvedAt(was, k)
      invariant forall k :: i <= k < n ==> decls[k] == was[k]
    {
      if !Exclusive(decls[i].leaf.kind) { continue; }
      var kind, path := decls[i].leaf.kind, decls[i].path;
      var excluded := [];
      for j := 0 to n
        invariant excluded == Exclusions(was, path, kind, j)
      {
        assert decls[j].(excluded := []) == was[j].(excluded := []);
        if i == j || decls[j].leaf.kind != kind { continue; }
        if |decls[j].path| > |path| && path <= decls[j].path {
          excluded := excluded + [if decls[j].scopePred.Some? then decls[j].scopePred.value else AlwaysTrue];
        }
      }
      decls[i] := decls[i].(excluded := excluded);
    }
  }

  function EffectivePredicate(d: Decl): (r: Option<Predicate>)
    ensures forall req :: Accepts(r, req) <==> Accepts(d.scopePred, req) && !AnyAccepts(d.excluded, req)
  {
    if d.excluded == [] then d.scopePred
    else Some((req: Request) =>
      (d.scopePred.None? || d.scopePred.value(req)) && !AnyAccepts(d.excluded, req))
  }

  predicate AnyAccepts(preds: seq<Predicate>, req: Request) {
    exists i :: 0 <= i < |preds| && preds[i](req)
  }

  /** A layer without an effective predicate applies to every request. */
  ghost predicate Fires(d: Decl, req: Request) {
    Accepts(EffectivePredicate(d), req)
  }

  /** Globals at the empty path, then the listener's own rules under path [0], numbered on. */
  function ListenerSpots(globals: seq<Node>, body: seq<Node>, seed: Option<Conn>): seq<Spot> {
    Spots(globals, |globals|, Place([], [], [], seed), 0) +
    Spots(body, |body|, Place([], [0], [], seed), Unnamed(globals, |globals|))
  }

  lemma SpotsAreLeaves(body: seq<Node>, n: nat, at: Place, counter: nat, k: nat)
    requires n <= |body| && k < |Spots(body, n, at, counter)|
    ensures Spots(body, n, at, counter)[k].leaf.Leaf?
    decreases body, n
  {
    var node, c := body[n - 1], counter + Unnamed(body, n - 1);
    var before := |Spots(body, n - 1, at, counter)|;
    if k < before {
      SpotsAreLeaves(body, n - 1, at, counter, k);
    } else if node.Match? {
      SpotsAreLeaves(node.body, |node.body|, Inside(node, n - 1, at, c), c + Own(node), k - before);
    }
  }

  function Start(initial: Option<Conn>): State {
    State([], [], [], 0, if initial.Some? then [initial.value] else [], [])
  }

  lemma ListenerWalked(globals: seq<Node>, body: seq<Node>, initial: Option<Conn>)
    ensures var s := Walked(Start(initial), globals, |globals|).(path := [0]);
            Walked(s, body, |body|).out == Emitted(ListenerSpots(globals, body, initial))
  {
    EmittedAdds(Spots(globals, |globals|, Place([], [], [], initial), 0),
                Spots(body, |body|, Place([], [0], [], initial), Unnamed(globals, |globals|)));
  }

  lemma ListenerLeaves(globals: seq<Node>, body: seq<Node>, initial: Option<Conn>, k: nat)
    requires k < |ListenerSpots(globals, body, initial)|
    ensures ListenerSpots(globals, body, initial)[k].leaf.Leaf?
  {
    var a := |Spots(globals, |globals|, Place([], [], [], initial), 0)|;
    if k < a {
      SpotsAreLeaves(globals, |globals|, Place([], [], [], initial), 0, k);
    } else {
      SpotsAreLeaves(body, |body|, Place([], [0], [], initial), Unnamed(globals, |globals|), k - a);
    }
  }

  /** The two walks of a listener: the globals and then, one step down, its own rules. */
  method WalkScopes(globals: seq<Node>, body: seq<Node>, initial: Option<Conn>, cache: RedisCache)
    returns (ok: bool, out: seq<Decl>)
    requires cache.Valid()
    modifies cache
    ensures cache.Valid() && old(cache.opens) <= cache.opens
    ensures ok <==> Compiles(globals, cache.reachable) && Compiles(body, cache.reachable)
    ensures ok ==> out == Emitted(ListenerSpots(globals, body, initial))
  {
    out := [];
    var walk := new WalkCtx(initial, cache);
    ok := walk.WalkBody(globals);
    if !ok { return; }
    walk.path := walk.path + [0];
    ok := walk.WalkBody(body);
    if !ok { return; }
    walk.path := Popped(walk.path);
    ListenerWalked(globals, body, initial);
    out := walk.out;
  }

  method WalkListenerBody(globals: seq<Node>, body: seq<Node>, initial: Option<Conn>, cache: RedisCache)
    returns (ok: bool, decls: array<Decl>)
    requires cache.Valid()
    modifies cache
    ensures cache.Valid() && old(cache.opens) <= cache.opens
    ensures ok <==> Compiles(globals, cache.reachable) && Compiles(body, cache.reachable)
    ensures ok ==> decls[..] == Resolved(Emitted(ListenerSpots(globals, body, initial)))
  {
    decls := new Decl[0];
    var out;
    ok, out := WalkScopes(globals, body, initial, cache);
    if !ok { return; }
    forall k | 0 <= k < |out| ensures out[k].leaf.Leaf? { ListenerLeaves(globals, body, initial, k); }
    decls := new Decl[|out|](i requires 0 <= i < |out| => out[i]);
    assert decls[..] == out;
    ResolveExclusions(decls);
  }

  datatype Listener = Listener(redis: Option<RedisConfig>, body: seq<Node>)

  /** The rules of a listener compile, and the connection in effect outside them can be opened: its own, else
      the process-wide one, if there is any. */
  predicate ListenerCompiles(process: Option<RedisConfig>, l: Listener, reachable: string -> bool) {
    && (l.redis.Some? ==> reachable(l.redis.value.url))
    && (l.redis.None? && process.Some? ==> reachable(process.value.url))
    && Compiles(l.body, reachable)
  }

  /** The declarations of a listener. */
  function DeclsFor(globals: seq<Node>, process: Option<RedisConfig>, l: Listener): seq<Decl> {
    Resolved(Emitted(ListenerSpots(globals, l.body, Seed(l.redis, process))))
  }

  method CompileListener(globals: seq<Node>, process: Option<RedisConfig>, l: Listener, cache: RedisCache)
    returns (ok: bool, decls: seq<Decl>)
    requires cache.Valid() && Compiles(globals, cache.reachable)
    modifies cache
    ensures cache.Valid() && old(cache.opens) <= cache.opens
    ensures ok <==> ListenerCompiles(process, l, cache.reachable)
    ensures ok ==> decls == DeclsFor(globals, process, l)
  {
    decls := [];
    var conn;
    ok, conn := cache.Initial(l.redis, process);
    if !ok { return; }
    var resolved;
    ok, resolved := WalkListenerBody(globals, l.body, conn, cache);
    decls := resolved[..];
  }

  ghost predicate FirstCompiled(
    globals: seq<Node>, process: Option<RedisConfig>, listeners: seq<Listener>, compiled: seq<seq<Decl>>,
    reachable: string -> bool)
  {
    && |compiled| == |listeners|
    && (forall i | 0 <= i < |listeners| :: ListenerCompiles(process, listeners[i], reachable))
    && (forall i | 0 <= i < |listeners| :: compiled[i] == DeclsFor(globals, process, listeners[i]))
  }

  lemma FirstCompiledNext(
    globals: seq<Node>, process: Option<RedisConfig>, listeners: seq<Listener>, i: nat, compiled: seq<seq<Decl>>,
    decls: seq<Decl>, reachable: string -> bool)
    requires i < |listeners| && FirstCompiled(globals, process, listeners[..i], compiled, reachable)
    requires ListenerCompiles(process, listeners[i], reachable) && decls == DeclsFor(globals, process, listeners[i])
    ensures FirstCompiled(globals, process, listeners[..i + 1], compiled + [decls], reachable)
  {
  }

  /** The walk of the globals on their own, with which a configuration is checked first. */
  method Probe(globals: seq<Node>, reachable: string -> bool) returns (ok: bool)
    ensures ok <==> Compiles(globals, reachable)
  {
    var cache := new RedisCache(reachable);
    var probe := new WalkCtx(None, cache);
    ok := probe.WalkBody(globals);
  }

  /** All listeners of a configuration: each is walked with the globals and numbered from 0, and all share
      the connections. */
  method CompileListeners(
    globals: seq<Node>, process: Option<RedisConfig>, listeners: seq<Listener>, reachable: string -> bool)
    returns (ok: bool, compiled: seq<seq<Decl>>)
    ensures ok <==>
            && Compiles(globals, reachable)
            && forall i | 0 <= i < |listeners| :: ListenerCompiles(process, listeners[i], reachable)
    ensures ok ==> |compiled| == |listeners|
    ensures ok ==> forall i | 0 <= i < |listeners| :: compiled[i] == DeclsFor(globals, process, listeners[i])
  {
    compiled := [];
    ok := Probe(globals, reachable);
    if !ok { return; }
    var cache := new RedisCache(reachable);
    for i := 0 to |listeners|
      invariant cache.Valid() && FirstCompiled(globals, process, listeners[..i], compiled, reachable)
    {
      var decls;
      ok, decls := CompileListener(globals, process, listeners[i], cache);
      if !ok { return; }
      FirstCompiledNext(globals, process, listeners, i, compiled, decls, reachable);
      compiled := compiled + [decls];
    }
    ok := true;
  }
}
