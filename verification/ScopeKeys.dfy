/** The Redis keys of compiled rules: which rules share state and which never do. */
module ScopeKeys {
  import opened Options
  import opened RuleTree
  import opened RuleWalk
  import opened RuleCompiler

  // ---- Key formats ----

  /** The kinds that keep their state in Redis. */
  predicate Stored(kind: Kind) {
    kind.RateLimit? || kind.SlidingWindow? || kind.CircuitBreaker?
  }

  function Namespace(kind: Kind, scope: string): string
    requires Stored(kind)
  {
    (match kind case RateLimit => "rate_limit" case SlidingWindow => "sliding_window" case _ => "circuit_breaker")
    + ":" + scope
  }

  function PrefixedKey(conn: Conn, namespace: string, key: string): string {
    conn.prefix + namespace + ":" + key
  }

  /** This is all of `h` before its first colon. */
  predicate UpToColon(h: string, r: string) { ':' !in r && r <= h && (r == h || h[|r|] == ':') }

  function BeforeColon(h: string): (r: string)
    ensures UpToColon(h, r)
  {
    if h == "" || h[0] == ':' then "" else [h[0]] + BeforeColon(h[1..])
  }

  /** The URI's host, else the Host header, without a port. */
  function HostKey(req: Request): (key: string)
    ensures req.uriHost.Some? ==> UpToColon(req.uriHost.value, key)
    ensures req.uriHost.None? && "host" in req.headers ==> UpToColon(req.headers["host"], key)
    ensures req.uriHost.None? && "host" !in req.headers ==> key == "unknown"
    ensures ':' !in key
  {
    if req.uriHost.Some? then BeforeColon(req.uriHost.value)
    else if "host" in req.headers then BeforeColon(req.headers["host"])
    else "unknown"
  }

  lemma LastIsNoEarlier(a: string, x: string, b: string, y: string, c: char)
    requires c !in y && a + [c] + x == b + [c] + y
    ensures |a| <= |b|
  {
    var s := b + [c] + y;
    assert (a + [c] + x)[|a|] == c;
    assert forall p :: |b| < p < |s| ==> s[p] == y[p - |b| - 1];
  }

  lemma SplitAtLast(a: string, x: string, b: string, y: string, c: char)
    requires c !in x && c !in y
    ensures a + [c] + x == b + [c] + y <==> a == b && x == y
  {
    var s, t := a + [c] + x, b + [c] + y;
    if s == t {
      LastIsNoEarlier(a, x, b, y, c);
      LastIsNoEarlier(b, y, a, x, c);
      assert x == s[|a| + 1..] && y == t[|b| + 1..];
      assert a == s[..|a|] && b == t[..|b|];
    }
  }

  lemma DropPrefix(p: string, a: string, b: string)
    ensures p + a == p + b <==> a == b
  {
    if p + a == p + b { assert a == (p + a)[|p|..] == (p + b)[|p|..] == b; }
  }

  lemma NamespacesEqualIff(k1: Kind, s1: string, k2: Kind, s2: string)
    requires Stored(k1) && Stored(k2)
    ensures Namespace(k1, s1) == Namespace(k2, s2) <==> k1 == k2 && s1 == s2
  {
    if k1 == k2 {
      DropPrefix(Namespace(k1, ""), s1, s2);
      assert Namespace(k1, s1) == Namespace(k1, "") + s1;
      assert Namespace(k1, s2) == Namespace(k1, "") + s2;
    } else {
      assert Namespace(k1, s1)[0] != Namespace(k2, s2)[0];
    }
  }

  /** On one connection, colon-free request keys never mix: kinds, scopes and keys are all told apart. */
  lemma KeysEqualIff(conn: Conn, k1: Kind, s1: string, key1: string, k2: Kind, s2: string, key2: string)
    requires Stored(k1) && Stored(k2) && ':' !in key1 && ':' !in key2
    ensures PrefixedKey(conn, Namespace(k1, s1), key1) == PrefixedKey(conn, Namespace(k2, s2), key2) <==>
            k1 == k2 && s1 == s2 && key1 == key2
  {
    var a, b := conn.prefix + Namespace(k1, s1), conn.prefix + Namespace(k2, s2);
    SplitAtLast(a, key1, b, key2, ':');
    DropPrefix(conn.prefix, Namespace(k1, s1), Namespace(k2, s2));
    NamespacesEqualIff(k1, s1, k2, s2);
  }

  // ---- Labels ----

  ghost predicate Dotless(parts: seq<string>) {
    forall j :: 0 <= j < |parts| ==> parts[j] != "" && '.' !in parts[j]
  }

  lemma {:induction false} JoinInjective(s: seq<string>, t: seq<string>)
    requires Dotless(s) && Dotless(t)
    ensures Join(s) == Join(t) <==> s == t
    decreases |s|
  {
    if |s| > 1 && |t| > 1 {
      var p, q := s[..|s| - 1], t[..|t| - 1];
      JoinInjective(p, q);
      SplitAtLast(Join(p), s[|s| - 1], Join(q), t[|t| - 1], '.');
      assert s == p + [s[|s| - 1]] && t == q + [t[|t| - 1]];
    } else if |s| > 1 {
      JoinHasDot(s);
    } else if |t| > 1 {
      JoinHasDot(t);
    }
  }

  lemma JoinHasDot(s: seq<string>)
    requires |s| > 1
    ensures '.' in Join(s)
  {
    assert Join(s)[|Join(s[..|s| - 1])|] == '.';
  }

  lemma {:induction false} DecimalInjective(m: nat, n: nat)
    ensures Decimal(m) == Decimal(n) <==> m == n
    decreases m
  {
    var s, t := Decimal(m), Decimal(n);
    if m >= 10 && n >= 10 {
      DecimalInjective(m / 10, n / 10);
      if s == t {
        assert s[..|s| - 1] == Decimal(m / 10) && t[..|t| - 1] == Decimal(n / 10);
        assert s[|s| - 1] == Digit(m % 10) && t[|t| - 1] == Digit(n % 10);
      }
    } else if m >= 10 {
      DecimalNonempty(m / 10);
    } else if n >= 10 {
      DecimalNonempty(n / 10);
    }
  }

  lemma DecimalNonempty(n: nat)
    ensures Decimal(n) != ""
  {
  }

  lemma {:induction false} DecimalDotless(n: nat)
    ensures Decimal(n) != "" && '.' !in Decimal(n)
  {
    if n >= 10 { DecimalDotless(n / 10); }
  }

  // ---- Scopes of unnamed matches ----

  ghost predicate AllUnnamed(body: seq<Node>)
    decreases body
  {
    forall i :: 0 <= i < |body| ==> body[i].Match? ==> body[i].name.None? && AllUnnamed(body[i].body)
  }

  /** Every name is a non-empty string without dots. */
  ghost predicate PlainNames(body: seq<Node>)
    decreases body
  {
    forall i :: 0 <= i < |body| ==> PlainNode(body[i])
  }

  ghost predicate PlainNode(node: Node)
    decreases node
  {
    node.Match? ==> (node.name.Some? ==> node.name.value != "" && '.' !in node.name.value) && PlainNames(node.body)
  }

  lemma {:induction false} UnnamedIsPlain(body: seq<Node>)
    requires AllUnnamed(body)
    ensures PlainNames(body)
    decreases body
  {
    forall i | 0 <= i < |body| ensures PlainNode(body[i]) {
      if body[i].Match? { UnnamedIsPlain(body[i].body); }
    }
  }

  lemma {:induction false} UnnamedGrows(body: seq<Node>, i: nat, n: nat)
    requires i < n <= |body|
    ensures Unnamed(body, i) + UnnamedIn(body[i]) <= Unnamed(body, n)
    decreases n
  {
    if i < n - 1 { UnnamedGrows(body, i, n - 1); }
  }

  ghost predicate Below(s: Spot, at: Place) {
    at.path <= s.place.path && at.scopes <= s.place.scopes
  }

  ghost predicate On(s: Spot, at: Place) {
    s.place.path == at.path && s.place.scopes == at.scopes
  }

  /** The place of the i-th node's body, as far as paths and scopes go. */
  ghost predicate BelowNode(s: Spot, at: Place, i: nat, number: nat) {
    at.path + [i] <= s.place.path && at.scopes + [Decimal(number)] <= s.place.scopes
  }

  lemma {:induction false} SpotsBelow(body: seq<Node>, n: nat, at: Place, counter: nat, k: nat)
    requires n <= |body| && k < |Spots(body, n, at, counter)|
    ensures Below(Spots(body, n, at, counter)[k], at)
    decreases body, n
  {
    var before, c := |Spots(body, n - 1, at, counter)|, counter + Unnamed(body, n - 1);
    var node := body[n - 1];
    if k < before {
      SpotsBelow(body, n - 1, at, counter, k);
    } else if node.Match? {
      var inner := Inside(node, n - 1, at, c);
      SpotsBelow(node.body, |node.body|, inner, c + Own(node), k - before);
      assert at.path <= inner.path && at.scopes <= inner.scopes;
    }
  }

  /** Where the leaves of the last node lie. */
  ghost predicate AtNode(s: Spot, at: Place, body: seq<Node>, i: nat, counter: nat)
    requires i < |body|
  {
    if body[i].Match? then BelowNode(s, at, i, counter + Unnamed(body, i)) else On(s, at)
  }

  lemma LastSpot(body: seq<Node>, n: nat, at: Place, counter: nat, k: nat)
    requires n < |body| && AllUnnamed(body)
    requires |Spots(body, n, at, counter)| <= k < |Spots(body, n + 1, at, counter)|
    ensures AtNode(Spots(body, n + 1, at, counter)[k], at, body, n, counter)
  {
    var before, c := |Spots(body, n, at, counter)|, counter + Unnamed(body, n);
    var node := body[n];
    if node.Match? {
      SpotsBelow(node.body, |node.body|, Inside(node, n, at, c), c + Own(node), k - before);
    }
  }

  /** A leaf lies at its body's own level, or below one match whose number no other match shares. */
  lemma {:induction false} Locate(body: seq<Node>, n: nat, at: Place, counter: nat, k: nat) returns (i: nat)
    requires n <= |body| && AllUnnamed(body) && k < |Spots(body, n, at, counter)|
    ensures i < n && AtNode(Spots(body, n, at, counter)[k], at, body, i, counter)
    decreases n
  {
    if k < |Spots(body, n - 1, at, counter)| {
      i := Locate(body, n - 1, at, counter, k);
    } else {
      LastSpot(body, n - 1, at, counter, k);
      i := n - 1;
    }
  }

  lemma LongerBelow(s: Spot, i: nat, u: nat, at: Place)
    requires BelowNode(s, at, i, u)
    ensures s.place.path != at.path && s.place.scopes != at.scopes
  {
    assert |at.path + [i]| <= |s.place.path| && |at.scopes + [Decimal(u)]| <= |s.place.scopes|;
  }

  lemma ApartBelow(s: Spot, i: nat, u: nat, t: Spot, j: nat, w: nat, at: Place)
    requires BelowNode(s, at, i, u) && BelowNode(t, at, j, w) && u != w && i != j
    ensures s.place.path != t.place.path && s.place.scopes != t.place.scopes
  {
    DecimalInjective(u, w);
    assert s.place.path[|at.path|] == (at.path + [i])[|at.path|] == i;
    assert t.place.path[|at.path|] == (at.path + [j])[|at.path|] == j;
    assert s.place.scopes[|at.scopes|] == (at.scopes + [Decimal(u)])[|at.scopes|] == Decimal(u);
    assert t.place.scopes[|at.scopes|] == (at.scopes + [Decimal(w)])[|at.scopes|] == Decimal(w);
  }

  /** Equal scopes exactly for equal paths. */
  ghost predicate Told(s: Spot, t: Spot) {
    s.place.scopes == t.place.scopes <==> s.place.path == t.place.path
  }

  lemma ToldApart(s: Spot, t: Spot, at: Place, body: seq<Node>, i: nat, j: nat, counter: nat)
    requires i < j < |body| && AllUnnamed(body)
    requires AtNode(s, at, body, i, counter) && AtNode(t, at, body, j, counter)
    ensures Told(s, t)
  {
    var u, w := counter + Unnamed(body, i), counter + Unnamed(body, j);
    if body[i].Match? {
      LongerBelow(s, i, u, at);
      UnnamedGrows(body, i, j);
      if body[j].Match? { ApartBelow(s, i, u, t, j, w, at); }
    } else if body[j].Match? {
      LongerBelow(t, j, w, at);
    }
  }

  lemma {:induction false} ScopesTellPaths(body: seq<Node>, n: nat, at: Place, counter: nat, k: nat, l: nat)
    requires n <= |body| && AllUnnamed(body)
    requires k <= l < |Spots(body, n, at, counter)|
    ensures Told(Spots(body, n, at, counter)[k], Spots(body, n, at, counter)[l])
    decreases body, n
  {
    var before, c := |Spots(body, n - 1, at, counter)|, counter + Unnamed(body, n - 1);
    var node := body[n - 1];
    if l < before {
      ScopesTellPaths(body, n - 1, at, counter, k, l);
    } else if k < before {
      var i := Locate(body, n - 1, at, counter, k);
      LastSpot(body, n - 1, at, counter, l);
      ToldApart(Spots(body, n, at, counter)[k], Spots(body, n, at, counter)[l], at, body, i, n - 1, counter);
    } else if node.Match? {
      ScopesTellPaths(node.body, |node.body|, Inside(node, n - 1, at, c), c + Own(node), k - before, l - before);
    }
  }

  lemma {:induction false} SpotsDotless(body: seq<Node>, n: nat, at: Place, counter: nat, k: nat)
    requires n <= |body| && PlainNames(body) && Dotless(at.scopes) && k < |Spots(body, n, at, counter)|
    ensures Dotless(Spots(body, n, at, counter)[k].place.scopes)
    decreases body, n
  {
    var before, c := |Spots(body, n - 1, at, counter)|, counter + Unnamed(body, n - 1);
    var node := body[n - 1];
    if k < before {
      SpotsDotless(body, n - 1, at, counter, k);
    } else if node.Match? {
      assert PlainNode(node);
      DecimalDotless(c);
      SpotsDotless(node.body, |node.body|, Inside(node, n - 1, at, c), c + Own(node), k - before);
    }
  }

  // ---- A listener's declarations ----

  /** How many declarations the globals give. */
  ghost function GlobalCount(globals: seq<Node>, seed: Option<Conn>): nat {
    |Spots(globals, |globals|, Place([], [], [], seed), 0)|
  }

  /** Outside every match, of the globals or of the listener. */
  ghost predicate Outermost(s: Spot, global: bool) {
    s.place.path == if global then [] else [0]
  }

  /** The k-th and the l-th declaration stand in one match, or both in none. */
  ghost predicate SameScope(globals: seq<Node>, body: seq<Node>, seed: Option<Conn>, k: nat, l: nat)
    requires k < |ListenerSpots(globals, body, seed)| && l < |ListenerSpots(globals, body, seed)|
  {
    var spots, g := ListenerSpots(globals, body, seed), GlobalCount(globals, seed);
    if (k < g) == (l < g) then spots[k].place.path == spots[l].place.path
    else Outermost(spots[k], k < g) && Outermost(spots[l], l < g)
  }

  /** A match of the globals and one of the listener never share a number. */
  lemma AcrossParts(globals: seq<Node>, body: seq<Node>, seed: Option<Conn>, k: nat, l: nat)
    requires AllUnnamed(globals) && AllUnnamed(body)
    requires k < GlobalCount(globals, seed) <= l < |ListenerSpots(globals, body, seed)|
    ensures var spots := ListenerSpots(globals, body, seed);
            spots[k].place.scopes == spots[l].place.scopes <==> Outermost(spots[k], true) && Outermost(spots[l], false)
  {
    var top, inner, c := Place([], [], [], seed), Place([], [0], [], seed), Unnamed(globals, |globals|);
    var s, t := ListenerSpots(globals, body, seed)[k], ListenerSpots(globals, body, seed)[l];
    var i := Locate(globals, |globals|, top, 0, k);
    var j := Locate(body, |body|, inner, c, l - GlobalCount(globals, seed));
    PartsApart(s, t, globals, body, top, inner, i, j);
  }

  lemma PartsApart(
    s: Spot, t: Spot, globals: seq<Node>, body: seq<Node>, top: Place, inner: Place, i: nat, j: nat)
    requires AllUnnamed(globals) && AllUnnamed(body) && i < |globals| && j < |body|
    requires top.scopes == inner.scopes == [] && top.path == [] && inner.path == [0]
    requires AtNode(s, top, globals, i, 0) && AtNode(t, inner, body, j, Unnamed(globals, |globals|))
    ensures s.place.scopes == t.place.scopes <==> Outermost(s, true) && Outermost(t, false)
  {
    var u, w := Unnamed(globals, i), Unnamed(globals, |globals|) + Unnamed(body, j);
    UnnamedGrows(globals, i, |globals|);
    if globals[i].Match? { LongerBelow(s, i, u, top); }
    if body[j].Match? { LongerBelow(t, j, w, inner); }
    if globals[i].Match? && body[j].Match? {
      DecimalInjective(u, w);
      assert s.place.scopes[0] == ([] + [Decimal(u)])[0];
      assert t.place.scopes[0] == ([] + [Decimal(w)])[0];
    }
  }

  lemma {:induction false} SameScopeIff(globals: seq<Node>, body: seq<Node>, seed: Option<Conn>, k: nat, l: nat)
    requires AllUnnamed(globals) && AllUnnamed(body)
    requires k < |ListenerSpots(globals, body, seed)| && l < |ListenerSpots(globals, body, seed)|
    ensures var spots := ListenerSpots(globals, body, seed);
            spots[k].place.scopes == spots[l].place.scopes <==> SameScope(globals, body, seed, k, l)
    decreases k
  {
    var top, inner, c := Place([], [], [], seed), Place([], [0], [], seed), Unnamed(globals, |globals|);
    var g := GlobalCount(globals, seed);
    if l < k {
      SameScopeIff(globals, body, seed, l, k);
    } else if l < g {
      ScopesTellPaths(globals, |globals|, top, 0, k, l);
    } else if k < g {
      AcrossParts(globals, body, seed, k, l);
    } else {
      ScopesTellPaths(body, |body|, inner, c, k - g, l - g);
    }
  }

  lemma ListenerDotless(globals: seq<Node>, body: seq<Node>, seed: Option<Conn>, k: nat)
    requires PlainNames(globals) && PlainNames(body) && k < |ListenerSpots(globals, body, seed)|
    ensures Dotless(ListenerSpots(globals, body, seed)[k].place.scopes)
  {
    var g := GlobalCount(globals, seed);
    if k < g {
      SpotsDotless(globals, |globals|, Place([], [], [], seed), 0, k);
    } else {
      SpotsDotless(body, |body|, Place([], [0], [], seed), Unnamed(globals, |globals|), k - g);
    }
  }

  ghost predicate KeepsIn(d: Decl, conn: Conn) {
    d.leaf.Leaf? && Stored(d.leaf.kind) && d.redis == Some(conn)
  }

  ghost function KeyOf(d: Decl, conn: Conn, key: string): string
    requires KeepsIn(d, conn)
  {
    PrefixedKey(conn, Namespace(d.leaf.kind, d.scope), key)
  }

  /** Names and numbers of the matches around the k-th declaration. */
  ghost function StackOf(globals: seq<Node>, process: Option<RedisConfig>, l: Listener, k: nat): seq<string>
    requires k < |DeclsFor(globals, process, l)|
  {
    ListenerSpots(globals, l.body, Seed(l.redis, process))[k].place.scopes
  }

  /** Two rules of one configuration, of one listener or of two, that are on one connection use one Redis
      key exactly when they are of one kind, serve one request key and stand below matches of the same
      names and numbers. */
  lemma StackIsolation(
    globals: seq<Node>, process: Option<RedisConfig>, a: Listener, k: nat, b: Listener, l: nat, conn: Conn,
    key1: string, key2: string)
    requires PlainNames(globals) && PlainNames(a.body) && PlainNames(b.body) && ':' !in key1 && ':' !in key2
    requires k < |DeclsFor(globals, process, a)| && l < |DeclsFor(globals, process, b)|
    requires KeepsIn(DeclsFor(globals, process, a)[k], conn) && KeepsIn(DeclsFor(globals, process, b)[l], conn)
    ensures var d, e := DeclsFor(globals, process, a)[k], DeclsFor(globals, process, b)[l];
            KeyOf(d, conn, key1) == KeyOf(e, conn, key2) <==>
            && d.leaf.kind == e.leaf.kind && key1 == key2
            && StackOf(globals, process, a, k) == StackOf(globals, process, b, l)
  {
    var d, e := DeclsFor(globals, process, a)[k], DeclsFor(globals, process, b)[l];
    KeysEqualIff(conn, d.leaf.kind, d.scope, key1, e.leaf.kind, e.scope, key2);
    ListenerDotless(globals, a.body, Seed(a.redis, process), k);
    ListenerDotless(globals, b.body, Seed(b.redis, process), l);
    JoinInjective(StackOf(globals, process, a, k), StackOf(globals, process, b, l));
  }

  /** Within one listener, with unnamed matches: exactly when they are of one kind, stand in one match scope
      and serve one request key. */
  lemma ScopeIsolation(
    globals: seq<Node>, process: Option<RedisConfig>, a: Listener, k: nat, l: nat, conn: Conn,
    key1: string, key2: string)
    requires AllUnnamed(globals) && AllUnnamed(a.body) && ':' !in key1 && ':' !in key2
    requires k < |DeclsFor(globals, process, a)| && l < |DeclsFor(globals, process, a)|
    requires KeepsIn(DeclsFor(globals, process, a)[k], conn) && KeepsIn(DeclsFor(globals, process, a)[l], conn)
    ensures var d, e := DeclsFor(globals, process, a)[k], DeclsFor(globals, process, a)[l];
            KeyOf(d, conn, key1) == KeyOf(e, conn, key2) <==>
            && d.leaf.kind == e.leaf.kind && key1 == key2
            && SameScope(globals, a.body, Seed(a.redis, process), k, l)
  {
    UnnamedIsPlain(globals);
    UnnamedIsPlain(a.body);
    StackIsolation(globals, process, a, k, a, l, conn, key1, key2);
    SameScopeIff(globals, a.body, Seed(a.redis, process), k, l);
  }

  /** A listener whose only rule stands in an unnamed match. */
  function OneMatch(leaf: Node, redis: Option<RedisConfig>): Listener {
    Listener(redis, [Match(Always, None, None, [leaf])])
  }

  lemma OneMatchSpots(globals: seq<Node>, leaf: Node, seed: Option<Conn>)
    requires leaf.Leaf?
    ensures var g, spots := GlobalCount(globals, seed), ListenerSpots(globals, OneMatch(leaf, None).body, seed);
            && |spots| == g + 1 && spots[g].leaf == leaf && spots[g].place.redis == seed
            && spots[g].place.scopes == [Decimal(Unnamed(globals, |globals|))]
  {
    var m, at, c := OneMatch(leaf, None).body[0], Place([], [0], [], seed), Unnamed(globals, |globals|);
    OneLeaf(leaf, Inside(m, 0, at, c), c + 1);
    assert Unnamed([m], 0) == 0 && Spots([m], 0, at, c) == [];
    assert SpotsIn(m, 0, at, c) == [Spot(Inside(m, 0, at, c), leaf)];
    assert Spots([m], 1, at, c) == [Spot(Inside(m, 0, at, c), leaf)];
  }

  /** Across listeners numbers are not unique, since each is numbered from 0: whatever the globals, two
      unrelated matches of two listeners on the process-wide connection share the state of their rules. */
  lemma ListenersShareNumbers(globals: seq<Node>, redis: RedisConfig, a: Node, b: Node, key: string)
    requires a.Leaf? && b.Leaf? && Stored(a.kind) && a.kind == b.kind
    ensures var process, conn, g := Some(redis), ConnOf(redis), GlobalCount(globals, Some(ConnOf(redis)));
            var ds, es := DeclsFor(globals, process, OneMatch(a, None)), DeclsFor(globals, process, OneMatch(b, None));
            && |ds| == |es| == g + 1 && ds[g].leaf == a && es[g].leaf == b
            && KeepsIn(ds[g], conn) && KeepsIn(es[g], conn) && KeyOf(ds[g], conn, key) == KeyOf(es[g], conn, key)
  {
    OneMatchSpots(globals, a, Some(ConnOf(redis)));
    OneMatchSpots(globals, b, Some(ConnOf(redis)));
  }

  /** A name may coincide with a number: these two rules stand in different matches and share a label. */
  lemma NamesMayCollide(a: Node, b: Node, seed: Option<Conn>)
    requires a.Leaf? && b.Leaf?
    ensures var globals := [Match(Always, None, None, [a]), Match(Always, Some("0"), None, [b])];
            var ds := Compiled(globals, [], seed);
            |ds| == 2 && ds[0].leaf == a && ds[1].leaf == b && ds[0].path != ds[1].path && ds[0].scope == ds[1].scope
  {
    var m, w, top := Match(Always, None, None, [a]), Match(Always, Some("0"), None, [b]), Place([], [], [], seed);
    var u := Unnamed([m, w], 1);
    var s, t := Spot(Inside(m, 0, top, 0), a), Spot(Inside(w, 1, top, u), b);
    OneLeaf(a, s.place, 1);
    OneLeaf(b, t.place, u);
    assert Unnamed([m, w], 0) == 0 && Spots([m, w], 0, top, 0) == [];
    assert SpotsIn(m, 0, top, 0) == [s] && SpotsIn(w, 1, top, u) == [t];
    assert Spots([m, w], 1, top, 0) == [s];
    assert Spots([m, w], 2, top, 0) == [s, t];
    assert ListenerSpots([m, w], [], seed) == [s, t];
    assert s.place.path[0] == 0 && t.place.path[0] == 1;
    assert Decimal(0) == "0";
    assert s.place.scopes == ["0"] && t.place.scopes == ["0"];
  }

  lemma OneLeaf(a: Node, at: Place, counter: nat)
    requires a.Leaf?
    ensures Spots([a], 1, at, counter) == [Spot(at, a)]
  {
    assert Spots([a], 0, at, counter) == [];
  }
}
