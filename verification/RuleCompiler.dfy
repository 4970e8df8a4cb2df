/** The compiled declarations fire as the rule tree says, and the innermost declaration wins. */
module RuleCompiler {
  import opened Options
  import opened RuleTree
  import opened RuleWalk
  import opened RuleMeaning

  // ---- What resolving exclusions means, for any list of declarations ----

  ghost predicate Among(ds: seq<Decl>, n: nat, j: int)
    requires n <= |ds|
  {
    0 <= j < n
  }

  /** Among the first n declarations, one of this kind lies strictly below the path and accepts. */
  ghost predicate Overridden(ds: seq<Decl>, n: nat, path: seq<nat>, kind: Kind, req: Request)
    requires n <= |ds|
  {
    exists j {:trigger Among(ds, n, j)} ::
      Among(ds, n, j) && Overrides(ds[j], path, kind) && Accepts(ds[j].scopePred, req)
  }

  lemma OneOverrides(ds: seq<Decl>, n: nat, j: nat, path: seq<nat>, kind: Kind, req: Request)
    requires j < n <= |ds| && Overrides(ds[j], path, kind) && Accepts(ds[j].scopePred, req)
    ensures Overridden(ds, n, path, kind, req)
  {
    assert Among(ds, n, j);
  }

  lemma FindOverrider(ds: seq<Decl>, n: nat, path: seq<nat>, kind: Kind, req: Request) returns (j: nat)
    requires n <= |ds| && Overridden(ds, n, path, kind, req)
    ensures j < n && Overrides(ds[j], path, kind) && Accepts(ds[j].scopePred, req)
  {
    j :| Among(ds, n, j) && Overrides(ds[j], path, kind) && Accepts(ds[j].scopePred, req);
  }

  lemma OverriddenNext(ds: seq<Decl>, n: nat, path: seq<nat>, kind: Kind, req: Request)
    requires 0 < n <= |ds|
    ensures Overridden(ds, n, path, kind, req) <==>
            || Overridden(ds, n - 1, path, kind, req)
            || (Overrides(ds[n - 1], path, kind) && Accepts(ds[n - 1].scopePred, req))
  {
    if Overridden(ds, n, path, kind, req) {
      var j := FindOverrider(ds, n, path, kind, req);
      if j < n - 1 { OneOverrides(ds, n - 1, j, path, kind, req); }
    }
    if Overridden(ds, n - 1, path, kind, req) {
      var j := FindOverrider(ds, n - 1, path, kind, req);
      OneOverrides(ds, n, j, path, kind, req);
    }
    if Overrides(ds[n - 1], path, kind) && Accepts(ds[n - 1].scopePred, req) {
      OneOverrides(ds, n, n - 1, path, kind, req);
    }
  }

  ghost predicate OverriddenBy(ds: seq<Decl>, path: seq<nat>, kind: Kind, req: Request) {
    Overridden(ds, |ds|, path, kind, req)
  }

  lemma AnyAcceptsAdds(ps: seq<Predicate>, p: Predicate, req: Request)
    ensures AnyAccepts(ps + [p], req) <==> AnyAccepts(ps, req) || p(req)
  {
    if AnyAccepts(ps, req) {
      var i :| 0 <= i < |ps| && ps[i](req);
      assert (ps + [p])[i] == ps[i];
    }
    assert (ps + [p])[|ps|] == p;
  }

  lemma {:induction false} ExclusionsOverride(ds: seq<Decl>, path: seq<nat>, kind: Kind, n: nat, req: Request)
    requires n <= |ds|
    ensures AnyAccepts(Exclusions(ds, path, kind, n), req) <==> Overridden(ds, n, path, kind, req)
  {
    if n == 0 {
    } else {
      ExclusionsOverride(ds, path, kind, n - 1, req);
      OverriddenNext(ds, n, path, kind, req);
      var d, before := ds[n - 1], Exclusions(ds, path, kind, n - 1);
      AnyAcceptsAdds(before, OrAlways(d.scopePred), req);
      assert OrAlways(d.scopePred)(req) == Accepts(d.scopePred, req);
      assert before + [] == before;
    }
  }

  ghost function Judge(d: Decl, all: seq<Decl>, req: Request): Verdict {
    Verdict(d.leaf, Accepts(d.scopePred, req) &&
      !(d.leaf.Leaf? && Exclusive(d.leaf.kind) && OverriddenBy(all, d.path, d.leaf.kind, req)))
  }

  ghost predicate Unresolved(d: Decl) {
    d.leaf.Leaf? && d.excluded == []
  }

  lemma FiresAsJudged(ds: seq<Decl>, i: nat, req: Request)
    requires i < |ds| && ds[i].leaf.Leaf? && (Exclusive(ds[i].leaf.kind) || ds[i].excluded == [])
    ensures Fires(Resolved(ds)[i], req) == Judge(ds[i], ds, req).fires
  {
    var r := Resolved(ds)[i];
    assert r == ResolvedAt(ds, i);
    assert Fires(r, req) <==> Accepts(r.scopePred, req) && !AnyAccepts(r.excluded, req);
    if Exclusive(ds[i].leaf.kind) { ExclusionsOverride(ds, ds[i].path, ds[i].leaf.kind, |ds|, req); }
  }

  ghost predicate IsExclusive(d: Decl, kind: Kind) {
    d.leaf.Leaf? && d.leaf.kind == kind && Exclusive(kind)
  }

  /** No two firing declarations of one exclusive kind are nested in one another. */
  lemma InnermostWins(ds: seq<Decl>, i: nat, j: nat, kind: Kind, req: Request)
    requires i < |ds| && j < |ds| && IsExclusive(ds[i], kind) && IsExclusive(ds[j], kind)
    requires Fires(Resolved(ds)[i], req) && Fires(Resolved(ds)[j], req)
    ensures !Extends(ds[j].path, ds[i].path)
  {
    FiresAsJudged(ds, i, req);
    FiresAsJudged(ds, j, req);
    if Extends(ds[j].path, ds[i].path) { OneOverrides(ds, |ds|, j, ds[i].path, kind, req); }
  }

  ghost function Longest(ds: seq<Decl>, n: nat): (m: nat)
    requires n <= |ds|
    ensures forall k :: 0 <= k < n ==> |ds[k].path| <= m
  {
    if n == 0 then 0 else Max(Longest(ds, n - 1), |ds[n - 1].path|)
  }

  /** An accepted scope is never left without its kind: the declaration itself or one below it fires. */
  lemma {:induction false} SomeoneFires(ds: seq<Decl>, i: nat, kind: Kind, req: Request) returns (w: nat)
    requires i < |ds| && IsExclusive(ds[i], kind) && Accepts(ds[i].scopePred, req)
    ensures w < |ds| && IsExclusive(ds[w], kind) && Fires(Resolved(ds)[w], req)
    ensures w == i || Extends(ds[w].path, ds[i].path)
    decreases Longest(ds, |ds|) - |ds[i].path|
  {
    FiresAsJudged(ds, i, req);
    if OverriddenBy(ds, ds[i].path, kind, req) {
      var j := FindOverrider(ds, |ds|, ds[i].path, kind, req);
      w := SomeoneFires(ds, j, kind, req);
      assert ds[i].path <= ds[j].path <= ds[w].path;
    } else {
      w := i;
    }
  }

  // ---- The declarations of a walk ----

  lemma OverriddenTogether(a: seq<Decl>, b: seq<Decl>, path: seq<nat>, kind: Kind, req: Request)
    ensures OverriddenBy(a + b, path, kind, req) <==>
            OverriddenBy(a, path, kind, req) || OverriddenBy(b, path, kind, req)
  {
    var all := a + b;
    if OverriddenBy(all, path, kind, req) {
      var j := FindOverrider(all, |all|, path, kind, req);
      if j < |a| { OneOverrides(a, |a|, j, path, kind, req); } else { OneOverrides(b, |b|, j - |a|, path, kind, req); }
    }
    if OverriddenBy(a, path, kind, req) {
      var j := FindOverrider(a, |a|, path, kind, req);
      OneOverrides(all, |all|, j, path, kind, req);
    }
    if OverriddenBy(b, path, kind, req) {
      var j := FindOverrider(b, |b|, path, kind, req);
      OneOverrides(all, |all|, |a| + j, path, kind, req);
    }
  }

  /** The declarations of the first n nodes, node by node. */
  ghost function DeclsOf(body: seq<Node>, n: nat, at: Place, counter: nat): seq<Decl>
    requires n <= |body|
    decreases body, n
  {
    if n == 0 then [] else
    DeclsOf(body, n - 1, at, counter) + DeclsIn(body[n - 1], n - 1, at, counter + Unnamed(body, n - 1))
  }

  ghost function DeclsIn(node: Node, i: nat, at: Place, counter: nat): seq<Decl>
    decreases node
  {
    if node.Leaf? then [Emit(Spot(at, node))]
    else DeclsOf(node.body, |node.body|, Inside(node, i, at, counter), counter + Own(node))
  }

  lemma {:induction false} DeclsAreEmitted(body: seq<Node>, n: nat, at: Place, counter: nat)
    requires n <= |body|
    ensures DeclsOf(body, n, at, counter) == Emitted(Spots(body, n, at, counter))
    decreases body, n
  {
    if n == 0 {
    } else {
      var c := counter + Unnamed(body, n - 1);
      DeclsAreEmitted(body, n - 1, at, counter);
      DeclsInAreEmitted(body[n - 1], n - 1, at, c);
      EmittedAdds(Spots(body, n - 1, at, counter), SpotsIn(body[n - 1], n - 1, at, c));
    }
  }

  lemma {:induction false} DeclsInAreEmitted(node: Node, i: nat, at: Place, counter: nat)
    ensures DeclsIn(node, i, at, counter) == Emitted(SpotsIn(node, i, at, counter))
    decreases node
  {
    if node.Match? {
      DeclsAreEmitted(node.body, |node.body|, Inside(node, i, at, counter), counter + Own(node));
    }
  }

  lemma InsideAccepts(m: Node, i: nat, at: Place, counter: nat, req: Request)
    requires m.Match?
    ensures AllAccept(Inside(m, i, at, counter).preds, req) <==> AllAccept(at.preds, req) && Holds(m, req)
  {
    var inner := Inside(m, i, at, counter).preds;
    if m.spec.When? {
      assert inner[|at.preds|] == m.spec.pred;
      assert forall k :: 0 <= k < |at.preds| ==> inner[k] == at.preds[k];
    }
  }

  lemma {:induction false} OverriddenIsShaded(
    body: seq<Node>, n: nat, at: Place, counter: nat, on: bool, path: seq<nat>, kind: Kind, req: Request)
    requires n <= |body| && on == AllAccept(at.preds, req)
    ensures OverriddenBy(DeclsOf(body, n, at, counter), path, kind, req) <==>
            Shaded(body, n, on, at.path, path, kind, req)
    decreases body, n
  {
    if n == 0 {
    } else {
      OverriddenIsShaded(body, n - 1, at, counter, on, path, kind, req);
      OverriddenInIsShaded(body[n - 1], n - 1, at, counter + Unnamed(body, n - 1), on, path, kind, req);
      OverriddenTogether(DeclsOf(body, n - 1, at, counter),
                         DeclsIn(body[n - 1], n - 1, at, counter + Unnamed(body, n - 1)), path, kind, req);
    }
  }

  lemma LeafOverrides(d: Decl, path: seq<nat>, kind: Kind, req: Request)
    ensures OverriddenBy([d], path, kind, req) <==> Overrides(d, path, kind) && Accepts(d.scopePred, req)
  {
    OverriddenNext([d], 1, path, kind, req);
  }

  lemma {:induction false} OverriddenInIsShaded(
    node: Node, i: nat, at: Place, counter: nat, on: bool, path: seq<nat>, kind: Kind, req: Request)
    requires on == AllAccept(at.preds, req)
    ensures OverriddenBy(DeclsIn(node, i, at, counter), path, kind, req) <==>
            ShadedIn(node, i, on, at.path, path, kind, req)
    decreases node
  {
    if node.Match? {
      InsideAccepts(node, i, at, counter, req);
      OverriddenIsShaded(node.body, |node.body|, Inside(node, i, at, counter), counter + Own(node),
                         on && Holds(node, req), path, kind, req);
    } else {
      LeafOverrides(Emit(Spot(at, node)), path, kind, req);
    }
  }

  ghost function Judged(ds: seq<Decl>, all: seq<Decl>, req: Request): (vs: seq<Verdict>)
    ensures |vs| == |ds| && forall k :: 0 <= k < |ds| ==> vs[k] == Judge(ds[k], all, req)
  {
    seq(|ds|, k requires 0 <= k < |ds| => Judge(ds[k], all, req))
  }

  lemma JudgedAdds(a: seq<Decl>, b: seq<Decl>, all: seq<Decl>, req: Request)
    ensures Judged(a + b, all, req) == Judged(a, all, req) + Judged(b, all, req)
  {
  }

  /** All declarations together shade what two bodies shade. */
  ghost predicate Covers(all: seq<Decl>, x: Root, y: Root, req: Request) {
    forall path, kind ::
      OverriddenBy(all, path, kind, req) == (Shade(x, path, kind, req) || Shade(y, path, kind, req))
  }

  lemma {:induction false} JudgedIsByPath(
    body: seq<Node>, n: nat, at: Place, counter: nat, on: bool, all: seq<Decl>, x: Root, y: Root, req: Request)
    requires n <= |body| && on == AllAccept(at.preds, req) && Covers(all, x, y, req)
    ensures Judged(DeclsOf(body, n, at, counter), all, req) == ByPath(body, n, on, at.path, x, y, req)
    decreases body, n
  {
    if n == 0 {
    } else {
      var c := counter + Unnamed(body, n - 1);
      JudgedIsByPath(body, n - 1, at, counter, on, all, x, y, req);
      JudgedInIsByPath(body[n - 1], n - 1, at, c, on, all, x, y, req);
      JudgedAdds(DeclsOf(body, n - 1, at, counter), DeclsIn(body[n - 1], n - 1, at, c), all, req);
    }
  }

  lemma {:induction false} JudgedInIsByPath(
    node: Node, i: nat, at: Place, counter: nat, on: bool, all: seq<Decl>, x: Root, y: Root, req: Request)
    requires on == AllAccept(at.preds, req) && Covers(all, x, y, req)
    ensures Judged(DeclsIn(node, i, at, counter), all, req) == ByPathIn(node, i, on, at.path, x, y, req)
    decreases node
  {
    if node.Match? {
      InsideAccepts(node, i, at, counter, req);
      JudgedIsByPath(node.body, |node.body|, Inside(node, i, at, counter), counter + Own(node),
                     on && Holds(node, req), all, x, y, req);
    }
  }

  // ---- What a declaration's path says ----

  /** The path leads from a body through nested matches. */
  ghost predicate Leads(body: seq<Node>, path: seq<nat>)
    decreases |path|
  {
    path == [] || (path[0] < |body| && body[path[0]].Match? && Leads(body[path[0]].body, path[1..]))
  }

  ghost function Reached(body: seq<Node>, path: seq<nat>): seq<Node>
    requires Leads(body, path)
    decreases |path|
  {
    if path == [] then body else Reached(body[path[0]].body, path[1..])
  }

  /** The last redis block met along the path, or the outer connection. */
  ghost function RedisAlong(body: seq<Node>, path: seq<nat>, outer: Option<Conn>): Option<Conn>
    requires Leads(body, path)
    decreases |path|
  {
    if path == [] then outer else
    var m := body[path[0]];
    RedisAlong(m.body, path[1..], if m.redis.Some? then Some(ConnOf(m.redis.value)) else outer)
  }

  ghost predicate Captured(s: Spot, body: seq<Node>, at: Place) {
    && at.path <= s.place.path
    && var rest := s.place.path[|at.path|..];
       Leads(body, rest) && s.leaf in Reached(body, rest) && s.place.redis == RedisAlong(body, rest, at.redis)
  }

  /** Every declaration records the path to its own body and the nearest redis along that path. */
  lemma {:induction false} CapturesNearest(body: seq<Node>, n: nat, at: Place, counter: nat, k: nat)
    requires n <= |body| && k < |Spots(body, n, at, counter)|
    ensures Captured(Spots(body, n, at, counter)[k], body, at)
    decreases body, n
  {
    var before, c, m := |Spots(body, n - 1, at, counter)|, counter + Unnamed(body, n - 1), body[n - 1];
    if k < before {
      CapturesNearest(body, n - 1, at, counter, k);
    } else if m.Match? {
      CapturesNearest(m.body, |m.body|, Inside(m, n - 1, at, c), c + Own(m), k - before);
      CapturedOutside(Spots(body, n, at, counter)[k], body, n - 1, at, c);
    }
  }

  lemma CapturedOutside(s: Spot, body: seq<Node>, i: nat, at: Place, counter: nat)
    requires i < |body| && body[i].Match? && Captured(s, body[i].body, Inside(body[i], i, at, counter))
    ensures Captured(s, body, at)
  {
    var inner := Inside(body[i], i, at, counter);
    assert at.path <= inner.path <= s.place.path;
    var rest := s.place.path[|at.path|..];
    assert rest[0] == inner.path[|at.path|] == i;
    assert rest[1..] == s.place.path[|inner.path|..];
  }

  /** How many leaves the first n nodes hold, at any depth. */
  function Leaves(body: seq<Node>, n: nat): nat
    requires n <= |body|
    decreases body, n
  {
    if n == 0 then 0 else Leaves(body, n - 1) + LeavesIn(body[n - 1])
  }

  function LeavesIn(node: Node): nat
    decreases node
  {
    if node.Leaf? then 1 else Leaves(node.body, |node.body|)
  }

  lemma {:induction false} SpotPerLeaf(body: seq<Node>, n: nat, at: Place, counter: nat)
    requires n <= |body|
    ensures |Spots(body, n, at, counter)| == Leaves(body, n)
    decreases body, n
  {
    if n == 0 {
    } else {
      var node, c := body[n - 1], counter + Unnamed(body, n - 1);
      SpotPerLeaf(body, n - 1, at, counter);
      if node.Match? { SpotPerLeaf(node.body, |node.body|, Inside(node, n - 1, at, c), c + Own(node)); }
    }
  }

  /** The path leads to the leaf and meets no redis block. */
  ghost predicate MeetsNone(body: seq<Node>, path: seq<nat>, leaf: Node)
    decreases |path|
  {
    if path == [] then leaf in body
    else path[0] < |body| && body[path[0]].Match? && body[path[0]].redis.None?
         && MeetsNone(body[path[0]].body, path[1..], leaf)
  }

  lemma {:induction false} NoneAlong(body: seq<Node>, path: seq<nat>, leaf: Node, outer: Option<Conn>)
    requires Leads(body, path) && MeetsNone(body, path, leaf)
    ensures RedisAlong(body, path, outer) == outer
    decreases |path|
  {
    if path == [] {
    } else {
      NoneAlong(body[path[0]].body, path[1..], leaf, outer);
    }
  }

  /** Declaration k of a listener stands among the globals or among its own rules, and no redis block is
      nested around it. */
  ghost predicate OutsideRedis(globals: seq<Node>, l: Listener, d: Decl, k: nat) {
    if k < Leaves(globals, |globals|) then MeetsNone(globals, d.path, d.leaf)
    else d.path != [] && d.path[0] == 0 && MeetsNone(l.body, d.path[1..], d.leaf)
  }

  lemma SpotOf(globals: seq<Node>, l: Listener, seed: Option<Conn>, k: nat)
    requires k < |ListenerSpots(globals, l.body, seed)|
    ensures var s, g := ListenerSpots(globals, l.body, seed)[k], Leaves(globals, |globals|);
            if k < g then Captured(s, globals, Place([], [], [], seed))
            else Captured(s, l.body, Place([], [0], [], seed))
  {
    var g, c := Leaves(globals, |globals|), Unnamed(globals, |globals|);
    SpotPerLeaf(globals, |globals|, Place([], [], [], seed), 0);
    if k < g {
      CapturesNearest(globals, |globals|, Place([], [], [], seed), 0, k);
    } else {
      CapturesNearest(l.body, |l.body|, Place([], [0], [], seed), c, k - g);
    }
  }

  lemma OutsideSeed(globals: seq<Node>, l: Listener, seed: Option<Conn>, k: nat)
    requires k < |Compiled(globals, l.body, seed)| && OutsideRedis(globals, l, Compiled(globals, l.body, seed)[k], k)
    ensures Compiled(globals, l.body, seed)[k].redis == seed
  {
    var d := Compiled(globals, l.body, seed)[k];
    SpotOf(globals, l, seed, k);
    if k < Leaves(globals, |globals|) {
      assert d.path[0..] == d.path;
      NoneAlong(globals, d.path, d.leaf, seed);
    } else {
      NoneAlong(l.body, d.path[1..], d.leaf, seed);
    }
  }

  /** Outside all redis blocks of the rules, a listener's own redis is the one in effect, whatever the
      process-wide one is; without it the process-wide one is, and without both there is none. */
  lemma ListenerRedis(globals: seq<Node>, process: Option<RedisConfig>, l: Listener, k: nat)
    requires k < |DeclsFor(globals, process, l)| && OutsideRedis(globals, l, DeclsFor(globals, process, l)[k], k)
    ensures var redis := DeclsFor(globals, process, l)[k].redis;
            && (l.redis.Some? ==> redis == Some(ConnOf(l.redis.value)))
            && (l.redis.None? && process.Some? ==> redis == Some(ConnOf(process.value)))
            && (l.redis.None? && process.None? ==> redis == None)
  {
    OutsideSeed(globals, l, Seed(l.redis, process), k);
  }

  // ---- Compiler correctness ----

  /** What the layers built from a listener's declarations do with a request. */
  ghost function Verdicts(ds: seq<Decl>, req: Request): (vs: seq<Verdict>)
    ensures |vs| == |ds| && forall k :: 0 <= k < |ds| ==> vs[k] == Verdict(ds[k].leaf, Fires(ds[k], req))
  {
    seq(|ds|, k requires 0 <= k < |ds| => Verdict(ds[k].leaf, Fires(ds[k], req)))
  }

  lemma VerdictsAreJudged(ds: seq<Decl>, req: Request)
    requires forall k :: 0 <= k < |ds| ==> Unresolved(ds[k])
    ensures Verdicts(Resolved(ds), req) == Judged(ds, ds, req)
  {
    forall k | 0 <= k < |ds| ensures Verdicts(Resolved(ds), req)[k] == Judged(ds, ds, req)[k] {
      assert Unresolved(ds[k]);
      FiresAsJudged(ds, k, req);
    }
  }

  ghost function Compiled(globals: seq<Node>, body: seq<Node>, seed: Option<Conn>): seq<Decl> {
    Emitted(ListenerSpots(globals, body, seed))
  }

  lemma CompiledSplits(globals: seq<Node>, body: seq<Node>, seed: Option<Conn>)
    ensures Compiled(globals, body, seed)
         == DeclsOf(globals, |globals|, Place([], [], [], seed), 0)
          + DeclsOf(body, |body|, Place([], [0], [], seed), Unnamed(globals, |globals|))
  {
    var c := Unnamed(globals, |globals|);
    DeclsAreEmitted(globals, |globals|, Place([], [], [], seed), 0);
    DeclsAreEmitted(body, |body|, Place([], [0], [], seed), c);
    EmittedAdds(Spots(globals, |globals|, Place([], [], [], seed), 0),
                Spots(body, |body|, Place([], [0], [], seed), c));
  }

  lemma CompiledCovers(globals: seq<Node>, body: seq<Node>, seed: Option<Conn>, req: Request)
    ensures Covers(Compiled(globals, body, seed), Root(globals, true, []), Root(body, true, [0]), req)
    ensures Covers(Compiled(globals, body, seed), Root(body, true, [0]), Root(globals, true, []), req)
  {
    var c := Unnamed(globals, |globals|);
    var top, inner := Place([], [], [], seed), Place([], [0], [], seed);
    var a, b := DeclsOf(globals, |globals|, top, 0), DeclsOf(body, |body|, inner, c);
    CompiledSplits(globals, body, seed);
    forall path, kind
      ensures OverriddenBy(a + b, path, kind, req) ==
              (Shade(Root(globals, true, []), path, kind, req) || Shade(Root(body, true, [0]), path, kind, req))
    {
      OverriddenTogether(a, b, path, kind, req);
      OverriddenIsShaded(globals, |globals|, top, 0, true, path, kind, req);
      OverriddenIsShaded(body, |body|, inner, c, true, path, kind, req);
    }
  }

  lemma GlobalsByPath(globals: seq<Node>, body: seq<Node>, req: Request)
    ensures ByPath(globals, |globals|, true, [], Root(globals, true, []), Root(body, true, [0]), req)
         == Overlaid(globals, |globals|, true, [Nested(body)], true, req)
  {
    var x, y, v := Root(globals, true, []), Root(body, true, [0]), Root([Nested(body)], true, []);
    forall path, kind | [] <= path ensures Shade(y, path, kind, req) == Shade(v, path, kind, req) {
      assert ShadedIn(Nested(body), 0, true, [], path, kind, req) == Shade(y, path, kind, req) by {
        assert [] + [0] == [0];
      }
      assert !Shaded([Nested(body)], 0, true, [], path, kind, req);
    }
    ByPathIsLocal(globals, |globals|, true, [], x, y, x, v, req);
    ByPathIsOverlaid(globals, |globals|, true, [Nested(body)], true, [], req);
  }

  lemma ListenerByPath(globals: seq<Node>, body: seq<Node>, req: Request)
    ensures ByPath(body, |body|, true, [0], Root(body, true, [0]), Root(globals, true, []), req)
         == Overlaid(body, |body|, true, Twin(globals, 0), TwinOn(globals, 0, true, req), req)
  {
    var x, y := Root(body, true, [0]), Root(globals, true, []);
    assert [] + [0] == [0];
    TwinShades(globals, 0, true, [], req);
    ByPathIsLocal(body, |body|, true, [0], x, y, x, TwinRoot(globals, 0, true, [], req), req);
    ByPathIsOverlaid(body, |body|, true, Twin(globals, 0), TwinOn(globals, 0, true, req), [0], req);
  }

  lemma CompiledUnresolved(globals: seq<Node>, body: seq<Node>, seed: Option<Conn>)
    ensures forall k :: 0 <= k < |Compiled(globals, body, seed)| ==> Unresolved(Compiled(globals, body, seed)[k])
  {
    forall k | 0 <= k < |Compiled(globals, body, seed)| ensures Unresolved(Compiled(globals, body, seed)[k]) {
      ListenerLeaves(globals, body, seed, k);
    }
  }

  /** For every configuration and request, the compiled layers do exactly this. */
  lemma CompiledVerdicts(globals: seq<Node>, body: seq<Node>, seed: Option<Conn>, req: Request)
    ensures Verdicts(Resolved(Compiled(globals, body, seed)), req) == ListenerVerdicts(globals, body, req)
  {
    var all, c := Compiled(globals, body, seed), Unnamed(globals, |globals|);
    var top, inner := Place([], [], [], seed), Place([], [0], [], seed);
    CompiledUnresolved(globals, body, seed);
    VerdictsAreJudged(all, req);
    CompiledSplits(globals, body, seed);
    JudgedAdds(DeclsOf(globals, |globals|, top, 0), DeclsOf(body, |body|, inner, c), all, req);
    CompiledCovers(globals, body, seed, req);
    JudgedIsByPath(globals, |globals|, top, 0, true, all, Root(globals, true, []), Root(body, true, [0]), req);
    JudgedIsByPath(body, |body|, inner, c, true, all, Root(body, true, [0]), Root(globals, true, []), req);
    GlobalsByPath(globals, body, req);
    ListenerByPath(globals, body, req);
  }

  /** They mean the nested tree exactly when the two bodies at path [0] do not collide. */
  lemma CompilerCorrectIff(globals: seq<Node>, body: seq<Node>, seed: Option<Conn>, req: Request)
    ensures (Verdicts(Resolved(Compiled(globals, body, seed)), req)
             == Meaning(globals + [Nested(body)], |globals| + 1, true, req))
            <==> !PathsCollide(globals, body, req)
  {
    CompiledVerdicts(globals, body, seed, req);
    ListenerAgreesIff(globals, body, req);
  }

  /** In particular whenever the first global node is not a match. */
  lemma CompilerCorrect(globals: seq<Node>, body: seq<Node>, seed: Option<Conn>, req: Request)
    requires globals == [] || globals[0].Leaf?
    ensures Verdicts(Resolved(Compiled(globals, body, seed)), req)
         == Meaning(globals + [Nested(body)], |globals| + 1, true, req)
  {
    CompilerCorrectIff(globals, body, seed, req);
  }

  /** A condition-free match as the first global node loses its exclusive rule to a rule that is
      nested in a listener but not below it. */
  lemma FirstGlobalMatchCollides(kind: Kind, outer: string, inner: string, seed: Option<Conn>, req: Request)
    requires Exclusive(kind)
    ensures var globals, body := [Nested([Leaf(kind, outer)])], [Nested([Leaf(kind, inner)])];
            Verdicts(Resolved(Compiled(globals, body, seed)), req)
            != Meaning(globals + [Nested(body)], |globals| + 1, true, req)
  {
    var a, b := [Leaf(kind, outer)], [Nested([Leaf(kind, inner)])];
    CompilerCorrectIff([Nested(a)], b, seed, req);
    assert ActiveIn(Leaf(kind, inner), kind, req);
    assert Active([Leaf(kind, inner)], 1, kind, req);
    assert Deeper(b, 1, kind, req);
    assert !Deeper(a, 0, kind, req);
    assert CollidesAt(a, 0, true, b, true, req);
  }
}
