/** What a rule tree means, without paths or flattening, and what deciding by paths makes of it. */
module RuleMeaning {
  import opened Options
  import opened RuleTree
  import opened RuleWalk

  datatype Verdict = Verdict(leaf: Node, fires: bool)

  ghost predicate Holds(m: Node, req: Request)
    requires m.Match?
  {
    m.spec.When? ==> m.spec.pred(req)
  }

  /** Some leaf of this kind, at any depth, has all its matches within these nodes accept the request. */
  ghost predicate Active(body: seq<Node>, n: nat, kind: Kind, req: Request)
    requires n <= |body|
    decreases body, n
  {
    n > 0 && (Active(body, n - 1, kind, req) || ActiveIn(body[n - 1], kind, req))
  }

  ghost predicate ActiveIn(node: Node, kind: Kind, req: Request)
    decreases node
  {
    if node.Leaf? then node.kind == kind else Holds(node, req) && Active(node.body, |node.body|, kind, req)
  }

  /** The same, for leaves inside at least one match. */
  ghost predicate Deeper(body: seq<Node>, n: nat, kind: Kind, req: Request)
    requires n <= |body|
  {
    n > 0 && (Deeper(body, n - 1, kind, req) || (body[n - 1].Match? && ActiveIn(body[n - 1], kind, req)))
  }

  /** The tree semantics: a leaf fires when its enclosing matches accept and, for exclusive kinds,
      no leaf of its kind nested more deeply beside it is active. */
  ghost function Meaning(body: seq<Node>, n: nat, on: bool, req: Request): seq<Verdict>
    requires n <= |body|
    decreases body, n
  {
    if n == 0 then [] else Meaning(body, n - 1, on, req) + MeaningAt(body, n - 1, on, req)
  }

  ghost function MeaningAt(body: seq<Node>, i: nat, on: bool, req: Request): seq<Verdict>
    requires i < |body|
    decreases body, i
  {
    var node := body[i];
    if node.Leaf? then
      [Verdict(node, on && !(Exclusive(node.kind) && Deeper(body, |body|, node.kind, req)))]
    else Meaning(node.body, |node.body|, on && Holds(node, req), req)
  }

  /** Two bodies at one path: the second one's nested leaves shade the first one's as well. */
  ghost predicate Paired(b: seq<Node>, i: nat) {
    i < |b| && b[i].Match?
  }

  ghost function Twin(b: seq<Node>, i: nat): seq<Node> {
    if Paired(b, i) then b[i].body else []
  }

  ghost predicate TwinOn(b: seq<Node>, i: nat, on: bool, req: Request) {
    on && (Paired(b, i) ==> Holds(b[i], req))
  }

  ghost function Overlaid(a: seq<Node>, n: nat, onA: bool, b: seq<Node>, onB: bool, req: Request): seq<Verdict>
    requires n <= |a|
    decreases a, n
  {
    if n == 0 then [] else Overlaid(a, n - 1, onA, b, onB, req) + OverlaidAt(a, n - 1, onA, b, onB, req)
  }

  ghost function OverlaidAt(a: seq<Node>, i: nat, onA: bool, b: seq<Node>, onB: bool, req: Request): seq<Verdict>
    requires i < |a|
    decreases a, i
  {
    var node := a[i];
    if node.Leaf? then
      [Verdict(node, onA && !(Exclusive(node.kind) &&
        (Deeper(a, |a|, node.kind, req) || (onB && Deeper(b, |b|, node.kind, req)))))]
    else Overlaid(node.body, |node.body|, onA && Holds(node, req), Twin(b, i), TwinOn(b, i, onB, req), req)
  }

  // ---- Shading by path, folded over a tree ----

  /** Some leaf of this kind lies strictly below the path and is accepted by all its matches; the
      first n nodes lie at path `at`, in a scope that accepts the request exactly when on. */
  ghost predicate Shaded(
    body: seq<Node>, n: nat, on: bool, at: seq<nat>, path: seq<nat>, kind: Kind, req: Request)
    requires n <= |body|
    decreases body, n
  {
    n > 0 && (Shaded(body, n - 1, on, at, path, kind, req) || ShadedIn(body[n - 1], n - 1, on, at, path, kind, req))
  }

  ghost predicate ShadedIn(node: Node, i: nat, on: bool, at: seq<nat>, path: seq<nat>, kind: Kind, req: Request)
    decreases node
  {
    if node.Leaf? then on && node.kind == kind && Extends(at, path)
    else Shaded(node.body, |node.body|, on && Holds(node, req), at + [i], path, kind, req)
  }

  /** Above the path nothing is cut off: everything active shades. */
  lemma {:induction false} ShadedBelow(
    body: seq<Node>, n: nat, on: bool, at: seq<nat>, path: seq<nat>, kind: Kind, req: Request)
    requires n <= |body| && Extends(at, path)
    ensures Shaded(body, n, on, at, path, kind, req) <==> on && Active(body, n, kind, req)
    decreases body, n
  {
    if n == 0 {
    } else {
      ShadedBelow(body, n - 1, on, at, path, kind, req);
      ShadedBelowIn(body[n - 1], n - 1, on, at, path, kind, req);
    }
  }

  lemma {:induction false} ShadedBelowIn(
    node: Node, i: nat, on: bool, at: seq<nat>, path: seq<nat>, kind: Kind, req: Request)
    requires Extends(at, path)
    ensures ShadedIn(node, i, on, at, path, kind, req) <==> on && ActiveIn(node, kind, req)
    decreases node
  {
    if node.Match? {
      assert path <= at <= at + [i];
      ShadedBelow(node.body, |node.body|, on && Holds(node, req), at + [i], path, kind, req);
    }
  }

  /** At its own level, what shades a leaf is exactly what is active more deeply. */
  lemma {:induction false} ShadedIsDeeper(body: seq<Node>, n: nat, on: bool, at: seq<nat>, kind: Kind, req: Request)
    requires n <= |body|
    ensures Shaded(body, n, on, at, at, kind, req) <==> on && Deeper(body, n, kind, req)
    decreases n
  {
    if n == 0 {
    } else {
      ShadedIsDeeper(body, n - 1, on, at, kind, req);
      var node := body[n - 1];
      if node.Match? {
        ShadedBelow(node.body, |node.body|, on && Holds(node, req), at + [n - 1], at, kind, req);
      }
    }
  }

  lemma Apart(base: seq<nat>, k: nat, p: seq<nat>, i: nat, q: seq<nat>)
    requires k != i && base + [k] <= p && base + [i] <= q
    ensures !Extends(p, q)
  {
    assert p[|base|] == (base + [k])[|base|] == k;
    assert q[|base|] == (base + [i])[|base|] == i;
  }

  /** Nothing under another index shades. */
  lemma {:induction false} ElsewhereIsClear(
    body: seq<Node>, n: nat, on: bool, at: seq<nat>, base: seq<nat>, k: nat, i: nat, path: seq<nat>, kind: Kind,
    req: Request)
    requires n <= |body| && k != i && base + [k] <= at && base + [i] <= path
    ensures !Shaded(body, n, on, at, path, kind, req)
    decreases body, n
  {
    if n == 0 {
    } else {
      ElsewhereIsClear(body, n - 1, on, at, base, k, i, path, kind, req);
      Apart(base, k, at, i, path);
      var node := body[n - 1];
      if node.Match? {
        assert base + [k] <= at <= at + [n - 1];
        ElsewhereIsClear(node.body, |node.body|, on && Holds(node, req), at + [n - 1], base, k, i, path, kind, req);
      }
    }
  }

  /** Below the i-th node, only what that node holds can shade. */
  lemma {:induction false} ShadedIsLocal(
    body: seq<Node>, n: nat, on: bool, at: seq<nat>, i: nat, path: seq<nat>, kind: Kind, req: Request)
    requires n <= |body| && at + [i] <= path
    ensures Shaded(body, n, on, at, path, kind, req) <==>
            i < n && body[i].Match? && ShadedIn(body[i], i, on, at, path, kind, req)
    decreases n
  {
    if n == 0 {
    } else {
      ShadedIsLocal(body, n - 1, on, at, i, path, kind, req);
      var node := body[n - 1];
      if node.Match? && i != n - 1 {
        ElsewhereIsClear(node.body, |node.body|, on && Holds(node, req), at + [n - 1], at, n - 1, i, path, kind, req);
      }
    }
  }

  // ---- Verdicts by path, folded over a tree ----

  /** A body at a path, in a scope that accepts the request or not. */
  datatype Root = Root(body: seq<Node>, on: bool, at: seq<nat>)

  ghost predicate Shade(r: Root, path: seq<nat>, kind: Kind, req: Request) {
    Shaded(r.body, |r.body|, r.on, r.at, path, kind, req)
  }

  ghost function ByPath(body: seq<Node>, n: nat, on: bool, at: seq<nat>, x: Root, y: Root, req: Request): seq<Verdict>
    requires n <= |body|
    decreases body, n
  {
    if n == 0 then [] else
    ByPath(body, n - 1, on, at, x, y, req) + ByPathIn(body[n - 1], n - 1, on, at, x, y, req)
  }

  ghost function ByPathIn(node: Node, i: nat, on: bool, at: seq<nat>, x: Root, y: Root, req: Request): seq<Verdict>
    decreases node
  {
    if node.Leaf? then
      [Verdict(node, on && !(Exclusive(node.kind) && (Shade(x, at, node.kind, req) || Shade(y, at, node.kind, req))))]
    else ByPath(node.body, |node.body|, on && Holds(node, req), at + [i], x, y, req)
  }

  ghost predicate SameBelow(x: Root, u: Root, at: seq<nat>, req: Request) {
    forall path, kind :: at <= path ==> Shade(x, path, kind, req) == Shade(u, path, kind, req)
  }

  /** Verdicts below a path depend only on what shades below it. */
  lemma {:induction false} ByPathIsLocal(
    body: seq<Node>, n: nat, on: bool, at: seq<nat>, x: Root, y: Root, u: Root, w: Root, req: Request)
    requires n <= |body| && SameBelow(x, u, at, req) && SameBelow(y, w, at, req)
    ensures ByPath(body, n, on, at, x, y, req) == ByPath(body, n, on, at, u, w, req)
    decreases body, n
  {
    if n == 0 {
    } else {
      ByPathIsLocal(body, n - 1, on, at, x, y, u, w, req);
      var node := body[n - 1];
      if node.Match? {
        SameFurtherBelow(x, u, at, n - 1, req);
        SameFurtherBelow(y, w, at, n - 1, req);
        ByPathIsLocal(node.body, |node.body|, on && Holds(node, req), at + [n - 1], x, y, u, w, req);
      }
    }
  }

  lemma SameFurtherBelow(x: Root, u: Root, at: seq<nat>, i: nat, req: Request)
    requires SameBelow(x, u, at, req)
    ensures SameBelow(x, u, at + [i], req)
  {
    forall path, kind | at + [i] <= path ensures Shade(x, path, kind, req) == Shade(u, path, kind, req) {
      assert at <= at + [i] <= path;
    }
  }

  ghost function TwinRoot(b: seq<Node>, i: nat, on: bool, at: seq<nat>, req: Request): Root {
    Root(Twin(b, i), TwinOn(b, i, on, req), at + [i])
  }

  lemma TwinShades(b: seq<Node>, i: nat, on: bool, at: seq<nat>, req: Request)
    ensures SameBelow(Root(b, on, at), TwinRoot(b, i, on, at, req), at + [i], req)
  {
    forall path, kind | at + [i] <= path
      ensures Shade(Root(b, on, at), path, kind, req) == Shade(TwinRoot(b, i, on, at, req), path, kind, req)
    {
      ShadedIsLocal(b, |b|, on, at, i, path, kind, req);
    }
  }

  /** Deciding by paths, for two bodies at one path, is overlaying them. */
  lemma {:induction false} ByPathIsOverlaid(
    a: seq<Node>, n: nat, onA: bool, b: seq<Node>, onB: bool, at: seq<nat>, req: Request)
    requires n <= |a|
    ensures ByPath(a, n, onA, at, Root(a, onA, at), Root(b, onB, at), req) == Overlaid(a, n, onA, b, onB, req)
    decreases a, n
  {
    if n == 0 {
    } else {
      ByPathIsOverlaid(a, n - 1, onA, b, onB, at, req);
      var node := a[n - 1];
      if node.Leaf? {
        ShadedIsDeeper(a, |a|, onA, at, node.kind, req);
        ShadedIsDeeper(b, |b|, onB, at, node.kind, req);
      } else {
        MatchIsOverlaid(a, n - 1, onA, b, onB, at, req);
      }
    }
  }

  lemma {:induction false} MatchIsOverlaid(
    a: seq<Node>, i: nat, onA: bool, b: seq<Node>, onB: bool, at: seq<nat>, req: Request)
    requires i < |a| && a[i].Match?
    ensures ByPathIn(a[i], i, onA, at, Root(a, onA, at), Root(b, onB, at), req) == OverlaidAt(a, i, onA, b, onB, req)
    decreases a, i
  {
    var m := a[i];
    var on := onA && Holds(m, req);
    TwinShades(a, i, onA, at, req);
    TwinShades(b, i, onB, at, req);
    ByPathIsLocal(m.body, |m.body|, on, at + [i], Root(a, onA, at), Root(b, onB, at),
                  TwinRoot(a, i, onA, at, req), TwinRoot(b, i, onB, at, req), req);
    ByPathIsOverlaid(m.body, |m.body|, on, Twin(b, i), TwinOn(b, i, onB, req), at + [i], req);
  }

  // ---- When overlaying changes nothing ----

  /** Some leaf of a would fire by its own tree and is shaded by b alone. */
  ghost predicate Collides(a: seq<Node>, n: nat, onA: bool, b: seq<Node>, onB: bool, req: Request)
    requires n <= |a|
    decreases a, n
  {
    n > 0 && (Collides(a, n - 1, onA, b, onB, req) || CollidesAt(a, n - 1, onA, b, onB, req))
  }

  ghost predicate CollidesAt(a: seq<Node>, i: nat, onA: bool, b: seq<Node>, onB: bool, req: Request)
    requires i < |a|
    decreases a, i
  {
    var node := a[i];
    if node.Leaf? then
      && onA && Exclusive(node.kind) && !Deeper(a, |a|, node.kind, req)
      && onB && Deeper(b, |b|, node.kind, req)
    else Collides(node.body, |node.body|, onA && Holds(node, req), Twin(b, i), TwinOn(b, i, onB, req), req)
  }

  lemma SplitEqual(p: seq<Verdict>, q: seq<Verdict>, u: seq<Verdict>, w: seq<Verdict>)
    requires |p| == |u|
    ensures p + q == u + w <==> p == u && q == w
  {
    if p + q == u + w {
      assert p == (p + q)[..|p|] == (u + w)[..|p|] == u;
      assert q == (p + q)[|p|..] == (u + w)[|p|..] == w;
    }
  }

  lemma {:induction false} SameLength(a: seq<Node>, n: nat, onA: bool, b: seq<Node>, onB: bool, req: Request)
    requires n <= |a|
    ensures |Overlaid(a, n, onA, b, onB, req)| == |Meaning(a, n, onA, req)|
    decreases a, n
  {
    if n == 0 {
    } else {
      SameLength(a, n - 1, onA, b, onB, req);
      var m := a[n - 1];
      if m.Match? {
        SameLength(m.body, |m.body|, onA && Holds(m, req), Twin(b, n - 1), TwinOn(b, n - 1, onB, req), req);
      }
    }
  }

  lemma {:induction false} AgreesIff(a: seq<Node>, n: nat, onA: bool, b: seq<Node>, onB: bool, req: Request)
    requires n <= |a|
    ensures Overlaid(a, n, onA, b, onB, req) == Meaning(a, n, onA, req) <==> !Collides(a, n, onA, b, onB, req)
    decreases a, n
  {
    if n == 0 {
    } else {
      AgreesIff(a, n - 1, onA, b, onB, req);
      SameLength(a, n - 1, onA, b, onB, req);
      SplitEqual(Overlaid(a, n - 1, onA, b, onB, req), OverlaidAt(a, n - 1, onA, b, onB, req),
                 Meaning(a, n - 1, onA, req), MeaningAt(a, n - 1, onA, req));
      AgreesAtIff(a, n - 1, onA, b, onB, req);
    }
  }

  lemma {:induction false} AgreesAtIff(a: seq<Node>, i: nat, onA: bool, b: seq<Node>, onB: bool, req: Request)
    requires i < |a|
    ensures OverlaidAt(a, i, onA, b, onB, req) == MeaningAt(a, i, onA, req) <==> !CollidesAt(a, i, onA, b, onB, req)
    decreases a, i
  {
    var m := a[i];
    if m.Match? {
      AgreesIff(m.body, |m.body|, onA && Holds(m, req), Twin(b, i), TwinOn(b, i, onB, req), req);
    } else {
      assert OverlaidAt(a, i, onA, b, onB, req)[0].fires == MeaningAt(a, i, onA, req)[0].fires <==>
        !CollidesAt(a, i, onA, b, onB, req);
    }
  }

  lemma {:induction false} NothingCollides(a: seq<Node>, n: nat, onA: bool, onB: bool, req: Request)
    requires n <= |a|
    ensures !Collides(a, n, onA, [], onB, req)
    decreases a, n
  {
    if n == 0 {
    } else {
      NothingCollides(a, n - 1, onA, onB, req);
      var m := a[n - 1];
      if m.Match? { NothingCollides(m.body, |m.body|, onA && Holds(m, req), onB, req); }
    }
  }

  // ---- Globals and a listener ----

  /** A listener's rules nest below the globals: as if written in a match without conditions after them. */
  function Nested(body: seq<Node>): Node {
    Match(Always, None, None, body)
  }

  /** What the flat form does, whatever the first global node is. */
  ghost function ListenerVerdicts(globals: seq<Node>, body: seq<Node>, req: Request): seq<Verdict> {
    Overlaid(globals, |globals|, true, [Nested(body)], true, req) +
    Overlaid(body, |body|, true, Twin(globals, 0), TwinOn(globals, 0, true, req), req)
  }

  /** The first global node is a match, sharing path [0] with the listener's rules, and one of the
      two shades a leaf of the other that nothing nested below it shades. */
  ghost predicate PathsCollide(globals: seq<Node>, body: seq<Node>, req: Request) {
    Paired(globals, 0) && var first := globals[0]; (
      || Collides(first.body, |first.body|, Holds(first, req), body, true, req)
      || Collides(body, |body|, true, first.body, Holds(first, req), req))
  }

  lemma {:induction false} DeeperBeside(globals: seq<Node>, last: Node, n: nat, kind: Kind, req: Request)
    requires n <= |globals|
    ensures Deeper(globals + [last], n, kind, req) == Deeper(globals, n, kind, req)
  {
    if n == 0 {
    } else {
      DeeperBeside(globals, last, n - 1, kind, req);
    }
  }

  lemma GlobalLeaf(globals: seq<Node>, i: nat, body: seq<Node>, req: Request)
    requires i < |globals| && globals[i].Leaf?
    ensures OverlaidAt(globals, i, true, [Nested(body)], true, req) == MeaningAt(globals + [Nested(body)], i, true, req)
  {
    DeeperBeside(globals, Nested(body), |globals|, globals[i].kind, req);
    assert !Deeper([Nested(body)], 0, globals[i].kind, req);
  }

  lemma {:induction false} GlobalsAgreeIff(globals: seq<Node>, n: nat, body: seq<Node>, req: Request)
    requires n <= |globals|
    ensures |Overlaid(globals, n, true, [Nested(body)], true, req)| == |Meaning(globals + [Nested(body)], n, true, req)|
    ensures var overlaid := Overlaid(globals, n, true, [Nested(body)], true, req);
            overlaid == Meaning(globals + [Nested(body)], n, true, req) <==>
            n == 0 || globals[0].Leaf? ||
            !Collides(globals[0].body, |globals[0].body|, Holds(globals[0], req), body, true, req)
    decreases n
  {
    if n == 0 {
    } else {
      var i, v, all := n - 1, [Nested(body)], globals + [Nested(body)];
      GlobalsAgreeIff(globals, i, body, req);
      SplitEqual(Overlaid(globals, i, true, v, true, req), OverlaidAt(globals, i, true, v, true, req),
                 Meaning(all, i, true, req), MeaningAt(all, i, true, req));
      var m := globals[i];
      if m.Leaf? {
        GlobalLeaf(globals, i, body, req);
      } else {
        var on := TwinOn(v, i, true, req);
        SameLength(m.body, |m.body|, Holds(m, req), Twin(v, i), on, req);
        AgreesIff(m.body, |m.body|, Holds(m, req), Twin(v, i), on, req);
        if i > 0 { NothingCollides(m.body, |m.body|, Holds(m, req), on, req); }
      }
    }
  }

  /** The flat form means the nested tree exactly when the two bodies at path [0] do not collide. */
  lemma ListenerAgreesIff(globals: seq<Node>, body: seq<Node>, req: Request)
    ensures (ListenerVerdicts(globals, body, req) == Meaning(globals + [Nested(body)], |globals| + 1, true, req))
            <==> !PathsCollide(globals, body, req)
  {
    var all := globals + [Nested(body)];
    var on := TwinOn(globals, 0, true, req);
    GlobalsAgreeIff(globals, |globals|, body, req);
    AgreesIff(body, |body|, true, Twin(globals, 0), on, req);
    if !Paired(globals, 0) { NothingCollides(body, |body|, true, on, req); }
    SplitEqual(Overlaid(globals, |globals|, true, [Nested(body)], true, req),
               Overlaid(body, |body|, true, Twin(globals, 0), on, req),
               Meaning(all, |globals|, true, req), Meaning(body, |body|, true, req));
  }
}
