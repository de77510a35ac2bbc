/**
 Reading expressions off a parse state (`pgf_cat_to_expr`), and the decisions it
 takes on the way.
 */
module Extraction {
  import opened Wrappers
  import opened Grammar
  import opened Linearize
  import opened Chart
  import opened Parser
  import opened ParseTheorems
  import opened ParseResult
  import opened Expr
  import opened Choice

  // ---------------------------------------------------------------- the decision tree

  /** How a visit to a category ends: a derivation or none, and the categories
      visited so far. */
  datatype Found = Found(pd: Option<Partial>, seen: set<CatId>)

  ghost function UnfoldCat(cats: seq<CCat>, c: CatId, seen: set<CatId>): Decision<Found>
    requires Closed(cats) && c < |cats|
    decreases Unseen(|cats|, seen), 0, 0, 0
  {
    if c in seen then Leaf(Found(None, seen))
    else if !cats[c].prods.BufProds? then Leaf(Found(Some(Hole(c)), seen + {c}))
    else if cats[c].prods.ps == [] then Dead(Leaf(Found(None, seen + {c})))
    else
      UnseenShrinks(|cats|, seen, seen + {c});
      var ps := cats[c].prods.ps;
      Node(seq(|ps|, i requires 0 <= i < |ps| => UnfoldProd(cats, c, ps[i], seen + {c})))
  }

  ghost function UnfoldProd(cats: seq<CCat>, c: CatId, p: Production, seen: set<CatId>): Decision<Found>
    requires Closed(cats) && c < |cats| && p in ProdsOf(cats[c])
    decreases Unseen(|cats|, seen), 2, 0, 0
  {
    match p
    case Apply(fun, args) =>
      assert ProdArgs(p) == args;
      UnfoldArgs(cats, fun, args, [], seen)
    case Coerce(c') =>
      assert ProdArgs(p)[0] < |cats|;
      Bind(UnfoldCat(cats, c', seen), (r: Found) => Leaf(Coerced(c', r)))
  }

  function Coerced(c: CatId, r: Found): Found {
    Found(if r.pd.Some? then Some(PCoerce(c, r.pd.value)) else None, r.seen)
  }

  /** The arguments from the one behind `kids` on. */
  ghost function UnfoldArgs(cats: seq<CCat>, fun: CncFun, args: seq<CatId>, kids: seq<Partial>, seen: set<CatId>): Decision<Found>
    requires Closed(cats) && |kids| <= |args| && forall i :: 0 <= i < |args| ==> args[i] < |cats|
    decreases Unseen(|cats|, seen), 1, |args| - |kids|, 0
  {
    if |kids| == |args| then Leaf(Found(Some(PApply(fun, args, kids)), seen))
    else Bind(UnfoldCat(cats, args[|kids|], seen), (r: Found) => UnfoldRest(cats, fun, args, kids, seen, r))
  }

  /** How it goes on after one argument. */
  ghost function UnfoldRest(cats: seq<CCat>, fun: CncFun, args: seq<CatId>, kids: seq<Partial>, seen: set<CatId>, r: Found): Decision<Found>
    requires Closed(cats) && |kids| < |args| && forall i :: 0 <= i < |args| ==> args[i] < |cats|
    decreases Unseen(|cats|, seen), 1, |args| - |kids| - 1, 1
  {
    if r.pd == None || !(seen <= r.seen) then Leaf(Found(None, r.seen))
    else
      UnseenShrinks(|cats|, seen, r.seen);
      UnfoldArgs(cats, fun, args, kids + [r.pd.value], r.seen)
  }

  // ------------------------------------------------------------------------ extraction

  /** The production at the root of a partial derivation. */
  ghost function RootProd(pd: Partial): Production
    requires !pd.Hole?
  {
    match pd
    case PApply(fun, cats, _) => Apply(fun, cats)
    case PCoerce(cat, _) => Coerce(cat)
  }

  /** A visit went as the decision tree says, unless the path leads astray. */
  ghost predicate Went(w: Walked<Found>, p: seq<nat>, idx: nat, p': seq<nat>, idx': nat,
                       ok: bool, e: Option<Expr>, seen: set<CatId>, pd: Partial)
  {
    idx <= |p| && (w.Walked? ==>
      && ok && seen == w.leaf.seen
      && (if e.Some? then w.leaf.pd == Some(pd) && e == Some(ExprOf(pd)) else w.leaf.pd == None)
      && p' == p[..idx] + w.used + w.rest && idx' == idx + |w.used|)
  }

  /** `ok` is false when a check of the choice object fails; `e` is `None`
      when the alternative is cyclic or exhausted. */
  method CatToExpr(cats: seq<CCat>, c: CatId, ch: GuChoice, seen: set<CatId>)
      returns (ok: bool, e: Option<Expr>, seen': set<CatId>, ghost pd: Partial)
    requires Closed(cats) && c < |cats| && ch.Valid()
    modifies ch
    ensures ch.Valid() && seen <= seen'
    ensures c in seen ==> ok && e == None && seen' == seen
    ensures c !in seen && !cats[c].prods.BufProds? ==> ok && e == Some(Meta(0)) && pd == Hole(c)
    ensures e.Some? ==> ok && PDerives(cats, c, pd) && ExprOf(pd) == e.value
    // the production used is the one the choice path picks
    ensures e.Some? && cats[c].prods.BufProds? ==>
              var i := Picked(old(ch.path), old(ch.pathIdx), |cats[c].prods.ps|);
              0 <= i < |cats[c].prods.ps| && !pd.Hole? && RootProd(pd) == cats[c].prods.ps[i]
    // and the whole visit goes as the decision tree says
    ensures SmallBuffers(cats) ==>
              Went(Walk(UnfoldCat(cats, c, seen), old(ch.path)[old(ch.pathIdx)..]),
                   old(ch.path), old(ch.pathIdx), ch.path, ch.pathIdx, ok, e, seen', pd)
    decreases Unseen(|cats|, seen), 0
  {
    ghost var p := ch.path[ch.pathIdx..];
    assert ch.path == ch.path[..ch.pathIdx] + [] + p;
    pd := Hole(c);
    if c in seen {
      return true, None, seen, pd;
    }
    seen' := seen + {c};
    if !cats[c].prods.BufProds? {
      return true, Some(Meta(0)), seen', pd;
    }
    var n := |cats[c].prods.ps|;
    if n > UINT8_MAX {
      return false, None, seen', pd;
    }
    var i;
    ok, i := ch.Next(n);
    if !ok || i == -1 {
      return ok, None, seen', pd;
    }
    UnseenShrinks(|cats|, seen, seen');
    ghost var mid := ch.path;
    ok, e, seen', pd := ProductionToExpr(cats, c, cats[c].prods.ps[i], ch, seen');
    if SmallBuffers(cats) {
      WentDown(cats, c, seen, p, i, old(ch.path), old(ch.pathIdx), mid, ch.path, ch.pathIdx, ok, e, seen', pd);
    }
  }

  /** The counters of a choice object can count the productions. */
  ghost predicate SmallBuffers(cats: seq<CCat>) {
    forall c :: 0 <= c < |cats| && cats[c].prods.BufProds? ==> |cats[c].prods.ps| <= UINT8_MAX
  }

  /** Below a category, along the branch that was picked. */
  lemma WentDown(cats: seq<CCat>, c: CatId, seen: set<CatId>, p: seq<nat>, i: nat, path: seq<nat>, idx: nat, mid: seq<nat>,
                 path': seq<nat>, idx': nat, ok: bool, e: Option<Expr>, seen': set<CatId>, pd: Partial)
    requires Closed(cats) && c < |cats| && c !in seen && cats[c].prods.BufProds? && i < |cats[c].prods.ps|
    requires idx <= |path| && p == path[idx..]
    requires if p == [] then i == 0 && mid == path + [|cats[c].prods.ps|]
             else mid == path && 1 <= p[0] <= |cats[c].prods.ps| && i == |cats[c].prods.ps| - p[0]
    requires idx + 1 <= |mid|
    requires Went(Walk(UnfoldProd(cats, c, cats[c].prods.ps[i], seen + {c}), mid[idx + 1..]),
                  mid, idx + 1, path', idx', ok, e, seen', pd)
    ensures Went(Walk(UnfoldCat(cats, c, seen), p), path, idx, path', idx', ok, e, seen', pd)
  {
    var ps := cats[c].prods.ps;
    var t := UnfoldCat(cats, c, seen);
    assert t.Node? && t.kids[i] == UnfoldProd(cats, c, ps[i], seen + {c});
    var q := if p == [] then [] else p[1..];
    var k := if p == [] then |ps| else p[0];
    OneMore(path, 0, idx, mid, k, q);
    var w := Walk(t.kids[i], q);
    assert Walk(t, p) == After([k], w);
    if w.Walked? {
      Regrouped(path[..idx], k, w.used, w.rest);
    }
  }

  lemma Regrouped(a: seq<nat>, k: nat, used: seq<nat>, rest: seq<nat>)
    ensures a + [k] + used + rest == a + ([k] + used) + rest
  {}

  method ProductionToExpr(cats: seq<CCat>, ghost c: CatId, prod: Production, ch: GuChoice, seen: set<CatId>)
      returns (ok: bool, e: Option<Expr>, seen': set<CatId>, ghost pd: Partial)
    requires Closed(cats) && c < |cats| && prod in ProdsOf(cats[c]) && ch.Valid()
    modifies ch
    ensures ch.Valid() && seen <= seen'
    ensures e.Some? ==> ok && PDerives(cats, c, pd) && ExprOf(pd) == e.value
    ensures e.Some? ==> !pd.Hole? && RootProd(pd) == prod
    ensures SmallBuffers(cats) ==>
              Went(Walk(UnfoldProd(cats, c, prod, seen), old(ch.path)[old(ch.pathIdx)..]),
                   old(ch.path), old(ch.pathIdx), ch.path, ch.pathIdx, ok, e, seen', pd)
    decreases Unseen(|cats|, seen), 2
  {
    pd := Hole(c);
    match prod {
      case Apply(fun, args) =>
        assert ProdArgs(prod) == args;
        ghost var kids;
        ok, e, seen', kids := ArgsToExpr(cats, fun, args, ch, seen);
        if e.Some? {
          pd := PApply(fun, args, kids);
        }
      case Coerce(c') =>
        assert ProdArgs(prod)[0] < |cats|;
        ghost var kid;
        ghost var p := ch.path[ch.pathIdx..];
        ok, e, seen', kid := CatToExpr(cats, c', ch, seen);
        pd := PCoerce(c', kid);
        if SmallBuffers(cats) {
          WalkBind(UnfoldCat(cats, c', seen), (r: Found) => Leaf(Coerced(c', r)), p);
        }
    }
  }

  /** Part of the arguments has been visited: what is left of the walk `w`. */
  ghost predicate Partway(cats: seq<CCat>, fun: CncFun, args: seq<CatId>, kids: seq<Partial>, seen: set<CatId>,
                          w: Walked<Found>, front: seq<nat>, p: seq<nat>, idx: nat)
    requires Closed(cats) && |kids| <= |args| && forall i :: 0 <= i < |args| ==> args[i] < |cats|
  {
    |front| <= idx <= |p| && p[..|front|] == front
    && w == After(p[|front|..idx], Walk(UnfoldArgs(cats, fun, args, kids, seen), p[idx..]))
  }

  /** One more argument. */
  lemma PartwayStep(cats: seq<CCat>, fun: CncFun, args: seq<CatId>, kids: seq<Partial>, seen: set<CatId>, w: Walked<Found>,
                    front: seq<nat>, p: seq<nat>, idx: nat, p': seq<nat>, idx': nat,
                    ok: bool, e: Option<Expr>, seen': set<CatId>, kid: Partial)
    requires Closed(cats) && |kids| < |args| && forall i :: 0 <= i < |args| ==> args[i] < |cats|
    requires w.Walked? && Partway(cats, fun, args, kids, seen, w, front, p, idx) && seen <= seen'
    requires Went(Walk(UnfoldCat(cats, args[|kids|], seen), p[idx..]), p, idx, p', idx', ok, e, seen', kid)
    ensures e.Some? ==> Partway(cats, fun, args, kids + [kid], seen', w, front, p', idx')
    ensures e == None ==> ok && w.leaf == Found(None, seen') && p' == front + w.used + w.rest && idx' == |front| + |w.used|
  {
    var f := (r: Found) => UnfoldRest(cats, fun, args, kids, seen, r);
    var t := UnfoldCat(cats, args[|kids|], seen);
    WalkBind(t, f, p[idx..]);
    var v := Walk(t, p[idx..]);
    assert v.Walked?;
    var rest := Walk(f(v.leaf), v.rest);
    assert w == After(p[|front|..idx], After(v.used, rest));
    AfterTwice(p[|front|..idx], v.used, rest);
    PathSplit(p, |front|, idx, v.used, v.rest);
  }

  lemma PartwayStart(cats: seq<CCat>, fun: CncFun, args: seq<CatId>, seen: set<CatId>, w: Walked<Found>, p: seq<nat>, idx: nat)
    requires Closed(cats) && (forall i :: 0 <= i < |args| ==> args[i] < |cats|) && idx <= |p|
    requires w == Walk(UnfoldArgs(cats, fun, args, [], seen), p[idx..])
    ensures Partway(cats, fun, args, [], seen, w, p[..idx], p, idx)
  {
    assert w.Walked? ==> [] + w.used == w.used;
  }

  lemma PartwayEnd(cats: seq<CCat>, fun: CncFun, args: seq<CatId>, kids: seq<Partial>, seen: set<CatId>, w: Walked<Found>,
                   front: seq<nat>, p: seq<nat>, idx: nat)
    requires Closed(cats) && |kids| == |args| && forall i :: 0 <= i < |args| ==> args[i] < |cats|
    requires w.Walked? && Partway(cats, fun, args, kids, seen, w, front, p, idx)
    ensures w.leaf == Found(Some(PApply(fun, args, kids)), seen)
    ensures p == front + w.used + w.rest && idx == |front| + |w.used|
  {
    assert w.used == p[|front|..idx] + [] && w.rest == p[idx..];
    assert p == p[..|front|] + p[|front|..idx] + p[idx..];
  }

  method ArgsToExpr(cats: seq<CCat>, fun: CncFun, args: seq<CatId>, ch: GuChoice, seen: set<CatId>)
      returns (ok: bool, e: Option<Expr>, seen': set<CatId>, ghost kids: seq<Partial>)
    requires Closed(cats) && (forall i :: 0 <= i < |args| ==> args[i] < |cats|) && ch.Valid()
    modifies ch
    ensures ch.Valid() && seen <= seen'
    ensures e.Some? ==> ok && |kids| == |args| && forall k :: 0 <= k < |args| ==> PDerives(cats, args[k], kids[k])
    ensures e.Some? ==> e.value == ExprOf(PApply(fun, args, kids))
    ensures SmallBuffers(cats) ==>
              Went(Walk(UnfoldArgs(cats, fun, args, [], seen), old(ch.path)[old(ch.pathIdx)..]),
                   old(ch.path), old(ch.pathIdx), ch.path, ch.pathIdx, ok, e, seen', PApply(fun, args, kids))
    decreases Unseen(|cats|, seen), 1
  {
    seen', ok := seen, true;
    var expr := Fun(fun.name);
    kids := [];
    ghost var exprs: seq<Expr> := [];
    ghost var front := ch.path[..ch.pathIdx];
    ghost var w := Walk(UnfoldArgs(cats, fun, args, [], seen), ch.path[ch.pathIdx..]);
    PartwayStart(cats, fun, args, seen, w, ch.path, ch.pathIdx);
    for i := 0 to |args|
      invariant ch.Valid() && seen <= seen' && |kids| == |exprs| == i
      invariant forall k :: 0 <= k < i ==> PDerives(cats, args[k], kids[k]) && ExprOf(kids[k]) == exprs[k]
      invariant expr == Applied(Fun(fun.name), exprs)
      invariant SmallBuffers(cats) && w.Walked? ==> Partway(cats, fun, args, kids, seen', w, front, ch.path, ch.pathIdx)
    {
      UnseenShrinks(|cats|, seen, seen');
      ghost var kid, p, idx, was := Hole(0), ch.path, ch.pathIdx, seen';
      ok, e, seen', kid := CatToExpr(cats, args[i], ch, seen');
      if SmallBuffers(cats) && w.Walked? {
        PartwayStep(cats, fun, args, kids, was, w, front, p, idx, ch.path, ch.pathIdx, ok, e, seen', kid);
      }
      if e == None {
        return;
      }
      ghost var before := exprs;
      kids := kids + [kid];
      exprs := exprs + [e.value];
      assert exprs[..|exprs| - 1] == before;
      expr := Expr.App(expr, e.value);
    }
    assert exprs == seq(|kids|, i requires 0 <= i < |kids| => ExprOf(kids[i]));
    e, ok := Some(expr), true;
    if SmallBuffers(cats) && w.Walked? {
      PartwayEnd(cats, fun, args, kids, seen', w, front, ch.path, ch.pathIdx);
    }
  }

  /** Reads one expression off a parse state, along a choice path. */
  method ExtractFrom(parsing: Parsing, state: Parse, ghost w: seq<Token>, i: nat, ch: GuChoice)
      returns (ok: bool, e: Option<Expr>, ghost pd: Partial)
    requires Valid(parsing.store, parsing.g, parsing.goal) && ParseOk(parsing.g, parsing.goal, w, state)
    requires i < |state.completed| && ch.Valid()
    modifies ch
    ensures ch.Valid()
    ensures e.Some? ==> ok && WellTyped(parsing.goal, e.value)
    ensures e.Some? ==> forall d :: Fills(parsing.store.cats, pd, d) ==>
              Instance(e.value, Abstract(Tree(d))) && Lin(Tree(d), parsing.goal.start) == Some(w)
  {
    ghost var st, g, goal := parsing.store, parsing.g, parsing.goal;
    var c := state.completed[i];
    ValidClosed(st, g, goal);
    assert CompletedOk(g, goal, w, c);
    var seen;
    ok, e, seen, pd := CatToExpr(parsing.store.cats, c, ch, {});
    if e.Some? {
      ExtractionSound(st, g, goal, w, state, c, pd);
    }
  }

  // ---------------------------------------------------------------------- enumeration

  lemma {:induction false} BoundedCat(cats: seq<CCat>, c: CatId, seen: set<CatId>)
    requires Closed(cats) && SmallBuffers(cats) && c < |cats|
    ensures Bounded(UnfoldCat(cats, c, seen))
    decreases Unseen(|cats|, seen), 0, 0, 0
  {
    if c !in seen && cats[c].prods.BufProds? {
      UnseenShrinks(|cats|, seen, seen + {c});
      var ps := cats[c].prods.ps;
      forall i | 0 <= i < |ps| ensures Bounded(UnfoldProd(cats, c, ps[i], seen + {c})) {
        BoundedProd(cats, c, ps[i], seen + {c});
      }
    }
  }

  lemma {:induction false} BoundedProd(cats: seq<CCat>, c: CatId, p: Production, seen: set<CatId>)
    requires Closed(cats) && SmallBuffers(cats) && c < |cats| && p in ProdsOf(cats[c])
    ensures Bounded(UnfoldProd(cats, c, p, seen))
    decreases Unseen(|cats|, seen), 2, 0, 0
  {
    match p
    case Apply(fun, args) =>
      assert ProdArgs(p) == args;
      BoundedArgs(cats, fun, args, [], seen);
    case Coerce(c') =>
      assert ProdArgs(p)[0] < |cats|;
      BoundedCat(cats, c', seen);
      BoundedBind(UnfoldCat(cats, c', seen), (r: Found) => Leaf(Coerced(c', r)));
  }

  lemma {:induction false} BoundedArgs(cats: seq<CCat>, fun: CncFun, args: seq<CatId>, kids: seq<Partial>, seen: set<CatId>)
    requires Closed(cats) && SmallBuffers(cats) && |kids| <= |args| && forall i :: 0 <= i < |args| ==> args[i] < |cats|
    ensures Bounded(UnfoldArgs(cats, fun, args, kids, seen))
    decreases Unseen(|cats|, seen), 1, |args| - |kids|, 0
  {
    if |kids| < |args| {
      BoundedCat(cats, args[|kids|], seen);
      var f := (r: Found) => UnfoldRest(cats, fun, args, kids, seen, r);
      forall r ensures Bounded(f(r)) {
        BoundedRest(cats, fun, args, kids, seen, r);
      }
      BoundedBind(UnfoldCat(cats, args[|kids|], seen), f);
    }
  }

  lemma {:induction false} BoundedRest(cats: seq<CCat>, fun: CncFun, args: seq<CatId>, kids: seq<Partial>, seen: set<CatId>, r: Found)
    requires Closed(cats) && SmallBuffers(cats) && |kids| < |args| && forall i :: 0 <= i < |args| ==> args[i] < |cats|
    ensures Bounded(UnfoldRest(cats, fun, args, kids, seen, r))
    decreases Unseen(|cats|, seen), 1, |args| - |kids| - 1, 1
  {
    if r.pd.Some? && seen <= r.seen {
      UnseenShrinks(|cats|, seen, r.seen);
      BoundedArgs(cats, fun, args, kids + [r.pd.value], r.seen);
    }
  }

  function ExprAt(r: Found): Option<Expr> {
    if r.pd.Some? then Some(ExprOf(r.pd.value)) else None
  }

  function Exprs(rs: seq<Found>): seq<Option<Expr>> {
    seq(|rs|, i requires 0 <= i < |rs| => ExprAt(rs[i]))
  }

  lemma MoveOne(out: seq<Option<Expr>>, rest: seq<Found>, e: Option<Expr>)
    requires rest != [] && e == ExprAt(rest[0])
    ensures out + [e] + Exprs(rest[1..]) == out + Exprs(rest)
  {
    assert Exprs(rest) == [e] + Exprs(rest[1..]);
  }

  /** One visit, back to the mark, advance. */
  method VisitAndAdvance(cats: seq<CCat>, c: CatId, ch: GuChoice, mark: nat, ghost p: seq<nat>)
      returns (e: Option<Expr>, more: bool)
    requires Closed(cats) && SmallBuffers(cats) && c < |cats|
    requires ch.Valid() && mark == ch.pathIdx && p == ch.path[mark..]
    requires Follows(UnfoldCat(cats, c, {}), p)
    modifies ch
    ensures ch.Valid() && ch.pathIdx == mark && Bounded(UnfoldCat(cats, c, {}))
    ensures ch.path == old(ch.path[..mark]) + Advanced(Extend(UnfoldCat(cats, c, {}), p))
    ensures Remaining(UnfoldCat(cats, c, {}), p) != [] && e == ExprAt(Remaining(UnfoldCat(cats, c, {}), p)[0])
    ensures more <==> Advanced(Extend(UnfoldCat(cats, c, {}), p)) != []
  {
    ghost var t, a := UnfoldCat(cats, c, {}), ch.path[..mark];
    BoundedCat(cats, c, {});
    WalkWhole(t, p);
    var ok, seen;
    ghost var pd;
    ok, e, seen, pd := CatToExpr(cats, c, ch, {});
    ch.Reset(mark);
    assert ch.path == a + Extend(t, p) + [];
    assert ch.path[mark..] == Extend(t, p) && ch.path[..mark] == a;
    more := ch.Advance();
  }

  /** Reading a category off again and again yields the leaves of its decision
      tree from left to right, and ends after the last one. */
  method EnumerateExprs(cats: seq<CCat>, c: CatId, ch: GuChoice) returns (out: seq<Option<Expr>>)
    requires Closed(cats) && SmallBuffers(cats) && c < |cats|
    requires ch.Valid() && ch.pathIdx == |ch.path|
    modifies ch
    ensures ch.Valid() && ch.path == old(ch.path) && ch.pathIdx == old(ch.pathIdx)
    ensures out == Exprs(Leaves(UnfoldCat(cats, c, {})))
  {
    ghost var t := UnfoldCat(cats, c, {});
    var mark := ch.Mark();
    ghost var a, p, rest := ch.path[..mark], ch.path[mark..], Leaves(t);
    FollowsEmpty(t);
    RemainingEmpty(t);
    BoundedCat(cats, c, {});
    out := [];
    var more := true;
    while more
      invariant ch.Valid() && ch.pathIdx == mark == |a|
      invariant ch.path[..mark] == a && ch.path[mark..] == p
      invariant more ==> Follows(t, p) && rest == Remaining(t, p)
      invariant out + Exprs(rest) == Exprs(Leaves(t))
      invariant !more ==> rest == [] && p == []
      decreases more, |rest|
    {
      var e;
      e, more := VisitAndAdvance(cats, c, ch, mark, p);
      RunThenAdvance(t, p);
      MoveOne(out, rest, e);
      out := out + [e];
      rest := rest[1..];
      p := Advanced(Extend(t, p));
    }
  }
}
