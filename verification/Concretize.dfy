/**
 All concrete trees of an expression, one after the other (`pgf/linearize.c`).
 */
module Concretize {
  import opened Arith
  import opened Wrappers
  import opened Grammar
  import opened Linearize
  import opened Expr
  import opened Choice
  import opened Searching
  import opened LzrIndex
  import opened InferTree
  import opened Infer
  import opened InferCount

  lemma FoundDropped<A(!new)>(t: Decision<Option<A>>, p: seq<nat>, q: seq<nat>, r: A)
    requires Bounded(t) && FoundAt(t, p, 0, q, Some(r))
    ensures Results(Remaining(t, p)) != [] && Results(Remaining(t, p))[0] == r && Follows(t, Advanced(q))
    ensures Results(Remaining(t, p))[1..] == if Advanced(q) == [] then [] else Results(Remaining(t, Advanced(q)))
    ensures q[..0] + Advanced(q[0..]) == Advanced(q)
  {
    assert p[0..] == p && q[0..] == q;
    ResultDropped(t, p, q, r);
  }

  /** A concrete tree of an expression that some category derives. */
  ghost predicate IsConcrete(cats: seq<CCat>, e: Expr, t: CncTree) {
    Abstract(t) == Strip(e) && exists c, d :: Derives(cats, c, d) && Tree(d) == t
  }

  // -------------------------------------------------------------------- concretization

  class Lzn {
    const lzr: Lzr
    const ch: GuChoice
    var expr: Option<Expr>
    ghost const ladder: Ladder

    ghost predicate Valid()
      reads this, lzr, ch
    {
      && lzr.Valid() && Climbs(Indices(lzr), ladder) && SmallIndex(Indices(lzr))
      && ch.Valid() && ch.pathIdx == 0
      && (expr.Some? ==> Follows(ExprTree(Indices(lzr), ladder, expr.value), ch.path))
    }

    /** What is still to come. */
    ghost function Left(): seq<Res>
      requires Valid()
      reads this, lzr, ch
    {
      if expr == None then [] else Results(Remaining(ExprTree(Indices(lzr), ladder, expr.value), ch.path))
    }

    constructor (lzr: Lzr, e: Expr, ghost ladder: Ladder)
      requires lzr.Valid() && Climbs(Indices(lzr), ladder) && SmallIndex(Indices(lzr))
      ensures Valid() && fresh(ch) && this.lzr == lzr && expr == Some(e) && this.ladder == ladder
      ensures Left() == Results(Leaves(ExprTree(Indices(lzr), ladder, e)))
    {
      this.lzr, this.expr, this.ladder := lzr, Some(e), ladder;
      ch := new GuChoice();
      new;
      FollowsEmpty(ExprTree(Indices(lzr), ladder, e));
      RemainingEmpty(ExprTree(Indices(lzr), ladder, e));
    }

    /** The next tree; `ok` is false when the two inferences of a tree disagree,
        which the source asserts against.  After the last tree, an enumeration
        whose expression is still there begins again. */
    method Next() returns (ok: bool, tree: Option<CncTree>)
      requires Valid()
      modifies this`expr, ch
      ensures Valid() && ok
      ensures tree.Some? <==> old(Left()) != []
      ensures tree.Some? ==> tree.value == old(Left())[0].tree && Left() == old(Left())[1..]
      ensures tree.Some? ==> old(expr).Some? && IsConcrete(lzr.cats, old(expr).value, tree.value)
      ensures expr == None || expr == old(expr)
      ensures tree == None ==> expr == old(expr)
      ensures tree == None && expr.Some? ==> Left() == Results(Leaves(ExprTree(Indices(lzr), ladder, expr.value)))
    {
      if expr == None {
        return true, None;
      }
      var e := expr.value;
      ghost var t := ExprTree(Indices(lzr), ladder, e);
      ResultsFirst(Remaining(t, ch.path));
      var r, mark := FindNext(e);
      if r == None {
        FollowsEmpty(t);
        RemainingEmpty(t);
        return true, None;
      }
      ok, tree := TreeAgain(e, r.value, mark, old(ch.path));
      BoundedExpr(Indices(lzr), ladder, e);
      FoundDropped(t, old(ch.path), ch.path, r.value);
      var more := ch.Advance();
      if !more {
        expr := None;
      }
    }

    /** Infers until there is a result or nothing is left. */
    method FindNext(e: Expr) returns (r: Option<Res>, mark: nat)
      requires Valid() && expr == Some(e)
      modifies ch
      ensures ch.Valid() && ch.pathIdx == mark == 0
      ensures r == First(Remaining(ExprTree(Indices(lzr), ladder, e), old(ch.path)))
      ensures r.Some? ==> FoundAt(ExprTree(Indices(lzr), ladder, e), old(ch.path), 0, ch.path, r)
      ensures r == None ==> ch.path == []
    {
      mark := ch.Mark();
      r := None;
      var more := true;
      ghost var t := ExprTree(Indices(lzr), ladder, e);
      assert ch.path[0..] == ch.path;
      while more
        invariant ch.Valid() && ch.pathIdx == mark
        invariant more ==> ch.path == old(ch.path)
        invariant !more ==> r == First(Remaining(t, old(ch.path)))
        invariant !more && r.Some? ==> FoundAt(t, old(ch.path), 0, ch.path, r)
        invariant !more && r == None ==> ch.path == []
        decreases more
      {
        var ok;
        ghost var d;
        ok, r, d := InferWith(lzr, ch, e, ladder);
        ch.Reset(mark);
        more := false;
        if r == None {
          more := ch.Advance();
        }
      }
    }

    /** Infers the same once more, this time for the tree. */
    method TreeAgain(e: Expr, r: Res, mark: nat, ghost p: seq<nat>) returns (ok: bool, tree: Option<CncTree>)
      requires lzr.Valid() && Climbs(Indices(lzr), ladder) && SmallIndex(Indices(lzr))
      requires ch.Valid() && ch.pathIdx == mark == 0 && FoundAt(ExprTree(Indices(lzr), ladder, e), p, 0, ch.path, Some(r))
      modifies ch
      ensures ch.Valid() && ch.pathIdx == mark && ch.path == old(ch.path)
      ensures ok && tree == Some(r.tree) && IsConcrete(lzr.cats, e, r.tree)
    {
      var again;
      ghost var d;
      assert ch.path[0..] == ch.path;
      ok, again, d := InferWith(lzr, ch, e, ladder);
      ch.Reset(mark);
      ok := ok && again.Some? && again.value.cat == r.cat;
      tree := if again.Some? then Some(again.value.tree) else None;
    }
  }

  /** The enumeration yields one tree for every derivation of the expression by a
      rule, and for every way of picking the rules of that derivation from those
      indexed: once, if no rule has been indexed twice.  If everything has been
      indexed, these are all the concrete trees of the expression. */
  method AllTrees(lzr: Lzr, e: Expr) returns (trees: seq<CncTree>, ghost gs: seq<Got>)
    requires lzr.Valid() && Acyclic(lzr.rules) && SmallIndex(Indices(lzr))
    ensures |gs| == |trees| && forall i :: 0 <= i < |trees| ==> trees[i] == Tree(gs[i].d)
    ensures forall g: Got :: multiset(gs)[g] == Ways(lzr.rules, g.cat, g.d) * One(Fits(e, g.d))
    ensures Distinct(lzr.rules) ==> Distinct(gs)
    ensures AllIndexed(lzr.cats, lzr.rules) ==> forall t :: t in trees <==> IsConcrete(lzr.cats, e, t)
  {
    ghost var rank: CatId -> nat, top: nat :| Ranked(lzr.rules, rank, top);
    RankedClimbs(lzr, rank, top);
    ghost var ladder := Ladder(rank, top);
    var lzn := new Lzn(lzr, e, ladder);
    trees := [];
    ghost var all, out: seq<Res> := lzn.Left(), [];
    var more := true;
    while more
      invariant lzn.Valid() && fresh(lzn) && fresh(lzn.ch) && lzn.lzr == lzr
      invariant TreesOf(trees, out) && all == if more then out + lzn.Left() else out
      decreases more, |lzn.Left()|
    {
      ghost var left := lzn.Left();
      var ok, tree := lzn.Next();
      if tree.Some? {
        OneTreeMore(trees, tree.value, all, out, left);
        trees := trees + [tree.value];
        out := out + [left[0]];
      }
      more := tree.Some?;
    }
    gs := AllGot(Indices(lzr), ladder, e);
    AttemptsCounted(lzr.rules, Indices(lzr), ladder, e);
    Enumerated(lzr.cats, lzr.rules, e, gs, trees);
  }

  ghost predicate TreesOf(trees: seq<CncTree>, out: seq<Res>) {
    |trees| == |out| && forall i :: 0 <= i < |out| ==> trees[i] == out[i].tree
  }

  lemma OneTreeMore(trees: seq<CncTree>, tree: CncTree, all: seq<Res>, out: seq<Res>, left: seq<Res>)
    requires TreesOf(trees, out) && all == out + left && left != [] && tree == left[0].tree
    ensures TreesOf(trees + [tree], out + [left[0]]) && all == out + [left[0]] + left[1..]
  {
    assert left == [left[0]] + left[1..];
  }

  lemma Enumerated(cats: seq<CCat>, rules: seq<Rule>, e: Expr, gs: seq<Got>, trees: seq<CncTree>)
    requires RulesOk(cats, rules)
    requires |gs| == |trees| && forall i :: 0 <= i < |trees| ==> trees[i] == Tree(gs[i].d)
    requires forall g: Got :: multiset(gs)[g] == Ways(rules, g.cat, g.d) * One(Fits(e, g.d))
    ensures Distinct(rules) ==> Distinct(gs)
    ensures AllIndexed(cats, rules) ==> forall t :: t in trees <==> IsConcrete(cats, e, t)
  {
    if Distinct(rules) {
      forall g: Got ensures multiset(gs)[g] <= 1 {
        WaysOnce(rules, g.cat, g.d);
      }
      OnceDistinct(gs);
    }
    if AllIndexed(cats, rules) {
      forall t ensures t in trees <==> IsConcrete(cats, e, t) {
        if t in trees {
          YieldedConcrete(cats, rules, e, gs, trees, t);
        }
        if IsConcrete(cats, e, t) {
          ConcreteYielded(cats, rules, e, gs, trees, t);
        }
      }
    }
  }

  lemma YieldedConcrete(cats: seq<CCat>, rules: seq<Rule>, e: Expr, gs: seq<Got>, trees: seq<CncTree>, t: CncTree)
    requires RulesOk(cats, rules) && t in trees
    requires |gs| == |trees| && forall i :: 0 <= i < |trees| ==> trees[i] == Tree(gs[i].d)
    requires forall g: Got :: multiset(gs)[g] == Ways(rules, g.cat, g.d) * One(Fits(e, g.d))
    ensures IsConcrete(cats, e, t)
  {
    var i :| 0 <= i < |trees| && trees[i] == t;
    var g := gs[i];
    assert g in multiset(gs);
    Product(Ways(rules, g.cat, g.d), One(Fits(e, g.d)));
    WaysDerives(cats, rules, g.cat, g.d);
  }

  lemma ConcreteYielded(cats: seq<CCat>, rules: seq<Rule>, e: Expr, gs: seq<Got>, trees: seq<CncTree>, t: CncTree)
    requires RulesOk(cats, rules) && AllIndexed(cats, rules) && IsConcrete(cats, e, t)
    requires |gs| == |trees| && forall i :: 0 <= i < |trees| ==> trees[i] == Tree(gs[i].d)
    requires forall g: Got :: multiset(gs)[g] == Ways(rules, g.cat, g.d) * One(Fits(e, g.d))
    ensures t in trees
  {
    var c, d :| Derives(cats, c, d) && Tree(d) == t;
    var b := BaseOf(Got(c, d));
    BaseDerives(cats, Got(c, d));
    WaysDerives(cats, rules, b.cat, b.d);
    Product(Ways(rules, b.cat, b.d), One(Fits(e, b.d)));
    assert b in multiset(gs);
    var i :| 0 <= i < |gs| && gs[i] == b;
    assert trees[i] == t;
  }
}
