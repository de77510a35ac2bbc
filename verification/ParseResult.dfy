/**
 Reading abstract syntax trees off a parse state (`pgf_cat_to_expr`).
 */
module ParseResult {
  import opened Wrappers
  import opened Grammar
  import opened Linearize
  import opened Chart
  import opened Parser
  import opened ParseTheorems
  import opened Expr
  import opened Choice

  /** A derivation with holes at the categories the parse never touched. */
  datatype Partial =
    | Hole(cat: CatId)
    | PApply(fun: CncFun, cats: seq<CatId>, kids: seq<Partial>)
    | PCoerce(cat: CatId, kid: Partial)

  ghost predicate PDerives(cats: seq<CCat>, c: CatId, d: Partial)
    decreases d
  {
    c < |cats| &&
    match d
    case Hole(c') => c' == c && !cats[c].prods.BufProds?
    case PApply(fun, argCats, kids) =>
      && Apply(fun, argCats) in ProdsOf(cats[c])
      && |kids| == |argCats|
      && forall i :: 0 <= i < |kids| ==> PDerives(cats, argCats[i], kids[i])
    case PCoerce(c', kid) =>
      Coerce(c') in ProdsOf(cats[c]) && PDerives(cats, c', kid)
  }

  /** The expression of a partial derivation; holes are metavariables. */
  function ExprOf(d: Partial): Expr {
    match d
    case Hole(_) => Meta(0)
    case PApply(fun, _, kids) => Applied(Fun(fun.name), seq(|kids|, i requires 0 <= i < |kids| => ExprOf(kids[i])))
    case PCoerce(_, kid) => ExprOf(kid)
  }

  /** `d` fills every hole of `pd` with some derivation of the hole's category. */
  ghost predicate Fills(cats: seq<CCat>, pd: Partial, d: Deriv)
    decreases pd
  {
    match pd
    case Hole(c) => Derives(cats, c, d)
    case PApply(fun, argCats, kids) =>
      && d.ByApply? && d.fun == fun && d.cats == argCats && |d.kids| == |kids|
      && forall i :: 0 <= i < |kids| ==> Fills(cats, kids[i], d.kids[i])
    case PCoerce(c, kid) => d.ByCoerce? && d.cat == c && Fills(cats, kid, d.kid)
  }

  lemma {:induction false} FillsDerives(cats: seq<CCat>, c: CatId, pd: Partial, d: Deriv)
    requires PDerives(cats, c, pd) && Fills(cats, pd, d)
    ensures Derives(cats, c, d)
    decreases pd
  {
    match pd
    case Hole(_) =>
    case PApply(fun, argCats, kids) =>
      forall i | 0 <= i < |kids| ensures Derives(cats, argCats[i], d.kids[i]) {
        FillsDerives(cats, argCats[i], kids[i], d.kids[i]);
      }
    case PCoerce(c', kid) => FillsDerives(cats, c', kid, d.kid);
  }

  lemma {:induction false} FillsInstance(cats: seq<CCat>, pd: Partial, d: Deriv)
    requires Fills(cats, pd, d)
    ensures Instance(ExprOf(pd), Abstract(Tree(d)))
    decreases pd
  {
    match pd
    case Hole(_) =>
    case PApply(fun, argCats, kids) =>
      var xs := seq(|kids|, i requires 0 <= i < |kids| => ExprOf(kids[i]));
      var t := Tree(d);
      var ys := AbstractAll(t.args);
      forall i | 0 <= i < |xs| ensures Instance(xs[i], ys[i]) {
        FillsInstance(cats, kids[i], d.kids[i]);
        assert t.args[i] == Tree(d.kids[i]);
      }
      AppliedInstance(Fun(fun.name), Fun(fun.name), xs, ys);
    case PCoerce(c', kid) => FillsInstance(cats, kid, d.kid);
  }

  /** Completion only narrows, with holes too: a partial derivation of a
      completed category is one, with the same expression, of every category of
      the grammar it was completed from, within the grammar alone. */
  lemma {:induction false} NarrowsPartial(st: Store, g: Ledger, goal: Goal, c: CatId, o: CatId, pd: Partial)
      returns (pd': Partial)
    requires Valid(st, g, goal) && Refines(g.parent, c, o) && o < |goal.grammar| && PDerives(st.cats, c, pd)
    ensures PDerives(goal.grammar, o, pd') && ExprOf(pd') == ExprOf(pd)
    decreases pd
  {
    match pd
    case Hole(_) =>
      assert CatOk(st, g, c);
      pd' := Hole(o);
    case PApply(fun, argCats, kids) =>
      var q := ProdLifts(st, g, goal, c, o, Apply(fun, argCats));
      ArgsInGrammar(st, g, goal, o, q);
      assert ProdArgs(q) == q.args;
      var kids' := NarrowsPartials(st, g, goal, argCats, q.args, kids);
      pd' := PApply(fun, q.args, kids');
      assert seq(|kids|, i requires 0 <= i < |kids| => ExprOf(kids[i]))
          == seq(|kids'|, i requires 0 <= i < |kids'| => ExprOf(kids'[i]));
    case PCoerce(c', kid) =>
      var q := ProdLifts(st, g, goal, c, o, Coerce(c'));
      ArgsInGrammar(st, g, goal, o, q);
      var kid' := NarrowsPartial(st, g, goal, c', q.cat, kid);
      pd' := PCoerce(q.cat, kid');
  }

  lemma {:induction false} NarrowsPartials(st: Store, g: Ledger, goal: Goal, cs: seq<CatId>, os: seq<CatId>, pds: seq<Partial>)
      returns (pds': seq<Partial>)
    requires Valid(st, g, goal) && AllRefine(g.parent, cs, os) && |pds| == |cs|
    requires forall i :: 0 <= i < |os| ==> os[i] < |goal.grammar|
    requires forall i :: 0 <= i < |pds| ==> PDerives(st.cats, cs[i], pds[i])
    ensures |pds'| == |os|
    ensures forall i :: 0 <= i < |pds'| ==> PDerives(goal.grammar, os[i], pds'[i]) && ExprOf(pds'[i]) == ExprOf(pds[i])
    decreases pds
  {
    if pds == [] {
      return [];
    }
    var k := |pds| - 1;
    var rest := NarrowsPartials(st, g, goal, cs[..k], os[..k], pds[..k]);
    assert Refines(g.parent, cs[k], os[k]);
    var last := NarrowsPartial(st, g, goal, cs[k], os[k], pds[k]);
    pds' := rest + [last];
  }

  /** `e` is a well-typed expression of a start category: it is that of a
      derivation in the grammar, with metavariables at some categories. */
  ghost predicate WellTyped(goal: Goal, e: Expr) {
    exists root, pd :: root in goal.roots && PDerives(goal.grammar, root, pd) && ExprOf(pd) == e
  }

  /** An expression read off a completed category is a well-typed expression of
      a start category of the grammar; and whatever fills its metavariables, the
      result is an instance of the expression, a tree of a start category, and
      linearizes to the tokens fed. */
  lemma ExtractionSound(st: Store, g: Ledger, goal: Goal, w: seq<Token>, p: Parse, c: CatId, pd: Partial)
    requires Valid(st, g, goal) && ParseOk(g, goal, w, p) && c in p.completed && PDerives(st.cats, c, pd)
    ensures WellTyped(goal, ExprOf(pd))
    ensures forall d :: Fills(st.cats, pd, d) ==>
              && Instance(ExprOf(pd), Abstract(Tree(d)))
              && Lin(Tree(d), goal.start) == Some(w)
              && IsGrammarTree(goal, Tree(d))
  {
    assert CompletedOk(g, goal, w, c);
    var root :| root in goal.roots && Refines(g.parent, c, root);
    var pd' := NarrowsPartial(st, g, goal, c, root, pd);
    assert WellTyped(goal, ExprOf(pd));
    forall d | Fills(st.cats, pd, d)
      ensures Instance(ExprOf(pd), Abstract(Tree(d))) && Lin(Tree(d), goal.start) == Some(w)
      ensures IsGrammarTree(goal, Tree(d))
    {
      FillsInstance(st.cats, pd, d);
      FillsDerives(st.cats, c, pd, d);
      ParseSound(st, g, goal, w, p, c, d);
    }
  }

  // -------------------------------------------------------------------- extraction

  ghost predicate Closed(cats: seq<CCat>) {
    forall c, p, i :: 0 <= c < |cats| && p in ProdsOf(cats[c]) && 0 <= i < |ProdArgs(p)| ==> ProdArgs(p)[i] < |cats|
  }

  lemma ValidClosed(st: Store, g: Ledger, goal: Goal)
    requires Valid(st, g, goal)
    ensures Closed(st.cats)
  {
    forall c, p, i | 0 <= c < |st.cats| && p in ProdsOf(st.cats[c]) && 0 <= i < |ProdArgs(p)|
      ensures ProdArgs(p)[i] < |st.cats|
    {
      assert CatOk(st, g, c) && ProdOk(st, g, c, p);
    }
  }

  /** How many of the first `n` categories have not been visited yet. */
  ghost function Unseen(n: nat, seen: set<CatId>): nat {
    if n == 0 then 0 else Unseen(n - 1, seen) + if n - 1 in seen then 0 else 1
  }

  lemma {:induction false} UnseenShrinks(n: nat, seen: set<CatId>, seen': set<CatId>)
    requires seen <= seen'
    ensures Unseen(n, seen') <= Unseen(n, seen)
    ensures (exists c :: c in seen' && c !in seen && c < n) ==> Unseen(n, seen') < Unseen(n, seen)
  {
    if n > 0 {
      UnseenShrinks(n - 1, seen, seen');
    }
  }
}
