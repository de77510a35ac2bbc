/**
 What the enumeration of a category yields: every readable derivation, exactly
 once.
 */
module ExtractionCount {
  import opened Arith
  import opened Wrappers
  import opened Grammar
  import opened Linearize
  import opened ParseResult
  import opened Expr
  import opened Choice
  import opened Extraction
  import opened Orderliness
  import opened Chart

  // ------------------------------------------------------------- readable derivations

  /** A derivation with holes at exactly the categories the parse did not
      create. */
  ghost predicate Readable(cats: seq<CCat>, c: CatId, pd: Partial)
    decreases pd, 1
  {
    c < |cats| &&
    if pd.Hole? then pd.cat == c && !cats[c].prods.BufProds?
    else cats[c].prods.BufProds? && RootProd(pd) in cats[c].prods.ps && ReadableKids(cats, pd)
  }

  ghost predicate ReadableKids(cats: seq<CCat>, pd: Partial)
    requires !pd.Hole?
    decreases pd, 0
  {
    match pd
    case PApply(_, args, kids) =>
      |kids| == |args| && forall i :: 0 <= i < |kids| ==> Readable(cats, args[i], kids[i])
    case PCoerce(c, kid) => Readable(cats, c, kid)
  }

  /** The categories visited when a derivation is read from left to right; none
      may be met twice. */
  ghost function Visits(c: CatId, pd: Partial, seen: set<CatId>): Option<set<CatId>>
    decreases pd, 1
  {
    if c in seen then None
    else if pd.Hole? then Some(seen + {c})
    else VisitsKids(pd, seen + {c})
  }

  ghost function VisitsKids(pd: Partial, seen: set<CatId>): Option<set<CatId>>
    requires !pd.Hole?
    decreases pd, 0, 1
  {
    match pd
    case PApply(_, args, kids) => if |kids| == |args| then VisitsFrom(pd, 0, seen) else None
    case PCoerce(c, kid) => Visits(c, kid, seen)
  }

  ghost function VisitsFrom(pd: Partial, i: nat, seen: set<CatId>): Option<set<CatId>>
    requires pd.PApply? && i <= |pd.kids| == |pd.cats|
    decreases pd, 0, 0, |pd.kids| - i
  {
    if i == |pd.kids| then Some(seen) else
    var s := Visits(pd.cats[i], pd.kids[i], seen);
    if s == None then None else VisitsFrom(pd, i + 1, s.value)
  }

  /** All categories of a derivation. */
  ghost function CatsOf(c: CatId, pd: Partial): set<CatId>
    decreases pd, 1
  {
    {c} + (if pd.Hole? then {} else CatsBelow(pd))
  }

  ghost function CatsBelow(pd: Partial): set<CatId>
    requires !pd.Hole?
    decreases pd, 0, 1
  {
    match pd
    case PApply(_, args, kids) => if |kids| == |args| then CatsFrom(pd, 0) else {}
    case PCoerce(c, kid) => CatsOf(c, kid)
  }

  ghost function CatsFrom(pd: Partial, i: nat): set<CatId>
    requires pd.PApply? && i <= |pd.kids| == |pd.cats|
    decreases pd, 0, 0, |pd.kids| - i
  {
    if i == |pd.kids| then {} else CatsOf(pd.cats[i], pd.kids[i]) + CatsFrom(pd, i + 1)
  }

  /** Reading adds the categories of the derivation, all of them new. */
  lemma {:induction false} VisitsAdds(c: CatId, pd: Partial, seen: set<CatId>)
    requires Visits(c, pd, seen).Some?
    ensures CatsOf(c, pd) !! seen && Visits(c, pd, seen).value == seen + CatsOf(c, pd)
    decreases pd, 1
  {
    match pd
    case Hole(_) =>
    case PApply(_, args, kids) => VisitsFromAdds(pd, 0, seen + {c});
    case PCoerce(c', kid) => VisitsAdds(c', kid, seen + {c});
  }

  lemma {:induction false} VisitsFromAdds(pd: Partial, i: nat, seen: set<CatId>)
    requires pd.PApply? && i <= |pd.kids| == |pd.cats| && VisitsFrom(pd, i, seen).Some?
    ensures CatsFrom(pd, i) !! seen && VisitsFrom(pd, i, seen).value == seen + CatsFrom(pd, i)
    decreases pd, 0, |pd.kids| - i
  {
    if i < |pd.kids| {
      VisitsAdds(pd.cats[i], pd.kids[i], seen);
      VisitsFromAdds(pd, i + 1, Visits(pd.cats[i], pd.kids[i], seen).value);
    }
  }

  // -------------------------------------------------------------------------- counting

  /** How many choices of productions lead to a derivation: a production may be in
      a buffer more than once. */
  ghost function Copies(cats: seq<CCat>, c: CatId, pd: Partial): nat
    decreases pd, 1
  {
    if c >= |cats| then 0
    else if pd.Hole? then One(pd.cat == c && !cats[c].prods.BufProds?)
    else if cats[c].prods.BufProds? then multiset(cats[c].prods.ps)[RootProd(pd)] * CopiesBelow(cats, pd)
    else 0
  }

  ghost function CopiesBelow(cats: seq<CCat>, pd: Partial): nat
    requires !pd.Hole?
    decreases pd, 0, 1
  {
    match pd
    case PApply(_, args, kids) => if |kids| == |args| then CopiesFrom(cats, pd, 0) else 0
    case PCoerce(c, kid) => Copies(cats, c, kid)
  }

  ghost function CopiesFrom(cats: seq<CCat>, pd: Partial, i: nat): nat
    requires pd.PApply? && i <= |pd.kids| == |pd.cats|
    decreases pd, 0, 0, |pd.kids| - i
  {
    if i == |pd.kids| then 1 else Copies(cats, pd.cats[i], pd.kids[i]) * CopiesFrom(cats, pd, i + 1)
  }

  /** There is a choice exactly for the readable derivations. */
  lemma {:induction false} ReadableCopies(cats: seq<CCat>, c: CatId, pd: Partial)
    ensures Copies(cats, c, pd) > 0 <==> Readable(cats, c, pd)
    decreases pd, 1
  {
    if !pd.Hole? && c < |cats| && cats[c].prods.BufProds? {
      Product(multiset(cats[c].prods.ps)[RootProd(pd)], CopiesBelow(cats, pd));
      match pd
      case PApply(_, args, kids) =>
        if |kids| == |args| {
          ReadableCopiesFrom(cats, pd, 0);
        }
      case PCoerce(c', kid) => ReadableCopies(cats, c', kid);
    }
  }

  lemma {:induction false} ReadableCopiesFrom(cats: seq<CCat>, pd: Partial, i: nat)
    requires pd.PApply? && i <= |pd.kids| == |pd.cats|
    ensures CopiesFrom(cats, pd, i) > 0 <==> forall k :: i <= k < |pd.kids| ==> Readable(cats, pd.cats[k], pd.kids[k])
    decreases pd, 0, |pd.kids| - i
  {
    if i < |pd.kids| {
      ReadableCopies(cats, pd.cats[i], pd.kids[i]);
      ReadableCopiesFrom(cats, pd, i + 1);
      Product(Copies(cats, pd.cats[i], pd.kids[i]), CopiesFrom(cats, pd, i + 1));
    }
  }

  /** Then there is at most one choice. */
  lemma {:induction false} CopiesOnce(cats: seq<CCat>, c: CatId, pd: Partial)
    requires DistinctBuffers(cats)
    ensures Copies(cats, c, pd) <= 1
    decreases pd, 1
  {
    if !pd.Hole? && c < |cats| && cats[c].prods.BufProds? {
      DistinctOnce(cats[c].prods.ps, RootProd(pd));
      match pd
      case PApply(_, args, kids) =>
        if |kids| == |args| {
          CopiesOnceFrom(cats, pd, 0);
        }
      case PCoerce(c', kid) => CopiesOnce(cats, c', kid);
    }
  }

  lemma {:induction false} CopiesOnceFrom(cats: seq<CCat>, pd: Partial, i: nat)
    requires DistinctBuffers(cats) && pd.PApply? && i <= |pd.kids| == |pd.cats|
    ensures CopiesFrom(cats, pd, i) <= 1
    decreases pd, 0, |pd.kids| - i
  {
    if i < |pd.kids| {
      CopiesOnce(cats, pd.cats[i], pd.kids[i]);
      CopiesOnceFrom(cats, pd, i + 1);
    }
  }

  /** A category's decision tree has a leaf for a derivation if it can be read
      without meeting a category twice, and then one for every choice of
      productions. */
  lemma {:induction false} TimesCat(cats: seq<CCat>, c: CatId, seen: set<CatId>, pd: Partial, s: set<CatId>)
    requires Closed(cats) && c < |cats|
    ensures Times(UnfoldCat(cats, c, seen), Found(Some(pd), s)) == Copies(cats, c, pd) * One(Visits(c, pd, seen) == Some(s))
    decreases Unseen(|cats|, seen), 0, 0, 0
  {
    if c !in seen && cats[c].prods.BufProds? && cats[c].prods.ps != [] {
      UnseenShrinks(|cats|, seen, seen + {c});
      var ps, t, w := cats[c].prods.ps, UnfoldCat(cats, c, seen), Found(Some(pd), s);
      var root := if pd.Hole? then ps[0] else RootProd(pd);
      var n := if pd.Hole? then 0 else CopiesBelow(cats, pd) * One(VisitsKids(pd, seen + {c}) == Some(s));
      forall i | 0 <= i < |ps| ensures Times(t.kids[i], w) == if ps[i] == root then n else 0 {
        TimesProd(cats, c, ps[i], seen + {c}, pd, s);
      }
      TimesBranches(t, w, ps, root, n, 0);
      assert ps[0..] == ps;
    }
  }

  lemma {:induction false} TimesProd(cats: seq<CCat>, c: CatId, p: Production, seen: set<CatId>, pd: Partial, s: set<CatId>)
    requires Closed(cats) && c < |cats| && p in ProdsOf(cats[c])
    ensures Times(UnfoldProd(cats, c, p, seen), Found(Some(pd), s))
         == if !pd.Hole? && RootProd(pd) == p then CopiesBelow(cats, pd) * One(VisitsKids(pd, seen) == Some(s)) else 0
    decreases Unseen(|cats|, seen), 2, 0, 0
  {
    match p
    case Apply(fun, args) =>
      assert ProdArgs(p) == args;
      TimesArgs(cats, fun, args, [], seen, pd, s);
    case Coerce(c') =>
      assert ProdArgs(p)[0] < |cats|;
      TimesCoerce(cats, c', seen, pd, s);
  }

  lemma {:induction false} TimesCoerce(cats: seq<CCat>, c: CatId, seen: set<CatId>, pd: Partial, s: set<CatId>)
    requires Closed(cats) && c < |cats|
    ensures Times(Bind(UnfoldCat(cats, c, seen), (r: Found) => Leaf(Coerced(c, r))), Found(Some(pd), s))
         == if pd.PCoerce? && pd.cat == c then Copies(cats, c, pd.kid) * One(Visits(c, pd.kid, seen) == Some(s)) else 0
    decreases Unseen(|cats|, seen), 1, 0, 0
  {
    var f, w := (r: Found) => Leaf(Coerced(c, r)), Found(Some(pd), s);
    var v := if pd.PCoerce? then Found(Some(pd.kid), s) else Found(None, s);
    forall u | u != v ensures Times(f(u), w) == 0 {}
    TimesBind(UnfoldCat(cats, c, seen), f, v, w);
    if pd.PCoerce? {
      TimesCat(cats, c, seen, pd.kid, s);
    }
  }

  /** `pd` applies `fun` to arguments that begin with `kids`. */
  ghost predicate Begins(fun: CncFun, args: seq<CatId>, kids: seq<Partial>, pd: Partial) {
    pd.PApply? && pd.fun == fun && pd.cats == args && |pd.kids| == |args| && kids <= pd.kids
  }

  /** How often arguments from number `k` on lead to `pd`. */
  ghost function TimesLater(cats: seq<CCat>, fun: CncFun, args: seq<CatId>, kids: seq<Partial>, seen: set<CatId>,
                            pd: Partial, s: set<CatId>): nat
    requires |kids| <= |args|
  {
    if Begins(fun, args, kids, pd) then CopiesFrom(cats, pd, |kids|) * One(VisitsFrom(pd, |kids|, seen) == Some(s)) else 0
  }

  lemma {:induction false} TimesArgs(cats: seq<CCat>, fun: CncFun, args: seq<CatId>, kids: seq<Partial>, seen: set<CatId>,
                                     pd: Partial, s: set<CatId>)
    requires Closed(cats) && |kids| <= |args|
    requires forall i :: 0 <= i < |args| ==> args[i] < |cats|
    ensures Times(UnfoldArgs(cats, fun, args, kids, seen), Found(Some(pd), s)) == TimesLater(cats, fun, args, kids, seen, pd, s)
    decreases Unseen(|cats|, seen), 1, |args| - |kids|, 0
  {
    var k, w := |kids|, Found(Some(pd), s);
    if k < |args| {
      var f := (r: Found) => UnfoldRest(cats, fun, args, kids, seen, r);
      var proper := Begins(fun, args, kids, pd);
      var v := if proper then Found(Some(pd.kids[k]), s - CatsFrom(pd, k + 1)) else Found(None, {});
      forall u ensures Times(f(u), w) == if u.pd.Some? && seen <= u.seen then Goes(cats, fun, args, kids, pd, s, u) else 0 {
        if u.pd.Some? && seen <= u.seen {
          UnseenShrinks(|cats|, seen, u.seen);
          TimesArgs(cats, fun, args, kids + [u.pd.value], u.seen, pd, s);
        }
      }
      forall u | u != v ensures Times(f(u), w) == 0 {
        if u.pd.Some? && seen <= u.seen && Goes(cats, fun, args, kids, pd, s, u) != 0 {
          OnlyOne(cats, fun, args, kids, pd, s, u);
        }
      }
      TimesBind(UnfoldCat(cats, args[k], seen), f, v, w);
      if proper {
        TimesCat(cats, args[k], seen, pd.kids[k], v.seen);
        ArgsSplit(cats, fun, args, kids, seen, pd, s, v);
      }
    } else {
      assert pd.PApply? && kids <= pd.kids && |pd.kids| == |kids| ==> pd.kids == kids;
    }
  }

  /** How often, after an argument that ended in `u`, the rest leads to `pd`. */
  ghost function Goes(cats: seq<CCat>, fun: CncFun, args: seq<CatId>, kids: seq<Partial>, pd: Partial, s: set<CatId>, u: Found): nat
    requires u.pd.Some? && |kids| < |args|
  {
    TimesLater(cats, fun, args, kids + [u.pd.value], u.seen, pd, s)
  }

  lemma OnlyOne(cats: seq<CCat>, fun: CncFun, args: seq<CatId>, kids: seq<Partial>, pd: Partial, s: set<CatId>, u: Found)
    requires |kids| < |args| && u.pd.Some? && Goes(cats, fun, args, kids, pd, s, u) != 0
    ensures Begins(fun, args, kids, pd) && u == Found(Some(pd.kids[|kids|]), s - CatsFrom(pd, |kids| + 1))
  {
    var kids' := kids + [u.pd.value];
    assert kids'[|kids|] == u.pd.value && kids' <= pd.kids;
    Product(CopiesFrom(cats, pd, |kids'|), One(VisitsFrom(pd, |kids'|, u.seen) == Some(s)));
    VisitsFromAdds(pd, |kids| + 1, u.seen);
  }

  /** The next argument and the rest make up all the arguments. */
  lemma ArgsSplit(cats: seq<CCat>, fun: CncFun, args: seq<CatId>, kids: seq<Partial>, seen: set<CatId>,
                  pd: Partial, s: set<CatId>, v: Found)
    requires |kids| < |args| && Begins(fun, args, kids, pd)
    requires v == Found(Some(pd.kids[|kids|]), s - CatsFrom(pd, |kids| + 1))
    ensures var k := |kids|;
            Copies(cats, args[k], pd.kids[k]) * One(Visits(args[k], pd.kids[k], seen) == Some(v.seen))
            * (if seen <= v.seen then Goes(cats, fun, args, kids, pd, s, v) else 0)
            == TimesLater(cats, fun, args, kids, seen, pd, s)
  {
    var k := |kids|;
    var first := Visits(args[k], pd.kids[k], seen);
    var a, b := Copies(cats, args[k], pd.kids[k]), CopiesFrom(cats, pd, k + 1);
    assert kids + [pd.kids[k]] <= pd.kids;
    VisitsSplit(args, kids, seen, pd, s, v);
    var x, y := One(first == Some(v.seen)), One(VisitsFrom(pd, k + 1, v.seen) == Some(s));
    if first == Some(v.seen) {
      assert a * 1 * (b * y) == a * b * y;
    }
  }

  lemma VisitsSplit(args: seq<CatId>, kids: seq<Partial>, seen: set<CatId>, pd: Partial, s: set<CatId>, v: Found)
    requires pd.PApply? && pd.cats == args && |kids| < |args| == |pd.kids| && v.seen == s - CatsFrom(pd, |kids| + 1)
    ensures var k := |kids|;
            var first := Visits(args[k], pd.kids[k], seen);
            && (VisitsFrom(pd, k, seen) == Some(s) <==> first == Some(v.seen) && VisitsFrom(pd, k + 1, v.seen) == Some(s))
            && (first == Some(v.seen) ==> seen <= v.seen)
  {
    var k := |kids|;
    var first := Visits(args[k], pd.kids[k], seen);
    if first.Some? {
      VisitsAdds(args[k], pd.kids[k], seen);
      if VisitsFrom(pd, k + 1, first.value).Some? {
        VisitsFromAdds(pd, k + 1, first.value);
      }
    }
  }

  // ----------------------------------------------------------------------------- result

  /** Among all that reading a category off again and again yields, a derivation
      that can be read without meeting a category twice is there once for every
      choice of productions, and no other is at all. */
  lemma EachChoice(cats: seq<CCat>, c: CatId, pd: Partial, s: set<CatId>)
    requires Closed(cats) && c < |cats|
    ensures multiset(Leaves(UnfoldCat(cats, c, {})))[Found(Some(pd), s)] == Copies(cats, c, pd) * One(Visits(c, pd, {}) == Some(s))
  {
    TimesLeaves(UnfoldCat(cats, c, {}), Found(Some(pd), s));
    TimesCat(cats, c, {}, pd, s);
  }

  /** In a store that the parser has made that is once. */
  lemma EachOnce(st: Store, c: CatId, pd: Partial, s: set<CatId>)
    requires Closed(st.cats) && Orderly(st) && c < |st.cats|
    ensures multiset(Leaves(UnfoldCat(st.cats, c, {})))[Found(Some(pd), s)]
         == One(Readable(st.cats, c, pd) && Visits(c, pd, {}) == Some(s))
  {
    EachChoice(st.cats, c, pd, s);
    CopiesOnce(st.cats, c, pd);
    ReadableCopies(st.cats, c, pd);
  }
}
