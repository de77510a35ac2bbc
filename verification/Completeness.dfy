/**
 The parser finds every tree.

 When no call has run out of depth and no item set has grown while it was walked,
 every tree of a start category that linearizes to the tokens fed is a tree of a
 completed category; and as long as tokens are left, the next one is expected.
 */
module Completeness {
  import opened Wrappers
  import opened Grammar
  import opened Linearize
  import opened Chart
  import opened Machine
  import opened Closure
  import Orderliness
  import Forward

  // ---------------------------------------------------------------------- the same shape

  /** Two derivations that differ in the names of categories only. */
  ghost predicate SameShape(d: Deriv, e: Deriv) {
    match d
    case ByApply(fun, _, kids) =>
      e.ByApply? && e.fun == fun && |e.kids| == |kids| && forall i :: 0 <= i < |kids| ==> SameShape(kids[i], e.kids[i])
    case ByCoerce(_, kid) => e.ByCoerce? && SameShape(kid, e.kid)
  }

  ghost predicate SameShapes(ds: seq<Deriv>, es: seq<Deriv>) {
    |es| == |ds| && forall i :: 0 <= i < |ds| ==> SameShape(ds[i], es[i])
  }

  lemma {:induction false} ShapeSelf(d: Deriv)
    ensures SameShape(d, d)
    decreases d
  {
    match d
    case ByApply(_, _, kids) =>
      forall i | 0 <= i < |kids| ensures SameShape(kids[i], kids[i]) {
        ShapeSelf(kids[i]);
      }
    case ByCoerce(_, kid) => ShapeSelf(kid);
  }

  lemma ShapesSelf(ds: seq<Deriv>)
    ensures SameShapes(ds, ds)
  {
    forall i | 0 <= i < |ds| ensures SameShape(ds[i], ds[i]) {
      ShapeSelf(ds[i]);
    }
  }

  lemma {:induction false} ShapeTransitive(d: Deriv, e: Deriv, f: Deriv)
    requires SameShape(d, e) && SameShape(e, f)
    ensures SameShape(d, f)
    decreases d
  {
    match d
    case ByApply(_, _, kids) =>
      forall i | 0 <= i < |kids| ensures SameShape(kids[i], f.kids[i]) {
        ShapeTransitive(kids[i], e.kids[i], f.kids[i]);
      }
    case ByCoerce(_, kid) => ShapeTransitive(kid, e.kid, f.kid);
  }

  lemma ShapesTransitive(ds: seq<Deriv>, es: seq<Deriv>, fs: seq<Deriv>)
    requires SameShapes(ds, es) && SameShapes(es, fs)
    ensures SameShapes(ds, fs)
  {
    forall i | 0 <= i < |ds| ensures SameShape(ds[i], fs[i]) {
      ShapeTransitive(ds[i], es[i], fs[i]);
    }
  }

  lemma {:induction false} ShapeTree(d: Deriv, e: Deriv)
    requires SameShape(d, e)
    ensures Tree(e) == Tree(d)
    decreases d
  {
    match d
    case ByApply(_, _, kids) =>
      forall i | 0 <= i < |kids| ensures Tree(e.kids[i]) == Tree(kids[i]) {
        ShapeTree(kids[i], e.kids[i]);
      }
    case ByCoerce(_, kid) => ShapeTree(kid, e.kid);
  }

  ghost function Size(d: Deriv): nat
    decreases d, 1
  {
    match d
    case ByApply(_, _, kids) => 1 + Total(kids)
    case ByCoerce(_, kid) => 1 + Size(kid)
  }

  ghost function Total(ds: seq<Deriv>): nat
    decreases ds, 0
  {
    if ds == [] then 0 else Size(ds[0]) + Total(ds[1..])
  }

  lemma {:induction false} ShapeSize(d: Deriv, e: Deriv)
    requires SameShape(d, e)
    ensures Size(e) == Size(d)
    decreases d, 1
  {
    match d
    case ByApply(_, _, kids) => ShapesTotal(kids, e.kids);
    case ByCoerce(_, kid) => ShapeSize(kid, e.kid);
  }

  lemma {:induction false} ShapesTotal(ds: seq<Deriv>, es: seq<Deriv>)
    requires SameShapes(ds, es)
    ensures Total(es) == Total(ds)
    decreases ds, 0
  {
    if ds != [] {
      ShapeSize(ds[0], es[0]);
      ShapesTotal(ds[1..], es[1..]);
    }
  }

  lemma {:induction false} TotalAtLeast(ds: seq<Deriv>, i: nat)
    requires i < |ds|
    ensures Size(ds[i]) <= Total(ds)
    decreases ds
  {
    if i > 0 {
      TotalAtLeast(ds[1..], i - 1);
    }
  }

  // ----------------------------------------------------------------- what is still to come

  function TreesOf(ds: seq<Deriv>): (ts: seq<CncTree>)
    ensures |ts| == |ds| && forall i :: 0 <= i < |ds| ==> ts[i] == Tree(ds[i])
  {
    seq(|ds|, i requires 0 <= i < |ds| => Tree(ds[i]))
  }

  /** The tokens of the symbols from number `k` on. */
  ghost function LinFrom(ts: seq<CncTree>, syms: seq<Symbol>, k: nat): Option<seq<Token>>
    requires k <= |syms|
    decreases |syms| - k
  {
    if k == |syms| then Some([]) else
    var first := LinOne(ts, syms[k]);
    var rest := LinFrom(ts, syms, k + 1);
    if first.Some? && rest.Some? then Some(first.value + rest.value) else None
  }

  ghost function LinOne(ts: seq<CncTree>, s: Symbol): Option<seq<Token>> {
    match s
    case SymKS(tokens) => Some(tokens)
    case SymCat(d, r) => if d < |ts| then Lin(ts[d], r) else None
  }

  lemma {:induction false} LinFromSyms(t: CncTree, syms: seq<Symbol>, k: nat)
    requires k <= |syms|
    ensures LinSyms(t, syms) == Joined(LinSyms(t, syms[..k]), LinFrom(t.args, syms, k))
    decreases |syms| - k
  {
    if k == |syms| {
      assert syms[..k] == syms;
      if LinSyms(t, syms).Some? {
        assert LinSyms(t, syms).value + [] == LinSyms(t, syms).value;
      }
    } else {
      LinFromSyms(t, syms, k + 1);
      assert syms[..k + 1][..k] == syms[..k];
      var a, b, c := LinSyms(t, syms[..k]), LinOne(t.args, syms[k]), LinFrom(t.args, syms, k + 1);
      if a.Some? && b.Some? && c.Some? {
        Regroup(a.value, b.value, c.value);
      }
    }
  }

  ghost function Joined(a: Option<seq<Token>>, b: Option<seq<Token>>): Option<seq<Token>> {
    if a.Some? && b.Some? then Some(a.value + b.value) else None
  }

  /** What an item over these trees has still to spell. */
  ghost function ToSpell(x: Item, ts: seq<CncTree>): Option<seq<Token>>
    requires x.Item? && HasCtnt(x.prod, x.linIdx) && x.seqIdx <= |ProdSyms(x.prod, x.linIdx)|
  {
    var rest := LinFrom(ts, ProdSyms(x.prod, x.linIdx), x.seqIdx);
    if rest.Some? && x.tokIdx <= |rest.value| then Some(rest.value[x.tokIdx..]) else None
  }

  // --------------------------------------------------------------------------- histories

  ghost predicate StoreLater(a: Store, b: Store) {
    && |a.cats| <= |b.cats| && |a.sets| <= |b.sets|
    && (forall c :: 0 <= c < |a.cats| ==> CatLater(a.cats[c], b.cats[c]))
    && (forall j :: 0 <= j < |a.sets| ==> a.sets[j] <= b.sets[j])
  }

  /** A step in which nothing has been passed over. */
  ghost predicate Settled(s: State) {
    Closed(s) && s.starved == {} && s.unsettled == {}
  }

  /** One state follows another by a token. */
  ghost predicate Follows(s: State, tok: Token, t: State) {
    && tok in s.transitions && s.transitions[tok] < |s.store.sets|
    && AllMet(t, s.store.sets[s.transitions[tok]]) && StoreLater(s.store, t.store)
  }

  /** The states after the first tokens of `w`, one by one. */
  ghost predicate History(hs: seq<State>, w: seq<Token>)
    decreases |hs|
  {
    && 1 <= |hs| <= |w| + 1 && Settled(hs[|hs| - 1])
    && (|hs| > 1 ==> History(hs[..|hs| - 1], w) && Follows(hs[|hs| - 2], w[|hs| - 2], hs[|hs| - 1]))
  }

  lemma {:induction false} HistoryAt(hs: seq<State>, w: seq<Token>, i: nat)
    requires History(hs, w) && i < |hs|
    ensures Settled(hs[i]) && (i > 0 ==> Follows(hs[i - 1], w[i - 1], hs[i]))
    decreases |hs|
  {
    if i < |hs| - 1 {
      HistoryAt(hs[..|hs| - 1], w, i);
    }
  }

  lemma {:induction false} MakeHistory(hs: seq<State>, w: seq<Token>)
    requires 1 <= |hs| <= |w| + 1 && forall i :: 0 <= i < |hs| ==> Settled(hs[i])
    requires forall i :: 0 <= i < |hs| - 1 ==> Follows(hs[i], w[i], hs[i + 1])
    ensures History(hs, w)
    decreases |hs|
  {
    if |hs| > 1 {
      var front := hs[..|hs| - 1];
      forall i | 0 <= i < |front| - 1 ensures Follows(front[i], w[i], front[i + 1]) {
        assert Follows(hs[i], w[i], hs[i + 1]);
      }
      MakeHistory(front, w);
      assert Follows(hs[|hs| - 2], w[|hs| - 2], hs[|hs| - 2 + 1]);
    }
  }

  lemma {:induction false} HistoryLater(hs: seq<State>, w: seq<Token>, i: nat, j: nat)
    requires History(hs, w) && i <= j < |hs|
    ensures StoreLater(hs[i].store, hs[j].store)
    decreases j
  {
    if i < j {
      HistoryLater(hs, w, i, j - 1);
      HistoryAt(hs, w, j);
      StoreLaterTransitive(hs[i].store, hs[j - 1].store, hs[j].store);
    }
  }

  lemma StoreLaterTransitive(a: Store, b: Store, c: Store)
    requires StoreLater(a, b) && StoreLater(b, c)
    ensures StoreLater(a, c)
  {
    forall k | 0 <= k < |a.cats| ensures CatLater(a.cats[k], c.cats[k]) {
      assert CatLater(a.cats[k], b.cats[k]) && CatLater(b.cats[k], c.cats[k]);
    }
  }

  lemma {:induction false} DerivesLater(a: Store, b: Store, c: CatId, d: Deriv)
    requires StoreLater(a, b) && Derives(a.cats, c, d)
    ensures Derives(b.cats, c, d)
    decreases d
  {
    assert CatLater(a.cats[c], b.cats[c]);
    match d
    case ByApply(_, cs, kids) =>
      forall i | 0 <= i < |kids| ensures Derives(b.cats, cs[i], kids[i]) {
        DerivesLater(a, b, cs[i], kids[i]);
      }
    case ByCoerce(c', kid) => DerivesLater(a, b, c', kid);
  }

  /** The token behind the last state is expected there. */
  ghost predicate GoesOn(hs: seq<State>, w: seq<Token>) {
    0 < |hs| <= |w| && w[|hs| - 1] in hs[|hs| - 1].transitions
  }

  // ------------------------------------------------------------------------- moving items on

  /** An item of state `i` whose arguments derive `ks`. */
  ghost predicate Ready(hs: seq<State>, i: nat, x: Item, ks: seq<Deriv>) {
    && i < |hs| && x in hs[i].seen && x.Item? && HasCtnt(x.prod, x.linIdx)
    && x.seqIdx <= |ProdSyms(x.prod, x.linIdx)| && (x.tokIdx > 0 ==> BeforeToken(x))
    && |x.args| == |ProdArgs(x.prod)| == |ks|
    && forall k :: 0 <= k < |ks| ==> Derives(hs[i].store.cats, x.args[k], ks[k])
  }

  /** `y` has come of `x`, and of the trees below it. */
  ghost predicate CameOf(x: Item, ks: seq<Deriv>, y: Item, ls: seq<Deriv>) {
    && x.Item? && y.Item? && y.conts == x.conts && y.cat == x.cat && y.prod == x.prod && y.linIdx == x.linIdx
    && SameShapes(ks, ls)
  }

  ghost predicate Reads(w: seq<Token>, i: nat, u: seq<Token>) {
    i + |u| <= |w| && w[i..i + |u|] == u
  }

  lemma ReadsSplit(w: seq<Token>, i: nat, u: seq<Token>, v: seq<Token>)
    requires Reads(w, i, u + v)
    ensures Reads(w, i, u) && Reads(w, i + |u|, v)
  {
    assert (u + v)[..|u|] == u && (u + v)[|u|..] == v;
    assert w[i..i + |u|] == w[i..i + |u + v|][..|u|];
    assert w[i + |u|..i + |u + v|] == w[i..i + |u + v|][|u|..];
  }

  /** From `x` at its beginning to `y` at its end. */
  ghost predicate Arrived(hs: seq<State>, end: nat, x: Item, ks: seq<Deriv>, y: Item, ls: seq<Deriv>) {
    Ready(hs, end, y, ls) && AtEnd(y) && CameOf(x, ks, y, ls)
  }

  lemma ArrivedFrom(hs: seq<State>, end: nat, x: Item, ks: seq<Deriv>, x': Item, ks': seq<Deriv>, y: Item, ls: seq<Deriv>)
    requires CameOf(x, ks, x', ks') && Arrived(hs, end, x', ks', y, ls)
    ensures Arrived(hs, end, x, ks, y, ls)
  {
    ShapesTransitive(ks, ks', ls);
  }

  /** An item that has still to spell the tokens up to `end` is moved on to its end, or
      the next token is expected. */
  lemma {:induction false} Advance(hs: seq<State>, w: seq<Token>, i: nat, x: Item, ks: seq<Deriv>, u: seq<Token>, end: nat)
      returns (y: Item, ls: seq<Deriv>)
    requires History(hs, w) && Ready(hs, i, x, ks) && ToSpell(x, TreesOf(ks)) == Some(u) && Reads(w, i, u) && end == i + |u|
    ensures GoesOn(hs, w) || Arrived(hs, end, x, ks, y, ls)
    decreases Total(ks), 1, |ProdSyms(x.prod, x.linIdx)| - x.seqIdx, |u|
  {
    y, ls := x, ks;
    var syms := ProdSyms(x.prod, x.linIdx);
    if x.seqIdx == |syms| {
      ShapesSelf(ks);
    } else if syms[x.seqIdx].SymKS? {
      y, ls := AdvanceToken(hs, w, i, x, ks, u, end);
    } else {
      y, ls := AdvanceCat(hs, w, i, x, ks, u, end);
    }
  }

  lemma {:induction false} AdvanceToken(hs: seq<State>, w: seq<Token>, i: nat, x: Item, ks: seq<Deriv>, u: seq<Token>, end: nat)
      returns (y: Item, ls: seq<Deriv>)
    requires History(hs, w) && Ready(hs, i, x, ks) && ToSpell(x, TreesOf(ks)) == Some(u) && Reads(w, i, u) && end == i + |u|
    requires BeforeToken(x)
    ensures GoesOn(hs, w) || Arrived(hs, end, x, ks, y, ls)
    decreases Total(ks), 1, |ProdSyms(x.prod, x.linIdx)| - x.seqIdx, |u|, 0
  {
    y, ls := x, ks;
    PassToken(hs, w, i, x, ks, u);
    if !GoesOn(hs, w) {
      y, ls := Advance(hs, w, i + 1, Scanned(x), ks, u[1..], end);
      if !GoesOn(hs, w) {
        ArrivedFrom(hs, end, x, ks, Scanned(x), ks, y, ls);
      }
    }
  }

  lemma PassToken(hs: seq<State>, w: seq<Token>, i: nat, x: Item, ks: seq<Deriv>, u: seq<Token>)
    requires History(hs, w) && Ready(hs, i, x, ks) && ToSpell(x, TreesOf(ks)) == Some(u) && Reads(w, i, u) && BeforeToken(x)
    ensures GoesOn(hs, w) ||
            (u != [] && Ready(hs, i + 1, Scanned(x), ks) && ToSpell(Scanned(x), TreesOf(ks)) == Some(u[1..]) && Reads(w, i + 1, u[1..])
             && CameOf(x, ks, Scanned(x), ks))
  {
    HistoryAt(hs, w, i);
    assert InAgenda(hs[i], x);
    TokenNext(x, TreesOf(ks), u);
    assert w[i] == w[i..i + |u|][0];
    if i + 1 < |hs| {
      ScannedReady(hs, w, i, x, ks);
      assert u == [u[0]] + u[1..];
      ReadsSplit(w, i, [u[0]], u[1..]);
      ShapesSelf(ks);
    }
  }

  lemma ScannedReady(hs: seq<State>, w: seq<Token>, i: nat, x: Item, ks: seq<Deriv>)
    requires History(hs, w) && Ready(hs, i, x, ks) && BeforeToken(x) && i + 1 < |hs|
    requires x.tokIdx < |CurrSym(x).value.tokens| && CurrSym(x).value.tokens[x.tokIdx] == w[i]
    ensures Ready(hs, i + 1, Scanned(x), ks)
  {
    HistoryAt(hs, w, i);
    HistoryAt(hs, w, i + 1);
    assert InAgenda(hs[i], x);
    forall k | 0 <= k < |ks| ensures Derives(hs[i + 1].store.cats, x.args[k], ks[k]) {
      DerivesLater(hs[i].store, hs[i + 1].store, x.args[k], ks[k]);
    }
  }

  /** The next token is the one to spell. */
  lemma TokenNext(x: Item, ts: seq<CncTree>, u: seq<Token>)
    requires BeforeToken(x) && x.seqIdx <= |ProdSyms(x.prod, x.linIdx)| && ToSpell(x, ts) == Some(u)
    requires x.tokIdx < |CurrSym(x).value.tokens|
    ensures u != [] && u[0] == CurrSym(x).value.tokens[x.tokIdx]
    ensures ToSpell(Scanned(x), ts) == Some(u[1..])
    ensures Scanned(x).tokIdx > 0 ==> BeforeToken(Scanned(x))
  {
    var syms, tokens := ProdSyms(x.prod, x.linIdx), CurrSym(x).value.tokens;
    var rest := LinFrom(ts, syms, x.seqIdx + 1).value;
    assert LinFrom(ts, syms, x.seqIdx).value == tokens + rest;
    assert u == (tokens + rest)[x.tokIdx..];
    assert u[1..] == (tokens + rest)[x.tokIdx + 1..];
    if x.tokIdx + 1 == |tokens| {
      assert (tokens + rest)[x.tokIdx + 1..] == rest;
    }
  }

  lemma {:induction false} AdvanceCat(hs: seq<State>, w: seq<Token>, i: nat, x: Item, ks: seq<Deriv>, u: seq<Token>, end: nat)
      returns (y: Item, ls: seq<Deriv>)
    requires History(hs, w) && Ready(hs, i, x, ks) && ToSpell(x, TreesOf(ks)) == Some(u) && Reads(w, i, u) && end == i + |u|
    requires CurrSym(x).Some? && CurrSym(x).value.SymCat?
    ensures GoesOn(hs, w) || Arrived(hs, end, x, ks, y, ls)
    decreases Total(ks), 1, |ProdSyms(x.prod, x.linIdx)| - x.seqIdx, |u|, 1
  {
    y, ls := x, ks;
    var m, x', ks', v := PassCat(hs, w, i, x, ks, u, end);
    if !GoesOn(hs, w) {
      ShapesTotal(ks, ks');
      y, ls := Advance(hs, w, m, x', ks', v, end);
      if !GoesOn(hs, w) {
        ArrivedFrom(hs, end, x, ks, x', ks', y, ls);
      }
    }
  }

  /** A category symbol is passed, when the argument's constituent has been read. */
  lemma {:induction false} PassCat(hs: seq<State>, w: seq<Token>, i: nat, x: Item, ks: seq<Deriv>, u: seq<Token>, end: nat)
      returns (m: nat, x': Item, ks': seq<Deriv>, v: seq<Token>)
    requires History(hs, w) && Ready(hs, i, x, ks) && ToSpell(x, TreesOf(ks)) == Some(u) && Reads(w, i, u) && end == i + |u|
    requires CurrSym(x).Some? && CurrSym(x).value.SymCat?
    ensures GoesOn(hs, w) ||
            (&& m + |v| == end && x'.Item? && x'.seqIdx == x.seqIdx + 1 && Ready(hs, m, x', ks') && CameOf(x, ks, x', ks')
             && ToSpell(x', TreesOf(ks')) == Some(v) && Reads(w, m, v))
    decreases Total(ks), 1, |ProdSyms(x.prod, x.linIdx)| - x.seqIdx, |u|, 0
  {
    var d, r := CurrSym(x).value.d, CurrSym(x).value.r;
    var j, first;
    j, first, m, v := CatNext(hs, w, i, x, ks, u);
    TotalAtLeast(ks, d);
    var c, kid := Fulfil(hs, w, i, j, x.args[d], r, x, ks[d], first, m);
    ks', x' := ks, x;
    if !GoesOn(hs, w) {
      x', ks' := CombinedReady(hs, w, i, m, x, ks, d, c, kid, v);
    }
  }

  lemma CatNext(hs: seq<State>, w: seq<Token>, i: nat, x: Item, ks: seq<Deriv>, u: seq<Token>)
      returns (j: SetId, first: seq<Token>, m: nat, v: seq<Token>)
    requires History(hs, w) && Ready(hs, i, x, ks) && ToSpell(x, TreesOf(ks)) == Some(u) && Reads(w, i, u)
    requires CurrSym(x).Some? && CurrSym(x).value.SymCat?
    ensures var d, r := CurrSym(x).value.d, CurrSym(x).value.r;
            && BeforeCat(x) && d < |ks| && IsConts(hs[i], x.args[d], r, j) && x in hs[i].store.sets[j]
            && Lin(Tree(ks[d]), r) == Some(first) && ToSpell(x.(seqIdx := x.seqIdx + 1), TreesOf(ks)) == Some(v)
    ensures u == first + v && m == i + |first| && Reads(w, i, first) && Reads(w, m, v)
  {
    var d, r, syms := CurrSym(x).value.d, CurrSym(x).value.r, ProdSyms(x.prod, x.linIdx);
    first, v := Lin(Tree(ks[d]), r).value, LinFrom(TreesOf(ks), syms, x.seqIdx + 1).value;
    m := i + |first|;
    assert u == first + v && v[0..] == v;
    ReadsSplit(w, i, first, v);
    HistoryAt(hs, w, i);
    assert Expects(hs[i], x, x.args[d], r);
    assert Derives(hs[i].store.cats, x.args[d], ks[d]);
    j :| IsConts(hs[i], x.args[d], r, j) && x in hs[i].store.sets[j];
  }

  lemma ShapeTrees(ks: seq<Deriv>, ls: seq<Deriv>)
    requires SameShapes(ks, ls)
    ensures TreesOf(ls) == TreesOf(ks)
  {
    forall i | 0 <= i < |ks| ensures Tree(ls[i]) == Tree(ks[i]) {
      ShapeTree(ks[i], ls[i]);
    }
  }

  lemma CombinedReady(hs: seq<State>, w: seq<Token>, i: nat, m: nat, x: Item, ks: seq<Deriv>, d: nat, c: CatId, kid: Deriv,
                      v: seq<Token>)
      returns (x': Item, ks': seq<Deriv>)
    requires History(hs, w) && Ready(hs, i, x, ks) && i <= m < |hs| && BeforeCat(x) && d == CurrSym(x).value.d
    requires Fulfils(hs[m], x, ks[d], c, kid) && ToSpell(x.(seqIdx := x.seqIdx + 1), TreesOf(ks)) == Some(v)
    ensures Ready(hs, m, x', ks') && CameOf(x, ks, x', ks') && ToSpell(x', TreesOf(ks')) == Some(v)
    ensures x'.seqIdx == x.seqIdx + 1
  {
    x', ks' := Combined(x, c), ks[d := kid];
    HistoryLater(hs, w, i, m);
    HistoryAt(hs, w, m);
    forall k | 0 <= k < |ks| ensures Derives(hs[m].store.cats, x'.args[k], ks'[k]) && SameShape(ks[k], ks'[k]) {
      if k != d {
        DerivesLater(hs[i].store, hs[m].store, x.args[k], ks[k]);
        ShapeSelf(ks[k]);
      }
    }
    ShapeTrees(ks, ks');
  }

  /** `x` has been given a category that derives the tree it waited for. */
  ghost predicate Fulfils(s: State, x: Item, kid: Deriv, c: CatId, kid': Deriv) {
    Given(s, x, c) && Derives(s.store.cats, c, kid') && SameShape(kid, kid')
  }

  /** Whoever waits for a constituent that comes is given a category that derives its
      tree. */
  lemma {:induction false} Fulfil(hs: seq<State>, w: seq<Token>, i: nat, j: SetId, cat: CatId, r: nat, x: Item, kid: Deriv,
                                  v: seq<Token>, m: nat)
      returns (c: CatId, kid': Deriv)
    requires History(hs, w) && i < |hs| && IsConts(hs[i], cat, r, j) && x in hs[i].store.sets[j] && m == i + |v|
    requires Derives(hs[i].store.cats, cat, kid) && Lin(Tree(kid), r) == Some(v) && Reads(w, i, v)
    ensures GoesOn(hs, w) || (i <= m < |hs| && Fulfils(hs[m], x, kid, c, kid'))
    decreases Size(kid), 0
  {
    c, kid' := 0, kid;
    var ks, x0 := KidsOf(kid), Started(j, cat, r, RootOf(kid));
    StartReady(hs, w, i, j, cat, r, x, kid, v);
    var y, ls := Advance(hs, w, i, x0, ks, v, m);
    if !GoesOn(hs, w) {
      c, kid' := EndFulfils(hs, w, i, m, j, x, x0, kid, y, ls);
    }
  }

  /** The rule it begins with has been started. */
  lemma StartReady(hs: seq<State>, w: seq<Token>, i: nat, j: SetId, cat: CatId, r: nat, x: Item, kid: Deriv, v: seq<Token>)
    requires History(hs, w) && i < |hs| && IsConts(hs[i], cat, r, j) && x in hs[i].store.sets[j]
    requires Derives(hs[i].store.cats, cat, kid) && Lin(Tree(kid), r) == Some(v)
    ensures var x0, ks := Started(j, cat, r, RootOf(kid)), KidsOf(kid);
            Ready(hs, i, x0, ks) && ToSpell(x0, TreesOf(ks)) == Some(v) && Total(ks) < Size(kid)
  {
    HistoryAt(hs, w, i);
    StartSpells(j, cat, r, kid, v);
    assert OldStart(hs[i], cat, r, j, RootOf(kid));
    assert Met(hs[i], Started(j, cat, r, RootOf(kid)));
  }

  /** At its end the rule is in a category that is given to all who wait. */
  lemma EndFulfils(hs: seq<State>, w: seq<Token>, i: nat, m: nat, j: SetId, x: Item, x0: Item, kid: Deriv, y: Item, ls: seq<Deriv>)
      returns (c: CatId, kid': Deriv)
    requires History(hs, w) && i <= m && i < |hs| && j < |hs[i].store.sets| && x in hs[i].store.sets[j]
    requires x0.Item? && x0.conts == j && x0.prod == RootOf(kid) && |ProdArgs(x0.prod)| == |KidsOf(kid)|
    requires Arrived(hs, m, x0, KidsOf(kid), y, ls)
    ensures m < |hs| && Fulfils(hs[m], x, kid, c, kid')
  {
    HistoryAt(hs, w, m);
    assert Completed(hs[m], y);
    c := hs[m].generated[j];
    kid' := Rebuilt(kid, y.args, ls);
    RebuiltDerives(hs[m].store.cats, c, kid, y.args, ls);
    HistoryLater(hs, w, i, m);
    assert OldGive(hs[m], j, x);
  }

  ghost function RootOf(d: Deriv): Production {
    match d case ByApply(fun, cats, _) => Apply(fun, cats) case ByCoerce(c, _) => Coerce(c)
  }

  ghost function KidsOf(d: Deriv): seq<Deriv> {
    match d case ByApply(_, _, kids) => kids case ByCoerce(_, kid) => [kid]
  }

  /** The same rule over other arguments. */
  ghost function Rebuilt(d: Deriv, args: seq<CatId>, ks: seq<Deriv>): Deriv
    requires |args| == |ks| == |KidsOf(d)|
  {
    match d case ByApply(fun, _, _) => ByApply(fun, args, ks) case ByCoerce(_, _) => ByCoerce(args[0], ks[0])
  }

  lemma RebuiltDerives(cats: seq<CCat>, c: CatId, d: Deriv, args: seq<CatId>, ks: seq<Deriv>)
    requires c < |cats| && |args| == |ks| == |KidsOf(d)| == |ProdArgs(RootOf(d))| && WithArgs(RootOf(d), args) in ProdsOf(cats[c])
    requires SameShapes(KidsOf(d), ks) && forall i :: 0 <= i < |ks| ==> Derives(cats, args[i], ks[i])
    ensures Derives(cats, c, Rebuilt(d, args, ks)) && SameShape(d, Rebuilt(d, args, ks))
  {}

  lemma StartSpells(j: SetId, cat: CatId, r: nat, d: Deriv, v: seq<Token>)
    requires Lin(Tree(d), r) == Some(v)
    ensures HasCtnt(RootOf(d), r) && ToSpell(Started(j, cat, r, RootOf(d)), TreesOf(KidsOf(d))) == Some(v)
    ensures Total(KidsOf(d)) < Size(d)
  {
    var x := Started(j, cat, r, RootOf(d));
    match d
    case ByApply(fun, cats, kids) =>
      var t := Tree(d);
      assert t.args == TreesOf(kids);
      LinFromSyms(t, fun.lins[r], 0);
      assert fun.lins[r][..0] == [];
      assert [] + v == v && v[0..] == v;
    case ByCoerce(c, kid) =>
      var syms, ts := ProdSyms(RootOf(d), r), TreesOf([kid]);
      assert LinFrom(ts, syms, 1) == Some([]);
      assert LinFrom(ts, syms, 0) == Some(v + []);
      assert v + [] == v && v[0..] == v;
      assert [kid][1..] == [];
  }

  // ------------------------------------------------------------------------------ theorem

  /** A tree of a start category that linearizes to the tokens is found, or the next of
      them is expected. */
  lemma Found(hs: seq<State>, w: seq<Token>, c0: CatId, r: nat, d: Deriv) returns (c: CatId, d': Deriv)
    requires History(hs, w) && Expects(hs[0], NullItem, c0, r)
    requires Derives(hs[0].store.cats, c0, d) && Lin(Tree(d), r) == Some(w)
    ensures GoesOn(hs, w) ||
            (|hs| == |w| + 1 && c in hs[|w|].completed && Derives(hs[|w|].store.cats, c, d') && Tree(d') == Tree(d))
  {
    var j: SetId :| IsConts(hs[0], c0, r, j) && NullItem in hs[0].store.sets[j];
    assert w[0..|w|] == w;
    c, d' := Fulfil(hs, w, 0, j, c0, r, NullItem, d, w, |w|);
    if !GoesOn(hs, w) {
      ShapeTree(d, d');
    }
  }

  // ----------------------------------------------------------------------- whole sentences

  /** The runs of the parser over some tokens: `hs[i]` is the state after the first `i`
      of them. */
  ghost predicate Chain(st: Store, cats: seq<Option<CatId>>, r: nat, fuel: nat, w: seq<Token>, hs: seq<State>) {
    && |hs| == |w| + 1
    && Ran(Fresh(st), Orderliness.RootCalls(cats, r, fuel), hs[0])
    && forall i :: 0 <= i < |w| ==> Fed(hs[i], w[i], fuel, hs[i + 1])
  }

  ghost predicate Fed(s: State, tok: Token, fuel: nat, t: State) {
    && tok in s.transitions && s.transitions[tok] < |s.store.sets|
    && (forall x :: x in s.store.sets[s.transitions[tok]] ==> BeforeToken(x))
    && Ran(Fresh(s.store), [CScan(s.store.sets[s.transitions[tok]], fuel)], t)
  }

  /** No call has run out of depth, and no item set has grown while it was walked. */
  ghost predicate AllSettled(hs: seq<State>) {
    forall i :: 0 <= i < |hs| ==> hs[i].starved == {} && hs[i].unsettled == {}
  }

  lemma {:induction false} ChainOrderly(st: Store, cats: seq<Option<CatId>>, r: nat, fuel: nat, w: seq<Token>, hs: seq<State>, i: nat)
    requires Chain(st, cats, r, fuel, w, hs) && Orderliness.Orderly(st) && i < |hs|
    ensures Orderliness.Orderly(hs[i].store) && Closed(hs[i])
    ensures i == 0 ==> Later(Fresh(st), hs[0]) && forall c :: Some(c) in cats ==> Expects(hs[0], NullItem, c, r)
    ensures i > 0 ==> Follows(hs[i - 1], w[i - 1], hs[i])
    decreases i
  {
    if i == 0 {
      Orderliness.BeginOrderly(st, cats, r, fuel, hs[0]);
      BeginCloses(st, cats, r, fuel, hs[0]);
    } else {
      ChainOrderly(st, cats, r, fuel, w, hs, i - 1);
      var s, tok := hs[i - 1], w[i - 1];
      assert Fed(s, tok, fuel, hs[i]);
      Orderliness.ScanOrderly(s.store, s.transitions[tok], fuel, hs[i]);
      ScanCloses(s.store, s.transitions[tok], fuel, hs[i]);
    }
  }

  /** In a grammar without empty constituents no set grows while it is walked. */
  lemma {:induction false} ChainSettles(st: Store, cats: seq<Option<CatId>>, r: nat, fuel: nat, w: seq<Token>, hs: seq<State>, i: nat)
    requires Chain(st, cats, r, fuel, w, hs) && Orderliness.Orderly(st) && Forward.Solid(st) && i < |hs|
    ensures hs[i].unsettled == {} && Forward.Solid(hs[i].store)
    decreases i
  {
    if i == 0 {
      Forward.BeginSettles(st, cats, r, fuel, hs[0]);
    } else {
      ChainSettles(st, cats, r, fuel, w, hs, i - 1);
      ChainOrderly(st, cats, r, fuel, w, hs, i - 1);
      var s, tok := hs[i - 1], w[i - 1];
      assert Fed(s, tok, fuel, hs[i]);
      Forward.ScanSettles(s.store, s.transitions[tok], fuel, hs[i]);
    }
  }

  lemma ChainHistory(st: Store, cats: seq<Option<CatId>>, r: nat, fuel: nat, w: seq<Token>, hs: seq<State>, sentence: seq<Token>)
    requires Chain(st, cats, r, fuel, w, hs) && Orderliness.Orderly(st) && AllSettled(hs) && w <= sentence
    ensures History(hs, sentence) && StoreLater(st, hs[0].store)
    ensures forall c :: Some(c) in cats ==> Expects(hs[0], NullItem, c, r)
  {
    ChainOrderly(st, cats, r, fuel, w, hs, 0);
    forall i | 0 <= i < |hs| ensures Settled(hs[i]) {
      ChainOrderly(st, cats, r, fuel, w, hs, i);
    }
    forall i | 0 <= i < |hs| - 1 ensures Follows(hs[i], sentence[i], hs[i + 1]) {
      ChainOrderly(st, cats, r, fuel, w, hs, i + 1);
    }
    MakeHistory(hs, sentence);
  }

  /** A tree of one of some categories. */
  ghost predicate IsTreeOf(cats: seq<CCat>, cs: seq<CatId>, t: CncTree) {
    exists c, d :: c in cs && Derives(cats, c, d) && Tree(d) == t
  }

  /** A tree of a start category that linearizes to the sentence. */
  ghost predicate Meant(grammar: seq<CCat>, cats: seq<Option<CatId>>, r: nat, sentence: seq<Token>, t: CncTree) {
    Lin(t, r) == Some(sentence) && exists c, d :: Some(c) in cats && Derives(grammar, c, d) && Tree(d) == t
  }

  /** Every tree that the sentence can mean is found; so if there is one, the parse does
      not stop before the end. */
  lemma AllFound(st: Store, cats: seq<Option<CatId>>, r: nat, fuel: nat, w: seq<Token>, hs: seq<State>, sentence: seq<Token>, t: CncTree)
    requires Chain(st, cats, r, fuel, w, hs) && Orderliness.Orderly(st) && AllSettled(hs) && w <= sentence
    requires Meant(st.cats, cats, r, sentence, t)
    ensures if |w| < |sentence| then sentence[|w|] in hs[|w|].transitions
            else IsTreeOf(hs[|w|].store.cats, hs[|w|].completed, t)
  {
    var c, d :| Some(c) in cats && Derives(st.cats, c, d) && Tree(d) == t;
    ChainHistory(st, cats, r, fuel, w, hs, sentence);
    DerivesLater(st, hs[0].store, c, d);
    var c', d' := Found(hs, sentence, c, r, d);
  }
}
