/**
 Parse states are persistent: a token fed to a state gives the same result
 whatever has been fed to it before.
 */
module Persistence {
  import opened Wrappers
  import opened Grammar
  import opened Linearize
  import opened Chart
  import opened Machine
  import opened Renaming
  import opened Parser
  import opened ParseTheorems

  // ---------------------------------------------------------------------- derivations

  function RDeriv(h: Shift, d: Deriv): Deriv {
    match d
    case ByApply(fun, cats, kids) =>
      ByApply(fun, RIds(h, cats), seq(|kids|, i requires 0 <= i < |kids| => RDeriv(h, kids[i])))
    case ByCoerce(c, kid) => ByCoerce(RCat(h, c), RDeriv(h, kid))
  }

  lemma {:induction false} SameTree(h: Shift, d: Deriv)
    ensures Tree(RDeriv(h, d)) == Tree(d)
    decreases d
  {
    match d
    case ByApply(fun, cats, kids) =>
      forall i | 0 <= i < |kids| ensures Tree(RDeriv(h, kids[i])) == Tree(kids[i]) {
        SameTree(h, kids[i]);
      }
      assert Tree(RDeriv(h, d)).args == Tree(d).args;
    case ByCoerce(_, kid) => SameTree(h, kid);
  }

  lemma ProdRenamedIn(h: Shift, a: seq<CCat>, b: seq<CCat>, c: CatId, p: Production)
    requires CatsRel(h, a, b) && c < |a| && p in ProdsOf(a[c])
    ensures RCat(h, c) < |b| && RProd(h, p) in ProdsOf(b[RCat(h, c)])
  {
    CatsAt(h, a, b, c);
    var ps := ProdsOf(a[c]);
    var i :| 0 <= i < |ps| && ps[i] == p;
    assert RProds(h, ps)[i] == RProd(h, p);
  }

  /** Renaming keeps derivations... */
  lemma {:induction false} DerivesRenamed(h: Shift, a: seq<CCat>, b: seq<CCat>, c: CatId, d: Deriv)
    requires CatsRel(h, a, b) && Derives(a, c, d)
    ensures Derives(b, RCat(h, c), RDeriv(h, d))
    decreases d
  {
    match d
    case ByApply(fun, cats, kids) =>
      ProdRenamedIn(h, a, b, c, Apply(fun, cats));
      forall i | 0 <= i < |kids| ensures Derives(b, RIds(h, cats)[i], RDeriv(h, kids[i])) {
        DerivesRenamed(h, a, b, cats[i], kids[i]);
      }
    case ByCoerce(c', kid) =>
      ProdRenamedIn(h, a, b, c, Coerce(c'));
      DerivesRenamed(h, a, b, c', kid);
  }

  lemma ProdBack(h: Shift, a: seq<CCat>, b: seq<CCat>, c: CatId, q: Production) returns (p: Production)
    requires CatsRel(h, a, b) && c < |a| && RCat(h, c) < |b| && q in ProdsOf(b[RCat(h, c)])
    ensures p in ProdsOf(a[c]) && RProd(h, p) == q
  {
    CatsAt(h, a, b, c);
    var ps := ProdsOf(a[c]);
    var i :| 0 <= i < |RProds(h, ps)| && RProds(h, ps)[i] == q;
    p := ps[i];
  }

  /** ... and adds none: every derivation of a renamed category is a renamed
      one. */
  lemma {:induction false} DerivesBack(h: Shift, a: seq<CCat>, b: seq<CCat>, c: CatId, d': Deriv) returns (d: Deriv)
    requires CatsRel(h, a, b) && Derives(b, RCat(h, c), d')
    ensures Derives(a, c, d) && RDeriv(h, d) == d'
    decreases d'
  {
    CatsAt(h, a, b, c);
    match d'
    case ByApply(fun, cats', kids') =>
      var p := ProdBack(h, a, b, c, Apply(fun, cats'));
      var kids := DerivesBackAll(h, a, b, p.args, kids');
      d := ByApply(fun, p.args, kids);
      assert RDeriv(h, d).kids == kids';
    case ByCoerce(c', kid') =>
      var p := ProdBack(h, a, b, c, Coerce(c'));
      var kid := DerivesBack(h, a, b, p.cat, kid');
      d := ByCoerce(p.cat, kid);
  }

  lemma {:induction false} DerivesBackAll(h: Shift, a: seq<CCat>, b: seq<CCat>, cs: seq<CatId>, ds': seq<Deriv>)
      returns (ds: seq<Deriv>)
    requires CatsRel(h, a, b) && |cs| == |ds'| && forall i :: 0 <= i < |cs| ==> Derives(b, RCat(h, cs[i]), ds'[i])
    ensures |ds| == |cs| && forall i :: 0 <= i < |cs| ==> Derives(a, cs[i], ds[i]) && RDeriv(h, ds[i]) == ds'[i]
    decreases ds'
  {
    if cs == [] {
      return [];
    }
    var k := |cs| - 1;
    assert forall i :: 0 <= i < k ==> ds'[..k][i] == ds'[i] && cs[..k][i] == cs[i];
    var rest := DerivesBackAll(h, a, b, cs[..k], ds'[..k]);
    var last := DerivesBack(h, a, b, cs[k], ds'[k]);
    ds := rest + [last];
    forall i | 0 <= i < |cs| ensures Derives(a, cs[i], ds[i]) && RDeriv(h, ds[i]) == ds'[i] {
      if i < k {
        assert ds[i] == rest[i] && cs[..k][i] == cs[i];
      }
    }
  }

  ghost predicate IsTreeOf(cats: seq<CCat>, c: CatId, t: CncTree) {
    exists d :: Derives(cats, c, d) && Tree(d) == t
  }

  /** A renamed category has exactly the trees of the category. */
  lemma SameTrees(h: Shift, a: seq<CCat>, b: seq<CCat>, c: CatId, t: CncTree)
    requires CatsRel(h, a, b)
    ensures IsTreeOf(a, c, t) <==> IsTreeOf(b, RCat(h, c), t)
  {
    if d :| Derives(a, c, d) && Tree(d) == t {
      DerivesRenamed(h, a, b, c, d);
      SameTree(h, d);
    }
    if d' :| Derives(b, RCat(h, c), d') && Tree(d') == t {
      var d := DerivesBack(h, a, b, c, d');
      SameTree(h, d);
    }
  }

  // --------------------------------------------------------------------------- feeding

  /** Everything a valid chart names is in it. */
  lemma ValidSelfContained(st: Store, g: Ledger, goal: Goal)
    requires Valid(st, g, goal)
    ensures SelfContained(st)
  {
    forall c, p | 0 <= c < |st.cats| && p in ProdsOf(st.cats[c]) ensures LowProd(|st.cats|, p) {
      assert CatOk(st, g, c) && ProdOk(st, g, c, p);
    }
    forall j, x | 0 <= j < |st.sets| && x in st.sets[j] ensures LowItem(|st.cats|, |st.sets|, x) {
      assert SetOk(st, g, goal, j);
      if x.Item? {
        assert CatOk(st, g, x.cat) && ProdOk(st, g, x.cat, x.prod);
        forall i | 0 <= i < |x.args| ensures x.args[i] < |st.cats| {
          RefinesShape(st, g, goal, x.args[i], ProdArgs(x.prod)[i]);
        }
      }
    }
  }

  /** What feeding the token of agenda `j` may end in. */
  ghost predicate FeedEnds(st: Store, j: SetId, fuel: nat, s: State)
    requires j < |st.sets|
  {
    Ran(Fresh(st), [CScan(st.sets[j], fuel)], s)
  }

  lemma SameAgenda(st: Store, st': Store, j: SetId, fuel: nat)
    requires SelfContained(st) && st.cats <= st'.cats && st.sets <= st'.sets && j < |st.sets|
    ensures st'.sets[j] == st.sets[j]
    ensures Renamed(Added(st, st'), Fresh(st), Fresh(st'))
    ensures RCalls(Added(st, st'), [CScan(st.sets[j], fuel)]) == [CScan(st.sets[j], fuel)]
  {
    FreshRenamed(st, st');
    OneCall(Added(st, st'), CScan(st.sets[j], fuel));
  }

  lemma FeedLater(st: Store, st': Store, j: SetId, fuel: nat, s: State) returns (s': State)
    requires SelfContained(st) && st.cats <= st'.cats && st.sets <= st'.sets && j < |st.sets|
    requires FeedEnds(st, j, fuel, s)
    ensures FeedEnds(st', j, fuel, s') && Renamed(Added(st, st'), s, s')
  {
    SameAgenda(st, st', j, fuel);
    s' := RunForth(Added(st, st'), Fresh(st), Fresh(st'), [CScan(st.sets[j], fuel)], s);
  }

  lemma FeedSooner(st: Store, st': Store, j: SetId, fuel: nat, s': State) returns (s: State)
    requires SelfContained(st) && st.cats <= st'.cats && st.sets <= st'.sets && j < |st.sets|
    requires FeedEnds(st', j, fuel, s')
    ensures FeedEnds(st, j, fuel, s) && Renamed(Added(st, st'), s, s')
  {
    SameAgenda(st, st', j, fuel);
    s := RunBack(Added(st, st'), Fresh(st), Fresh(st'), [CScan(st.sets[j], fuel)], s');
  }

  /** Feeding a token to a state of `st` after the store has grown to `st'` ends
      in exactly what it ends in right away, up to the names of what is new. */
  lemma FeedIndependent(st: Store, st': Store, j: SetId, fuel: nat)
    requires SelfContained(st) && st.cats <= st'.cats && st.sets <= st'.sets && j < |st.sets|
    ensures forall s :: FeedEnds(st, j, fuel, s) ==>
              exists s' :: FeedEnds(st', j, fuel, s') && Renamed(Added(st, st'), s, s')
    ensures forall s' :: FeedEnds(st', j, fuel, s') ==>
              exists s :: FeedEnds(st, j, fuel, s) && Renamed(Added(st, st'), s, s')
  {
    forall s | FeedEnds(st, j, fuel, s)
      ensures exists s' :: FeedEnds(st', j, fuel, s') && Renamed(Added(st, st'), s, s')
    {
      var s' := FeedLater(st, st', j, fuel, s);
    }
    forall s' | FeedEnds(st', j, fuel, s')
      ensures exists s :: FeedEnds(st, j, fuel, s) && Renamed(Added(st, st'), s, s')
    {
      var s := FeedSooner(st, st', j, fuel, s');
    }
  }

  /** A parse state as it would be without the foreign parts `h` of its store. */
  ghost predicate SameResult(h: Shift, alone: State, st: Store, p: Parse) {
    && CatsRel(h, alone.store.cats, st.cats) && SetsRel(h, alone.store.sets, st.sets)
    && TransitionsRel(h, alone.transitions, p.transitions) && p.completed == RIds(h, alone.completed)
    && forall i, t :: 0 <= i < |p.completed| ==>
         (IsTreeOf(st.cats, p.completed[i], t) <==> IsTreeOf(alone.store.cats, alone.completed[i], t))
  }

  lemma RenamedResult(h: Shift, alone: State, s: State)
    requires Renamed(h, alone, s)
    ensures SameResult(h, alone, s.store, Parse(s.transitions, s.completed))
  {
    forall i, t | 0 <= i < |s.completed|
      ensures IsTreeOf(s.store.cats, s.completed[i], t) <==> IsTreeOf(alone.store.cats, alone.completed[i], t)
    {
      SameTrees(h, alone.store.cats, s.store.cats, alone.completed[i], t);
    }
  }

  /** Branching: two tokens fed to one state.  Each result is a state of its own
      word; neither the state nor the first result is disturbed by what comes
      after; and the second result is one that its token gives alone, renamed. */
  method FeedBoth(parsing: Parsing, state: Parse, w: seq<Token>, t1: Token, t2: Token, fuel: nat)
      returns (p1: Option<Parse>, p2: Option<Parse>, ghost mid: Store, ghost alone: State)
    requires Valid(parsing.store, parsing.g, parsing.goal) && ParseOk(parsing.g, parsing.goal, w, state)
    modifies parsing
    ensures parsing.goal == old(parsing.goal) && Valid(parsing.store, parsing.g, parsing.goal)
    ensures ParseOk(parsing.g, parsing.goal, w, state)
    ensures p1 == None <==> t1 !in state.transitions
    ensures p2 == None <==> t2 !in state.transitions
    ensures p1.Some? ==> ParseOk(parsing.g, parsing.goal, w + [t1], p1.value)
    ensures p2.Some? ==> ParseOk(parsing.g, parsing.goal, w + [t2], p2.value)
    // nothing there before the first feed, or made by it, changes
    ensures old(parsing.store).cats <= mid.cats <= parsing.store.cats
    ensures old(parsing.store).sets <= mid.sets <= parsing.store.sets
    ensures forall c, d :: c in state.completed ==>
              (Derives(parsing.store.cats, c, d) <==> Derives(old(parsing.store).cats, c, d))
    ensures p1.Some? ==> forall c, d :: c in p1.value.completed ==>
              (Derives(parsing.store.cats, c, d) <==> Derives(mid.cats, c, d))
    // the second token gives what it gives alone
    ensures p2.Some? ==> state.transitions[t2] < |old(parsing.store).sets|
                         && FeedEnds(old(parsing.store), state.transitions[t2], fuel, alone)
                         && SameResult(Added(old(parsing.store), mid), alone, parsing.store, p2.value)
  {
    ghost var st0, g0, goal := parsing.store, parsing.g, parsing.goal;
    alone := Fresh(st0);
    p1 := parsing.Feed(state, t1, w, fuel);
    ghost var st1, g1 := parsing.store, parsing.g;
    mid := st1;
    ParseOkGrows(st0, g0, st1, g1, goal, w, state);
    p2 := parsing.Feed(state, t2, w, fuel);
    ghost var st2, g2 := parsing.store, parsing.g;
    ParseOkGrows(st1, g1, st2, g2, goal, w, state);
    StatesKept(st0, g0, st1, g1, st2, g2, goal, w, state, t1, p1);
    if p2.Some? {
      assert TransitionOk(g0, w, t2, state.transitions[t2]);
      alone := AloneFor(st0, g0, goal, st1, state.transitions[t2], fuel, parsing.Core());
      RenamedResult(Added(st0, st1), alone, parsing.Core());
    }
  }

  lemma AloneFor(st: Store, g: Ledger, goal: Goal, st': Store, j: SetId, fuel: nat, s': State) returns (s: State)
    requires Valid(st, g, goal) && st.cats <= st'.cats && st.sets <= st'.sets && j < |st.sets|
    requires Ran(Fresh(st'), [CScan(st'.sets[j], fuel)], s')
    ensures FeedEnds(st, j, fuel, s) && Renamed(Added(st, st'), s, s')
  {
    ValidSelfContained(st, g, goal);
    s := FeedSooner(st, st', j, fuel, s');
  }

  lemma StatesKept(st0: Store, g0: Ledger, st1: Store, g1: Ledger, st2: Store, g2: Ledger, goal: Goal,
                   w: seq<Token>, state: Parse, t1: Token, p1: Option<Parse>)
    requires Valid(st0, g0, goal) && Valid(st1, g1, goal) && Grows(st1, g1, st2, g2)
    requires st0.cats <= st1.cats <= st2.cats && ParseOk(g0, goal, w, state)
    requires p1.Some? ==> ParseOk(g1, goal, w + [t1], p1.value)
    ensures forall c, d :: c in state.completed ==> (Derives(st2.cats, c, d) <==> Derives(st0.cats, c, d))
    ensures p1.Some? ==> ParseOk(g2, goal, w + [t1], p1.value)
    ensures p1.Some? ==> forall c, d :: c in p1.value.completed ==> (Derives(st2.cats, c, d) <==> Derives(st1.cats, c, d))
  {
    if p1.Some? {
      ParseOkGrows(st1, g1, st2, g2, goal, w + [t1], p1.value);
      forall c, d | c in p1.value.completed ensures Derives(st2.cats, c, d) <==> Derives(st1.cats, c, d) {
        assert CompletedOk(g1, goal, w + [t1], c);
        DerivesFrozen(st1, g1, goal, st2, c, d);
      }
    }
    forall c, d | c in state.completed ensures Derives(st2.cats, c, d) <==> Derives(st0.cats, c, d) {
      assert CompletedOk(g0, goal, w, c);
      DerivesFrozen(st0, g0, goal, st2, c, d);
    }
  }
}
