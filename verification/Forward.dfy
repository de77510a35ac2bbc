/**
 Grammars without empty constituents: no item set is ever walked while it grows.

 What a step completes then was begun in an earlier one, so the sets it walks are of
 earlier steps, and those do not change.
 */
module Forward {
  import opened Wrappers
  import opened Grammar
  import opened Chart
  import opened Machine
  import Orderliness
  import Runs

  /** No constituent of any production is empty. */
  ghost predicate NoneEmpty(cats: seq<CCat>) {
    forall c, p :: 0 <= c < |cats| && p in ProdsOf(cats[c]) ==> ProdNonEmpty(p)
  }

  ghost predicate ProdNonEmpty(p: Production) {
    p.Apply? ==> forall r :: 0 <= r < |p.fun.lins| ==> p.fun.lins[r] != []
  }

  /** An item begun before the sets from number `n` on were made, or one that has not
      moved. */
  ghost predicate Begun(n: nat, x: Item) {
    x.Item? ==> ProdNonEmpty(x.prod) && (x.conts < n || x.seqIdx == 0)
  }

  /** The sets of earlier steps are as they were, and only those are completed. */
  ghost predicate Ahead(st: Store, s: State) {
    && st.sets <= s.store.sets && NoneEmpty(s.store.cats) && s.unsettled == {}
    && (forall t :: t in s.transitions ==> s.transitions[t] >= |st.sets|)
    && (forall c, r :: c in s.contsMap && 0 <= r < |s.contsMap[c]| && s.contsMap[c][r].Some? ==> s.contsMap[c][r].value >= |st.sets|)
    && (forall j :: j in s.generated ==> j < |st.sets|)
    && (forall j, x :: |st.sets| <= j < |s.store.sets| && x in s.store.sets[j] ==> Begun(|st.sets|, x))
  }

  ghost predicate CallAhead(st: Store, call: Call) {
    match call
    case CItem(x, _) => Begun(|st.sets|, x)
    case CPredict(x, _, _, _) => Begun(|st.sets|, x)
    case CServe(x, j, _) => j >= |st.sets|
    case CCombine(x, _, _) => x.Item? ==> ProdNonEmpty(x.prod) && x.conts < |st.sets|
    case CComplete(x, _) => x.Item? && x.conts < |st.sets| && ProdNonEmpty(x.prod)
    case CStart(_, _, p, _) => ProdNonEmpty(p)
    case CWalk(j, _, start, rest, _) => j < |st.sets| && start == st.sets[j] && rest <= start
    case CWander(_, _, _) => false
    case CScan(rest, _) => forall x :: x in rest ==> x.Item? ==> ProdNonEmpty(x.prod) && x.conts < |st.sets|
  }

  ghost predicate AllAhead(st: Store, calls: seq<Call>) {
    forall i :: 0 <= i < |calls| ==> CallAhead(st, calls[i])
  }

  /** Items of earlier steps were begun then. */
  ghost predicate OldSets(st: Store) {
    forall j, x :: 0 <= j < |st.sets| && x in st.sets[j] && x.Item? ==> x.conts < |st.sets| && ProdNonEmpty(x.prod)
  }

  ghost predicate GoesAhead(st: Store, o: Runs.Outcome<State, Call>) {
    o.Then? ==> Ahead(st, o.s) && AllAhead(st, o.calls)
  }

  lemma ItemAhead(st: Store, s: State, x: Item, fuel: nat)
    requires Ahead(st, s) && Begun(|st.sets|, x)
    ensures GoesAhead(st, NextItem(x, fuel, s))
  {
    if x !in s.seen && fuel > 0 && x.Item? && HasCtnt(x.prod, x.linIdx) {
      match CurrSym(x)
      case None =>
        assert x.prod.Coerce? ==> |ProdSyms(x.prod, x.linIdx)| == 1;
        assert x.prod.Apply? ==> x.prod.fun.lins[x.linIdx] != [];
      case Some(SymCat(d, r)) =>
      case Some(SymKS(tokens)) =>
        if x.tokIdx < |tokens| {
          TokenAhead(st, s.(seen := s.seen + {x}), tokens[x.tokIdx], x);
        }
    }
  }

  lemma TokenAhead(st: Store, s: State, tok: Token, x: Item)
    requires Ahead(st, s) && Begun(|st.sets|, x)
    ensures GoesAhead(st, NextToken(tok, x, s))
  {
    var s1 := WithAgenda(s, tok);
    assert forall j :: 0 <= j < |s.store.sets| ==> s1.store.sets[j] == s.store.sets[j];
    assert Ahead(st, s1);
    InsertedAhead(st, s1, s1.transitions[tok], x);
  }

  lemma InsertedAhead(st: Store, s: State, j: SetId, x: Item)
    requires Ahead(st, s) && Begun(|st.sets|, x) && j >= |st.sets|
    ensures j < |s.store.sets| ==> Ahead(st, Inserted(s, j, x))
  {}

  lemma PredictAhead(st: Store, s: State, x: Item, cat: CatId, r: nat, fuel: nat)
    requires Ahead(st, s) && Begun(|st.sets|, x)
    ensures GoesAhead(st, NextPredict(x, cat, r, fuel, s))
  {
    if cat < |s.store.cats| && !s.store.cats[cat].prods.NullProds? && r < |WithContss(s, cat).contsMap[cat]| {
      var s1 := WithConts(WithContss(s, cat), cat, r);
      assert forall j :: 0 <= j < |s.store.sets| ==> s1.store.sets[j] == s.store.sets[j];
      assert Ahead(st, s1);
      var j := s1.contsMap[cat][r].value;
      if j < |s1.store.sets| {
        EnterAhead(st, s1, x, cat, r, j, fuel);
      }
    }
  }

  lemma EnterAhead(st: Store, s: State, x: Item, cat: CatId, r: nat, j: SetId, fuel: nat)
    requires Ahead(st, s) && Begun(|st.sets|, x) && cat < |s.store.cats| && |st.sets| <= j < |s.store.sets|
    ensures GoesAhead(st, NextEnter(x, cat, r, j, fuel, s))
  {
    InsertedAhead(st, s, j, x);
    var ps := ProdsOf(s.store.cats[cat]);
    forall i | 0 <= i < |ps| ensures Begun(|st.sets|, Started(j, cat, r, ps[i])) {
      assert ps[i] in ProdsOf(s.store.cats[cat]);
    }
  }

  lemma CompleteAhead(st: Store, s: State, x: Item, fuel: nat)
    requires Ahead(st, s) && CallAhead(st, CComplete(x, fuel))
    ensures GoesAhead(st, NextComplete(x, fuel, s))
  {
    var o := NextComplete(x, fuel, s);
    if o.Then? {
      var p := WithArgs(x.prod, x.args);
      assert ProdNonEmpty(p);
      if x.conts in s.generated {
        ProductionAhead(st, s, s.generated[x.conts], p);
      } else {
        var s1 := WithCategory(s, x.conts, x.cat);
        assert NoneEmpty(s1.store.cats);
        ProductionAhead(st, s1, |s.store.cats|, p);
      }
    }
  }

  lemma ProductionAhead(st: Store, s: State, c: CatId, p: Production)
    requires Ahead(st, s) && ProdNonEmpty(p) && c < |s.store.cats| && s.store.cats[c].prods.BufProds?
    ensures Ahead(st, WithProduction(s, c, p))
  {
    var t := WithProduction(s, c, p);
    forall d, q | 0 <= d < |t.store.cats| && q in ProdsOf(t.store.cats[d]) ensures ProdNonEmpty(q) {
      assert q in ProdsOf(s.store.cats[d]) || q == p;
    }
  }

  lemma CallGoesAhead(st: Store, s: State, call: Call, pick: Option<Item>)
    requires Ahead(st, s) && CallAhead(st, call) && OldSets(st)
    ensures GoesAhead(st, Next(call, s, pick))
  {
    var o := Next(call, s, pick);
    if o.Then? {
      match call
      case CItem(x, fuel) => ItemAhead(st, s, x, fuel);
      case CPredict(x, cat, r, fuel) => PredictAhead(st, s, x, cat, r, fuel);
      case CComplete(x, fuel) => CompleteAhead(st, s, x, fuel);
      case CWalk(j, c, start, rest, fuel) => assert s.store.sets[j] == st.sets[j];
      case _ =>
    }
  }

  lemma {:induction false} RunAhead(st: Store, s: State, stack: seq<Call>, picks: seq<Option<Item>>, s': State)
    requires Ahead(st, s) && AllAhead(st, stack) && OldSets(st) && Runs.Replay(Next, s, stack, picks) == Some(s')
    ensures Ahead(st, s')
    decreases |picks|
  {
    if stack != [] {
      CallGoesAhead(st, s, stack[0], picks[0]);
      var o := Next(stack[0], s, picks[0]);
      assert AllAhead(st, o.calls + stack[1..]);
      RunAhead(st, o.s, o.calls + stack[1..], picks[1..], s');
    }
  }

  /** A store in which no constituent is empty. */
  ghost predicate Solid(st: Store) {
    NoneEmpty(st.cats) && OldSets(st)
  }

  lemma SolidAfter(st: Store, s: State)
    requires Ahead(st, s) && OldSets(st) && Orderliness.Orderly(s.store)
    ensures Solid(s.store)
  {
    var l :| Orderliness.StoreLinked(s.store, l);
    forall j, x | 0 <= j < |s.store.sets| && x in s.store.sets[j] && x.Item?
      ensures x.conts < |s.store.sets| && ProdNonEmpty(x.prod)
    {
      assert Orderliness.Member(l, j, x);
      if j < |st.sets| {
        assert s.store.sets[j] == st.sets[j];
      } else {
        assert Begun(|st.sets|, x);
      }
    }
  }

  /** Then no set grows while it is walked, neither when a parse begins... */
  lemma BeginSettles(st: Store, cats: seq<Option<CatId>>, r: nat, fuel: nat, s': State)
    requires Solid(st) && Orderliness.Orderly(st) && Ran(Fresh(st), Orderliness.RootCalls(cats, r, fuel), s')
    ensures s'.unsettled == {} && Solid(s'.store)
  {
    var stack := Orderliness.RootCalls(cats, r, fuel);
    Orderliness.RootCallsPredict(cats, r, fuel);
    var picks :| Runs.Replay(Next, Fresh(st), stack, picks) == Some(s');
    assert AllAhead(st, stack);
    RunAhead(st, Fresh(st), stack, picks, s');
    Orderliness.BeginOrderly(st, cats, r, fuel, s');
    SolidAfter(st, s');
  }

  /** ... nor when a token is fed. */
  lemma ScanSettles(st: Store, agenda: SetId, fuel: nat, s': State)
    requires Solid(st) && Orderliness.Orderly(st) && agenda < |st.sets| && (forall x :: x in st.sets[agenda] ==> BeforeToken(x))
    requires Ran(Fresh(st), [CScan(st.sets[agenda], fuel)], s')
    ensures s'.unsettled == {} && Solid(s'.store)
  {
    var stack := [CScan(st.sets[agenda], fuel)];
    var picks :| Runs.Replay(Next, Fresh(st), stack, picks) == Some(s');
    RunAhead(st, Fresh(st), stack, picks, s');
    Orderliness.ScanOrderly(st, agenda, fuel, s');
    SolidAfter(st, s');
  }

  /** A grammar as read, if none of its constituents is empty. */
  lemma GrammarSolid(grammar: seq<CCat>)
    requires NoneEmpty(grammar)
    ensures Solid(Store(grammar, []))
  {}
}
