/**
 What a parse state means: soundness against the linearizer, narrowing to the
 grammar, and what growing the store leaves alone.
 */
module ParseTheorems {
  import opened Wrappers
  import opened Grammar
  import opened Linearize
  import opened Chart
  import opened Orderliness
  import opened Machine
  import Completeness
  import Forward
  import opened Parser

  // ------------------------------------------------------------------- soundness

  /** Every tree of a category has all the facts of the category. */
  lemma {:induction false} FactsSound(st: Store, g: Ledger, goal: Goal, c: CatId, d: Deriv, f: Fact)
    requires Valid(st, g, goal) && Derives(st.cats, c, d) && f in g.facts[c]
    ensures Lin(Tree(d), f.r) == Some(f.word)
    decreases d
  {
    assert CatOk(st, g, c);
    match d
    case ByApply(fun, argCats, kids) =>
      var p := Apply(fun, argCats);
      assert ProdOk(st, g, c, p);
      forall i, f' | 0 <= i < |kids| && argCats[i] < |g.facts| && f' in g.facts[argCats[i]]
        ensures Lin(Tree(kids[i]), f'.r) == Some(f'.word)
      {
        FactsSound(st, g, goal, argCats[i], kids[i], f');
      }
      SpellsSound(g.facts, d, ProdSyms(p, f.r), f.word);
    case ByCoerce(c', kid) =>
      var p := Coerce(c');
      assert ProdOk(st, g, c, p);
      var syms := [SymCat(0, f.r)];
      var n :| 0 <= n <= |f.word| && Spells(g.facts, [c'], syms[..0], f.word[..n])
        && SymSpells(g.facts, [c'], syms[0], f.word[n..]);
      assert f.word[n..] == f.word;
      FactsSound(st, g, goal, c', kid, f);
  }

  lemma {:induction false} SpellsSound(facts: seq<set<Fact>>, d: Deriv, syms: seq<Symbol>, u: seq<Token>)
    requires d.ByApply? && |d.kids| == |d.cats|
    requires forall i, f :: 0 <= i < |d.kids| && d.cats[i] < |facts| && f in facts[d.cats[i]] ==>
               Lin(Tree(d.kids[i]), f.r) == Some(f.word)
    requires Spells(facts, d.cats, syms, u)
    ensures LinSyms(Tree(d), syms) == Some(u)
    decreases |syms|
  {
    if syms != [] {
      var k := |syms| - 1;
      var n :| 0 <= n <= |u| && Spells(facts, d.cats, syms[..k], u[..n])
        && SymSpells(facts, d.cats, syms[k], u[n..]);
      SpellsSound(facts, d, syms[..k], u[..n]);
      SymSound(facts, d, syms[k], u[n..]);
      LinSymsLast(Tree(d), syms, u, n);
    }
  }

  lemma SymSound(facts: seq<set<Fact>>, d: Deriv, s: Symbol, v: seq<Token>)
    requires d.ByApply? && |d.kids| == |d.cats|
    requires forall i, f :: 0 <= i < |d.kids| && d.cats[i] < |facts| && f in facts[d.cats[i]] ==>
               Lin(Tree(d.kids[i]), f.r) == Some(f.word)
    requires SymSpells(facts, d.cats, s, v)
    ensures LinSym(Tree(d), s) == Some(v)
  {
    if s.SymCat? {
      var f := Fact(s.r, v);
      assert Lin(Tree(d.kids[s.d]), f.r) == Some(f.word);
    }
  }

  lemma LinSymsLast(t: CncTree, syms: seq<Symbol>, u: seq<Token>, n: nat)
    requires n <= |u| && syms != []
    requires LinSyms(t, syms[..|syms| - 1]) == Some(u[..n]) && LinSym(t, syms[|syms| - 1]) == Some(u[n..])
    ensures LinSyms(t, syms) == Some(u)
  {
    Halves(u, n);
  }

  lemma Halves<T>(u: seq<T>, n: nat)
    requires n <= |u|
    ensures u[..n] + u[n..] == u
  {}

  // ------------------------------------------------------------------- narrowing

  /** A production of a refined category is, up to refinement, one of the
      category it refines. */
  lemma {:induction false} ProdLifts(st: Store, g: Ledger, goal: Goal, c: CatId, o: CatId, p: Production)
      returns (q: Production)
    requires Valid(st, g, goal) && Refines(g.parent, c, o) && c < |st.cats| && p in ProdsOf(st.cats[c])
    ensures o < |st.cats| && q in ProdsOf(st.cats[o]) && ProdRefines(g.parent, p, q)
    decreases c
  {
    RefinesShape(st, g, goal, c, o);
    assert CatOk(st, g, c) && ProdOk(st, g, c, p);
    if c == o {
      q := p;
      if p.Coerce? {
        assert ProdArgs(p)[0] < |st.cats|;
      } else {
        forall i | 0 <= i < |p.args| ensures Refines(g.parent, p.args[i], p.args[i]) {
          assert ProdArgs(p)[i] < |st.cats|;
        }
      }
    } else {
      var b := g.parent[c].value;
      var p' :| p' in ProdsOf(st.cats[b]) && ProdRefines(g.parent, p, p');
      q := ProdLifts(st, g, goal, b, o, p');
      ProdRefinesTransitive(g.parent, p, p', q);
    }
  }

  lemma ProdRefinesTransitive(parent: seq<Option<CatId>>, p: Production, q: Production, r: Production)
    requires ProdRefines(parent, p, q) && ProdRefines(parent, q, r)
    ensures ProdRefines(parent, p, r)
  {
    if p.Apply? {
      forall i | 0 <= i < |p.args| ensures Refines(parent, p.args[i], r.args[i]) {
        RefinesTransitive(parent, p.args[i], q.args[i], r.args[i]);
      }
    } else {
      RefinesTransitive(parent, p.cat, q.cat, r.cat);
    }
  }

  /** Completion only narrows: a tree of a category is a tree of every category
      it was completed from. */
  lemma {:induction false} Narrows(st: Store, g: Ledger, goal: Goal, c: CatId, o: CatId, d: Deriv) returns (d': Deriv)
    requires Valid(st, g, goal) && Refines(g.parent, c, o) && Derives(st.cats, c, d)
    ensures Derives(st.cats, o, d') && Tree(d') == Tree(d)
    ensures o < |goal.grammar| ==> Derives(goal.grammar, o, d')
    decreases d
  {
    match d
    case ByApply(fun, argCats, kids) =>
      var q := ProdLifts(st, g, goal, c, o, Apply(fun, argCats));
      ArgsInGrammar(st, g, goal, o, q);
      var kids' := NarrowsAll(st, g, goal, argCats, q.args, kids);
      d' := ByApply(fun, q.args, kids');
      if o < |goal.grammar| {
        forall i | 0 <= i < |kids'| ensures Derives(goal.grammar, q.args[i], kids'[i]) {
          assert ProdArgs(q)[i] < |goal.grammar|;
        }
      }
      assert Tree(d').args == Tree(d).args;
    case ByCoerce(c', kid) =>
      var q := ProdLifts(st, g, goal, c, o, Coerce(c'));
      ArgsInGrammar(st, g, goal, o, q);
      var kid' := Narrows(st, g, goal, c', q.cat, kid);
      d' := ByCoerce(q.cat, kid');
  }

  lemma ArgsInGrammar(st: Store, g: Ledger, goal: Goal, o: CatId, q: Production)
    requires Valid(st, g, goal) && o < |st.cats| && q in ProdsOf(st.cats[o])
    ensures o < |goal.grammar| ==> st.cats[o] == goal.grammar[o]
    ensures o < |goal.grammar| ==> forall i :: 0 <= i < |ProdArgs(q)| ==> ProdArgs(q)[i] < |goal.grammar|
    ensures o < |goal.grammar| && q.Coerce? ==> q.cat < |goal.grammar|
  {
    if o < |goal.grammar| {
      assert ProdWf(goal.grammar, goal.grammar[o].cnccat.nCtnts, q);
      if q.Coerce? {
        assert ProdArgs(q)[0] == q.cat;
      }
    }
  }

  lemma {:induction false} NarrowsAll(st: Store, g: Ledger, goal: Goal, cs: seq<CatId>, os: seq<CatId>, ds: seq<Deriv>)
      returns (ds': seq<Deriv>)
    requires Valid(st, g, goal) && AllRefine(g.parent, cs, os) && |ds| == |cs|
    requires forall i :: 0 <= i < |ds| ==> Derives(st.cats, cs[i], ds[i])
    ensures |ds'| == |os|
    ensures forall i :: 0 <= i < |ds'| ==> Derives(st.cats, os[i], ds'[i]) && Tree(ds'[i]) == Tree(ds[i])
    ensures forall i :: 0 <= i < |ds'| && os[i] < |goal.grammar| ==> Derives(goal.grammar, os[i], ds'[i])
    decreases ds
  {
    if ds == [] {
      return [];
    }
    var k := |ds| - 1;
    var rest := NarrowsAll(st, g, goal, cs[..k], os[..k], ds[..k]);
    assert Refines(g.parent, cs[k], os[k]);
    var last := Narrows(st, g, goal, cs[k], os[k], ds[k]);
    ds' := rest + [last];
  }

  // --------------------------------------------------------------- the main theorems

  /** A tree of a start category of the grammar. */
  ghost predicate IsGrammarTree(goal: Goal, t: CncTree) {
    exists root, d :: root in goal.roots && Derives(goal.grammar, root, d) && Tree(d) == t
  }

  /** Every tree of a completed category linearizes, at the constituent the
      parse was started for, to exactly the tokens fed, and is a tree of one
      of the start categories of the grammar. */
  lemma ParseSound(st: Store, g: Ledger, goal: Goal, w: seq<Token>, p: Parse, c: CatId, d: Deriv)
    requires Valid(st, g, goal) && ParseOk(g, goal, w, p) && c in p.completed && Derives(st.cats, c, d)
    ensures Lin(Tree(d), goal.start) == Some(w)
    ensures IsGrammarTree(goal, Tree(d))
  {
    assert CompletedOk(g, goal, w, c);
    FactsSound(st, g, goal, c, d, Fact(goal.start, w));
    var root :| root in goal.roots && Refines(g.parent, c, root);
    var d' := Narrows(st, g, goal, c, root, d);
  }

  /** Old categories derive exactly what they derived before: growing the store
      at the end changes nothing. */
  lemma {:induction false} DerivesFrozen(st: Store, g: Ledger, goal: Goal, st': Store, c: CatId, d: Deriv)
    requires Valid(st, g, goal) && st.cats <= st'.cats && c < |st.cats|
    ensures Derives(st'.cats, c, d) <==> Derives(st.cats, c, d)
    decreases d
  {
    assert CatOk(st, g, c);
    match d
    case ByApply(fun, argCats, kids) =>
      var p := Apply(fun, argCats);
      if p in ProdsOf(st.cats[c]) && |kids| == |argCats| {
        assert ProdOk(st, g, c, p);
        assert ProdArgs(p) == argCats;
        forall i | 0 <= i < |kids| ensures Derives(st'.cats, argCats[i], kids[i]) <==> Derives(st.cats, argCats[i], kids[i]) {
          assert ProdArgs(p)[i] < |st.cats|;
          DerivesFrozen(st, g, goal, st', argCats[i], kids[i]);
        }
      }
    case ByCoerce(c', kid) =>
      if Coerce(c') in ProdsOf(st.cats[c]) {
        assert ProdOk(st, g, c, Coerce(c'));
        assert ProdArgs(Coerce(c'))[0] < |st.cats|;
        DerivesFrozen(st, g, goal, st', c', kid);
      }
  }

  // ------------------------------------------------------------------------- runs

  /** A completed category means what it should: all its trees linearize to the
      word and are trees of a start category of the grammar. */
  ghost predicate MeansWord(cats: seq<CCat>, goal: Goal, w: seq<Token>, c: CatId) {
    forall d :: Derives(cats, c, d) ==>
      && Lin(Tree(d), goal.start) == Some(w)
      && IsGrammarTree(goal, Tree(d))
  }

  /** A whole sentence, from the initial state.  The parse fails exactly at the
      first token that the state before it, reached by the first `k` tokens,
      does not expect.  `hs` is the run of the machine. */
  method ParseSentence(parsing: Parsing, cats: Option<seq<Option<CatId>>>, linIdx: nat, sentence: seq<Token>, fuel: nat)
      returns (p: Option<Parse>, k: nat, last: Parse, ghost hs: seq<State>)
    requires Valid(parsing.store, parsing.g, parsing.goal) && linIdx == parsing.goal.start
    requires cats.Some? ==> forall c :: Some(c) in cats.value ==> c in parsing.goal.roots
    modifies parsing
    ensures parsing.goal == old(parsing.goal) && Valid(parsing.store, parsing.g, parsing.goal)
    ensures k <= |sentence| && ParseOk(parsing.g, parsing.goal, sentence[..k], last)
    ensures p.Some? <==> k == |sentence|
    ensures p.Some? ==> p.value == last
    ensures p == None ==> sentence[k] !in last.transitions
    ensures p.Some? ==> forall c :: c in p.value.completed ==>
                          MeansWord(parsing.store.cats, parsing.goal, sentence, c)
    ensures Orderly(old(parsing.store)) ==> Orderly(parsing.store)
    // nothing is missed
    ensures IsRun(old(parsing.store), cats, linIdx, fuel, sentence[..k], hs, parsing.Core(), last)
    ensures cats.Some? && Orderly(old(parsing.store)) ==> Complete(old(parsing.store), parsing.goal, cats.value, sentence, hs, parsing.store.cats, p)
  {
    last := parsing.Begin(cats, linIdx, fuel);
    hs := [parsing.Core()];
    k := 0;
    while k < |sentence|
      invariant k <= |sentence|
      invariant parsing.goal == old(parsing.goal) && Valid(parsing.store, parsing.g, parsing.goal)
      invariant ParseOk(parsing.g, parsing.goal, sentence[..k], last)
      invariant Orderly(old(parsing.store)) ==> Orderly(parsing.store)
      invariant IsRun(old(parsing.store), cats, linIdx, fuel, sentence[..k], hs, parsing.Core(), last)
    {
      var next := FeedNext(parsing, cats, linIdx, sentence, k, last, fuel, old(parsing.store), hs);
      if next == None {
        p := None;
        AllMeant(old(parsing.store), parsing.goal, cats, linIdx, fuel, sentence, k, hs, parsing.Core(), last, p);
        return;
      }
      last, k, hs := next.value, k + 1, hs + [parsing.Core()];
    }
    assert sentence[..k] == sentence;
    p := Some(last);
    CompletedMean(parsing.store, parsing.g, parsing.goal, sentence, last);
    AllMeant(old(parsing.store), parsing.goal, cats, linIdx, fuel, sentence, k, hs, parsing.Core(), last, p);
  }

  lemma CompletedMean(st: Store, g: Ledger, goal: Goal, w: seq<Token>, p: Parse)
    requires Valid(st, g, goal) && ParseOk(g, goal, w, p)
    ensures forall c :: c in p.completed ==> MeansWord(st.cats, goal, w, c)
  {
    forall c, d | c in p.completed && Derives(st.cats, c, d)
      ensures Lin(Tree(d), goal.start) == Some(w) && IsGrammarTree(goal, Tree(d))
    {
      ParseSound(st, g, goal, w, p, c, d);
    }
  }

  /** `hs` is the run of the machine on the tokens `w`, and ends in `core`. */
  ghost predicate IsRun(st: Store, cats: Option<seq<Option<CatId>>>, r: nat, fuel: nat, w: seq<Token>, hs: seq<State>,
                        core: State, last: Parse) {
    cats.Some? ==>
      && Completeness.Chain(st, cats.value, r, fuel, w, hs)
      && hs[|w|] == core && last == Parse(core.transitions, core.completed)
  }

  /** Feeds the next token of a sentence. */
  method FeedNext(parsing: Parsing, ghost cats: Option<seq<Option<CatId>>>, ghost linIdx: nat, sentence: seq<Token>, k: nat,
                  last: Parse, fuel: nat, ghost st: Store, ghost hs: seq<State>)
      returns (next: Option<Parse>)
    requires Valid(parsing.store, parsing.g, parsing.goal) && k < |sentence|
    requires ParseOk(parsing.g, parsing.goal, sentence[..k], last)
    requires IsRun(st, cats, linIdx, fuel, sentence[..k], hs, parsing.Core(), last)
    modifies parsing
    ensures parsing.goal == old(parsing.goal) && Valid(parsing.store, parsing.g, parsing.goal)
    ensures Orderly(old(parsing.store)) ==> Orderly(parsing.store)
    ensures next == None <==> sentence[k] !in last.transitions
    ensures next == None ==> parsing.Core() == old(parsing.Core()) && parsing.g == old(parsing.g)
    ensures next.Some? ==>
              && ParseOk(parsing.g, parsing.goal, sentence[..k + 1], next.value)
              && IsRun(st, cats, linIdx, fuel, sentence[..k + 1], hs + [parsing.Core()], parsing.Core(), next.value)
  {
    ghost var before := parsing.Core();
    if sentence[k] in last.transitions {
      AgendaBeforeToken(parsing.store, parsing.g, parsing.goal, sentence[..k], last, sentence[k]);
    }
    next := parsing.Feed(last, sentence[k], sentence[..k], fuel);
    assert sentence[..k] + [sentence[k]] == sentence[..k + 1];
    if next.Some? && cats.Some? {
      assert Completeness.Fed(before, sentence[k], fuel, parsing.Core());
      ChainOn(st, cats.value, linIdx, fuel, sentence, k, hs, parsing.Core());
    }
  }

  lemma AgendaBeforeToken(st: Store, g: Ledger, goal: Goal, w: seq<Token>, p: Parse, tok: Token)
    requires Valid(st, g, goal) && ParseOk(g, goal, w, p) && tok in p.transitions
    ensures p.transitions[tok] < |st.sets| && forall x :: x in st.sets[p.transitions[tok]] ==> BeforeToken(x)
  {
    assert TransitionOk(g, w, tok, p.transitions[tok]) && SetOk(st, g, goal, p.transitions[tok]);
  }

  lemma ChainOn(st: Store, cats: seq<Option<CatId>>, r: nat, fuel: nat, sentence: seq<Token>, k: nat, hs: seq<State>, t: State)
    requires k < |sentence| && Completeness.Chain(st, cats, r, fuel, sentence[..k], hs)
    requires Completeness.Fed(hs[k], sentence[k], fuel, t)
    ensures Completeness.Chain(st, cats, r, fuel, sentence[..k + 1], hs + [t])
  {
    var w, hs' := sentence[..k + 1], hs + [t];
    forall i | 0 <= i < |w| ensures Completeness.Fed(hs'[i], w[i], fuel, hs'[i + 1]) {
      if i < k {
        assert Completeness.Fed(hs[i], sentence[..k][i], fuel, hs[i + 1]);
      }
    }
  }

  /** A tree that the sentence can mean. */
  ghost predicate IsMeaning(goal: Goal, w: seq<Token>, t: CncTree) {
    Lin(t, goal.start) == Some(w) && IsGrammarTree(goal, t)
  }

  /** The trees of the completed categories are exactly those the sentence can mean; and
      if the parse stops before the end, there are none. */
  ghost predicate ParsesExactly(cats: seq<CCat>, goal: Goal, w: seq<Token>, p: Option<Parse>) {
    forall t :: IsMeaning(goal, w, t) <==> p.Some? && Completeness.IsTreeOf(cats, p.value.completed, t)
  }

  /** When no call has run out of depth, no set has grown while it was walked, and all
      start categories were predicted, the parse is exact.  In a grammar without empty
      constituents no set does. */
  ghost predicate Complete(st: Store, goal: Goal, cats: seq<Option<CatId>>, sentence: seq<Token>, hs: seq<State>,
                           result: seq<CCat>, p: Option<Parse>) {
    && (Forward.Solid(st) ==> forall i :: 0 <= i < |hs| ==> hs[i].unsettled == {})
    && (Completeness.AllSettled(hs) && (forall c :: c in goal.roots ==> Some(c) in cats) ==>
          ParsesExactly(result, goal, sentence, p))
  }

  lemma AllMeant(st: Store, goal: Goal, cats: Option<seq<Option<CatId>>>, r: nat, fuel: nat, sentence: seq<Token>, k: nat,
                 hs: seq<State>, core: State, last: Parse, p: Option<Parse>)
    requires k <= |sentence| && IsRun(st, cats, r, fuel, sentence[..k], hs, core, last) && goal.grammar <= st.cats && r == goal.start
    requires if k < |sentence| then p == None && sentence[k] !in last.transitions else p == Some(last)
    requires p.Some? ==> forall c :: c in last.completed ==> MeansWord(core.store.cats, goal, sentence, c)
    ensures cats.Some? && Orderly(st) ==> Complete(st, goal, cats.value, sentence, hs, core.store.cats, p)
  {
    if cats.Some? && Orderly(st) {
      NothingMissed(st, goal, cats.value, r, fuel, sentence, k, hs);
      if p.Some? {
        NothingElse(core.store.cats, goal, sentence, last.completed);
      }
    }
  }

  lemma NothingElse(cats: seq<CCat>, goal: Goal, w: seq<Token>, completed: seq<CatId>)
    requires forall c :: c in completed ==> MeansWord(cats, goal, w, c)
    ensures forall t :: Completeness.IsTreeOf(cats, completed, t) ==> IsMeaning(goal, w, t)
  {
    forall t | Completeness.IsTreeOf(cats, completed, t) ensures IsMeaning(goal, w, t) {
      var c, d :| c in completed && Derives(cats, c, d) && Tree(d) == t;
      assert MeansWord(cats, goal, w, c);
    }
  }

  lemma NothingMissed(st: Store, goal: Goal, cats: seq<Option<CatId>>, r: nat, fuel: nat, sentence: seq<Token>, k: nat, hs: seq<State>)
    requires k <= |sentence| && Completeness.Chain(st, cats, r, fuel, sentence[..k], hs) && Orderly(st)
    requires k < |sentence| ==> sentence[k] !in hs[k].transitions
    requires goal.grammar <= st.cats && r == goal.start
    ensures Forward.Solid(st) ==> forall i :: 0 <= i < |hs| ==> hs[i].unsettled == {}
    ensures Completeness.AllSettled(hs) && (forall c :: c in goal.roots ==> Some(c) in cats) ==>
              forall t :: IsMeaning(goal, sentence, t) ==>
                k == |sentence| && Completeness.IsTreeOf(hs[k].store.cats, hs[k].completed, t)
  {
    if Forward.Solid(st) {
      forall i | 0 <= i < |hs| ensures hs[i].unsettled == {} {
        Completeness.ChainSettles(st, cats, r, fuel, sentence[..k], hs, i);
      }
    }
    if Completeness.AllSettled(hs) && (forall c :: c in goal.roots ==> Some(c) in cats) {
      forall t | IsMeaning(goal, sentence, t)
        ensures k == |sentence| && Completeness.IsTreeOf(hs[k].store.cats, hs[k].completed, t)
      {
        var c, d :| c in goal.roots && Derives(goal.grammar, c, d) && Tree(d) == t;
        Completeness.DerivesLater(Store(goal.grammar, []), st, c, d);
        assert Completeness.Meant(st.cats, cats, r, sentence, t);
        Completeness.AllFound(st, cats, r, fuel, sentence[..k], hs, sentence, t);
      }
    }
  }
}
