/**
 A parse whose only tree is lost: a function with two arguments of one category.

 The grammar has one rule for its start category, `f A A`, which is spelled by a
 single token; the arguments are erased.  After that token the parse is complete,
 with one result, and reading it meets the category `A` twice.
 */
module SharedArgument {
  import opened Wrappers
  import opened Grammar
  import opened Linearize
  import opened Chart
  import opened Machine
  import opened Parser
  import opened ParseResult
  import opened Choice
  import opened Searching
  import opened Extraction
  import opened ExtractionCount
  import opened ResultEnum
  import opened Expr
  import Runs

  const A: CatId := 0
  const S: CatId := 1
  const Done: CatId := 2

  const TOK: Token := "t"

  const F := CncFun("f", [[SymKS([TOK])]])

  const RULE := Apply(F, [A, A])

  const GRAMMAR := [CCat(CncCat("A", 1), NullProds), CCat(CncCat("S", 1), SeqProds([RULE]))]

  const GOAL := Goal(GRAMMAR, 0, {S})

  /** The rule before and after its token. */
  const WAITING := Item(0, S, RULE, 0, [A, A], 0, 0)
  const FINISHED := Item(0, S, RULE, 0, [A, A], 1, 0)

  const SETS := [{NullItem}, {WAITING}]

  /** What the parse begins with, and what it comes to. */
  const BEGUN := State(Store(GRAMMAR, SETS), map[TOK := 1], [], {WAITING}, map[S := [Some(0)]], map[], {}, {})

  const CATS := GRAMMAR + [CCat(CncCat("S", 1), BufProds([RULE]))]

  const FED := State(Store(CATS, SETS), map[], [Done], {FINISHED}, map[], map[0 := Done], {}, {})

  const LEDGER := Ledger([{}, {}, {Fact(0, [TOK])}], [None, None, Some(S)], [Conts(S, 0, []), Agenda(TOK, [])])

  // ----------------------------------------------------------------------------- the run

  lemma Step(s: State, stack: seq<Call>, pick: Option<Item>, s1: State, calls: seq<Call>, stack1: seq<Call>, t: State)
    requires stack != [] && Next(stack[0], s, pick) == Runs.Then(s1, calls)
    requires stack1 == calls + stack[1..] && Ran(s1, stack1, t)
    ensures Ran(s, stack, t)
  {
    Runs.LeadsStep(Next, s, stack[0], stack[1..], pick, s1, calls);
    assert [stack[0]] + stack[1..] == stack;
  }

  /** The parser begins like this... */
  lemma Begins(fuel: nat)
    requires fuel > 0
    ensures Ran(Fresh(Store(GRAMMAR, [])), [CPredict(NullItem, S, 0, fuel)], BEGUN)
  {
    var s0 := Fresh(Store(GRAMMAR, []));
    var s1 := State(Store(GRAMMAR, [{NullItem}]), map[], [], {}, map[S := [Some(0)]], map[], {}, {});
    var predict, item, serve := CPredict(NullItem, S, 0, fuel), CItem(WAITING, fuel), CServe(NullItem, 0, fuel);
    AtOnce(BEGUN);
    Step(BEGUN, [serve], None, BEGUN, [], [], BEGUN);
    AgendaMade(s1);
    Step(s1, [item, serve], None, BEGUN, [], [serve], BEGUN);
    ContsMade(s0, s1, fuel);
    Step(s0, [predict], None, s1, [item, serve], [item, serve], BEGUN);
  }

  lemma AgendaMade(s1: State)
    requires s1 == State(Store(GRAMMAR, [{NullItem}]), map[], [], {}, map[S := [Some(0)]], map[], {}, {})
    ensures NextToken(TOK, WAITING, s1.(seen := s1.seen + {WAITING})) == Runs.Then(BEGUN, [])
  {
    var s2 := s1.(seen := s1.seen + {WAITING});
    var none: set<Item> := {};
    assert none + {WAITING} == {WAITING};
    assert [{NullItem}] + [none] == [{NullItem}, none];
    assert [{NullItem}, none][1 := none + {WAITING}] == SETS;
    assert WithAgenda(s2, TOK).transitions == map[TOK := 1];
  }

  lemma ContsMade(s0: State, s1: State, fuel: nat)
    requires s0 == Fresh(Store(GRAMMAR, []))
    requires s1 == State(Store(GRAMMAR, [{NullItem}]), map[], [], {}, map[S := [Some(0)]], map[], {}, {})
    ensures NextPredict(NullItem, S, 0, fuel, s0) == Runs.Then(s1, [CItem(WAITING, fuel), CServe(NullItem, 0, fuel)])
  {
    var none: set<Item> := {};
    assert Nones(1) == [None] && [None][0 := Some(0)] == [Some(0)];
    assert none + {NullItem} == {NullItem} && [none][0 := none + {NullItem}] == [{NullItem}];
    var s := WithConts(WithContss(s0, S), S, 0);
    assert s.contsMap == map[S := [Some(0)]] && s.store.sets == [none];
    assert Inserted(s, 0, NullItem) == s1;
    assert StartCalls([RULE], 0, S, 0, fuel) == [CItem(WAITING, fuel)];
    assert NextEnter(NullItem, S, 0, 0, fuel, s) == Runs.Then(s1, [CItem(WAITING, fuel), CServe(NullItem, 0, fuel)]);
  }

  /** ... and after the token it has come to this. */
  lemma Feeds(fuel: nat)
    requires fuel > 0
    ensures Ran(Fresh(BEGUN.store), [CScan(SETS[1], fuel)], FED)
  {
    var s0 := Fresh(BEGUN.store);
    var s1 := s0.(seen := {FINISHED});
    var item, complete := CItem(FINISHED, fuel), CComplete(FINISHED, fuel - 1);
    var scanned, walk := CScan({}, fuel), CWalk(0, Done, {NullItem}, {NullItem}, fuel - 1);
    Walks(fuel);
    CategoryMade(s1, FED.(completed := []), fuel - 1);
    Step(s1, [complete, scanned], None, FED.(completed := []), [walk], [walk, scanned], FED);
    assert s0.seen + {FINISHED} == {FINISHED} && CurrSym(FINISHED) == None;
    Step(s0, [item, scanned], None, s1, [complete], [complete, scanned], FED);
    assert Scanned(WAITING) == FINISHED && {WAITING} - {WAITING} == {};
    Step(s0, [CScan({WAITING}, fuel)], Some(WAITING), s0, [item, scanned], [item, scanned], FED);
  }

  lemma Walks(fuel: nat)
    requires fuel > 0
    ensures Ran(FED.(completed := []), [CWalk(0, Done, {NullItem}, {NullItem}, fuel - 1), CScan({}, fuel)], FED)
  {
    var s := FED.(completed := []);
    var scanned, combine := CScan({}, fuel), CCombine(NullItem, Done, fuel - 1);
    var walk, walked := CWalk(0, Done, {NullItem}, {NullItem}, fuel - 1), CWalk(0, Done, {NullItem}, {}, fuel - 1);
    AtOnce(FED);
    Step(FED, [scanned], None, FED, [], [], FED);
    Step(FED, [walked, scanned], None, FED, [], [scanned], FED);
    assert s.completed + [Done] == FED.completed;
    Step(s, [combine, walked, scanned], None, FED, [], [walked, scanned], FED);
    assert {NullItem} - {NullItem} == {};
    Step(s, [walk, scanned], Some(NullItem), s, [combine, walked], [combine, walked, scanned], FED);
  }

  lemma CategoryMade(s1: State, s2: State, fuel: nat)
    requires s1 == Fresh(BEGUN.store).(seen := {FINISHED}) && s2 == FED.(completed := [])
    ensures NextComplete(FINISHED, fuel, s1) == Runs.Then(s2, [CWalk(0, Done, {NullItem}, {NullItem}, fuel)])
  {
    var empty := CCat(CncCat("S", 1), BufProds([]));
    var none: seq<Production> := [];
    assert none + [RULE] == [RULE];
    assert WithArgs(RULE, [A, A]) == RULE;
    assert (GRAMMAR + [empty])[Done := empty.(prods := BufProds(none + [RULE]))] == CATS;
  }

  // -------------------------------------------------------------------------- the state

  /** The state the parser is in after the token. */
  ghost predicate IsReached(store: Store, state: Parse) {
    && store == FED.store && state == Parse(FED.transitions, FED.completed)
    && Valid(store, LEDGER, GOAL) && ParseOk(LEDGER, GOAL, [TOK], state)
    && (forall fuel: nat :: fuel > 0 ==> Ran(Fresh(Store(GRAMMAR, [])), [CPredict(NullItem, S, 0, fuel)], BEGUN))
    && (forall fuel: nat :: fuel > 0 ==> Ran(Fresh(BEGUN.store), [CScan(BEGUN.store.sets[BEGUN.transitions[TOK]], fuel)], FED))
  }

  lemma Reached()
    ensures IsReached(FED.store, Parse(FED.transitions, FED.completed))
  {
    forall fuel: nat | fuel > 0 ensures Ran(Fresh(Store(GRAMMAR, [])), [CPredict(NullItem, S, 0, fuel)], BEGUN) {
      Begins(fuel);
    }
    forall fuel: nat | fuel > 0
      ensures Ran(Fresh(BEGUN.store), [CScan(BEGUN.store.sets[BEGUN.transitions[TOK]], fuel)], FED)
    {
      Feeds(fuel);
    }
    CategoriesOk();
    SetsOk();
    assert Refines(LEDGER.parent, Done, S);
    assert CompletedOk(LEDGER, GOAL, [TOK], Done);
  }

  lemma RuleSpelled()
    ensures Spells(LEDGER.facts, [A, A], F.lins[0], [TOK]) && Spells(LEDGER.facts, [A, A], F.lins[0][..0], [])
  {
    var w: seq<Token> := [TOK];
    assert w[..0] == [] && w[0..] == w && F.lins[0][..0] == [];
    assert SymSpells(LEDGER.facts, [A, A], F.lins[0][0], w[0..]);
  }

  lemma CategoriesOk()
    ensures forall c :: 0 <= c < |CATS| ==> CatOk(FED.store, LEDGER, c)
    ensures GoalOk(GOAL) && Rooted(FED.store, LEDGER, GOAL)
  {
    RuleSpelled();
    assert ProdWf(GRAMMAR, 1, RULE);
    assert ProdWf(CATS, 1, RULE);
    assert Refines(LEDGER.parent, A, A);
    assert ProdRefines(LEDGER.parent, RULE, RULE);
    assert RULE in ProdsOf(CATS[S]);
    assert ComesFrom(CATS, LEDGER.parent, S, RULE);
    assert ProdOk(FED.store, LEDGER, S, RULE) && ProdOk(FED.store, LEDGER, Done, RULE);
  }

  lemma SetsOk()
    ensures forall s :: 0 <= s < |SETS| ==> SetOk(FED.store, LEDGER, GOAL, s)
  {
    RuleSpelled();
    assert Refines(LEDGER.parent, A, A);
    assert ItemOk(FED.store, LEDGER, WAITING, []);
    assert SetOk(FED.store, LEDGER, GOAL, 0) && SetOk(FED.store, LEDGER, GOAL, 1);
  }

  // --------------------------------------------------------------------- what is read off

  const TREE := PApply(F, [A, A], [Hole(A), Hole(A)])

  /** The only derivation of the state's result can be read from it as far as
      productions go, and nothing in it is cyclic; but two arguments of one category
      are met one after the other, so it is never yielded. */
  lemma SharedCategoryLost()
    ensures IsReached(FED.store, Parse(FED.transitions, FED.completed))
    ensures Closed(CATS) && Readable(CATS, Done, TREE) && Visits(Done, TREE, {}) == None
    ensures forall s :: Found(Some(TREE), s) !in Leaves(UnfoldCat(CATS, Done, {}))
  {
    Reached();
    ValidClosed(FED.store, LEDGER, GOAL);
    assert Readable(CATS, A, TREE.kids[0]) && Readable(CATS, A, TREE.kids[1]);
    NotVisited();
    forall s ensures Found(Some(TREE), s) !in Leaves(UnfoldCat(CATS, Done, {})) {
      EachChoice(CATS, Done, TREE, s);
      assert multiset(Leaves(UnfoldCat(CATS, Done, {})))[Found(Some(TREE), s)] == 0;
    }
  }

  lemma NotVisited()
    ensures Visits(Done, TREE, {}) == None
  {
    var none: set<CatId> := {};
    var one, both := none + {Done}, none + {Done} + {A};
    assert Visits(A, TREE.kids[0], one) == Some(both) && Visits(A, TREE.kids[1], both) == None;
    assert VisitsFrom(TREE, 1, both) == None && VisitsFrom(TREE, 0, one) == None;
  }

  /** So the first request for a result fails. */
  lemma ResultFails()
    ensures IsReached(FED.store, Parse(FED.transitions, FED.completed))
    ensures Closed(CATS) && SmallBuffers(CATS) && !LastHasResult(CATS, FED.completed)
  {
    Reached();
    ValidClosed(FED.store, LEDGER, GOAL);
    var none: set<CatId> := {};
    var one, both := none + {Done}, none + {Done} + {A};
    assert LastRead(CATS, A, both) == None && LastRead(CATS, A, one) == Some(both);
    assert [A, A][1..] == [A];
    assert LastReadAll(CATS, [A], both) == None && LastReadAll(CATS, [A, A], one) == None;
    assert LastRead(CATS, Done, none) == None;
  }
}
