/**
 The incremental parser (`pgf/parser.c`).

 The procedures call each other as in the source and change the chart in
 place.  `fuel` bounds the depth of the calls, since some grammars make the
 source recurse for ever; a call without fuel returns at once.  Every contract
 holds for every amount of fuel, so it covers every run of the source, finished
 or cut short.
 */
module Parser {
  import opened Wrappers
  import opened Grammar
  import opened Linearize
  import opened Chart
  import opened Machine
  import opened Orderliness
  import Closure
  import Runs

  /** A parse state: what each next token leads to, and the categories
      completed so far. */
  datatype Parse = Parse(transitions: map<Token, SetId>, completed: seq<CatId>)

  ghost predicate TransitionOk(g: Ledger, w: seq<Token>, tok: Token, s: SetId) {
    s < |g.info| && g.info[s] == Agenda(tok, w)
  }

  /** A completed category: its trees are trees of a root and linearize to the
      whole word. */
  ghost predicate CompletedOk(g: Ledger, goal: Goal, w: seq<Token>, c: CatId) {
    && c < |g.facts|
    && Fact(goal.start, w) in g.facts[c]
    && exists root :: root in goal.roots && Refines(g.parent, c, root)
  }

  ghost predicate ParseOk(g: Ledger, goal: Goal, w: seq<Token>, p: Parse) {
    && (forall t :: t in p.transitions ==> TransitionOk(g, w, t, p.transitions[t]))
    && (forall c :: c in p.completed ==> CompletedOk(g, goal, w, c))
  }

  lemma ParseOkGrows(st: Store, g: Ledger, st': Store, g': Ledger, goal: Goal, w: seq<Token>, p: Parse)
    requires Grows(st, g, st', g') && ParseOk(g, goal, w, p)
    ensures ParseOk(g', goal, w, p)
  {
    forall c | c in p.completed ensures CompletedOk(g', goal, w, c) {
      assert CompletedOk(g, goal, w, c);
      var root :| root in goal.roots && Refines(g.parent, c, root);
      RefinesExtends(g.parent, g'.parent, c, root);
    }
  }

  /** The item sets of the constituents of one category. */
  ghost predicate ContssOk(st: Store, g: Ledger, base: Store, w: seq<Token>, c: CatId, contss: seq<Option<SetId>>) {
    && c < |st.cats| && |contss| == st.cats[c].cnccat.nCtnts
    && forall r :: 0 <= r < |contss| && contss[r].Some? ==>
         |base.sets| <= contss[r].value < |g.info| && g.info[contss[r].value] == Conts(c, r, w)
  }

  /** The category created for a continuation set at the current position. */
  ghost predicate GeneratedOk(st: Store, g: Ledger, base: Store, w: seq<Token>, s: SetId, c: CatId) {
    && s < |g.info| && g.info[s].Conts? && g.info[s].prefix <= w
    && |base.cats| <= c < |st.cats| && c < |g.facts| && c < |g.parent|
    && g.info[s].cat < |g.facts|
    && g.parent[c] == Some(g.info[s].cat)
    && g.facts[c] == g.facts[g.info[s].cat] + {Fact(g.info[s].r, w[|g.info[s].prefix|..])}
  }

  ghost predicate TablesOk(st: Store, g: Ledger, base: Store, w: seq<Token>,
                           contsMap: map<CatId, seq<Option<SetId>>>, generated: map<SetId, CatId>) {
    && (forall c :: c in contsMap ==> ContssOk(st, g, base, w, c, contsMap[c]))
    && (forall s :: s in generated ==> GeneratedOk(st, g, base, w, s, generated[s]))
  }

  lemma TablesGrow(st: Store, g: Ledger, st': Store, g': Ledger, base: Store, w: seq<Token>,
                   contsMap: map<CatId, seq<Option<SetId>>>, generated: map<SetId, CatId>)
    requires Grows(st, g, st', g') && TablesOk(st, g, base, w, contsMap, generated)
    ensures TablesOk(st', g', base, w, contsMap, generated)
  {}

  /** Continuation sets, once made, stay where they are. */
  ghost predicate ContsKept(m: map<CatId, seq<Option<SetId>>>, m': map<CatId, seq<Option<SetId>>>) {
    forall c, r :: c in m && 0 <= r < |m[c]| && m[c][r].Some? ==>
      c in m' && r < |m'[c]| && m'[c][r] == m[c][r]
  }

  datatype Snapshot = Snapshot(
    store: Store, g: Ledger, goal: Goal, word: seq<Token>, base: Store,
    transitions: map<Token, SetId>, completed: seq<CatId>, seenItems: set<Item>,
    contsMap: map<CatId, seq<Option<SetId>>>, generatedCats: map<SetId, CatId>)

  /** Within a parsing step everything only grows. */
  ghost predicate StepsTo(a: Snapshot, b: Snapshot) {
    && b.goal == a.goal && b.word == a.word && b.base == a.base
    && Grows(a.store, a.g, b.store, b.g)
    && a.contsMap.Keys <= b.contsMap.Keys && ContsKept(a.contsMap, b.contsMap)
    && a.seenItems <= b.seenItems && a.completed <= b.completed
    && (forall t :: t in a.transitions ==> t in b.transitions && b.transitions[t] == a.transitions[t])
    && (forall s :: s in a.generatedCats ==> s in b.generatedCats && b.generatedCats[s] == a.generatedCats[s])
  }

  lemma StepsTransitive(a: Snapshot, b: Snapshot, c: Snapshot)
    requires StepsTo(a, b) && StepsTo(b, c)
    ensures StepsTo(a, c)
  {}

  /** A production has been started on every constituent that something waits
      for. */
  ghost predicate StartedAll(contss: seq<Option<SetId>>, n: nat, cat: CatId, p: Production, seen: set<Item>) {
    forall r :: 0 <= r < n && r < |contss| && contss[r].Some? ==>
      Item(contss[r].value, cat, p, r, ProdArgs(p), 0, 0) in seen
  }

  lemma StartedStep(contss: seq<Option<SetId>>, n: nat, cat: CatId, p: Production, seen: set<Item>, seen': set<Item>)
    requires n < |contss| && StartedAll(contss, n, cat, p, seen) && seen <= seen'
    requires contss[n].Some? ==> Item(contss[n].value, cat, p, n, ProdArgs(p), 0, 0) in seen'
    ensures StartedAll(contss, n + 1, cat, p, seen')
  {}

  /** Productions have been started on a constituent. */
  ghost predicate Predicted(prods: seq<Production>, conts: SetId, cat: CatId, linIdx: nat, seen: set<Item>) {
    forall p :: p in prods ==> Item(conts, cat, p, linIdx, ProdArgs(p), 0, 0) in seen
  }

  lemma PredictedStep(prods: seq<Production>, i: nat, conts: SetId, cat: CatId, linIdx: nat,
                      seen: set<Item>, seen': set<Item>)
    requires i < |prods| && Predicted(prods[..i], conts, cat, linIdx, seen) && seen <= seen'
    requires Item(conts, cat, prods[i], linIdx, ProdArgs(prods[i]), 0, 0) in seen'
    ensures Predicted(prods[..i + 1], conts, cat, linIdx, seen')
  {}

  class Parsing {
    var store: Store
    var transitions: map<Token, SetId>
    var completed: seq<CatId>
    var seenItems: set<Item>
    var contsMap: map<CatId, seq<Option<SetId>>>
    var generatedCats: map<SetId, CatId>

    ghost var g: Ledger
    ghost var goal: Goal
    ghost var word: seq<Token>
    /** Items passed over for want of fuel, and sets that have grown while walked. */
    ghost var starved: set<Item>
    ghost var unsettled: set<SetId>
    /** The store when this parsing step began. */
    ghost var base: Store

    /** What has been built before the current step stays exactly as it was. */
    ghost predicate Frozen()
      reads this
    {
      base.cats <= store.cats && base.sets <= store.sets
    }

    ghost predicate Inv()
      reads this
    {
      && Valid(store, g, goal)
      && Frozen()
      && ParseOk(g, goal, word, Parse(transitions, completed))
      && (forall t :: t in transitions ==> |base.sets| <= transitions[t])
      && TablesOk(store, g, base, word, contsMap, generatedCats)
    }

    ghost function Now(): Snapshot
      reads this
    {
      Snapshot(store, g, goal, word, base, transitions, completed, seenItems, contsMap, generatedCats)
    }

    twostate predicate Steps()
      reads this
    {
      StepsTo(old(Now()), Now())
    }

    /** The state as the machine sees it. */
    ghost function Core(): State
      reads this
    {
      State(store, transitions, completed, seenItems, contsMap, generatedCats, starved, unsettled)
    }

    /** A call has been worked off. */
    twostate predicate Did(calls: seq<Call>)
      reads this
    {
      Ran(old(Core()), calls, Core())
    }

    method AddTransition(tok: Token, x: Item)
      requires Inv() && AwaitsToken(store, g, x, tok, word)
      modifies this
      ensures Inv() && Steps() && NextToken(tok, x, old(Core())).Then? && NextToken(tok, x, old(Core())).s == Core()
      ensures NextToken(tok, x, old(Core())).calls == []
      ensures tok in transitions && transitions[tok] < |store.sets| && x in store.sets[transitions[tok]]
    {
      var s := GetAgenda(tok);
      ItemOkGrows(old(store), old(g), store, g, x, word);
      label mid:
      InsertItem(s, x);
      StepsTransitive(old(Now()), old@mid(Now()), Now());
    }

    /** The items that wait for a token, none at first. */
    method GetAgenda(tok: Token) returns (s: SetId)
      requires Inv()
      modifies this
      ensures Inv() && Steps()
      ensures tok in transitions && transitions[tok] == s && |base.sets| <= s < |store.sets|
      ensures g.info[s] == Agenda(tok, word) && Core() == WithAgenda(old(Core()), tok)
    {
      if tok !in transitions {
        NewSet(Agenda(tok, word));
        transitions := transitions[tok := |store.sets| - 1];
      }
      s := transitions[tok];
      assert TransitionOk(g, word, tok, s);
    }

    method NewSet(ghost info: SetInfo)
      requires Inv() && InfoOk(store, info)
      modifies this`store, this`g
      ensures Inv() && Steps()
      ensures store == old(store).(sets := old(store).sets + [{}])
      ensures g == old(g).(info := old(g).info + [info])
    {
      NewSetValid(store, g, goal, info);
      ParseOkGrows(store, g, store.(sets := store.sets + [{}]), g.(info := g.info + [info]), goal, word,
                   Parse(transitions, completed));
      store := store.(sets := store.sets + [{}]);
      g := g.(info := g.info + [info]);
    }

    method InsertItem(s: SetId, x: Item)
      requires Inv() && |base.sets| <= s < |store.sets| && MemberOk(store, g, goal, g.info[s], x)
      modifies this`store
      ensures Inv() && Steps()
      ensures store == old(store).(sets := old(store).sets[s := old(store).sets[s] + {x}])
    {
      InsertValid(store, g, goal, s, x);
      store := store.(sets := store.sets[s := store.sets[s] + {x}]);
    }

    method GetContss(cat: CatId) returns (contss: seq<Option<SetId>>)
      requires Inv() && cat < |store.cats|
      modifies this`contsMap
      ensures Inv() && cat in contsMap && contss == contsMap[cat]
      ensures contsMap == old(contsMap)[cat := contss] && ContsKept(old(contsMap), contsMap)
      ensures cat in old(contsMap) ==> contss == old(contsMap)[cat]
      ensures Core() == WithContss(old(Core()), cat)
    {
      if cat in contsMap {
        contss := contsMap[cat];
      } else {
        contss := Nones(store.cats[cat].cnccat.nCtnts);
        contsMap := contsMap[cat := contss];
      }
    }

    method GetConts(cat: CatId, r: nat) returns (s: SetId)
      requires Inv() && cat < |store.cats| && !store.cats[cat].prods.NullProds?
      requires r < store.cats[cat].cnccat.nCtnts
      modifies this
      ensures Inv() && Steps() && store.cats == old(store).cats
      ensures |base.sets| <= s < |store.sets| && g.info[s] == Conts(cat, r, word)
      ensures var s1 := WithContss(old(Core()), cat);
              r < |s1.contsMap[cat]| && Core() == WithConts(s1, cat, r) && Core().contsMap[cat][r] == Some(s)
    {
      var contss := GetContss(cat);
      assert ContssOk(store, g, base, word, cat, contss);
      if contss[r].Some? {
        s := contss[r].value;
      } else {
        s := NewConts(cat, r, contss);
      }
    }

    method NewConts(cat: CatId, r: nat, contss: seq<Option<SetId>>) returns (s: SetId)
      requires Inv() && cat in contsMap && contsMap[cat] == contss && r < |contss| && contss[r] == None
      requires cat < |store.cats| && !store.cats[cat].prods.NullProds?
      modifies this
      ensures Inv() && Steps() && store.cats == old(store).cats
      ensures |base.sets| <= s < |store.sets| && g.info[s] == Conts(cat, r, word)
      ensures contsMap == old(contsMap)[cat := contss[r := Some(s)]]
      ensures Core() == WithConts(old(Core()), cat, r)
    {
      assert ContssOk(store, g, base, word, cat, contss);
      s := |store.sets|;
      NewSet(Conts(cat, r, word));
      assert ContssOk(store, g, base, word, cat, contss[r := Some(s)]);
      contsMap := contsMap[cat := contss[r := Some(s)]];
    }

    method CreateCompleted(s: SetId, ghost b: CatId, cnccat: CncCat) returns (c: CatId)
      requires Inv() && s < |store.sets| && g.info[s].Conts? && g.info[s].cat == b && g.info[s].prefix <= word
      requires s !in generatedCats
      requires b < |store.cats| && !store.cats[b].prods.NullProds? && store.cats[b].cnccat == cnccat
      modifies this
      ensures Inv() && Steps()
      ensures c == |old(store).cats| && s in generatedCats && generatedCats[s] == c
      ensures contsMap == old(contsMap) && g.info == old(g).info
      ensures store == old(store).(cats := old(store).cats + [CCat(cnccat, BufProds([]))])
      ensures Core() == WithCategory(old(Core()), s, b)
    {
      ghost var f := Fact(g.info[s].r, word[|g.info[s].prefix|..]);
      c := |store.cats|;
      NewCatValid(store, g, goal, b, f);
      ghost var g' := g.(facts := g.facts + [g.facts[b] + {f}], parent := g.parent + [Some(b)]);
      var store' := store.(cats := store.cats + [CCat(cnccat, BufProds([]))]);
      ParseOkGrows(store, g, store', g', goal, word, Parse(transitions, completed));
      TablesGrow(store, g, store', g', base, word, contsMap, generatedCats);
      assert SetOk(store, g, goal, s);
      store := store';
      g := g';
      generatedCats := generatedCats[s := c];
    }

    method PushProduction(c: CatId, p: Production)
      requires Inv() && |base.cats| <= c < |store.cats| && store.cats[c].prods.BufProds? && ProdOk(store, g, c, p)
      modifies this`store
      ensures Inv() && Steps()
      ensures store == old(store).(cats := old(store).cats[c := store.cats[c]])
      ensures c < |store.cats| && store.cats[c].prods == BufProds(old(store).cats[c].prods.ps + [p])
      ensures Core() == WithProduction(old(Core()), c, p)
    {
      PushValid(store, g, goal, c, p);
      store := store.(cats := store.cats[c := store.cats[c].(prods := BufProds(store.cats[c].prods.ps + [p]))]);
    }

    // ------------------------------------------------- the mutually recursive core

    /** `c` was completed at the current position from the set `s`, and `x` is
        waiting for exactly that. */
    ghost predicate CombineAt(x: Item, c: CatId, s: SetId)
      reads this
    {
      && s in generatedCats && generatedCats[s] == c && s < |g.info| && g.info[s].Conts?
      && Awaits(store, g, goal, x, g.info[s].cat, g.info[s].r, g.info[s].prefix)
    }

    method Combine(x: Item, c: CatId, ghost s: SetId, fuel: nat)
      requires Inv() && CombineAt(x, c, s)
      modifies this
      ensures Inv() && Steps()
      ensures x.NullItem? ==> completed == old(completed) + [c]
      ensures x.Item? && fuel > 0 ==> Combined(x, c) in seenItems
      ensures Did([CCombine(x, c, fuel)])
      decreases fuel, 2
    {
      assert GeneratedOk(store, g, base, word, s, c);
      if x.NullItem? {
        assert word[|g.info[s].prefix|..] == word;
        assert CatOk(store, g, c);
        assert Refines(g.parent, g.parent[c].value, g.info[s].cat);
        assert Refines(g.parent, c, g.info[s].cat);
        assert CompletedOk(g, goal, word, c);
        completed := completed + [c];
        CombineNull(old(Core()), x, c, fuel);
        return;
      }
      CombinedOk(store, g, goal, x, g.info[s].cat, g.info[s].r, g.info[s].prefix, c, word);
      ProcessItem(Combined(x, c), fuel);
      CombineDone(old(Core()), x, c, fuel, Core());
    }

    method ProcessProduction(cat: CatId, linIdx: nat, prod: Production, conts: SetId, fuel: nat)
      requires Inv() && conts < |store.sets| && g.info[conts] == Conts(cat, linIdx, word)
      requires cat < |store.cats| && prod in ProdsOf(store.cats[cat])
      modifies this
      ensures Inv() && Steps()
      ensures fuel > 0 ==> Item(conts, cat, prod, linIdx, ProdArgs(prod), 0, 0) in seenItems
      ensures Did([CItem(Started(conts, cat, linIdx, prod), fuel)])
      decreases fuel, 2
    {
      PredictedOk(store, g, goal, conts, prod, word);
      ProcessItem(Item(conts, cat, prod, linIdx, ProdArgs(prod), 0, 0), fuel);
    }

    method ProcessItem(x: Item, fuel: nat)
      requires Inv() && ItemOk(store, g, x, word)
      modifies this
      ensures Inv() && Steps()
      ensures fuel > 0 ==> x in seenItems
      ensures fuel > 0 && x !in old(seenItems) ==> Closure.Handled(Core(), x)
      ensures fuel > 1 && x !in old(seenItems) && !Closure.Handled(old(Core()), x) ==>
                Closure.PredictedBy(Core(), x, old(store).cats)
      ensures Did([CItem(x, fuel)])
      decreases fuel, 1
    {
      if fuel == 0 || x in seenItems {
        if x !in seenItems {
          starved := starved + {x};
        }
        ItemSkipped(old(Core()), x, fuel, Core());
      } else {
        ProcessNew(x, fuel);
        ItemDone(old(Core()), x, fuel, Core());
      }
    }

    method ProcessNew(x: Item, fuel: nat)
      requires Inv() && ItemOk(store, g, x, word) && fuel > 0 && x !in seenItems
      modifies this
      ensures Inv() && Steps() && x in seenItems
      ensures Closure.Handled(Core(), x)
      ensures fuel > 1 && !Closure.Handled(old(Core()), x) ==> Closure.PredictedBy(Core(), x, old(store).cats)
      ensures Finishes(NextSymbol(x, CurrSym(x), fuel - 1, WithSeen(old(Core()), x)), Core())
      decreases fuel, 0
    {
      MarkSeen(x);
      label mid:
      GoOn(x, fuel - 1);
      StepsTransitive(old(Now()), old@mid(Now()), Now());
    }

    method MarkSeen(x: Item)
      requires Inv() && ItemOk(store, g, x, word)
      modifies this`seenItems
      ensures Inv() && Steps() && ItemOk(store, g, x, word) && x in seenItems
      ensures Core() == WithSeen(old(Core()), x)
      ensures Closure.Handled(Core(), x) <==> Closure.Handled(old(Core()), x)
    {
      seenItems := seenItems + {x};
      Closure.HandledUnseen(old(Core()), seenItems, x);
    }

    /** A finished item is completed, any other goes on with its symbol. */
    method GoOn(x: Item, fuel: nat)
      requires Inv() && ItemOk(store, g, x, word)
      modifies this
      ensures Inv() && Steps()
      ensures Closure.Handled(Core(), x)
      ensures fuel > 0 && !Closure.Handled(old(Core()), x) ==> Closure.PredictedBy(Core(), x, old(store).cats)
      ensures Finishes(NextSymbol(x, CurrSym(x), fuel, old(Core())), Core())
      decreases fuel, 9
    {
      match CurrSym(x)
      case None => Complete(x, fuel);
      case Some(sym) => ProcessSymbol(x, sym, fuel);
    }

    method ProcessSymbol(x: Item, sym: Symbol, fuel: nat)
      requires Inv() && ItemOk(store, g, x, word) && CurrSym(x) == Some(sym)
      modifies this
      ensures Inv() && Steps()
      ensures sym.SymKS? ==> x.tokIdx < |sym.tokens| && sym.tokens[x.tokIdx] in transitions
                             && transitions[sym.tokens[x.tokIdx]] < |store.sets|
                             && x in store.sets[transitions[sym.tokens[x.tokIdx]]]
      ensures Closure.Handled(Core(), x)
      ensures fuel > 0 && !Closure.Handled(old(Core()), x) ==> Closure.PredictedBy(Core(), x, old(store).cats)
      ensures Finishes(NextSymbol(x, Some(sym), fuel, old(Core())), Core())
      decreases fuel, 8
    {
      SymbolInRange(store, g, goal, x, word);
      match sym
      case SymCat(d, r) => Predict(x, x.args[d], r, fuel);
      case SymKS(tokens) =>
        AddTransition(tokens[x.tokIdx], x);
        AtOnce(Core());
    }

    /** Starts every production of a category on one of its constituents. */
    method PredictAll(cat: CatId, linIdx: nat, conts: SetId, fuel: nat)
      requires Inv() && cat < |store.cats| && !store.cats[cat].prods.NullProds?
      requires conts < |store.sets| && g.info[conts] == Conts(cat, linIdx, word)
      modifies this
      ensures Inv() && Steps()
      ensures fuel > 0 ==> Predicted(ProdsOf(old(store).cats[cat]), conts, cat, linIdx, seenItems)
      ensures Did(StartCalls(ProdsOf(old(store).cats[cat]), conts, cat, linIdx, fuel))
      decreases fuel, 3
    {
      var prods := store.cats[cat].prods.ps;
      AtOnce(Core());
      assert StartCalls(prods[..0], conts, cat, linIdx, fuel) == [];
      for i := 0 to |prods|
        invariant Inv() && Steps() && Did(StartCalls(prods[..i], conts, cat, linIdx, fuel))
        invariant fuel > 0 ==> Predicted(prods[..i], conts, cat, linIdx, seenItems)
      {
        label here:
        assert prods <= ProdsOf(store.cats[cat]);
        ProcessProduction(cat, linIdx, prods[i], conts, fuel);
        StepsTransitive(old(Now()), old@here(Now()), Now());
        if fuel > 0 {
          PredictedStep(prods, i, conts, cat, linIdx, old@here(seenItems), seenItems);
        }
        StartCallsSnoc(prods, i, conts, cat, linIdx, fuel);
        Both(old(Core()), StartCalls(prods[..i], conts, cat, linIdx, fuel), old@here(Core()),
             [CItem(Started(conts, cat, linIdx, prods[i]), fuel)], Core());
      }
      assert prods[..|prods|] == prods;
    }

    method Predict(x: Item, cat: CatId, linIdx: nat, fuel: nat)
      requires Inv() && Awaits(store, g, goal, x, cat, linIdx, word)
      requires cat < |store.cats| && (store.cats[cat].prods.NullProds? || linIdx < store.cats[cat].cnccat.nCtnts)
      modifies this
      ensures Inv() && Steps()
      ensures cat < |store.cats| && (!store.cats[cat].prods.NullProds? ==> Waiting(x, cat, linIdx))
      ensures Closure.Expects(Core(), x, cat, linIdx)
      ensures fuel > 0 && !old(Closure.Expects(Core(), x, cat, linIdx)) && !old(store).cats[cat].prods.NullProds? ==>
                PredictedAll(ProdsOf(old(store).cats[cat]), cat, linIdx)
      ensures Did([CPredict(x, cat, linIdx, fuel)])
      decreases fuel, 7
    {
      if store.cats[cat].prods.NullProds? {
        PredictNull(Core(), x, cat, linIdx, fuel);
        return;
      }
      ghost var conts := PredictAt(x, cat, linIdx, fuel);
      assert Closure.IsConts(Core(), cat, linIdx, conts) && x in store.sets[conts];
    }

    method PredictAt(x: Item, cat: CatId, linIdx: nat, fuel: nat) returns (ghost conts: SetId)
      requires Inv() && Awaits(store, g, goal, x, cat, linIdx, word)
      requires cat < |store.cats| && !store.cats[cat].prods.NullProds? && linIdx < store.cats[cat].cnccat.nCtnts
      modifies this
      ensures Inv() && Steps() && Waiting(x, cat, linIdx)
      ensures Closure.IsConts(Core(), cat, linIdx, conts) && x in store.sets[conts]
      ensures fuel > 0 && !old(Closure.Expects(Core(), x, cat, linIdx)) ==>
                Predicted(ProdsOf(old(store).cats[cat]), conts, cat, linIdx, seenItems)
      ensures Did([CPredict(x, cat, linIdx, fuel)])
      decreases fuel, 6
    {
      var j := GetConts(cat, linIdx);
      conts := j;
      MemberOkGrows(old(store), old(g), store, g, goal, Conts(cat, linIdx, word), x);
      label mid:
      if x in store.sets[j] {
        Closure.ExpectedBefore(old(Core()), x, cat, linIdx);
      }
      PredictInto(x, cat, linIdx, j, fuel);
      StepsTransitive(old(Now()), old@mid(Now()), Now());
      PredictDone(old(Core()), x, cat, linIdx, fuel, j, old@mid(Core()), Core());
    }

    /** Productions have been started for those who wait for a constituent. */
    ghost predicate PredictedAll(prods: seq<Production>, cat: CatId, linIdx: nat)
      reads this
    {
      exists conts: SetId :: Closure.IsConts(Core(), cat, linIdx, conts) && Predicted(prods, conts, cat, linIdx, seenItems)
    }

    /** `x` is among the continuations of `(cat, linIdx)` at this position. */
    ghost predicate Waiting(x: Item, cat: CatId, linIdx: nat)
      reads this
    {
      exists s :: 0 <= s < |store.sets| && s < |g.info| && g.info[s] == Conts(cat, linIdx, word) && x in store.sets[s]
    }

    method PredictInto(x: Item, cat: CatId, linIdx: nat, conts: SetId, fuel: nat)
      requires Inv() && Awaits(store, g, goal, x, cat, linIdx, word)
      requires cat < |store.cats| && !store.cats[cat].prods.NullProds?
      requires |base.sets| <= conts < |store.sets| && g.info[conts] == Conts(cat, linIdx, word)
      modifies this
      ensures Inv() && Steps()
      ensures Waiting(x, cat, linIdx) && conts < |store.sets| && x in store.sets[conts]
      ensures fuel > 0 && x !in old(store).sets[conts] ==>
                Predicted(ProdsOf(old(store).cats[cat]), conts, cat, linIdx, seenItems)
      ensures fuel > 0 && conts in old(generatedCats) ==>
                AllServed({x}, old(generatedCats)[conts], seenItems, completed)
      ensures Finishes(NextEnter(x, cat, linIdx, conts, fuel, old(Core())), Core())
      decreases fuel, 5
    {
      if x !in store.sets[conts] {
        Enter(x, cat, linIdx, conts, fuel);
      }
      label mid:
      Serve(x, conts, fuel);
      StepsTransitive(old(Now()), old@mid(Now()), Now());
      EnterDone(old(Core()), x, cat, linIdx, conts, fuel, old@mid(Core()), Core());
    }

    /** What is completed here already is combined at once. */
    method Serve(x: Item, conts: SetId, fuel: nat)
      requires Inv() && conts < |store.sets| && x in store.sets[conts]
      modifies this
      ensures Inv() && Steps() && conts < |store.sets| && x in store.sets[conts]
      ensures fuel > 0 && conts in old(generatedCats) ==>
                AllServed({x}, old(generatedCats)[conts], seenItems, completed)
      ensures Did([CServe(x, conts, fuel)])
      decreases fuel, 4
    {
      if conts in generatedCats {
        CombineOne(conts, generatedCats[conts], x, fuel);
        SetsGrow(old(store), old(g), store, g, conts);
      }
      ServeDone(old(Core()), x, conts, fuel, Core());
    }

    /** A new continuation: record it and predict the category. */
    method Enter(x: Item, cat: CatId, linIdx: nat, conts: SetId, fuel: nat)
      requires Inv() && Awaits(store, g, goal, x, cat, linIdx, word)
      requires cat < |store.cats| && !store.cats[cat].prods.NullProds?
      requires |base.sets| <= conts < |store.sets| && g.info[conts] == Conts(cat, linIdx, word)
      modifies this
      ensures Inv() && Steps() && conts < |store.sets| && x in store.sets[conts]
      ensures fuel > 0 ==> Predicted(ProdsOf(old(store).cats[cat]), conts, cat, linIdx, seenItems)
      ensures Ran(Inserted(old(Core()), conts, x), StartCalls(ProdsOf(old(store).cats[cat]), conts, cat, linIdx, fuel), Core())
      decreases fuel, 4
    {
      InsertItem(conts, x);
      label mid:
      PredictAll(cat, linIdx, conts, fuel);
      StepsTransitive(old(Now()), old@mid(Now()), Now());
    }

    /** A new production of an already predicted category goes to every
        constituent that has continuations at this position. */
    method Repredict(cat: CatId, prod: Production, fuel: nat)
      requires Inv() && cat < |store.cats| && prod in ProdsOf(store.cats[cat])
      modifies this
      ensures Inv() && Steps()
      ensures fuel > 0 && cat in old(contsMap) ==>
                StartedAll(old(contsMap)[cat], |old(contsMap)[cat]|, cat, prod, seenItems)
      ensures var s1 := WithContss(old(Core()), cat);
              Ran(s1, RestartCalls(|s1.contsMap[cat]|, cat, prod, fuel), Core())
      decreases fuel, 5
    {
      var contss := GetContss(cat);
      label mid:
      RepredictEach(cat, prod, contss, fuel);
      StepsTransitive(old(Now()), old@mid(Now()), Now());
    }

    method RepredictEach(cat: CatId, prod: Production, contss: seq<Option<SetId>>, fuel: nat)
      requires Inv() && cat < |store.cats| && prod in ProdsOf(store.cats[cat])
      requires cat in contsMap && contsMap[cat] == contss
      modifies this
      ensures Inv() && Steps()
      ensures fuel > 0 ==> StartedAll(contss, |contss|, cat, prod, seenItems)
      ensures Did(RestartCalls(|contss|, cat, prod, fuel))
      decreases fuel, 4
    {
      AtOnce(Core());
      assert RestartCalls(0, cat, prod, fuel) == [];
      for i := 0 to |contss|
        invariant Inv() && Steps() && Did(RestartCalls(i, cat, prod, fuel))
        invariant fuel > 0 ==> StartedAll(contss, i, cat, prod, seenItems)
      {
        label here:
        assert contss[i].Some? ==> contsMap[cat][i] == contss[i];
        RepredictAt(cat, i, prod, fuel);
        if fuel > 0 {
          StartedStep(contss, i, cat, prod, old@here(seenItems), seenItems);
        }
        StepsTransitive(old(Now()), old@here(Now()), Now());
        RestartCallsSnoc(i, cat, prod, fuel);
        Both(old(Core()), RestartCalls(i, cat, prod, fuel), old@here(Core()), [CStart(cat, i, prod, fuel)], Core());
      }
    }

    method RepredictAt(cat: CatId, r: nat, prod: Production, fuel: nat)
      requires Inv() && cat < |store.cats| && prod in ProdsOf(store.cats[cat])
      requires cat in contsMap && r < store.cats[cat].cnccat.nCtnts
      modifies this
      ensures Inv() && Steps()
      ensures fuel > 0 && old(contsMap[cat])[r].Some? ==>
                Item(old(contsMap[cat])[r].value, cat, prod, r, ProdArgs(prod), 0, 0) in seenItems
      ensures Did([CStart(cat, r, prod, fuel)])
      decreases fuel, 3
    {
      assert ContssOk(store, g, base, word, cat, contsMap[cat]);
      if contsMap[cat][r].Some? {
        ProcessProduction(cat, r, prod, contsMap[cat][r].value, fuel);
      }
      StartDone(old(Core()), cat, r, prod, fuel, Core());
    }

    /** Hands a new category to the items waiting for it.  The source walks the
        slots of the live hash set, which nested calls may enlarge meanwhile.
        As long as they do not, every member is visited; from then on any
        members may be, in any order, any number of times. */
    method CombineAll(conts: SetId, c: CatId, fuel: nat)
      requires Inv() && conts in generatedCats && generatedCats[conts] == c && conts < |store.sets|
      modifies this
      ensures Inv() && Steps()
      ensures fuel > 0 && store.sets[conts] == old(store).sets[conts] ==>
                AllServed(store.sets[conts], c, seenItems, completed)
      ensures Did([CWalk(conts, c, old(store).sets[conts], old(store).sets[conts], fuel)])
      decreases fuel, 5
    {
      var same := CombineEach(conts, c, fuel);
      if !same {
        label grown:
        CombineAny(conts, c, fuel);
        StepsTransitive(old(Now()), old@grown(Now()), Now());
        SetsGrow(old@grown(store), old@grown(g), store, g, conts);
        LeadsEnd(old(Core()), [CWalk(conts, c, old(store).sets[conts], old(store).sets[conts], fuel)],
                 old@grown(Core()), [CWander(conts, c, fuel)], Core());
      }
    }

    method CombineEach(conts: SetId, c: CatId, fuel: nat) returns (same: bool)
      requires Inv() && conts in generatedCats && generatedCats[conts] == c && conts < |store.sets|
      modifies this
      ensures Inv() && Steps()
      ensures conts < |store.sets| && (same <==> store.sets[conts] == old(store).sets[conts])
      ensures same && fuel > 0 ==> AllServed(store.sets[conts], c, seenItems, completed)
      ensures same ==> Did([CWalk(conts, c, old(store).sets[conts], old(store).sets[conts], fuel)])
      ensures !same ==> Leads(old(Core()), [CWalk(conts, c, old(store).sets[conts], old(store).sets[conts], fuel)],
                              Core(), [CWander(conts, c, fuel)])
      decreases fuel, 4
    {
      var start := store.sets[conts];
      var rest := start;
      ghost var done := {};
      while rest != {} && store.sets[conts] == start
        invariant Inv() && Steps() && rest + done == start
        invariant fuel > 0 ==> AllServed(done, c, seenItems, completed)
        invariant Leads(old(Core()), [CWalk(conts, c, start, start, fuel)], Core(), [CWalk(conts, c, start, rest, fuel)])
        decreases rest
      {
        label here:
        var x :| x in rest;
        CombineOne(conts, c, x, fuel);
        StepsTransitive(old(Now()), old@here(Now()), Now());
        if fuel > 0 {
          AllServedStep(done, x, c, old@here(seenItems), old@here(completed), seenItems, completed);
        }
        WalkStep(old@here(Core()), conts, c, start, rest, fuel, x, Core());
        LeadsOn(old(Core()), [CWalk(conts, c, start, start, fuel)], old@here(Core()), [CWalk(conts, c, start, rest, fuel)],
                Core(), [CWalk(conts, c, start, rest - {x}, fuel)]);
        rest, done := rest - {x}, done + {x};
      }
      same := store.sets[conts] == start;
      assert same ==> done == start;
      WalkEnds(Core(), conts, c, start, rest, fuel);
      if same {
        LeadsEnd(old(Core()), [CWalk(conts, c, start, start, fuel)], Core(), [CWalk(conts, c, start, rest, fuel)], Core());
      } else {
        label grown:
        unsettled := unsettled + {conts};
        LeadsOn(old(Core()), [CWalk(conts, c, start, start, fuel)], old@grown(Core()), [CWalk(conts, c, start, rest, fuel)],
                Core(), [CWander(conts, c, fuel)]);
      }
    }

    method CombineOne(conts: SetId, c: CatId, x: Item, fuel: nat)
      requires Inv() && conts in generatedCats && generatedCats[conts] == c
      requires conts < |store.sets| && x in store.sets[conts]
      modifies this
      ensures Inv() && Steps()
      ensures fuel > 0 ==> AllServed({x}, c, seenItems, completed)
      ensures Did([CCombine(x, c, fuel)])
      decreases fuel, 3
    {
      assert GeneratedOk(store, g, base, word, conts, c);
      assert SetOk(store, g, goal, conts);
      Combine(x, c, conts, fuel);
    }

    method CombineAny(conts: SetId, c: CatId, fuel: nat)
      requires Inv() && conts in generatedCats && generatedCats[conts] == c
      modifies this
      ensures Inv() && Steps()
      ensures Did([CWander(conts, c, fuel)])
      decreases fuel, 4
    {
      var visits: nat :| true;
      for i := 0 to visits
        invariant Inv() && Steps()
        invariant Leads(old(Core()), [CWander(conts, c, fuel)], Core(), [CWander(conts, c, fuel)])
      {
        label here:
        assert GeneratedOk(store, g, base, word, conts, c);
        if store.sets[conts] != {} {
          var x :| x in store.sets[conts];
          CombineOne(conts, c, x, fuel);
          StepsTransitive(old(Now()), old@here(Now()), Now());
          WanderStep(old@here(Core()), conts, c, fuel, x, Core());
          LeadsOn(old(Core()), [CWander(conts, c, fuel)], old@here(Core()), [CWander(conts, c, fuel)],
                  Core(), [CWander(conts, c, fuel)]);
        }
      }
      WanderEnds(Core(), conts, c, fuel);
      LeadsEnd(old(Core()), [CWander(conts, c, fuel)], Core(), [CWander(conts, c, fuel)], Core());
    }

    /** The item's category has been completed before at this position, or not. */
    method Complete(x: Item, fuel: nat)
      requires Inv() && ItemOk(store, g, x, word) && CurrSym(x) == None
      modifies this
      ensures Inv() && Steps()
      ensures x.conts in generatedCats && generatedCats[x.conts] < |store.cats|
      ensures WithArgs(x.prod, x.args) in ProdsOf(store.cats[generatedCats[x.conts]])
      // a constituent over a non-empty span goes to everything that waits for it
      ensures fuel > 0 && x.conts !in old(generatedCats) && x.conts < |base.sets| ==>
                AllServed(base.sets[x.conts], generatedCats[x.conts], seenItems, completed)
      ensures Did([CComplete(x, fuel)])
      decreases fuel, 7
    {
      if x.conts in generatedCats {
        CompleteAgain(x, generatedCats[x.conts], fuel);
      } else {
        CompleteFirst(x, fuel);
      }
    }

    method CompleteAgain(x: Item, c: CatId, fuel: nat)
      requires Inv() && ItemOk(store, g, x, word) && CurrSym(x) == None
      requires x.conts in generatedCats && generatedCats[x.conts] == c
      modifies this
      ensures Inv() && Steps()
      ensures c < |store.cats| && WithArgs(x.prod, x.args) in ProdsOf(store.cats[c])
      ensures fuel > 0 && c in old(contsMap) ==>
                StartedAll(old(contsMap)[c], |old(contsMap)[c]|, c, WithArgs(x.prod, x.args), seenItems)
      ensures Did([CComplete(x, fuel)])
      decreases fuel, 6
    {
      AddProduction(x, c);
      label mid:
      Repredict(c, WithArgs(x.prod, x.args), fuel);
      ProdsGrow(old@mid(store), old@mid(g), store, g, c, WithArgs(x.prod, x.args));
      StepsTransitive(old(Now()), old@mid(Now()), Now());
      AgainDone(old(Core()), x, fuel, Core());
    }

    method CompleteFirst(x: Item, fuel: nat)
      requires Inv() && ItemOk(store, g, x, word) && CurrSym(x) == None
      requires x.conts !in generatedCats
      modifies this
      ensures Inv() && Steps()
      ensures x.conts in generatedCats && generatedCats[x.conts] < |store.cats|
      ensures WithArgs(x.prod, x.args) in ProdsOf(store.cats[generatedCats[x.conts]])
      ensures fuel > 0 && x.conts < |base.sets| ==>
                AllServed(base.sets[x.conts], generatedCats[x.conts], seenItems, completed)
      ensures Did([CComplete(x, fuel)])
      decreases fuel, 6
    {
      var c := NewCompleted(x);
      label mid:
      CombineAll(x.conts, c, fuel);
      StepsTransitive(old(Now()), old@mid(Now()), Now());
      FirstDone(old(Core()), x, fuel, old@mid(Core()), Core());
    }

    method NewCompleted(x: Item) returns (c: CatId)
      requires Inv() && ItemOk(store, g, x, word) && CurrSym(x) == None
      requires x.conts !in generatedCats
      modifies this
      ensures Inv() && Steps()
      ensures x.conts in generatedCats && generatedCats[x.conts] == c < |store.cats|
      ensures x.conts < |store.sets|
      ensures WithArgs(x.prod, x.args) in ProdsOf(store.cats[c])
      ensures c == |old(store).cats|
      ensures Core() == WithProduction(WithCategory(old(Core()), x.conts, x.cat), c, WithArgs(x.prod, x.args))
    {
      assert SetOk(store, g, goal, x.conts);
      c := CreateCompleted(x.conts, x.cat, store.cats[x.cat].cnccat);
      ItemOkGrows(old(store), old(g), store, g, x, word);
      label mid:
      AddProduction(x, c);
      StepsTransitive(old(Now()), old@mid(Now()), Now());
    }

    // ------------------------------------------------------------- scanning, feeding

    method Scan(x: Item, tok: Token, ghost w: seq<Token>, ghost s: SetId, fuel: nat)
      requires Inv() && word == w + [tok] && TransitionOk(g, w, tok, s)
      requires s < |base.sets| && x in base.sets[s]
      modifies this
      ensures Inv() && Steps()
      ensures BeforeToken(x) && (fuel > 0 ==> Scanned(x) in seenItems)
      ensures Did([CItem(Scanned(x), fuel)])
    {
      assert SetOk(store, g, goal, s);
      ScannedOk(store, g, goal, x, tok, w);
      ProcessItem(Scanned(x), fuel);
    }

    /** A fresh parsing step on top of everything built so far. */
    method NewParsing(ghost w: seq<Token>)
      requires Valid(store, g, goal)
      modifies this
      ensures Inv() && word == w && base == store == old(store)
      ensures g == old(g) && goal == old(goal)
      ensures Core() == Fresh(old(store))
    {
      transitions, completed, seenItems, contsMap, generatedCats := map[], [], {}, map[], map[];
      starved, unsettled := {}, {};
      word, base := w, store;
    }

    constructor (grammar: seq<CCat>, ghost start: nat, ghost roots: set<CatId>)
      requires GoalOk(Goal(grammar, start, roots))
      ensures Valid(store, g, goal) && goal == Goal(grammar, start, roots) && store == Store(grammar, [])
      ensures Orderly(store)
    {
      store := Store(grammar, []);
      transitions, completed, seenItems, contsMap, generatedCats := map[], [], {}, map[], map[];
      starved, unsettled := {}, {};
      goal, word, base := Goal(grammar, start, roots), [], Store(grammar, []);
      g := Ledger(seq(|grammar|, _ => {}), seq(|grammar|, _ => None), []);
      new;
      GrammarValid(goal);
      GrammarOrderly(grammar);
    }

    /** Begins a parse of constituent `linIdx` of the concrete category whose
        members are `cats` (erased members are `None`; no concrete category at
        all gives the empty parse). */
    method Begin(cats: Option<seq<Option<CatId>>>, linIdx: nat, fuel: nat) returns (p: Parse)
      requires Valid(store, g, goal) && linIdx == goal.start
      requires cats.Some? ==> forall c :: Some(c) in cats.value ==> c in goal.roots
      modifies this
      ensures Valid(store, g, goal) && goal == old(goal)
      ensures Grows(old(store), old(g), store, g)
      ensures old(store).cats <= store.cats && old(store).sets <= store.sets
      ensures ParseOk(g, goal, [], p)
      ensures cats == None ==> p == Parse(map[], []) && store == old(store)
      ensures Orderly(old(store)) ==> Orderly(store)
      // all that happened is a run of the machine on the start categories
      ensures p == Parse(transitions, completed)
      ensures cats.Some? ==> Ran(Fresh(old(store)), RootCalls(cats.value, linIdx, fuel), Core())
      // which leaves nothing undone; with fuel every start category is expected
      ensures cats.Some? && Orderly(old(store)) ==> BegunWell(cats.value, linIdx, fuel)
    {
      NewParsing([]);
      if cats.Some? {
        PredictRoots(cats.value, linIdx, fuel);
        if Orderly(old(store)) {
          BeginOrderly(old(store), cats.value, linIdx, fuel, Core());
          BeginIsClosed(old(store), cats.value, linIdx, fuel);
        }
      }
      p := Parse(transitions, completed);
    }

    ghost predicate BegunWell(cats: seq<Option<CatId>>, linIdx: nat, fuel: nat)
      reads this
    {
      && Closure.Closed(Core())
      && (forall c :: Some(c) in cats ==> Closure.Expects(Core(), NullItem, c, linIdx))
      && (fuel > 0 ==> forall c :: Some(c) in cats ==>
            Closure.RootExpected(Core(), c, linIdx) && Closure.FirstExpected(Core(), c, linIdx))
    }

    lemma BeginIsClosed(st: Store, cats: seq<Option<CatId>>, linIdx: nat, fuel: nat)
      requires Orderly(st) && Ran(Fresh(st), RootCalls(cats, linIdx, fuel), Core())
      requires goal.grammar <= st.cats && GoalOk(goal) && forall c :: Some(c) in cats ==> c in goal.roots
      ensures BegunWell(cats, linIdx, fuel)
    {
      Closure.BeginCloses(st, cats, linIdx, fuel, Core());
      if fuel > 0 {
        forall c | Some(c) in cats
          ensures Closure.RootExpected(Core(), c, linIdx) && Closure.FirstExpected(Core(), c, linIdx)
        {
          assert st.cats[c] == goal.grammar[c];
          Closure.RootFirst(Core(), c, linIdx);
        }
      }
    }

    method PredictRoots(cats: seq<Option<CatId>>, linIdx: nat, fuel: nat)
      requires Inv() && word == [] && base == store && linIdx == goal.start && Core() == Fresh(store)
      requires forall c :: Some(c) in cats ==> c in goal.roots
      modifies this
      ensures Inv() && word == [] && goal == old(goal) && base == old(store)
      ensures Grows(old(store), old(g), store, g)
      ensures Did(RootCalls(cats, linIdx, fuel))
    {
      AtOnce(Core());
      assert cats[..0] == [];
      for i := 0 to |cats|
        invariant Inv() && word == [] && goal == old(goal) && base == old(store)
        invariant Grows(old(store), old(g), store, g) && Did(RootCalls(cats[..i], linIdx, fuel))
      {
        label here:
        if cats[i].Some? {
          assert Some(cats[i].value) in cats;
          Predict(NullItem, cats[i].value, linIdx, fuel);
          GrowsTransitive(old(store), old(g), old@here(store), old@here(g), store, g);
        }
        RootCallsStep(old(Core()), cats, i, linIdx, fuel, old@here(Core()), Core());
      }
      assert cats[..|cats|] == cats;
    }

    /** Feeds a token to a parse state reached by the word `w`. */
    method Feed(parse: Parse, tok: Token, ghost w: seq<Token>, fuel: nat) returns (next: Option<Parse>)
      requires Valid(store, g, goal) && ParseOk(g, goal, w, parse)
      modifies this
      ensures Valid(store, g, goal) && goal == old(goal)
      ensures Grows(old(store), old(g), store, g)
      // nothing that existed before has changed
      ensures old(store).cats <= store.cats && old(store).sets <= store.sets
      ensures next == None <==> tok !in parse.transitions
      ensures next == None ==> Core() == old(Core()) && g == old(g)
      ensures next.Some? ==> ParseOk(g, goal, w + [tok], next.value)
      // every item that waited for the token has been moved past it
      ensures next.Some? && fuel > 0 ==> AllScanned(old(store).sets[parse.transitions[tok]], seenItems)
      // and all that happened is a run of the machine on that agenda
      ensures next.Some? ==> next.value == Parse(transitions, completed)
      ensures next.Some? ==> parse.transitions[tok] < |old(store).sets|
      ensures next.Some? ==> Ran(Fresh(old(store)), [CScan(old(store).sets[parse.transitions[tok]], fuel)], Core())
      ensures Orderly(old(store)) ==> Orderly(store)
      // which leaves nothing undone that any item met calls for
      ensures next.Some? && Orderly(old(store)) ==>
                Closure.Closed(Core()) && Closure.AllMet(Core(), old(store).sets[parse.transitions[tok]])
    {
      if tok !in parse.transitions {
        return None;
      }
      NewParsing(w + [tok]);
      var agenda := store.sets[parse.transitions[tok]];
      assert SetOk(store, g, goal, parse.transitions[tok]);
      ScanAll(agenda, tok, w, parse.transitions[tok], fuel);
      if Orderly(old(store)) {
        ScanOrderly(old(store), parse.transitions[tok], fuel, Core());
        Closure.ScanCloses(old(store), parse.transitions[tok], fuel, Core());
      }
      next := Some(Parse(transitions, completed));
    }

    /** Every item of the agenda exactly once, in some order. */
    method ScanAll(agenda: set<Item>, tok: Token, ghost w: seq<Token>, ghost s: SetId, fuel: nat)
      requires Inv() && word == w + [tok] && TransitionOk(g, w, tok, s)
      requires s < |base.sets| && agenda <= base.sets[s]
      modifies this
      ensures Inv() && Steps()
      ensures fuel > 0 ==> AllScanned(agenda, seenItems)
      ensures Did([CScan(agenda, fuel)])
    {
      var rest := agenda;
      ghost var done := {};
      while rest != {}
        invariant rest + done == agenda
        invariant Leads(old(Core()), [CScan(agenda, fuel)], Core(), [CScan(rest, fuel)])
        invariant Inv() && Steps()
        invariant fuel > 0 ==> AllScanned(done, seenItems)
        decreases rest
      {
        label here:
        var x :| x in rest;
        Scan(x, tok, w, s, fuel);
        StepsTransitive(old(Now()), old@here(Now()), Now());
        if fuel > 0 {
          AllScannedStep(done, old@here(seenItems), seenItems, x);
        }
        ScanStep(old@here(Core()), rest, fuel, x, Core());
        LeadsOn(old(Core()), [CScan(agenda, fuel)], old@here(Core()), [CScan(rest, fuel)], Core(), [CScan(rest - {x}, fuel)]);
        rest, done := rest - {x}, done + {x};
      }
      assert done == agenda;
      ScanEnds(Core(), fuel);
      LeadsEnd(old(Core()), [CScan(agenda, fuel)], Core(), [CScan(rest, fuel)], Core());
    }

    method AddProduction(x: Item, c: CatId)
      requires Inv() && ItemOk(store, g, x, word) && CurrSym(x) == None
      requires x.conts in generatedCats && generatedCats[x.conts] == c
      modifies this`store
      ensures Inv() && Steps()
      ensures c < |store.cats| && store.cats[c].prods.BufProds?
      ensures WithArgs(x.prod, x.args) in ProdsOf(store.cats[c])
      ensures c < |old(store).cats| && old(store).cats[c].prods.BufProds?
      ensures Core() == WithProduction(old(Core()), c, WithArgs(x.prod, x.args))
    {
      assert GeneratedOk(store, g, base, word, x.conts, c);
      assert CatOk(store, g, c);
      CompletedProdOk(store, g, goal, x, word, c);
      PushProduction(c, WithArgs(x.prod, x.args));
    }
  }

  /** A grammar as read satisfies the chart's invariants. */
  lemma GrammarValid(goal: Goal)
    requires GoalOk(goal)
    ensures Valid(Store(goal.grammar, []),
                  Ledger(seq(|goal.grammar|, _ => {}), seq(|goal.grammar|, _ => None), []), goal)
  {}

  lemma SymbolInRange(st: Store, g: Ledger, goal: Goal, x: Item, w: seq<Token>)
    requires Valid(st, g, goal) && ItemOk(st, g, x, w) && CurrSym(x).Some?
    ensures SymWf(st.cats, x.args, CurrSym(x).value)
    ensures CurrSym(x).value.SymKS? ==> x.tokIdx < |CurrSym(x).value.tokens|
  {
    assert CatOk(st, g, x.cat) && ProdOk(st, g, x.cat, x.prod);
    assert SymWf(st.cats, ProdArgs(x.prod), ProdSyms(x.prod, x.linIdx)[x.seqIdx]);
    if CurrSym(x).value.SymCat? {
      var d := CurrSym(x).value.d;
      RefinesShape(st, g, goal, x.args[d], ProdArgs(x.prod)[d]);
    }
  }
}
