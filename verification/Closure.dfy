/**
 What a parsing step has done when it ends: whatever an item it has met calls for is
 in the chart.

 While the step runs, everything an item calls for is in the chart or still to be
 done by some call on the stack.
 */
module Closure {
  import opened Wrappers
  import opened Grammar
  import opened Chart
  import opened Machine
  import opened Orderliness
  import Runs

  // ------------------------------------------------------------------- what is called for

  /** An item before a token is in the agenda of that token. */
  ghost predicate InAgenda(s: State, x: Item)
    requires BeforeToken(x)
  {
    var tokens := CurrSym(x).value.tokens;
    && x.tokIdx < |tokens| && tokens[x.tokIdx] in s.transitions
    && s.transitions[tokens[x.tokIdx]] < |s.store.sets|
    && x in s.store.sets[s.transitions[tokens[x.tokIdx]]]
  }

  /** The continuations of a constituent. */
  ghost predicate IsConts(s: State, cat: CatId, r: nat, j: SetId) {
    && cat in s.contsMap && r < |s.contsMap[cat]| && s.contsMap[cat][r] == Some(j)
    && cat < |s.store.cats| && j < |s.store.sets|
  }

  /** `x` is among them, if the category has any productions. */
  ghost predicate Expects(s: State, x: Item, cat: CatId, r: nat) {
    cat < |s.store.cats| &&
    (!s.store.cats[cat].prods.NullProds? ==> exists j: SetId :: IsConts(s, cat, r, j) && x in s.store.sets[j])
  }

  /** A finished item has its production in the category made for its
      continuations. */
  ghost predicate Completed(s: State, x: Item)
    requires x.Item?
  {
    && |x.args| == |ProdArgs(x.prod)| && x.conts in s.generated && s.generated[x.conts] < |s.store.cats|
    && WithArgs(x.prod, x.args) in ProdsOf(s.store.cats[s.generated[x.conts]])
  }

  ghost predicate AtEnd(x: Item) {
    x.Item? && HasCtnt(x.prod, x.linIdx) && CurrSym(x) == None
  }

  /** What an item calls for has been done: before a token it is in the agenda of the
      token, before a category it waits for its completion, and at its end its
      production is in the category completed. */
  ghost predicate Handled(s: State, x: Item)
    requires x.Item?
  {
    && (BeforeToken(x) ==> InAgenda(s, x))
    && (BeforeCat(x) ==> Expects(s, x, x.args[CurrSym(x).value.d], CurrSym(x).value.r))
    && (AtEnd(x) ==> Completed(s, x))
  }

  /** Before one of the categories `cats`: the productions it had have been started. */
  ghost predicate PredictedBy(s: State, x: Item, cats: seq<CCat>) {
    BeforeCat(x) ==>
      var cat, r := x.args[CurrSym(x).value.d], CurrSym(x).value.r;
      cat < |cats| && (!cats[cat].prods.NullProds? ==>
        exists j: SetId :: IsConts(s, cat, r, j) && forall p :: p in ProdsOf(cats[cat]) ==> Started(j, cat, r, p) in s.seen)
  }

  /** Having seen something is nothing that is called for. */
  lemma HandledUnseen(s: State, seen: set<Item>, x: Item)
    requires x.Item?
    ensures Handled(s.(seen := seen), x) <==> Handled(s, x)
  {
    forall cat: CatId, r: nat, j: SetId ensures IsConts(s.(seen := seen), cat, r, j) <==> IsConts(s, cat, r, j) {}
  }

  /** It has been met, even if only to be passed over. */
  ghost predicate Met(s: State, x: Item) {
    x in s.seen || x in s.starved
  }

  /** An item has been given the category that it waited for. */
  ghost predicate Given(s: State, x: Item, c: CatId) {
    if x.NullItem? then c in s.completed else BeforeCat(x) && Met(s, Combined(x, c))
  }

  // ---------------------------------------------------------------------- what is still due

  ghost predicate DueItem(due: set<Call>, x: Item) {
    exists fuel: nat :: CItem(x, fuel) in due
  }

  ghost predicate DuePredict(due: set<Call>, x: Item, cat: CatId, r: nat) {
    exists fuel: nat :: CPredict(x, cat, r, fuel) in due
  }

  ghost predicate DueComplete(due: set<Call>, x: Item) {
    exists fuel: nat :: CComplete(x, fuel) in due
  }

  ghost predicate DueStart(due: set<Call>, cat: CatId, r: nat, p: Production) {
    exists fuel: nat :: CStart(cat, r, p, fuel) in due
  }

  ghost predicate DueGive(due: set<Call>, x: Item, j: SetId, c: CatId) {
    || (exists fuel: nat :: CCombine(x, c, fuel) in due)
    || (exists fuel: nat :: CServe(x, j, fuel) in due)
    || (x.Item? && BeforeCat(x) && DueItem(due, Combined(x, c)))
    || (exists start, rest, fuel: nat :: CWalk(j, c, start, rest, fuel) in due && x in rest)
  }

  // ---------------------------------------------------------------------------- invariants

  ghost predicate TokensClosed(s: State) {
    forall x :: x in s.seen && BeforeToken(x) ==> InAgenda(s, x)
  }

  ghost predicate CatsClosed(s: State, due: set<Call>) {
    forall x :: x in s.seen && BeforeCat(x) ==>
      var d, r := CurrSym(x).value.d, CurrSym(x).value.r;
      Expects(s, x, x.args[d], r) || DuePredict(due, x, x.args[d], r)
  }

  ghost predicate EndsClosed(s: State, due: set<Call>) {
    forall x :: x in s.seen && AtEnd(x) ==> Completed(s, x) || DueComplete(due, x)
  }

  ghost predicate StartsClosed(s: State, due: set<Call>) {
    forall cat: CatId, r: nat, j: SetId, p :: IsConts(s, cat, r, j) && s.store.sets[j] != {} && p in ProdsOf(s.store.cats[cat]) ==>
      Met(s, Started(j, cat, r, p)) || DueItem(due, Started(j, cat, r, p)) || DueStart(due, cat, r, p)
  }

  ghost predicate GivesClosed(s: State, due: set<Call>) {
    forall j, x :: j in s.generated && j < |s.store.sets| && x in s.store.sets[j] && j !in s.unsettled ==>
      Given(s, x, s.generated[j]) || DueGive(due, x, j, s.generated[j])
  }

  ghost predicate KeysBelow(s: State) {
    forall c :: c in s.contsMap ==> c < |s.store.cats|
  }

  ghost predicate Closes(s: State, due: set<Call>) {
    && TokensClosed(s) && CatsClosed(s, due) && EndsClosed(s, due)
    && StartsClosed(s, due) && GivesClosed(s, due) && KeysBelow(s)
  }

  /** Nothing is due any more. */
  ghost predicate Closed(s: State) {
    Closes(s, {})
  }

  ghost function CallSet(calls: seq<Call>): set<Call> {
    set c | c in calls
  }

  /** The state after a call, and what is due then. */
  ghost predicate CloseOn(s: State, o: Runs.Outcome<State, Call>, due: set<Call>) {
    o.Then? ==> Later(s, o.s) && Closes(o.s, due + CallSet(o.calls))
  }

  // ------------------------------------------------------------------------------ growing

  /** Nothing is taken back. */
  ghost predicate Later(s: State, t: State) {
    && s.seen <= t.seen && s.starved <= t.starved && s.unsettled <= t.unsettled && s.completed <= t.completed
    && (forall k :: k in s.transitions ==> k in t.transitions && t.transitions[k] == s.transitions[k])
    && (forall j :: j in s.generated ==> j in t.generated && t.generated[j] == s.generated[j])
    && (forall c: CatId, r: nat, j: SetId :: IsConts(s, c, r, j) ==> IsConts(t, c, r, j))
    && |s.store.cats| <= |t.store.cats| && |s.store.sets| <= |t.store.sets|
    && (forall c :: 0 <= c < |s.store.cats| ==> CatLater(s.store.cats[c], t.store.cats[c]))
    && (forall j :: 0 <= j < |s.store.sets| ==> s.store.sets[j] <= t.store.sets[j])
  }

  ghost predicate CatLater(c: CCat, d: CCat) {
    && (c.prods.NullProds? <==> d.prods.NullProds?) && (c.prods.BufProds? <==> d.prods.BufProds?)
    && ProdsOf(c) <= ProdsOf(d) && (!c.prods.BufProds? ==> d == c)
  }

  lemma StaysInAgenda(s: State, t: State, x: Item)
    requires Later(s, t) && BeforeToken(x) && InAgenda(s, x)
    ensures InAgenda(t, x)
  {}

  lemma StaysExpected(s: State, t: State, x: Item, cat: CatId, r: nat)
    requires Later(s, t) && Expects(s, x, cat, r)
    ensures Expects(t, x, cat, r)
  {
    assert CatLater(s.store.cats[cat], t.store.cats[cat]);
    if !t.store.cats[cat].prods.NullProds? {
      var j: SetId :| IsConts(s, cat, r, j) && x in s.store.sets[j];
      assert IsConts(t, cat, r, j) && x in t.store.sets[j];
    }
  }

  lemma StaysCompleted(s: State, t: State, x: Item)
    requires Later(s, t) && x.Item? && Completed(s, x)
    ensures Completed(t, x)
  {
    var c := s.generated[x.conts];
    assert CatLater(s.store.cats[c], t.store.cats[c]);
  }

  lemma StaysGiven(s: State, t: State, x: Item, c: CatId)
    requires Later(s, t) && Given(s, x, c)
    ensures Given(t, x, c)
  {}

  // ---------------------------------------------------- what one call may leave in question

  ghost predicate NewTokens(s: State, t: State) {
    forall x :: x in t.seen && x !in s.seen && BeforeToken(x) ==> InAgenda(t, x)
  }

  ghost predicate NewCats(s: State, t: State, call: Call, left: set<Call>) {
    forall x :: x in t.seen && BeforeCat(x) ==>
      var d, r := CurrSym(x).value.d, CurrSym(x).value.r;
      x !in s.seen || DuePredict({call}, x, x.args[d], r) ==> Expects(t, x, x.args[d], r) || DuePredict(left, x, x.args[d], r)
  }

  ghost predicate NewEnds(s: State, t: State, call: Call, left: set<Call>) {
    forall x :: x in t.seen && AtEnd(x) && (x !in s.seen || DueComplete({call}, x)) ==> Completed(t, x) || DueComplete(left, x)
  }

  /** A production of an awaited constituent that was there before. */
  ghost predicate OldStart(s: State, cat: CatId, r: nat, j: SetId, p: Production) {
    IsConts(s, cat, r, j) && s.store.sets[j] != {} && p in ProdsOf(s.store.cats[cat])
  }

  ghost predicate NewStarts(s: State, t: State, call: Call, left: set<Call>) {
    forall cat: CatId, r: nat, j: SetId, p ::
      OldStart(t, cat, r, j, p)
      && (!OldStart(s, cat, r, j, p) || DueItem({call}, Started(j, cat, r, p)) || DueStart({call}, cat, r, p)) ==>
        Met(t, Started(j, cat, r, p)) || DueItem(left, Started(j, cat, r, p)) || DueStart(left, cat, r, p)
  }

  ghost predicate OldGive(s: State, j: SetId, x: Item) {
    j in s.generated && j < |s.store.sets| && x in s.store.sets[j]
  }

  ghost predicate NewGives(s: State, t: State, call: Call, left: set<Call>) {
    forall j: SetId, x :: OldGive(t, j, x) && j !in t.unsettled && (OldGive(s, j, x) ==> DueGive({call}, x, j, t.generated[j])) ==>
      Given(t, x, t.generated[j]) || DueGive(left, x, j, t.generated[j])
  }

  /** When what a call leaves in question is settled, all is as before. */
  lemma CloseStep(s: State, t: State, call: Call, due: set<Call>, left: set<Call>)
    requires Closes(s, due + {call}) && Later(s, t) && KeysBelow(t)
    requires NewTokens(s, t) && NewCats(s, t, call, left) && NewEnds(s, t, call, left)
    requires NewStarts(s, t, call, left) && NewGives(s, t, call, left)
    ensures Closes(t, due + left)
  {
    CloseTokens(s, t);
    CloseCats(s, t, call, due, left);
    CloseEnds(s, t, call, due, left);
    CloseStarts(s, t, call, due, left);
    CloseGives(s, t, call, due, left);
  }

  lemma CloseTokens(s: State, t: State)
    requires TokensClosed(s) && Later(s, t) && NewTokens(s, t)
    ensures TokensClosed(t)
  {
    forall x | x in t.seen && BeforeToken(x) ensures InAgenda(t, x) {
      if x in s.seen {
        StaysInAgenda(s, t, x);
      }
    }
  }

  lemma CloseCats(s: State, t: State, call: Call, due: set<Call>, left: set<Call>)
    requires CatsClosed(s, due + {call}) && Later(s, t) && NewCats(s, t, call, left)
    ensures CatsClosed(t, due + left)
  {
    forall x | x in t.seen && BeforeCat(x)
      ensures var d, r := CurrSym(x).value.d, CurrSym(x).value.r;
              Expects(t, x, x.args[d], r) || DuePredict(due + left, x, x.args[d], r)
    {
      var cat, r := x.args[CurrSym(x).value.d], CurrSym(x).value.r;
      if x in s.seen && !DuePredict({call}, x, cat, r) {
        assert Expects(s, x, cat, r) || DuePredict(due + {call}, x, cat, r);
        if Expects(s, x, cat, r) {
          StaysExpected(s, t, x, cat, r);
        } else {
          var fuel: nat :| CPredict(x, cat, r, fuel) in due + {call};
          assert CPredict(x, cat, r, fuel) in due + left;
        }
      } else if !Expects(t, x, cat, r) {
        var fuel: nat :| CPredict(x, cat, r, fuel) in left;
        assert CPredict(x, cat, r, fuel) in due + left;
      }
    }
  }

  lemma CloseEnds(s: State, t: State, call: Call, due: set<Call>, left: set<Call>)
    requires EndsClosed(s, due + {call}) && Later(s, t) && NewEnds(s, t, call, left)
    ensures EndsClosed(t, due + left)
  {
    forall x | x in t.seen && AtEnd(x) ensures Completed(t, x) || DueComplete(due + left, x) {
      if x in s.seen && !DueComplete({call}, x) {
        if Completed(s, x) {
          StaysCompleted(s, t, x);
        } else {
          var fuel: nat :| CComplete(x, fuel) in due + {call};
          assert CComplete(x, fuel) in due + left;
        }
      } else if !Completed(t, x) {
        var fuel: nat :| CComplete(x, fuel) in left;
        assert CComplete(x, fuel) in due + left;
      }
    }
  }

  lemma CloseStarts(s: State, t: State, call: Call, due: set<Call>, left: set<Call>)
    requires StartsClosed(s, due + {call}) && Later(s, t) && NewStarts(s, t, call, left)
    ensures StartsClosed(t, due + left)
  {
    forall cat: CatId, r: nat, j: SetId, p | OldStart(t, cat, r, j, p)
      ensures Met(t, Started(j, cat, r, p)) || DueItem(due + left, Started(j, cat, r, p)) || DueStart(due + left, cat, r, p)
    {
      var x := Started(j, cat, r, p);
      if OldStart(s, cat, r, j, p) && !DueItem({call}, x) && !DueStart({call}, cat, r, p) {
        assert Met(s, x) || DueItem(due + {call}, x) || DueStart(due + {call}, cat, r, p);
      } else {
        assert Met(t, x) || DueItem(left, x) || DueStart(left, cat, r, p);
      }
      DueKept(due, call, left, x, cat, r, p);
    }
  }

  lemma DueKept(due: set<Call>, call: Call, left: set<Call>, x: Item, cat: CatId, r: nat, p: Production)
    ensures DueItem(due + {call}, x) && !DueItem({call}, x) ==> DueItem(due + left, x)
    ensures DueStart(due + {call}, cat, r, p) && !DueStart({call}, cat, r, p) ==> DueStart(due + left, cat, r, p)
    ensures DueItem(left, x) ==> DueItem(due + left, x)
    ensures DueStart(left, cat, r, p) ==> DueStart(due + left, cat, r, p)
  {
    if DueItem(due + {call}, x) && !DueItem({call}, x) {
      var fuel: nat :| CItem(x, fuel) in due + {call};
      assert CItem(x, fuel) in due + left;
    }
    if DueStart(due + {call}, cat, r, p) && !DueStart({call}, cat, r, p) {
      var fuel: nat :| CStart(cat, r, p, fuel) in due + {call};
      assert CStart(cat, r, p, fuel) in due + left;
    }
    if DueItem(left, x) {
      var fuel: nat :| CItem(x, fuel) in left;
      assert CItem(x, fuel) in due + left;
    }
    if DueStart(left, cat, r, p) {
      var fuel: nat :| CStart(cat, r, p, fuel) in left;
      assert CStart(cat, r, p, fuel) in due + left;
    }
  }

  lemma CloseGives(s: State, t: State, call: Call, due: set<Call>, left: set<Call>)
    requires GivesClosed(s, due + {call}) && Later(s, t) && NewGives(s, t, call, left)
    ensures GivesClosed(t, due + left)
  {
    forall j: SetId, x | OldGive(t, j, x) && j !in t.unsettled
      ensures Given(t, x, t.generated[j]) || DueGive(due + left, x, j, t.generated[j])
    {
      var c := t.generated[j];
      GiveKept(due, call, left, x, j, c);
      if OldGive(s, j, x) && !DueGive({call}, x, j, c) {
        assert Given(s, x, c) || DueGive(due + {call}, x, j, c);
        if Given(s, x, c) {
          StaysGiven(s, t, x, c);
        }
      }
    }
  }

  lemma GiveKept(due: set<Call>, call: Call, left: set<Call>, x: Item, j: SetId, c: CatId)
    ensures DueGive(due + {call}, x, j, c) && !DueGive({call}, x, j, c) ==> DueGive(due + left, x, j, c)
    ensures DueGive(left, x, j, c) ==> DueGive(due + left, x, j, c)
  {
    if DueGive(due + {call}, x, j, c) && !DueGive({call}, x, j, c) {
      GiveIn(due + {call}, due + left, {call}, x, j, c);
    }
    if DueGive(left, x, j, c) {
      GiveIn(left, due + left, {}, x, j, c);
    }
  }

  lemma GiveIn(a: set<Call>, b: set<Call>, e: set<Call>, x: Item, j: SetId, c: CatId)
    requires DueGive(a, x, j, c) && !DueGive(e, x, j, c) && a <= b + e
    ensures DueGive(b, x, j, c)
  {
    if fuel: nat :| CCombine(x, c, fuel) in a {
      assert CCombine(x, c, fuel) in b;
    } else if fuel: nat :| CServe(x, j, fuel) in a {
      assert CServe(x, j, fuel) in b;
    } else if x.Item? && BeforeCat(x) && DueItem(a, Combined(x, c)) {
      var fuel: nat :| CItem(Combined(x, c), fuel) in a;
      assert CItem(Combined(x, c), fuel) in b;
    } else {
      var start, rest, fuel: nat :| CWalk(j, c, start, rest, fuel) in a && x in rest;
      assert CWalk(j, c, start, rest, fuel) in b;
    }
  }

  // ------------------------------------------------------------------------ the calls, one by one

  /** Nothing new among the continuations, the agendas apart. */
  ghost predicate SameConts(s: State, t: State) {
    && t.generated == s.generated && t.store.cats == s.store.cats && t.contsMap == s.contsMap
    && (forall cat: CatId, r: nat, j: SetId :: IsConts(t, cat, r, j) ==> j < |s.store.sets| && t.store.sets[j] == s.store.sets[j])
    && (forall j: SetId :: j in t.generated && j < |t.store.sets| ==> j < |s.store.sets| && t.store.sets[j] == s.store.sets[j])
  }

  lemma ItemSettled(s: State, t: State, x: Item, fuel: nat, left: set<Call>)
    requires SameConts(s, t) && Met(t, x) && Later(s, t)
    ensures NewStarts(s, t, CItem(x, fuel), left) && NewGives(s, t, CItem(x, fuel), left)
  {
    var call := CItem(x, fuel);
    forall cat: CatId, r: nat, j: SetId, p | OldStart(t, cat, r, j, p)
      ensures OldStart(s, cat, r, j, p) && !DueStart({call}, cat, r, p)
      ensures DueItem({call}, Started(j, cat, r, p)) ==> Met(t, Started(j, cat, r, p))
    {
      assert IsConts(s, cat, r, j);
    }
    forall j: SetId, y | OldGive(t, j, y)
      ensures OldGive(s, j, y)
      ensures DueGive({call}, y, j, t.generated[j]) ==> Given(t, y, t.generated[j])
    {}
  }

  lemma SeenItemCloses(s: State, t: State, x: Item, fuel: nat, due: set<Call>)
    requires Closes(s, due + {CItem(x, fuel)})
    requires if x in s.seen then t == s else t == s.(starved := s.starved + {x})
    ensures Later(s, t) && Closes(t, due + {})
  {
    assert Later(s, t);
    ItemSettled(s, t, x, fuel, {});
    CloseStep(s, t, CItem(x, fuel), due, {});
  }

  lemma NewItemCloses(s: State, x: Item, fuel: nat, due: set<Call>, left: set<Call>)
    requires Closes(s, due + {CItem(x, fuel)}) && x.Item? && HasCtnt(x.prod, x.linIdx) && !BeforeToken(x)
    requires BeforeCat(x) ==> DuePredict(left, x, x.args[CurrSym(x).value.d], CurrSym(x).value.r)
    requires AtEnd(x) ==> DueComplete(left, x)
    ensures Later(s, s.(seen := s.seen + {x})) && Closes(s.(seen := s.seen + {x}), due + left)
  {
    var t := s.(seen := s.seen + {x});
    assert Later(s, t);
    ItemSettled(s, t, x, fuel, left);
    CloseStep(s, t, CItem(x, fuel), due, left);
  }

  lemma TokenCloses(s: State, l: Links, x: Item, fuel: nat, due: set<Call>)
    requires Closes(s, due + {CItem(x, fuel)}) && Sound(s, l, {}) && Linked(l, x) && BeforeToken(x)
    requires x.tokIdx < |CurrSym(x).value.tokens|
    ensures var o := NextToken(CurrSym(x).value.tokens[x.tokIdx], x, s.(seen := s.seen + {x}));
            o.Then? ==> Later(s, o.s) && Closes(o.s, due + {})
  {
    var tok, s0 := CurrSym(x).value.tokens[x.tokIdx], s.(seen := s.seen + {x});
    var o := NextToken(tok, x, s0);
    if o.Then? {
      AgendaEntered(s, l, tok, x, o.s);
      ItemSettled(s, o.s, x, fuel, {});
      TokenSettled(s, o.s, x, fuel);
      CloseStep(s, o.s, CItem(x, fuel), due, {});
    }
  }

  lemma AgendaEntered(s: State, l: Links, tok: Token, x: Item, t: State)
    requires Sound(s, l, {}) && NextToken(tok, x, s.(seen := s.seen + {x})) == Runs.Then(t, [])
    ensures Later(s, t) && SameConts(s, t) && t.seen == s.seen + {x}
    ensures tok in t.transitions && t.transitions[tok] < |t.store.sets| && x in t.store.sets[t.transitions[tok]]
  {
    var j := WithAgenda(s, tok).transitions[tok];
    AgendaApart(s, l, tok);
    AgendaSets(s, tok, x, t);
    forall cat: CatId, r: nat, k: SetId | IsConts(t, cat, r, k) ensures k < |s.store.sets| && t.store.sets[k] == s.store.sets[k] {
      assert k != j;
      assert IsConts(s, cat, r, k) || k >= |s.store.sets|;
      assert s.contsMap[cat][r].value < |l.waits|;
    }
    forall k: SetId | k in t.generated && k < |t.store.sets| ensures k < |s.store.sets| && t.store.sets[k] == s.store.sets[k] {
      assert CompletedFrom(l, k, s.generated[k]) && k != j;
    }
  }

  lemma AgendaSets(s: State, tok: Token, x: Item, t: State)
    requires NextToken(tok, x, s.(seen := s.seen + {x})) == Runs.Then(t, [])
    ensures var j := WithAgenda(s, tok).transitions[tok];
            && tok in t.transitions && t.transitions[tok] == j < |t.store.sets| && x in t.store.sets[j]
            && |s.store.sets| <= |t.store.sets| && forall k :: 0 <= k < |s.store.sets| && k != j ==> t.store.sets[k] == s.store.sets[k]
    ensures Later(s, t) && t == s.(seen := t.seen, store := s.store.(sets := t.store.sets), transitions := t.transitions)
    ensures t.seen == s.seen + {x}
  {
    var s1 := WithAgenda(s, tok);
    assert forall k :: 0 <= k < |s.store.sets| ==> s1.store.sets[k] == s.store.sets[k];
  }

  lemma TokenSettled(s: State, t: State, x: Item, fuel: nat)
    requires t.seen == s.seen + {x} && BeforeToken(x) && InAgenda(t, x)
    ensures NewTokens(s, t) && NewCats(s, t, CItem(x, fuel), {}) && NewEnds(s, t, CItem(x, fuel), {})
  {}

  /** Agendas are no continuations. */
  lemma AgendaApart(s: State, l: Links, tok: Token)
    requires Sound(s, l, {})
    ensures var j := WithAgenda(s, tok).transitions[tok];
            && (forall cat: CatId, r: nat :: !IsConts(s, cat, r, j)) && j !in s.generated
  {
    if tok in s.transitions {
      assert l.waits[s.transitions[tok]] == None;
    }
  }

  lemma ItemCloses(s: State, l: Links, x: Item, fuel: nat, due: set<Call>)
    requires Closes(s, due + {CItem(x, fuel)}) && Sound(s, l, {}) && CallOk(s, l, CItem(x, fuel))
    ensures CloseOn(s, NextItem(x, fuel, s), due)
  {
    var o := NextItem(x, fuel, s);
    if o.Then? {
      if x in s.seen || fuel == 0 {
        assert CallSet(o.calls) == {};
        SeenItemCloses(s, o.s, x, fuel, due);
      } else {
        match CurrSym(x)
        case None =>
          assert CComplete(x, fuel - 1) in CallSet(o.calls);
          NewItemCloses(s, x, fuel, due, CallSet(o.calls));
        case Some(SymCat(d, r)) =>
          assert CPredict(x, x.args[d], r, fuel - 1) in CallSet(o.calls);
          NewItemCloses(s, x, fuel, due, CallSet(o.calls));
        case Some(SymKS(tokens)) =>
          assert CallSet(o.calls) == {};
          TokenCloses(s, l, x, fuel, due);
      }
    }
  }

  lemma ServeCloses(s: State, x: Item, j: SetId, fuel: nat, due: set<Call>)
    requires Closes(s, due + {CServe(x, j, fuel)})
    ensures CloseOn(s, NextServe(x, j, fuel, s), due)
  {
    var o := NextServe(x, j, fuel, s);
    if j in s.generated {
      assert CCombine(x, s.generated[j], fuel) in CallSet(o.calls);
    }
    CloseStep(s, o.s, CServe(x, j, fuel), due, CallSet(o.calls));
  }

  lemma CombineCloses(s: State, x: Item, c: CatId, fuel: nat, due: set<Call>)
    requires Closes(s, due + {CCombine(x, c, fuel)})
    ensures CloseOn(s, NextCombine(x, c, fuel, s), due)
  {
    var o := NextCombine(x, c, fuel, s);
    if o.Then? {
      assert Later(s, o.s);
      if x.Item? {
        assert CItem(Combined(x, c), fuel) in CallSet(o.calls);
      }
      CloseStep(s, o.s, CCombine(x, c, fuel), due, CallSet(o.calls));
    }
  }

  lemma StartCloses(s: State, cat: CatId, r: nat, p: Production, fuel: nat, due: set<Call>)
    requires Closes(s, due + {CStart(cat, r, p, fuel)})
    ensures CloseOn(s, NextStart(cat, r, p, fuel, s), due)
  {
    var o := NextStart(cat, r, p, fuel, s);
    if o.Then? {
      if s.contsMap[cat][r].Some? {
        assert CItem(Started(s.contsMap[cat][r].value, cat, r, p), fuel) in CallSet(o.calls);
      }
      CloseStep(s, o.s, CStart(cat, r, p, fuel), due, CallSet(o.calls));
    }
  }

  lemma WalkCloses(s: State, j: SetId, c: CatId, start: set<Item>, rest: set<Item>, fuel: nat, pick: Option<Item>, due: set<Call>)
    requires Closes(s, due + {CWalk(j, c, start, rest, fuel)})
    ensures CloseOn(s, NextWalk(j, c, start, rest, fuel, s, pick), due)
  {
    var o, call := NextWalk(j, c, start, rest, fuel, s, pick), CWalk(j, c, start, rest, fuel);
    if o.Then? {
      if pick.Some? {
        WalkSettled(s, j, c, start, rest, fuel, pick.value, CallSet(o.calls));
      } else {
        WalkEndSettled(s, o.s, j, c, start, rest, fuel, CallSet(o.calls));
      }
      CloseStep(s, o.s, call, due, CallSet(o.calls));
    }
  }

  lemma WalkEndSettled(s: State, t: State, j: SetId, c: CatId, start: set<Item>, rest: set<Item>, fuel: nat, left: set<Call>)
    requires KeysBelow(s) && if rest == {} then t == s || t == Grown(s, j) else t == Grown(s, j)
    ensures var call := CWalk(j, c, start, rest, fuel);
            && Later(s, t) && KeysBelow(t) && NewTokens(s, t) && NewCats(s, t, call, left) && NewEnds(s, t, call, left)
            && NewStarts(s, t, call, left) && NewGives(s, t, call, left)
  {}

  lemma WalkSettled(s: State, j: SetId, c: CatId, start: set<Item>, rest: set<Item>, fuel: nat, x: Item, left: set<Call>)
    requires CCombine(x, c, fuel) in left && CWalk(j, c, start, rest - {x}, fuel) in left
    ensures var call := CWalk(j, c, start, rest, fuel);
            && Later(s, s) && NewTokens(s, s) && NewCats(s, s, call, left) && NewEnds(s, s, call, left)
            && NewStarts(s, s, call, left) && NewGives(s, s, call, left)
  {
    forall k: SetId, y | OldGive(s, k, y) && DueGive({CWalk(j, c, start, rest, fuel)}, y, k, s.generated[k])
      ensures DueGive(left, y, k, s.generated[k])
    {
      assert k == j && y in rest && s.generated[k] == c;
    }
  }

  /** Calls that nothing is due from. */
  lemma IdleCloses(s: State, call: Call, due: set<Call>, left: set<Call>)
    requires Closes(s, due + {call}) && (call.CWander? || call.CScan?)
    ensures Closes(s, due + left)
  {
    CloseStep(s, s, call, due, left);
  }

  // ----------------------------------------------------------------------------- predicting

  lemma LaterTransitive(s: State, t: State, u: State)
    requires Later(s, t) && Later(t, u)
    ensures Later(s, u)
  {
    forall c | 0 <= c < |s.store.cats| ensures CatLater(s.store.cats[c], u.store.cats[c]) {
      assert CatLater(s.store.cats[c], t.store.cats[c]) && CatLater(t.store.cats[c], u.store.cats[c]);
    }
  }

  /** Only empty continuation sets are new. */
  ghost predicate EmptyNews(s: State, t: State) {
    && t.seen == s.seen && t.store.cats == s.store.cats && t.generated == s.generated && t.unsettled == s.unsettled
    && (forall c: CatId, q: nat, k: SetId :: IsConts(t, c, q, k) && t.store.sets[k] != {} ==>
          IsConts(s, c, q, k) && t.store.sets[k] == s.store.sets[k])
    && (forall k: SetId, x :: OldGive(t, k, x) ==> OldGive(s, k, x))
  }

  lemma ContssLater(s: State, cat: CatId)
    requires cat < |s.store.cats| && KeysBelow(s)
    ensures Later(s, WithContss(s, cat)) && EmptyNews(s, WithContss(s, cat)) && KeysBelow(WithContss(s, cat))
  {
    var t := WithContss(s, cat);
    forall c: CatId, q: nat, k: SetId ensures IsConts(t, c, q, k) <==> IsConts(s, c, q, k) {}
  }

  lemma ContsLater(s: State, cat: CatId, r: nat)
    requires KeysBelow(s) && cat in s.contsMap && r < |s.contsMap[cat]|
    ensures Later(s, WithConts(s, cat, r)) && EmptyNews(s, WithConts(s, cat, r)) && KeysBelow(WithConts(s, cat, r))
  {
    var t := WithConts(s, cat, r);
    assert forall k :: 0 <= k < |s.store.sets| ==> t.store.sets[k] == s.store.sets[k];
    forall c: CatId, q: nat, k: SetId | IsConts(t, c, q, k)
      ensures IsConts(s, c, q, k) || (k < |t.store.sets| && t.store.sets[k] == {}) || k < |s.store.sets|
    {}
  }

  lemma ContsMade(s: State, l: Links, cat: CatId, r: nat) returns (l': Links)
    requires Sound(s, l, {}) && KeysBelow(s) && cat < |s.store.cats| && r < |WithContss(s, cat).contsMap[cat]|
    ensures var t := WithConts(WithContss(s, cat), cat, r);
            && Sound(t, l', {}) && Later(s, t) && EmptyNews(s, t) && KeysBelow(t)
  {
    var s0 := WithContss(s, cat);
    ContssSound(s, l, cat);
    l' := ContsSound(s0, l, cat, r);
    ContssLater(s, cat);
    ContsLater(s0, cat, r);
    LaterTransitive(s, s0, WithConts(s0, cat, r));
  }

  /** What is waited for tells continuation sets apart. */
  lemma ContsUnique(s: State, l: Links, cat: CatId, r: nat, j: SetId)
    requires Sound(s, l, {}) && IsConts(s, cat, r, j)
    ensures forall c: CatId, q: nat :: IsConts(s, c, q, j) ==> c == cat && q == r
  {
    forall c: CatId, q: nat | IsConts(s, c, q, j) ensures c == cat && q == r {
      assert l.waits[j] == Some(Awaited(cat, r)) && l.waits[j] == Some(Awaited(c, q));
    }
  }

  lemma EnterLater(s: State, j: SetId, x: Item)
    requires j < |s.store.sets|
    ensures Later(s, Inserted(s, j, x))
  {
    var t := Inserted(s, j, x);
    assert forall k :: 0 <= k < |s.store.sets| ==> s.store.sets[k] <= t.store.sets[k];
  }

  lemma EnterCloses(s: State, s1: State, l: Links, x: Item, cat: CatId, r: nat, j: SetId, fuel: nat, due: set<Call>)
    requires Closes(s, due + {CPredict(x, cat, r, fuel)}) && Later(s, s1) && EmptyNews(s, s1) && KeysBelow(s1)
    requires Sound(s1, l, {}) && IsConts(s1, cat, r, j)
    ensures CloseOn(s, NextEnter(x, cat, r, j, fuel, s1), due)
  {
    var call, o := CPredict(x, cat, r, fuel), NextEnter(x, cat, r, j, fuel, s1);
    var left := CallSet(o.calls);
    assert CServe(x, j, fuel) in o.calls;
    EnterLater(s1, j, x);
    LaterTransitive(s, s1, Inserted(s1, j, x));
    EnterSettled(s, s1, l, x, cat, r, j, fuel);
    CloseStep(s, o.s, call, due, left);
  }

  lemma EnterSettled(s: State, s1: State, l: Links, x: Item, cat: CatId, r: nat, j: SetId, fuel: nat)
    requires Later(s, s1) && EmptyNews(s, s1) && Sound(s1, l, {}) && IsConts(s1, cat, r, j)
    ensures var call, o := CPredict(x, cat, r, fuel), NextEnter(x, cat, r, j, fuel, s1);
            && NewTokens(s, o.s) && NewCats(s, o.s, call, CallSet(o.calls)) && NewEnds(s, o.s, call, CallSet(o.calls))
            && NewStarts(s, o.s, call, CallSet(o.calls)) && NewGives(s, o.s, call, CallSet(o.calls))
  {
    var call, o := CPredict(x, cat, r, fuel), NextEnter(x, cat, r, j, fuel, s1);
    var left := CallSet(o.calls);
    assert IsConts(o.s, cat, r, j) && x in o.s.store.sets[j];
    EnterStarts(s, s1, l, x, cat, r, j, fuel);
    EnterGives(s, s1, x, cat, r, j, fuel);
  }

  lemma EnterStarts(s: State, s1: State, l: Links, x: Item, cat: CatId, r: nat, j: SetId, fuel: nat)
    requires EmptyNews(s, s1) && Sound(s1, l, {}) && IsConts(s1, cat, r, j)
    ensures var o := NextEnter(x, cat, r, j, fuel, s1); NewStarts(s, o.s, CPredict(x, cat, r, fuel), CallSet(o.calls))
  {
    var o := NextEnter(x, cat, r, j, fuel, s1);
    var left, prods := CallSet(o.calls), ProdsOf(s1.store.cats[cat]);
    ContsUnique(s1, l, cat, r, j);
    forall c: CatId, q: nat, k: SetId, p | OldStart(o.s, c, q, k, p) && !OldStart(s, c, q, k, p)
      ensures DueItem(left, Started(k, c, q, p))
    {
      assert IsConts(s1, c, q, k);
      if k == j && x !in s1.store.sets[j] {
        var i :| 0 <= i < |prods| && prods[i] == p;
        assert o.calls[i] == CItem(Started(j, cat, r, p), fuel);
        assert CItem(Started(j, cat, r, p), fuel) in left;
      }
    }
  }

  lemma EnterGives(s: State, s1: State, x: Item, cat: CatId, r: nat, j: SetId, fuel: nat)
    requires EmptyNews(s, s1) && IsConts(s1, cat, r, j)
    ensures var o := NextEnter(x, cat, r, j, fuel, s1); NewGives(s, o.s, CPredict(x, cat, r, fuel), CallSet(o.calls))
  {
    var o := NextEnter(x, cat, r, j, fuel, s1);
    var left := CallSet(o.calls);
    assert o.calls[|o.calls| - 1] == CServe(x, j, fuel);
    assert CServe(x, j, fuel) in left;
    forall k: SetId, y | OldGive(o.s, k, y) && !OldGive(s, k, y) ensures DueGive(left, y, k, o.s.generated[k]) {
      assert !OldGive(s1, k, y);
      assert k == j && y == x;
    }
  }

  lemma PredictCloses(s: State, l: Links, x: Item, cat: CatId, r: nat, fuel: nat, due: set<Call>)
    requires Closes(s, due + {CPredict(x, cat, r, fuel)}) && Sound(s, l, {})
    ensures CloseOn(s, NextPredict(x, cat, r, fuel, s), due)
  {
    if cat < |s.store.cats| {
      if s.store.cats[cat].prods.NullProds? {
        assert CallSet([]) == {};
        CloseStep(s, s, CPredict(x, cat, r, fuel), due, CallSet([]));
      } else if NextPredict(x, cat, r, fuel, s).Then? {
        ContsCloses(s, l, x, cat, r, fuel, due);
      }
    }
  }

  lemma ContsCloses(s: State, l: Links, x: Item, cat: CatId, r: nat, fuel: nat, due: set<Call>)
    requires Closes(s, due + {CPredict(x, cat, r, fuel)}) && Sound(s, l, {})
    requires cat < |s.store.cats| && NextConts(x, cat, r, fuel, WithContss(s, cat)).Then?
    ensures CloseOn(s, NextConts(x, cat, r, fuel, WithContss(s, cat)), due)
  {
    var l' := ContsMade(s, l, cat, r);
    var s1 := WithConts(WithContss(s, cat), cat, r);
    EnterCloses(s, s1, l', x, cat, r, s1.contsMap[cat][r].value, fuel, due);
  }

  // ----------------------------------------------------------------------------- completing

  lemma ProductionLater(s: State, c: CatId, p: Production)
    requires c < |s.store.cats| && s.store.cats[c].prods.BufProds?
    ensures Later(s, WithProduction(s, c, p))
    ensures forall d :: 0 <= d < |s.store.cats| && d != c ==> WithProduction(s, c, p).store.cats[d] == s.store.cats[d]
    ensures ProdsOf(WithProduction(s, c, p).store.cats[c]) == ProdsOf(s.store.cats[c]) + [p]
  {
    var t := WithProduction(s, c, p);
    forall d | 0 <= d < |s.store.cats| ensures CatLater(s.store.cats[d], t.store.cats[d]) {}
  }

  lemma CategoryLater(s: State, j: SetId, b: CatId)
    requires b < |s.store.cats| && j !in s.generated
    ensures Later(s, WithCategory(s, j, b))
  {
    var t := WithCategory(s, j, b);
    forall d | 0 <= d < |s.store.cats| ensures CatLater(s.store.cats[d], t.store.cats[d]) {
      assert t.store.cats[d] == s.store.cats[d];
    }
  }

  lemma AgainCloses(s: State, x: Item, fuel: nat, due: set<Call>)
    requires Closes(s, due + {CComplete(x, fuel)}) && AtEnd(x) && |x.args| == |ProdArgs(x.prod)|
    requires x.conts in s.generated
    ensures CloseOn(s, NextAgain(s.generated[x.conts], WithArgs(x.prod, x.args), fuel, s), due)
  {
    var call, c, p := CComplete(x, fuel), s.generated[x.conts], WithArgs(x.prod, x.args);
    var o := NextAgain(c, p, fuel, s);
    if o.Then? {
      var s1 := WithProduction(s, c, p);
      ProductionLater(s, c, p);
      assert KeysBelow(s1);
      ContssLater(s1, c);
      LaterTransitive(s, s1, o.s);
      assert Completed(o.s, x);
      AgainStarts(s, x, c, p, fuel);
      AgainGives(s, x, c, p, fuel);
      CloseStep(s, o.s, call, due, CallSet(o.calls));
    }
  }

  lemma AgainStarts(s: State, x: Item, c: CatId, p: Production, fuel: nat)
    requires c < |s.store.cats| && s.store.cats[c].prods.BufProds?
    ensures var o := NextAgain(c, p, fuel, s); NewStarts(s, o.s, CComplete(x, fuel), CallSet(o.calls))
  {
    var o := NextAgain(c, p, fuel, s);
    var left := CallSet(o.calls);
    ProductionLater(s, c, p);
    forall d: CatId, q: nat, k: SetId, w | OldStart(o.s, d, q, k, w) && !OldStart(s, d, q, k, w)
      ensures DueStart(left, d, q, w)
    {
      assert IsConts(s, d, q, k);
      assert d == c && w == p;
      assert o.calls[q] == CStart(c, q, p, fuel);
      assert CStart(c, q, p, fuel) in left;
    }
  }

  lemma AgainGives(s: State, x: Item, c: CatId, p: Production, fuel: nat)
    requires c < |s.store.cats| && s.store.cats[c].prods.BufProds?
    ensures var o := NextAgain(c, p, fuel, s); NewGives(s, o.s, CComplete(x, fuel), CallSet(o.calls))
  {}

  lemma FirstCloses(s: State, x: Item, fuel: nat, due: set<Call>)
    requires Closes(s, due + {CComplete(x, fuel)}) && AtEnd(x) && |x.args| == |ProdArgs(x.prod)|
    requires x.conts !in s.generated && x.cat < |s.store.cats| && x.conts < |s.store.sets|
    ensures CloseOn(s, NextFirst(x, WithArgs(x.prod, x.args), fuel, s), due)
  {
    var call, c, p := CComplete(x, fuel), |s.store.cats|, WithArgs(x.prod, x.args);
    var o := NextFirst(x, p, fuel, s);
    var s1, left := WithCategory(s, x.conts, x.cat), CallSet(o.calls);
    CategoryLater(s, x.conts, x.cat);
    ProductionLater(s1, c, p);
    LaterTransitive(s, s1, o.s);
    assert Completed(o.s, x);
    assert o.calls[0] == CWalk(x.conts, c, s.store.sets[x.conts], s.store.sets[x.conts], fuel);
    assert CWalk(x.conts, c, s.store.sets[x.conts], s.store.sets[x.conts], fuel) in left;
    FirstStarts(s, x, p, fuel);
    CloseStep(s, o.s, call, due, left);
  }

  lemma FirstStarts(s: State, x: Item, p: Production, fuel: nat)
    requires x.Item? && x.cat < |s.store.cats| && x.conts < |s.store.sets| && KeysBelow(s)
    ensures var o := NextFirst(x, p, fuel, s); NewStarts(s, o.s, CComplete(x, fuel), CallSet(o.calls)) && KeysBelow(o.s)
  {
    var o := NextFirst(x, p, fuel, s);
    forall d: CatId, q: nat, k: SetId, w | OldStart(o.s, d, q, k, w) ensures OldStart(s, d, q, k, w) {
      assert d < |s.store.cats| && o.s.store.cats[d] == s.store.cats[d];
    }
  }

  lemma CompleteCloses(s: State, l: Links, x: Item, fuel: nat, due: set<Call>)
    requires Closes(s, due + {CComplete(x, fuel)}) && CallOk(s, l, CComplete(x, fuel))
    ensures CloseOn(s, NextComplete(x, fuel, s), due)
  {
    if x.conts in s.generated {
      AgainCloses(s, x, fuel, due);
    } else if x.cat < |s.store.cats| && x.conts < |s.store.sets| {
      FirstCloses(s, x, fuel, due);
    }
  }

  // -------------------------------------------------------------------------------- runs

  lemma CallCloses(s: State, l: Links, call: Call, pick: Option<Item>, due: set<Call>)
    requires Closes(s, due + {call}) && Sound(s, l, Hot([call])) && CallOk(s, l, call)
    ensures CloseOn(s, Next(call, s, pick), due)
  {
    var o := Next(call, s, pick);
    if o.Then? {
      match call
      case CItem(x, fuel) => ItemCloses(s, l, x, fuel, due);
      case CPredict(x, cat, r, fuel) => PredictCloses(s, l, x, cat, r, fuel, due);
      case CServe(x, j, fuel) => ServeCloses(s, x, j, fuel, due);
      case CCombine(x, c, fuel) => CombineCloses(s, x, c, fuel, due);
      case CComplete(x, fuel) => CompleteCloses(s, l, x, fuel, due);
      case CStart(cat, r, p, fuel) => StartCloses(s, cat, r, p, fuel, due);
      case CWalk(j, c, start, rest, fuel) => WalkCloses(s, j, c, start, rest, fuel, pick, due);
      case CWander(j, c, fuel) => IdleCloses(s, call, due, CallSet(o.calls));
      case CScan(rest, fuel) => IdleCloses(s, call, due, CallSet(o.calls));
    }
  }

  /** What becomes of a call on the stack. */
  ghost predicate Kept(s: State, call: Call) {
    match call
    case CItem(x, fuel) => Met(s, x) && (fuel > 0 ==> x in s.seen)
    case CPredict(x, cat, r, _) => Expects(s, x, cat, r)
    case CScan(rest, _) => forall x :: x in rest ==> BeforeToken(x) && Met(s, Scanned(x))
    case _ => true
  }

  lemma KeptLater(s: State, t: State, call: Call)
    requires Later(s, t) && Kept(s, call)
    ensures Kept(t, call)
  {
    if call.CPredict? {
      StaysExpected(s, t, call.x, call.cat, call.r);
    }
  }

  /** A call is worked off at once, or what it leaves to do works it off. */
  lemma KeptAtOnce(s: State, call: Call, pick: Option<Item>)
    requires Next(call, s, pick).Then? && !call.CScan?
    ensures Kept(Next(call, s, pick).s, call)
  {
    if call.CPredict? && !s.store.cats[call.cat].prods.NullProds? {
      var s1 := WithConts(WithContss(s, call.cat), call.cat, call.r);
      var j, t := s1.contsMap[call.cat][call.r].value, Next(call, s, pick).s;
      assert IsConts(t, call.cat, call.r, j) && call.x in t.store.sets[j];
    }
  }

  lemma {:induction false} RunCloses(s: State, l: Links, stack: seq<Call>, picks: seq<Option<Item>>, s': State)
    requires Closes(s, CallSet(stack)) && Sound(s, l, Hot(stack)) && StackOk(s, l, stack)
    requires Runs.Replay(Next, s, stack, picks) == Some(s')
    ensures Closed(s') && Later(s, s')
    ensures forall i :: 0 <= i < |stack| ==> Kept(s', stack[i])
    decreases |picks|
  {
    if stack == [] {
      assert CallSet(stack) == {};
    } else {
      var o := Next(stack[0], s, picks[0]);
      var l' := StepCloses(s, l, stack, picks[0]);
      RunCloses(o.s, l', o.calls + stack[1..], picks[1..], s');
      LaterTransitive(s, o.s, s');
      RunKept(s, stack, picks[0], s');
    }
  }

  /** One call of a run. */
  lemma StepCloses(s: State, l: Links, stack: seq<Call>, pick: Option<Item>) returns (l': Links)
    requires stack != [] && Closes(s, CallSet(stack)) && Sound(s, l, Hot(stack)) && StackOk(s, l, stack)
    requires Next(stack[0], s, pick).Then?
    ensures var o := Next(stack[0], s, pick); var stack' := o.calls + stack[1..];
            Later(s, o.s) && Closes(o.s, CallSet(stack')) && Sound(o.s, l', Hot(stack')) && StackOk(o.s, l', stack')
  {
    var o, rest := Next(stack[0], s, pick), stack[1..];
    assert Hot([stack[0]]) == Hot(stack);
    l' := CallGoes(s, l, stack[0], pick);
    assert CallSet(stack) == CallSet(rest) + {stack[0]};
    CallCloses(s, l, stack[0], pick, CallSet(rest));
    StackStays(s, l, stack, o.s, o.calls, l');
    assert CallSet(o.calls + rest) == CallSet(rest) + CallSet(o.calls);
  }

  lemma RunKept(s: State, stack: seq<Call>, pick: Option<Item>, s': State)
    requires stack != [] && Next(stack[0], s, pick).Then? && Later(Next(stack[0], s, pick).s, s')
    requires var next := Next(stack[0], s, pick).calls + stack[1..]; forall i :: 0 <= i < |next| ==> Kept(s', next[i])
    ensures forall i :: 0 <= i < |stack| ==> Kept(s', stack[i])
  {
    var o := Next(stack[0], s, pick);
    var next := o.calls + stack[1..];
    forall i | 0 <= i < |stack| ensures Kept(s', stack[i]) {
      if i > 0 {
        assert next[|o.calls| + i - 1] == stack[i];
      } else if !stack[0].CScan? {
        KeptAtOnce(s, stack[0], pick);
        KeptLater(o.s, s', stack[0]);
      } else if pick.Some? {
        assert next[0] == o.calls[0] && next[1] == o.calls[1];
      }
    }
  }

  // -------------------------------------------------------------------------------- steps

  /** The agenda of a token has been moved past it. */
  ghost predicate AllMet(s: State, agenda: set<Item>) {
    forall x :: x in agenda ==> BeforeToken(x) && Met(s, Scanned(x))
  }

  lemma FreshCloses(st: Store, due: set<Call>)
    ensures Closes(Fresh(st), due)
  {}

  /** A step that feeds a token ends with nothing due. */
  lemma ScanCloses(st: Store, agenda: SetId, fuel: nat, s': State)
    requires Orderly(st) && agenda < |st.sets| && (forall x :: x in st.sets[agenda] ==> BeforeToken(x))
    requires Ran(Fresh(st), [CScan(st.sets[agenda], fuel)], s')
    ensures Closed(s') && AllMet(s', st.sets[agenda]) && Later(Fresh(st), s')
  {
    var l :| StoreLinked(st, l);
    var stack := [CScan(st.sets[agenda], fuel)];
    forall x | x in st.sets[agenda] ensures Linked(l, x) {
      assert Member(l, agenda, x);
    }
    var picks :| Runs.Replay(Next, Fresh(st), stack, picks) == Some(s');
    FreshCloses(st, CallSet(stack));
    RunCloses(Fresh(st), l, stack, picks, s');
    assert Kept(s', stack[0]);
  }

  // ------------------------------------------------------------------------ the beginning

  /** With fuel, a production that is started is met in earnest. */
  ghost predicate DueSoon(stack: seq<Call>, x: Item) {
    exists fuel: nat :: fuel > 0 && CItem(x, fuel) in stack
  }

  /** Every production of a category that the null item waits for has been started, or
      will be. */
  ghost predicate RootsStarted(s: State, stack: seq<Call>) {
    forall cat: CatId, r: nat, j: SetId, p ::
      IsConts(s, cat, r, j) && NullItem in s.store.sets[j] && !s.store.cats[cat].prods.BufProds? && p in ProdsOf(s.store.cats[cat]) ==>
        Started(j, cat, r, p) in s.seen || DueSoon(stack, Started(j, cat, r, p))
  }

  ghost predicate Fuelled(stack: seq<Call>) {
    forall i :: 0 <= i < |stack| && stack[i].CPredict? && stack[i].x.NullItem? ==> stack[i].fuel > 0
  }

  /** The null item is nowhere where it was not before. */
  ghost predicate NoNewNull(s: State, t: State) {
    forall cat: CatId, r: nat, j: SetId :: IsConts(t, cat, r, j) && NullItem in t.store.sets[j] ==>
      IsConts(s, cat, r, j) && NullItem in s.store.sets[j]
  }

  lemma NullKept(s: State, l: Links, call: Call, pick: Option<Item>)
    requires Sound(s, l, Hot([call])) && Next(call, s, pick).Then? && KeysBelow(s)
    requires call.CPredict? ==> call.x.Item?
    ensures NoNewNull(s, Next(call, s, pick).s)
  {
    var o := Next(call, s, pick);
    match call
    case CItem(x, fuel) =>
      if x !in s.seen && fuel > 0 && BeforeToken(x) {
        NullAgenda(s, l, CurrSym(x).value.tokens[x.tokIdx], x);
      }
    case CPredict(x, cat, r, fuel) =>
      if !s.store.cats[cat].prods.NullProds? {
        NullPredict(s, l, x, cat, r, fuel);
      }
    case CComplete(x, fuel) => NullComplete(s, x, fuel);
    case _ =>
  }

  lemma NullAgenda(s: State, l: Links, tok: Token, x: Item)
    requires Sound(s, l, {}) && x.Item? && NextToken(tok, x, s.(seen := s.seen + {x})).Then?
    ensures NoNewNull(s, NextToken(tok, x, s.(seen := s.seen + {x})).s)
  {
    AgendaEntered(s, l, tok, x, NextToken(tok, x, s.(seen := s.seen + {x})).s);
  }

  lemma NullPredict(s: State, l: Links, x: Item, cat: CatId, r: nat, fuel: nat)
    requires Sound(s, l, {}) && KeysBelow(s) && x.Item? && cat < |s.store.cats| && !s.store.cats[cat].prods.NullProds?
    requires NextPredict(x, cat, r, fuel, s).Then?
    ensures NoNewNull(s, NextPredict(x, cat, r, fuel, s).s)
  {
    var l' := ContsMade(s, l, cat, r);
    var s1, t := WithConts(WithContss(s, cat), cat, r), NextPredict(x, cat, r, fuel, s).s;
    forall c: CatId, q: nat, j: SetId | IsConts(t, c, q, j) && NullItem in t.store.sets[j]
      ensures IsConts(s, c, q, j) && NullItem in s.store.sets[j]
    {
      assert IsConts(s1, c, q, j) && NullItem in s1.store.sets[j];
    }
  }

  lemma NullComplete(s: State, x: Item, fuel: nat)
    requires NextComplete(x, fuel, s).Then? && KeysBelow(s)
    ensures NoNewNull(s, NextComplete(x, fuel, s).s)
  {
    var t := NextComplete(x, fuel, s).s;
    forall cat: CatId, r: nat, j: SetId | IsConts(t, cat, r, j) ensures IsConts(s, cat, r, j) {
      assert cat in s.contsMap;
    }
  }

  lemma RootsStep(s: State, l: Links, stack: seq<Call>, pick: Option<Item>)
    requires stack != [] && Sound(s, l, Hot([stack[0]])) && KeysBelow(s) && RootsStarted(s, stack) && Fuelled(stack)
    requires Next(stack[0], s, pick).Then? && Later(s, Next(stack[0], s, pick).s)
    ensures var o := Next(stack[0], s, pick); RootsStarted(o.s, o.calls + stack[1..]) && Fuelled(o.calls + stack[1..])
  {
    var o := Next(stack[0], s, pick);
    StepFuelled(s, stack, pick);
    if stack[0].CPredict? && stack[0].x.NullItem? {
      RootPredicted(s, l, stack, pick);
    } else {
      NullKept(s, l, stack[0], pick);
      forall cat: CatId, r: nat, j: SetId, p |
        IsConts(o.s, cat, r, j) && NullItem in o.s.store.sets[j] && !o.s.store.cats[cat].prods.BufProds? && p in ProdsOf(o.s.store.cats[cat])
        ensures Started(j, cat, r, p) in o.s.seen || DueSoon(o.calls + stack[1..], Started(j, cat, r, p))
      {
        assert CatLater(s.store.cats[cat], o.s.store.cats[cat]);
        SoonStays(s, stack, pick, Started(j, cat, r, p));
      }
    }
  }

  lemma StepFuelled(s: State, stack: seq<Call>, pick: Option<Item>)
    requires stack != [] && Next(stack[0], s, pick).Then? && Fuelled(stack)
    ensures Fuelled(Next(stack[0], s, pick).calls + stack[1..])
  {
    var o := Next(stack[0], s, pick);
    forall i | 0 <= i < |o.calls| ensures o.calls[i].CPredict? ==> o.calls[i].x.Item? {}
  }

  lemma SoonStays(s: State, stack: seq<Call>, pick: Option<Item>, x: Item)
    requires stack != [] && Next(stack[0], s, pick).Then? && Later(s, Next(stack[0], s, pick).s)
    requires x in s.seen || DueSoon(stack, x)
    ensures var o := Next(stack[0], s, pick); x in o.s.seen || DueSoon(o.calls + stack[1..], x)
  {
    var o := Next(stack[0], s, pick);
    if x !in o.s.seen {
      var fuel: nat :| fuel > 0 && CItem(x, fuel) in stack;
      var i :| 0 <= i < |stack| && stack[i] == CItem(x, fuel);
      assert i > 0;
      assert (o.calls + stack[1..])[|o.calls| + i - 1] == stack[i];
      assert CItem(x, fuel) in o.calls + stack[1..];
    }
  }

  lemma RootPredicted(s: State, l: Links, stack: seq<Call>, pick: Option<Item>)
    requires stack != [] && stack[0].CPredict? && stack[0].x.NullItem? && stack[0].fuel > 0
    requires Sound(s, l, {}) && KeysBelow(s) && RootsStarted(s, stack)
    requires Next(stack[0], s, pick).Then? && Later(s, Next(stack[0], s, pick).s)
    ensures var o := Next(stack[0], s, pick); RootsStarted(o.s, o.calls + stack[1..])
  {
    var o, cat, r, fuel := Next(stack[0], s, pick), stack[0].cat, stack[0].r, stack[0].fuel;
    forall c: CatId, q: nat, j: SetId, p |
      IsConts(o.s, c, q, j) && NullItem in o.s.store.sets[j] && !o.s.store.cats[c].prods.BufProds? && p in ProdsOf(o.s.store.cats[c])
      ensures Started(j, c, q, p) in o.s.seen || DueSoon(o.calls + stack[1..], Started(j, c, q, p))
    {
      assert CatLater(s.store.cats[c], o.s.store.cats[c]);
      if IsConts(s, c, q, j) && NullItem in s.store.sets[j] {
        SoonStays(s, stack, pick, Started(j, c, q, p));
      } else {
        RootEntered(s, l, cat, r, fuel, c, q, j, p);
        SoonFirst(o.calls, stack[1..], Started(j, c, q, p), fuel);
      }
    }
  }

  lemma SoonFirst(calls: seq<Call>, rest: seq<Call>, x: Item, fuel: nat)
    requires CItem(x, fuel) in calls && fuel > 0
    ensures DueSoon(calls + rest, x)
  {
    assert CItem(x, fuel) in calls + rest;
  }

  lemma RootEntered(s: State, l: Links, cat: CatId, r: nat, fuel: nat, c: CatId, q: nat, j: SetId, p: Production)
    requires Sound(s, l, {}) && KeysBelow(s) && NextPredict(NullItem, cat, r, fuel, s).Then?
    requires var t := NextPredict(NullItem, cat, r, fuel, s).s;
             IsConts(t, c, q, j) && NullItem in t.store.sets[j] && p in ProdsOf(t.store.cats[c])
    requires !(IsConts(s, c, q, j) && NullItem in s.store.sets[j])
    ensures CItem(Started(j, c, q, p), fuel) in NextPredict(NullItem, cat, r, fuel, s).calls
  {
    var l' := ContsMade(s, l, cat, r);
    var s1, o := WithConts(WithContss(s, cat), cat, r), NextPredict(NullItem, cat, r, fuel, s);
    var k := s1.contsMap[cat][r].value;
    assert IsConts(s1, c, q, j) && IsConts(s1, cat, r, k);
    ContsUnique(s1, l', cat, r, k);
    assert j == k;
    var prods := ProdsOf(s1.store.cats[cat]);
    var i :| 0 <= i < |prods| && prods[i] == p;
    assert o.calls[i] == CItem(Started(j, cat, r, p), fuel);
  }

  lemma {:induction false} RootsRun(s: State, l: Links, stack: seq<Call>, picks: seq<Option<Item>>, s': State)
    requires Closes(s, CallSet(stack)) && Sound(s, l, Hot(stack)) && StackOk(s, l, stack)
    requires RootsStarted(s, stack) && Fuelled(stack) && Runs.Replay(Next, s, stack, picks) == Some(s')
    ensures RootsStarted(s', [])
    decreases |picks|
  {
    if stack != [] {
      var o := Next(stack[0], s, picks[0]);
      var l' := StepCloses(s, l, stack, picks[0]);
      assert Hot([stack[0]]) == Hot(stack);
      RootsStep(s, l, stack, picks[0]);
      RootsRun(o.s, l', o.calls + stack[1..], picks[1..], s');
    }
  }

  /** The null item waits for a start category, every production of which has been
      started. */
  ghost predicate RootExpected(s: State, c: CatId, r: nat) {
    c < |s.store.cats| && (!s.store.cats[c].prods.NullProds? ==>
      exists j: SetId :: IsConts(s, c, r, j) && NullItem in s.store.sets[j] && StartedIn(s, c, r, j))
  }

  ghost predicate StartedIn(s: State, c: CatId, r: nat, j: SetId)
    requires c < |s.store.cats|
  {
    forall p :: p in ProdsOf(s.store.cats[c]) ==> Started(j, c, r, p) in s.seen
  }

  /** Beginning a parse ends with nothing due, and with fuel every start category is
      predicted. */
  lemma BeginCloses(st: Store, cats: seq<Option<CatId>>, r: nat, fuel: nat, s': State)
    requires Orderly(st) && Ran(Fresh(st), RootCalls(cats, r, fuel), s')
    ensures Closed(s') && Later(Fresh(st), s')
    ensures forall c :: Some(c) in cats ==> Expects(s', NullItem, c, r)
    ensures forall c :: Some(c) in cats && fuel > 0 && c < |st.cats| && !st.cats[c].prods.BufProds? ==> RootExpected(s', c, r)
  {
    var l :| StoreLinked(st, l);
    var stack := RootCalls(cats, r, fuel);
    RootCallsPredict(cats, r, fuel);
    var picks :| Runs.Replay(Next, Fresh(st), stack, picks) == Some(s');
    FreshCloses(st, CallSet(stack));
    RunCloses(Fresh(st), l, stack, picks, s');
    forall c | Some(c) in cats ensures Expects(s', NullItem, c, r) {
      var i := RootCallOf(cats, r, fuel, c);
      assert Kept(s', stack[i]);
    }
    if fuel > 0 {
      RootCallsFuel(cats, r, fuel);
      RootsRun(Fresh(st), l, stack, picks, s');
      forall c | Some(c) in cats && c < |st.cats| && !st.cats[c].prods.BufProds? ensures RootExpected(s', c, r) {
        RootIsExpected(st, s', c, r);
      }
    }
  }

  lemma RootIsExpected(st: Store, s: State, c: CatId, r: nat)
    requires Later(Fresh(st), s) && Expects(s, NullItem, c, r) && RootsStarted(s, []) && c < |st.cats| && !st.cats[c].prods.BufProds?
    ensures RootExpected(s, c, r)
  {
    assert CatLater(st.cats[c], s.store.cats[c]);
    if !s.store.cats[c].prods.NullProds? {
      var j: SetId :| IsConts(s, c, r, j) && NullItem in s.store.sets[j];
      assert StartedIn(s, c, r, j);
    }
  }

  lemma {:induction false} RootCallOf(cats: seq<Option<CatId>>, r: nat, fuel: nat, c: CatId) returns (i: nat)
    requires Some(c) in cats
    ensures i < |RootCalls(cats, r, fuel)| && RootCalls(cats, r, fuel)[i] == CPredict(NullItem, c, r, fuel)
    decreases |cats|
  {
    var front := cats[..|cats| - 1];
    if cats[|cats| - 1] == Some(c) {
      i := |RootCalls(front, r, fuel)|;
    } else {
      assert Some(c) in front;
      i := RootCallOf(front, r, fuel, c);
    }
  }

  lemma {:induction false} RootCallsFuel(cats: seq<Option<CatId>>, r: nat, fuel: nat)
    requires fuel > 0
    ensures Fuelled(RootCalls(cats, r, fuel))
    decreases |cats|
  {
    if cats != [] {
      RootCallsFuel(cats[..|cats| - 1], r, fuel);
    }
  }

  /** What comes first in a production of a start category is expected. */
  ghost predicate FirstExpected(s: State, c: CatId, r: nat) {
    c < |s.store.cats| && forall p :: p in ProdsOf(s.store.cats[c]) && HasCtnt(p, r) && StartsWithToken(p, r) ==>
      ProdSyms(p, r)[0].tokens[0] in s.transitions
  }

  predicate StartsWithToken(p: Production, r: nat)
    requires HasCtnt(p, r)
  {
    ProdSyms(p, r) != [] && ProdSyms(p, r)[0].SymKS? && ProdSyms(p, r)[0].tokens != []
  }

  lemma RootFirst(s: State, c: CatId, r: nat)
    requires Closed(s) && RootExpected(s, c, r)
    ensures FirstExpected(s, c, r)
  {
    forall p | p in ProdsOf(s.store.cats[c]) && HasCtnt(p, r) && StartsWithToken(p, r)
      ensures ProdSyms(p, r)[0].tokens[0] in s.transitions
    {
      var j: SetId :| IsConts(s, c, r, j) && NullItem in s.store.sets[j] && StartedIn(s, c, r, j);
      var x := Started(j, c, r, p);
      assert BeforeToken(x) && InAgenda(s, x);
    }
  }

  /** What is in a continuation set has been expected before. */
  lemma ExpectedBefore(s: State, x: Item, cat: CatId, r: nat)
    requires cat < |s.store.cats| && r < |WithContss(s, cat).contsMap[cat]|
    requires var s1 := WithConts(WithContss(s, cat), cat, r); var j := s1.contsMap[cat][r].value;
             j < |s1.store.sets| && x in s1.store.sets[j]
    ensures Expects(s, x, cat, r)
  {
    var j := WithConts(WithContss(s, cat), cat, r).contsMap[cat][r].value;
    assert IsConts(s, cat, r, j) && x in s.store.sets[j];
  }
}
