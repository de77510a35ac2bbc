/**
 No production gets into a buffer twice, whatever has been parsed.

 An item is completed at most once in a step, and a finished item can be told
 from its continuations and the production it makes: every category symbol it has
 passed put a category completed from its argument in the argument's place, so the
 production it began with is found by going back as often.
 */
module Orderliness {
  import opened Wrappers
  import opened Grammar
  import opened Chart
  import opened Machine
  import Runs

  ghost predicate DistinctBuffers(cats: seq<CCat>) {
    forall c :: 0 <= c < |cats| && cats[c].prods.BufProds? ==> Distinct(cats[c].prods.ps)
  }

  // ---------------------------------------------------------------------------- links

  /** What a continuation set waits for. */
  datatype Awaited = Awaited(cat: CatId, r: nat)

  /** The category each category was completed from, and what each item set waits
      for (`None` for an agenda). */
  datatype Links = Links(parent: seq<Option<CatId>>, waits: seq<Option<Awaited>>)

  ghost predicate Extends(l: Links, l': Links) {
    l.parent <= l'.parent && l.waits <= l'.waits
  }

  /** `n` completions back. */
  ghost function Up(parent: seq<Option<CatId>>, c: CatId, n: nat): Option<CatId>
    decreases n
  {
    if n == 0 then Some(c)
    else if c < |parent| && parent[c].Some? then Up(parent, parent[c].value, n - 1)
    else None
  }

  lemma {:induction false} UpExtends(parent: seq<Option<CatId>>, parent': seq<Option<CatId>>, c: CatId, n: nat)
    requires parent <= parent' && Up(parent, c, n).Some?
    ensures Up(parent', c, n) == Up(parent, c, n)
    decreases n
  {
    if n > 0 {
      UpExtends(parent, parent', parent[c].value, n - 1);
    }
  }

  /** How often argument `d` is among the first `k` symbols. */
  ghost function Met(syms: seq<Symbol>, k: nat, d: nat): nat
    requires k <= |syms|
  {
    if k == 0 then 0
    else Met(syms, k - 1, d) + if syms[k - 1].SymCat? && syms[k - 1].d == d then 1 else 0
  }

  /** The arguments of an item have been completed as often as its dot has passed
      them. */
  ghost predicate ArgsLinked(parent: seq<Option<CatId>>, x: Item)
    requires x.Item? && HasCtnt(x.prod, x.linIdx) && x.seqIdx <= |ProdSyms(x.prod, x.linIdx)|
  {
    |x.args| == |ProdArgs(x.prod)| &&
    forall d :: 0 <= d < |x.args| ==>
      Up(parent, x.args[d], Met(ProdSyms(x.prod, x.linIdx), x.seqIdx, d)) == Some(ProdArgs(x.prod)[d])
  }

  ghost predicate Linked(l: Links, x: Item) {
    && x.Item? && HasCtnt(x.prod, x.linIdx)
    && x.seqIdx <= |ProdSyms(x.prod, x.linIdx)|
    && (x.tokIdx > 0 ==> BeforeToken(x))
    && x.conts < |l.waits| && l.waits[x.conts] == Some(Awaited(x.cat, x.linIdx))
    && ArgsLinked(l.parent, x)
  }

  lemma LinkedExtends(l: Links, l': Links, x: Item)
    requires Extends(l, l') && Linked(l, x)
    ensures Linked(l', x)
  {
    forall d | 0 <= d < |x.args|
      ensures Up(l'.parent, x.args[d], Met(ProdSyms(x.prod, x.linIdx), x.seqIdx, d)) == Some(ProdArgs(x.prod)[d])
    {
      UpExtends(l.parent, l'.parent, x.args[d], Met(ProdSyms(x.prod, x.linIdx), x.seqIdx, d));
    }
  }

  lemma StartedLinked(l: Links, j: SetId, cat: CatId, r: nat, p: Production)
    requires j < |l.waits| && l.waits[j] == Some(Awaited(cat, r)) && HasCtnt(p, r)
    ensures Linked(l, Started(j, cat, r, p))
  {}

  lemma ScannedLinked(l: Links, x: Item)
    requires Linked(l, x) && BeforeToken(x)
    ensures Linked(l, Scanned(x))
  {}

  /** `x` stands before a category symbol whose argument is `cat`, or is the null
      item. */
  ghost predicate Waiter(l: Links, x: Item, cat: CatId) {
    x.NullItem? || (Linked(l, x) && BeforeCat(x) && x.args[CurrSym(x).value.d] == cat)
  }

  lemma CombinedLinked(l: Links, x: Item, cat: CatId, c: CatId)
    requires x.Item? && Waiter(l, x, cat) && c < |l.parent| && l.parent[c] == Some(cat)
    ensures Linked(l, Combined(x, c))
  {
    var y, syms := Combined(x, c), ProdSyms(x.prod, x.linIdx);
    forall d | 0 <= d < |y.args| ensures Up(l.parent, y.args[d], Met(syms, y.seqIdx, d)) == Some(ProdArgs(y.prod)[d]) {
      assert Up(l.parent, x.args[d], Met(syms, x.seqIdx, d)) == Some(ProdArgs(x.prod)[d]);
    }
  }

  // --------------------------------------------------------------------- finished items

  predicate Finished(x: Item) {
    x.Item? && HasCtnt(x.prod, x.linIdx) && CurrSym(x) == None && |x.args| == |ProdArgs(x.prod)|
  }

  /** A finished item can be told from its continuations and its production. */
  lemma FinishedSame(l: Links, x: Item, y: Item)
    requires Linked(l, x) && Linked(l, y) && Finished(x) && Finished(y) && x.conts == y.conts
    requires WithArgs(x.prod, x.args) == WithArgs(y.prod, y.args)
    ensures x == y
  {
    assert x.args == y.args;
    forall d | 0 <= d < |x.args| ensures ProdArgs(x.prod)[d] == ProdArgs(y.prod)[d] {
      assert Up(l.parent, x.args[d], Met(ProdSyms(x.prod, x.linIdx), x.seqIdx, d)) == Some(ProdArgs(x.prod)[d]);
    }
    assert ProdArgs(x.prod) == ProdArgs(y.prod);
    assert x.prod.Coerce? ==> x.prod.cat == ProdArgs(x.prod)[0] && y.prod.cat == ProdArgs(y.prod)[0];
  }

  // ------------------------------------------------------------------------ invariants

  ghost predicate Member(l: Links, j: SetId, x: Item) {
    && j < |l.waits|
    && match l.waits[j]
       case Some(w) => Waiter(l, x, w.cat)
       case None => Linked(l, x)
  }

  ghost predicate StoreLinked(st: Store, l: Links) {
    && |l.parent| == |st.cats| && |l.waits| == |st.sets|
    && (forall j, x :: 0 <= j < |st.sets| && x in st.sets[j] ==> Member(l, j, x))
  }

  /** A store the parser has made. */
  ghost predicate Orderly(st: Store) {
    DistinctBuffers(st.cats) && exists l :: StoreLinked(st, l)
  }

  ghost predicate ContsLinked(contsMap: map<CatId, seq<Option<SetId>>>, l: Links) {
    forall c, r :: c in contsMap && 0 <= r < |contsMap[c]| && contsMap[c][r].Some? ==>
      contsMap[c][r].value < |l.waits| && l.waits[contsMap[c][r].value] == Some(Awaited(c, r))
  }

  ghost predicate AgendasLinked(transitions: map<Token, SetId>, l: Links) {
    forall t :: t in transitions ==> transitions[t] < |l.waits| && l.waits[transitions[t]] == None
  }

  ghost predicate CompletedFrom(l: Links, j: SetId, c: CatId) {
    && j < |l.waits| && l.waits[j].Some? && c < |l.parent| && l.parent[c] == Some(l.waits[j].value.cat)
  }

  ghost predicate GeneratedLinked(cats: seq<CCat>, generated: map<SetId, CatId>, l: Links) {
    && (forall j :: j in generated ==>
          CompletedFrom(l, j, generated[j]) && generated[j] < |cats| && cats[generated[j]].prods.BufProds?)
    && (forall j, k :: j in generated && k in generated && generated[j] == generated[k] ==> j == k)
  }

  ghost predicate MadeBy(seen: set<Item>, j: SetId, p: Production) {
    exists x :: x in seen && Finished(x) && x.conts == j && WithArgs(x.prod, x.args) == p
  }

  /** Every production of a category completed in this step comes from an item. */
  ghost predicate AllMade(cats: seq<CCat>, generated: map<SetId, CatId>, seen: set<Item>) {
    forall j, p :: j in generated && generated[j] < |cats| && p in ProdsOf(cats[generated[j]]) ==> MadeBy(seen, j, p)
  }

  ghost predicate SeenLinked(seen: set<Item>, l: Links) {
    forall x :: x in seen ==> Linked(l, x)
  }

  /** All but the items in `hot` may have been completed. */
  ghost predicate Sound(s: State, l: Links, hot: set<Item>) {
    && StoreLinked(s.store, l) && DistinctBuffers(s.store.cats) && SeenLinked(s.seen, l)
    && ContsLinked(s.contsMap, l) && AgendasLinked(s.transitions, l)
    && GeneratedLinked(s.store.cats, s.generated, l)
    && AllMade(s.store.cats, s.generated, s.seen - hot)
  }

  lemma StoreExtends(st: Store, l: Links, l': Links)
    requires StoreLinked(st, l) && Extends(l, l')
    ensures forall j, x :: 0 <= j < |st.sets| && x in st.sets[j] ==> Member(l', j, x)
  {
    forall j, x | 0 <= j < |st.sets| && x in st.sets[j] ensures Member(l', j, x) {
      if x.Item? {
        LinkedExtends(l, l', x);
      }
    }
  }

  lemma SeenExtends(seen: set<Item>, l: Links, l': Links)
    requires SeenLinked(seen, l) && Extends(l, l')
    ensures SeenLinked(seen, l')
  {
    forall x | x in seen ensures Linked(l', x) {
      LinkedExtends(l, l', x);
    }
  }

  // --------------------------------------------------------------------------- updates

  lemma SeenSound(s: State, l: Links, x: Item)
    requires Sound(s, l, {}) && Linked(l, x) && x !in s.seen
    ensures Sound(s.(seen := s.seen + {x}), l, {x}) && Sound(s.(seen := s.seen + {x}), l, {})
  {
    assert s.seen + {x} - {x} == s.seen && s.seen - {} == s.seen;
    assert AllMade(s.store.cats, s.generated, s.seen + {x} - {});
  }

  lemma InsertedSound(s: State, l: Links, j: SetId, x: Item)
    requires Sound(s, l, {}) && j < |s.store.sets| && Member(l, j, x)
    ensures Sound(Inserted(s, j, x), l, {})
  {}

  lemma NewSetSound(s: State, l: Links, w: Option<Awaited>)
    requires Sound(s, l, {})
    ensures Sound(WithNewSet(s), l.(waits := l.waits + [w]), {}) && Extends(l, l.(waits := l.waits + [w]))
  {
    var l' := l.(waits := l.waits + [w]);
    StoreExtends(s.store, l, l');
    SeenExtends(s.seen, l, l');
  }

  lemma AgendaSound(s: State, l: Links, tok: Token) returns (l': Links)
    requires Sound(s, l, {})
    ensures Extends(l, l') && Sound(WithAgenda(s, tok), l', {})
    ensures var s' := WithAgenda(s, tok);
            tok in s'.transitions && s'.transitions[tok] < |l'.waits| && l'.waits[s'.transitions[tok]] == None
  {
    l' := l;
    if tok !in s.transitions {
      l' := l.(waits := l.waits + [None]);
      NewSetSound(s, l, None);
    }
  }

  lemma ContssSound(s: State, l: Links, cat: CatId)
    requires Sound(s, l, {}) && cat < |s.store.cats|
    ensures Sound(WithContss(s, cat), l, {})
  {}

  lemma ContsSound(s: State, l: Links, cat: CatId, r: nat) returns (l': Links)
    requires Sound(s, l, {}) && cat in s.contsMap && r < |s.contsMap[cat]|
    ensures Extends(l, l') && Sound(WithConts(s, cat, r), l', {})
    ensures var j := WithConts(s, cat, r).contsMap[cat][r]; j.Some? && j.value < |l'.waits| && l'.waits[j.value] == Some(Awaited(cat, r))
  {
    l' := l;
    if s.contsMap[cat][r] == None {
      l' := l.(waits := l.waits + [Some(Awaited(cat, r))]);
      NewSetSound(s, l, Some(Awaited(cat, r)));
    }
  }

  lemma CategorySound(s: State, l: Links, j: SetId, b: CatId, hot: set<Item>)
    requires Sound(s, l, hot) && b < |s.store.cats| && j !in s.generated
    requires j < |l.waits| && l.waits[j].Some? && l.waits[j].value.cat == b
    ensures var l' := l.(parent := l.parent + [Some(b)]); Extends(l, l') && Sound(WithCategory(s, j, b), l', hot)
  {
    var l', s' := l.(parent := l.parent + [Some(b)]), WithCategory(s, j, b);
    StoreExtends(s.store, l, l');
    SeenExtends(s.seen, l, l');
    assert forall c :: 0 <= c < |s.store.cats| ==> s'.store.cats[c] == s.store.cats[c];
    forall k, p | k in s'.generated && s'.generated[k] < |s'.store.cats| && p in ProdsOf(s'.store.cats[s'.generated[k]])
      ensures MadeBy(s'.seen - hot, k, p)
    {
      assert k != j;
    }
  }

  /** The production of an item that has not been completed yet is a new one. */
  lemma ProductionSound(s: State, l: Links, x: Item)
    requires Sound(s, l, {x}) && Linked(l, x) && Finished(x) && x in s.seen && x.conts in s.generated
    ensures var c := s.generated[x.conts];
            && c < |s.store.cats| && s.store.cats[c].prods.BufProds?
            && Sound(WithProduction(s, c, WithArgs(x.prod, x.args)), l, {})
  {
    var c, p := s.generated[x.conts], WithArgs(x.prod, x.args);
    var ps := s.store.cats[c].prods.ps;
    if p in ps {
      assert p in ProdsOf(s.store.cats[c]);
      var y :| y in s.seen - {x} && Finished(y) && y.conts == x.conts && WithArgs(y.prod, y.args) == p;
      FinishedSame(l, x, y);
    }
    assert Distinct(ps + [p]);
    PushedMade(s, x, c, p);
  }

  lemma PushedMade(s: State, x: Item, c: CatId, p: Production)
    requires x in s.seen && Finished(x) && x.conts in s.generated && s.generated[x.conts] == c < |s.store.cats|
    requires s.store.cats[c].prods.BufProds? && p == WithArgs(x.prod, x.args)
    requires AllMade(s.store.cats, s.generated, s.seen - {x})
    requires forall j, k :: j in s.generated && k in s.generated && s.generated[j] == s.generated[k] ==> j == k
    ensures var s' := WithProduction(s, c, p); AllMade(s'.store.cats, s'.generated, s'.seen - {})
  {
    var s' := WithProduction(s, c, p);
    forall j, q | j in s'.generated && s'.generated[j] < |s'.store.cats| && q in ProdsOf(s'.store.cats[s'.generated[j]])
      ensures MadeBy(s'.seen - {}, j, q)
    {
      if j == x.conts && q == p {
        assert x in s'.seen - {};
      } else {
        assert q in ProdsOf(s.store.cats[s.generated[j]]);
        var y :| y in s.seen - {x} && Finished(y) && y.conts == j && WithArgs(y.prod, y.args) == q;
        assert y in s'.seen - {};
      }
    }
  }

  // ------------------------------------------------------------------------------ calls

  /** What is true of a call on the stack. */
  ghost predicate CallOk(s: State, l: Links, call: Call) {
    match call
    case CItem(x, _) => x.Item? && HasCtnt(x.prod, x.linIdx) ==> Linked(l, x)
    case CPredict(x, cat, _, _) => Waiter(l, x, cat)
    case CServe(x, j, _) => j < |l.waits| && l.waits[j].Some? && Waiter(l, x, l.waits[j].value.cat)
    case CCombine(x, c, _) => c < |l.parent| && l.parent[c].Some? && Waiter(l, x, l.parent[c].value)
    case CComplete(x, _) => x in s.seen && Linked(l, x) && Finished(x)
    case CStart(_, _, _, _) => true
    case CWalk(j, c, start, rest, _) => j in s.generated && s.generated[j] == c && rest <= start
    case CWander(j, c, _) => j in s.generated && s.generated[j] == c
    case CScan(rest, _) => forall x :: x in rest ==> Linked(l, x)
  }

  ghost predicate Keeps(s: State, s': State) {
    s.seen <= s'.seen && forall j :: j in s.generated ==> j in s'.generated && s'.generated[j] == s.generated[j]
  }

  lemma CallStays(s: State, l: Links, s': State, l': Links, call: Call)
    requires CallOk(s, l, call) && Keeps(s, s') && Extends(l, l')
    ensures CallOk(s', l', call)
  {
    match call
    case CItem(x, _) => if x.Item? && HasCtnt(x.prod, x.linIdx) { LinkedExtends(l, l', x); }
    case CPredict(x, cat, _, _) => WaiterExtends(l, l', x, cat);
    case CServe(x, j, _) => WaiterExtends(l, l', x, l.waits[j].value.cat);
    case CCombine(x, c, _) => WaiterExtends(l, l', x, l.parent[c].value);
    case CComplete(x, _) => LinkedExtends(l, l', x);
    case CScan(rest, _) =>
      forall x | x in rest ensures Linked(l', x) {
        LinkedExtends(l, l', x);
      }
    case _ =>
  }

  lemma WaiterExtends(l: Links, l': Links, x: Item, cat: CatId)
    requires Waiter(l, x, cat) && Extends(l, l')
    ensures Waiter(l', x, cat)
  {
    if x.Item? {
      LinkedExtends(l, l', x);
    }
  }

  /** An item is completed right after it has been seen. */
  ghost function Hot(stack: seq<Call>): set<Item> {
    if stack != [] && stack[0].CComplete? then {stack[0].x} else {}
  }

  ghost predicate StackOk(s: State, l: Links, stack: seq<Call>) {
    && (forall i :: 0 <= i < |stack| ==> CallOk(s, l, stack[i]))
    && (forall i :: 0 < i < |stack| ==> !stack[i].CComplete?)
  }

  /** What a call has done, and has left to do, is in order. */
  ghost predicate Goes(s: State, l: Links, s': State, calls: seq<Call>, l': Links) {
    Extends(l, l') && Keeps(s, s') && Sound(s', l', Hot(calls)) && StackOk(s', l', calls)
  }

  lemma GoesOn(s: State, l: Links, s1: State, l1: Links, s': State, calls: seq<Call>, l': Links)
    requires Keeps(s, s1) && Extends(l, l1) && Goes(s1, l1, s', calls, l')
    ensures Goes(s, l, s', calls, l')
  {}

  /** A call that leaves others to do. */
  lemma LeavesCalls(s0: State, s: State, l: Links, calls: seq<Call>)
    requires Keeps(s0, s) && Sound(s, l, Hot(calls)) && StackOk(s, l, calls)
    ensures Goes(s0, l, s, calls, l)
  {}

  lemma ItemGoes(s: State, l: Links, x: Item, fuel: nat) returns (l': Links)
    requires Sound(s, l, {}) && CallOk(s, l, CItem(x, fuel)) && NextItem(x, fuel, s).Then?
    ensures var o := NextItem(x, fuel, s); Goes(s, l, o.s, o.calls, l')
  {
    l' := l;
    if fuel == 0 || x in s.seen {
      LeavesCalls(s, s, l, []);
    } else {
      l' := NewItemGoes(s, l, x, fuel);
    }
  }

  lemma NewItemGoes(s: State, l: Links, x: Item, fuel: nat) returns (l': Links)
    requires Sound(s, l, {}) && Linked(l, x) && fuel > 0 && x !in s.seen
    requires NextSymbol(x, CurrSym(x), fuel - 1, s.(seen := s.seen + {x})).Then?
    ensures var o := NextSymbol(x, CurrSym(x), fuel - 1, s.(seen := s.seen + {x})); Goes(s, l, o.s, o.calls, l')
  {
    SeenSound(s, l, x);
    l' := SymbolGoes(s, s.(seen := s.seen + {x}), l, x, fuel - 1);
  }

  lemma SymbolGoes(s0: State, s: State, l: Links, x: Item, fuel: nat) returns (l': Links)
    requires Sound(s, l, {}) && Sound(s, l, {x}) && x in s.seen && Linked(l, x) && Keeps(s0, s)
    requires NextSymbol(x, CurrSym(x), fuel, s).Then?
    ensures var o := NextSymbol(x, CurrSym(x), fuel, s); Goes(s0, l, o.s, o.calls, l')
  {
    l' := l;
    match CurrSym(x)
    case None => LeavesCalls(s0, s, l, [CComplete(x, fuel)]);
    case Some(SymCat(d, r)) => LeavesCalls(s0, s, l, [CPredict(x, x.args[d], r, fuel)]);
    case Some(SymKS(tokens)) => l' := TokenGoes(s0, s, l, tokens[x.tokIdx], x);
  }

  lemma TokenGoes(s0: State, s: State, l: Links, tok: Token, x: Item) returns (l': Links)
    requires Sound(s, l, {}) && Linked(l, x) && NextToken(tok, x, s).Then? && Keeps(s0, s)
    ensures var o := NextToken(tok, x, s); Goes(s0, l, o.s, o.calls, l')
  {
    l' := AgendaSound(s, l, tok);
    LinkedExtends(l, l', x);
    var s1 := WithAgenda(s, tok);
    var s2 := Inserted(s1, s1.transitions[tok], x);
    InsertedSound(s1, l', s1.transitions[tok], x);
    LeavesCalls(s1, s2, l', []);
    GoesOn(s0, l, s1, l', s2, [], l');
  }

  lemma PredictGoes(s: State, l: Links, x: Item, cat: CatId, r: nat, fuel: nat) returns (l': Links)
    requires Sound(s, l, {}) && Waiter(l, x, cat) && NextPredict(x, cat, r, fuel, s).Then?
    ensures var o := NextPredict(x, cat, r, fuel, s); Goes(s, l, o.s, o.calls, l')
  {
    l' := l;
    if s.store.cats[cat].prods.NullProds? {
      LeavesCalls(s, s, l, []);
    } else {
      ContssSound(s, l, cat);
      l' := ContsGoes(WithContss(s, cat), l, x, cat, r, fuel);
      var o := NextPredict(x, cat, r, fuel, s);
      GoesOn(s, l, WithContss(s, cat), l, o.s, o.calls, l');
    }
  }

  lemma ContsGoes(s: State, l: Links, x: Item, cat: CatId, r: nat, fuel: nat) returns (l': Links)
    requires Sound(s, l, {}) && Waiter(l, x, cat) && cat < |s.store.cats| && cat in s.contsMap
    requires NextConts(x, cat, r, fuel, s).Then?
    ensures var o := NextConts(x, cat, r, fuel, s); Goes(s, l, o.s, o.calls, l')
  {
    l' := ContsSound(s, l, cat, r);
    WaiterExtends(l, l', x, cat);
    var s1 := WithConts(s, cat, r);
    EnterGoes(s1, l', x, cat, r, s1.contsMap[cat][r].value, fuel);
    var o := NextConts(x, cat, r, fuel, s);
    GoesOn(s, l, s1, l', o.s, o.calls, l');
  }

  lemma EnterGoes(s: State, l: Links, x: Item, cat: CatId, r: nat, j: SetId, fuel: nat)
    requires Sound(s, l, {}) && Waiter(l, x, cat) && cat < |s.store.cats|
    requires j < |s.store.sets| && j < |l.waits| && l.waits[j] == Some(Awaited(cat, r))
    ensures var o := NextEnter(x, cat, r, j, fuel, s); Goes(s, l, o.s, o.calls, l)
  {
    if x in s.store.sets[j] {
      LeavesCalls(s, s, l, [CServe(x, j, fuel)]);
    } else {
      var s1, calls := Inserted(s, j, x), StartCalls(ProdsOf(s.store.cats[cat]), j, cat, r, fuel) + [CServe(x, j, fuel)];
      InsertedSound(s, l, j, x);
      EnterCalls(s1, l, x, cat, r, j, ProdsOf(s.store.cats[cat]), fuel);
      LeavesCalls(s, s1, l, calls);
    }
  }

  lemma EnterCalls(s: State, l: Links, x: Item, cat: CatId, r: nat, j: SetId, ps: seq<Production>, fuel: nat)
    requires Waiter(l, x, cat) && j < |l.waits| && l.waits[j] == Some(Awaited(cat, r))
    ensures var calls := StartCalls(ps, j, cat, r, fuel) + [CServe(x, j, fuel)]; StackOk(s, l, calls) && Hot(calls) == {}
  {
    forall i | 0 <= i < |ps| ensures CallOk(s, l, CItem(Started(j, cat, r, ps[i]), fuel)) {
      if HasCtnt(ps[i], r) {
        StartedLinked(l, j, cat, r, ps[i]);
      }
    }
  }

  lemma CompleteGoes(s: State, l: Links, x: Item, fuel: nat) returns (l': Links)
    requires Sound(s, l, {x}) && CallOk(s, l, CComplete(x, fuel)) && NextComplete(x, fuel, s).Then?
    ensures var o := NextComplete(x, fuel, s); Goes(s, l, o.s, o.calls, l')
  {
    if x.conts in s.generated {
      l' := l;
      AgainGoes(s, l, x, fuel);
    } else {
      l' := FirstGoes(s, l, x, fuel);
    }
  }

  lemma AgainGoes(s: State, l: Links, x: Item, fuel: nat)
    requires Sound(s, l, {x}) && x in s.seen && Linked(l, x) && Finished(x) && x.conts in s.generated
    ensures var o := NextAgain(s.generated[x.conts], WithArgs(x.prod, x.args), fuel, s); o.Then? && Goes(s, l, o.s, o.calls, l)
  {
    ProductionSound(s, l, x);
    var c, p := s.generated[x.conts], WithArgs(x.prod, x.args);
    var s1 := WithContss(WithProduction(s, c, p), c);
    ContssSound(WithProduction(s, c, p), l, c);
    LeavesCalls(s, s1, l, RestartCalls(|s1.contsMap[c]|, c, p, fuel));
  }

  lemma FirstGoes(s: State, l: Links, x: Item, fuel: nat) returns (l': Links)
    requires Sound(s, l, {x}) && x in s.seen && Linked(l, x) && Finished(x) && x.conts !in s.generated
    requires x.cat < |s.store.cats| && x.conts < |s.store.sets|
    ensures var o := NextFirst(x, WithArgs(x.prod, x.args), fuel, s); o.Then? && Goes(s, l, o.s, o.calls, l')
  {
    l' := l.(parent := l.parent + [Some(x.cat)]);
    var c, s1 := |s.store.cats|, WithCategory(s, x.conts, x.cat);
    CategorySound(s, l, x.conts, x.cat, {x});
    LinkedExtends(l, l', x);
    ProductionSound(s1, l', x);
    var s2 := WithProduction(s1, c, WithArgs(x.prod, x.args));
    LeavesCalls(s1, s2, l', [CWalk(x.conts, c, s2.store.sets[x.conts], s2.store.sets[x.conts], fuel)]);
  }

  lemma StartGoes(s: State, l: Links, cat: CatId, r: nat, p: Production, fuel: nat)
    requires Sound(s, l, {}) && NextStart(cat, r, p, fuel, s).Then?
    ensures var o := NextStart(cat, r, p, fuel, s); Goes(s, l, o.s, o.calls, l)
  {
    if s.contsMap[cat][r].Some? && HasCtnt(p, r) {
      StartedLinked(l, s.contsMap[cat][r].value, cat, r, p);
    }
  }

  lemma ServeGoes(s: State, l: Links, x: Item, j: SetId, fuel: nat)
    requires Sound(s, l, {}) && CallOk(s, l, CServe(x, j, fuel)) && NextServe(x, j, fuel, s).Then?
    ensures var o := NextServe(x, j, fuel, s); Goes(s, l, o.s, o.calls, l)
  {
    if j in s.generated {
      assert CompletedFrom(l, j, s.generated[j]);
      LeavesCalls(s, s, l, [CCombine(x, s.generated[j], fuel)]);
    } else {
      LeavesCalls(s, s, l, []);
    }
  }

  lemma CombineGoes(s: State, l: Links, x: Item, c: CatId, fuel: nat)
    requires Sound(s, l, {}) && CallOk(s, l, CCombine(x, c, fuel)) && NextCombine(x, c, fuel, s).Then?
    ensures var o := NextCombine(x, c, fuel, s); Goes(s, l, o.s, o.calls, l)
  {
    if x.Item? {
      CombinedLinked(l, x, l.parent[c].value, c);
      LeavesCalls(s, s, l, [CItem(Combined(x, c), fuel)]);
    }
  }

  /** A member of the set a category was completed from may be given it. */
  lemma PickedGoes(s: State, l: Links, j: SetId, x: Item, c: CatId, call: Call, fuel: nat)
    requires Sound(s, l, {}) && j in s.generated && s.generated[j] == c && j < |s.store.sets| && x in s.store.sets[j]
    requires CallOk(s, l, call) && !call.CComplete?
    ensures Goes(s, l, s, [CCombine(x, c, fuel), call], l)
  {
    assert Member(l, j, x) && CompletedFrom(l, j, c);
    LeavesCalls(s, s, l, [CCombine(x, c, fuel), call]);
  }

  lemma WalkGoes(s: State, l: Links, j: SetId, c: CatId, start: set<Item>, rest: set<Item>, fuel: nat, pick: Option<Item>)
    requires Sound(s, l, {}) && CallOk(s, l, CWalk(j, c, start, rest, fuel)) && NextWalk(j, c, start, rest, fuel, s, pick).Then?
    ensures var o := NextWalk(j, c, start, rest, fuel, s, pick); Goes(s, l, o.s, o.calls, l)
  {
    if pick.Some? {
      PickedGoes(s, l, j, pick.value, c, CWalk(j, c, start, rest - {pick.value}, fuel), fuel);
    } else {
      LeavesCalls(s, s, l, NextWalk(j, c, start, rest, fuel, s, pick).calls);
    }
  }

  lemma WanderGoes(s: State, l: Links, j: SetId, c: CatId, fuel: nat, pick: Option<Item>)
    requires Sound(s, l, {}) && CallOk(s, l, CWander(j, c, fuel)) && NextWander(j, c, fuel, s, pick).Then?
    ensures var o := NextWander(j, c, fuel, s, pick); Goes(s, l, o.s, o.calls, l)
  {
    if pick.Some? {
      PickedGoes(s, l, j, pick.value, c, CWander(j, c, fuel), fuel);
    } else {
      LeavesCalls(s, s, l, []);
    }
  }

  lemma ScanGoes(s: State, l: Links, rest: set<Item>, fuel: nat, pick: Option<Item>)
    requires Sound(s, l, {}) && CallOk(s, l, CScan(rest, fuel)) && NextScan(rest, fuel, s, pick).Then?
    ensures var o := NextScan(rest, fuel, s, pick); Goes(s, l, o.s, o.calls, l)
  {
    if pick.Some? {
      ScannedLinked(l, pick.value);
    }
    LeavesCalls(s, s, l, NextScan(rest, fuel, s, pick).calls);
  }

  lemma CallGoes(s: State, l: Links, call: Call, pick: Option<Item>) returns (l': Links)
    requires Sound(s, l, Hot([call])) && CallOk(s, l, call) && Next(call, s, pick).Then?
    ensures var o := Next(call, s, pick); Goes(s, l, o.s, o.calls, l')
  {
    l' := l;
    match call
    case CItem(x, fuel) => l' := ItemGoes(s, l, x, fuel);
    case CPredict(x, cat, r, fuel) => l' := PredictGoes(s, l, x, cat, r, fuel);
    case CServe(x, j, fuel) => ServeGoes(s, l, x, j, fuel);
    case CCombine(x, c, fuel) => CombineGoes(s, l, x, c, fuel);
    case CComplete(x, fuel) => l' := CompleteGoes(s, l, x, fuel);
    case CStart(cat, r, p, fuel) => StartGoes(s, l, cat, r, p, fuel);
    case CWalk(j, c, start, rest, fuel) => WalkGoes(s, l, j, c, start, rest, fuel, pick);
    case CWander(j, c, fuel) => WanderGoes(s, l, j, c, fuel, pick);
    case CScan(rest, fuel) => ScanGoes(s, l, rest, fuel, pick);
  }

  // -------------------------------------------------------------------------------- runs

  lemma {:induction false} RunSound(s: State, l: Links, stack: seq<Call>, picks: seq<Option<Item>>, s': State) returns (l': Links)
    requires Sound(s, l, Hot(stack)) && StackOk(s, l, stack) && Runs.Replay(Next, s, stack, picks) == Some(s')
    ensures Sound(s', l', {})
    decreases |picks|
  {
    if stack == [] {
      return l;
    }
    var o := Next(stack[0], s, picks[0]);
    var l1 := CallGoes(s, l, stack[0], picks[0]);
    assert Hot([stack[0]]) == Hot(stack);
    StackStays(s, l, stack, o.s, o.calls, l1);
    l' := RunSound(o.s, l1, o.calls + stack[1..], picks[1..], s');
  }

  lemma StackStays(s: State, l: Links, stack: seq<Call>, s': State, calls: seq<Call>, l': Links)
    requires stack != [] && StackOk(s, l, stack) && Goes(s, l, s', calls, l')
    ensures StackOk(s', l', calls + stack[1..]) && Hot(calls + stack[1..]) == Hot(calls)
  {
    var rest := stack[1..];
    forall i | 0 <= i < |rest| ensures CallOk(s', l', rest[i]) {
      CallStays(s, l, s', l', rest[i]);
    }
  }

  /** Whatever a step does to such a store, it makes such a store. */
  lemma StepOrderly(st: Store, l: Links, calls: seq<Call>, s': State)
    requires DistinctBuffers(st.cats) && StoreLinked(st, l) && Ran(Fresh(st), calls, s')
    requires StackOk(Fresh(st), l, calls) && Hot(calls) == {}
    ensures Orderly(s'.store)
  {
    var picks :| Runs.Replay(Next, Fresh(st), calls, picks) == Some(s');
    assert Sound(Fresh(st), l, {});
    var l' := RunSound(Fresh(st), l, calls, picks, s');
  }

  /** Feeding a token to a state of an orderly store. */
  lemma ScanOrderly(st: Store, agenda: SetId, fuel: nat, s': State)
    requires Orderly(st) && agenda < |st.sets| && (forall x :: x in st.sets[agenda] ==> BeforeToken(x))
    requires Ran(Fresh(st), [CScan(st.sets[agenda], fuel)], s')
    ensures Orderly(s'.store)
  {
    var l :| StoreLinked(st, l);
    forall x | x in st.sets[agenda] ensures Linked(l, x) {
      assert Member(l, agenda, x);
    }
    StepOrderly(st, l, [CScan(st.sets[agenda], fuel)], s');
  }

  /** Beginning a parse predicts the members of a concrete category. */
  function RootCalls(cats: seq<Option<CatId>>, r: nat, fuel: nat): seq<Call> {
    if cats == [] then [] else
    var c := cats[|cats| - 1];
    RootCalls(cats[..|cats| - 1], r, fuel) + if c.Some? then [CPredict(NullItem, c.value, r, fuel)] else []
  }

  lemma {:induction false} RootCallsPredict(cats: seq<Option<CatId>>, r: nat, fuel: nat)
    ensures forall i :: 0 <= i < |RootCalls(cats, r, fuel)| ==>
              RootCalls(cats, r, fuel)[i].CPredict? && RootCalls(cats, r, fuel)[i].x.NullItem?
    decreases |cats|
  {
    if cats != [] {
      RootCallsPredict(cats[..|cats| - 1], r, fuel);
    }
  }

  lemma RootCallsStep(s: State, cats: seq<Option<CatId>>, i: nat, r: nat, fuel: nat, s1: State, s2: State)
    requires i < |cats| && Ran(s, RootCalls(cats[..i], r, fuel), s1)
    requires if cats[i].Some? then Ran(s1, [CPredict(NullItem, cats[i].value, r, fuel)], s2) else s2 == s1
    ensures Ran(s, RootCalls(cats[..i + 1], r, fuel), s2)
  {
    assert cats[..i + 1][..i] == cats[..i];
    if cats[i].Some? {
      Both(s, RootCalls(cats[..i], r, fuel), s1, [CPredict(NullItem, cats[i].value, r, fuel)], s2);
    } else {
      assert RootCalls(cats[..i], r, fuel) + [] == RootCalls(cats[..i], r, fuel);
    }
  }

  lemma BeginOrderly(st: Store, cats: seq<Option<CatId>>, r: nat, fuel: nat, s': State)
    requires Orderly(st) && Ran(Fresh(st), RootCalls(cats, r, fuel), s')
    ensures Orderly(s'.store)
  {
    var l :| StoreLinked(st, l);
    RootCallsPredict(cats, r, fuel);
    StepOrderly(st, l, RootCalls(cats, r, fuel), s');
  }

  /** The store of a grammar as read. */
  lemma GrammarOrderly(grammar: seq<CCat>)
    requires GrammarWf(grammar)
    ensures Orderly(Store(grammar, []))
  {
    assert StoreLinked(Store(grammar, []), Links(seq(|grammar|, _ => None), []));
  }
}
