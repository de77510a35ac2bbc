/**
 The parser does not look at names: run on a store with foreign categories and
 sets in it, it does what it does without them, up to the names of what it
 creates.
 */
module Renaming {
  import opened Wrappers
  import opened Grammar
  import opened Chart
  import opened Runs
  import opened Machine

  /** Foreign categories are inserted before category `n`, foreign item sets
      before set `m`. */
  datatype Shift = Shift(n: nat, cats: seq<CCat>, m: nat, sets: seq<set<Item>>)

  // ------------------------------------------------------------------------- renaming

  function RCat(h: Shift, c: CatId): CatId {
    if c < h.n then c else c + |h.cats|
  }

  function RSet(h: Shift, j: SetId): SetId {
    if j < h.m then j else j + |h.sets|
  }

  /** The way back, for what has been renamed. */
  function UCat(h: Shift, c: CatId): CatId {
    if c < h.n || c < |h.cats| then c else c - |h.cats|
  }

  function USet(h: Shift, j: SetId): SetId {
    if j < h.m || j < |h.sets| then j else j - |h.sets|
  }

  function RIds(h: Shift, cs: seq<CatId>): (r: seq<CatId>)
    ensures |r| == |cs| && forall i :: 0 <= i < |cs| ==> r[i] == RCat(h, cs[i])
  {
    seq(|cs|, i requires 0 <= i < |cs| => RCat(h, cs[i]))
  }

  function UIds(h: Shift, cs: seq<CatId>): (r: seq<CatId>)
    ensures |r| == |cs| && forall i :: 0 <= i < |cs| ==> r[i] == UCat(h, cs[i])
  {
    seq(|cs|, i requires 0 <= i < |cs| => UCat(h, cs[i]))
  }

  function RProd(h: Shift, p: Production): Production {
    match p
    case Apply(fun, args) => Apply(fun, RIds(h, args))
    case Coerce(c) => Coerce(RCat(h, c))
  }

  function RProds(h: Shift, ps: seq<Production>): (r: seq<Production>)
    ensures |r| == |ps| && forall i :: 0 <= i < |ps| ==> r[i] == RProd(h, ps[i])
  {
    seq(|ps|, i requires 0 <= i < |ps| => RProd(h, ps[i]))
  }

  function RCCat(h: Shift, c: CCat): CCat {
    match c.prods
    case NullProds => c
    case SeqProds(ps) => c.(prods := SeqProds(RProds(h, ps)))
    case BufProds(ps) => c.(prods := BufProds(RProds(h, ps)))
  }

  function RItem(h: Shift, x: Item): Item {
    match x
    case NullItem => NullItem
    case Item(conts, cat, prod, linIdx, args, seqIdx, tokIdx) =>
      Item(RSet(h, conts), RCat(h, cat), RProd(h, prod), linIdx, RIds(h, args), seqIdx, tokIdx)
  }

  function RItems(h: Shift, s: set<Item>): set<Item> {
    set x | x in s :: RItem(h, x)
  }

  function ROption(h: Shift, j: Option<SetId>): Option<SetId> {
    match j case None => None case Some(i) => Some(RSet(h, i))
  }

  function RContss(h: Shift, js: seq<Option<SetId>>): (r: seq<Option<SetId>>)
    ensures |r| == |js| && forall i :: 0 <= i < |js| ==> r[i] == ROption(h, js[i])
  {
    seq(|js|, i requires 0 <= i < |js| => ROption(h, js[i]))
  }

  ghost predicate CatsRel(h: Shift, a: seq<CCat>, b: seq<CCat>) {
    && h.n <= |a| && |b| == |a| + |h.cats|
    && (forall c {:trigger a[c]} :: 0 <= c < |a| ==> b[RCat(h, c)] == RCCat(h, a[c]))
    && (forall i :: 0 <= i < |h.cats| ==> b[h.n + i] == h.cats[i])
  }

  ghost predicate SetsRel(h: Shift, a: seq<set<Item>>, b: seq<set<Item>>) {
    && h.m <= |a| && |b| == |a| + |h.sets|
    && (forall j {:trigger a[j]} :: 0 <= j < |a| ==> b[RSet(h, j)] == RItems(h, a[j]))
    && (forall i :: 0 <= i < |h.sets| ==> b[h.m + i] == h.sets[i])
  }

  ghost predicate TransitionsRel(h: Shift, a: map<Token, SetId>, b: map<Token, SetId>) {
    forall t :: (t in a <==> t in b) && (t in a ==> b[t] == RSet(h, a[t]))
  }

  ghost predicate ContsRel(h: Shift, a: map<CatId, seq<Option<SetId>>>, b: map<CatId, seq<Option<SetId>>>) {
    && (forall c {:trigger c in a} {:trigger a[c]} :: c in a ==> RCat(h, c) in b && b[RCat(h, c)] == RContss(h, a[c]))
    && (forall c {:trigger RCat(h, c) in b} :: RCat(h, c) in b ==> c in a)
  }

  ghost predicate GeneratedRel(h: Shift, a: map<SetId, CatId>, b: map<SetId, CatId>) {
    && (forall j {:trigger j in a} {:trigger a[j]} :: j in a ==> RSet(h, j) in b && b[RSet(h, j)] == RCat(h, a[j]))
    && (forall j {:trigger RSet(h, j) in b} :: RSet(h, j) in b ==> j in a)
  }

  /** The second state is the first one with the foreign parts inserted into its
      store and everything renamed accordingly. */
  ghost predicate Renamed(h: Shift, s: State, t: State) {
    && CatsRel(h, s.store.cats, t.store.cats) && SetsRel(h, s.store.sets, t.store.sets)
    && TransitionsRel(h, s.transitions, t.transitions) && t.completed == RIds(h, s.completed)
    && t.seen == RItems(h, s.seen)
    && ContsRel(h, s.contsMap, t.contsMap) && GeneratedRel(h, s.generated, t.generated)
    && t.starved == RItems(h, s.starved) && t.unsettled == RSets(h, s.unsettled)
  }

  function RSets(h: Shift, js: set<SetId>): set<SetId> {
    set j | j in js :: RSet(h, j)
  }

  function RCall(h: Shift, call: Call): Call {
    match call
    case CItem(x, fuel) => CItem(RItem(h, x), fuel)
    case CPredict(x, cat, r, fuel) => CPredict(RItem(h, x), RCat(h, cat), r, fuel)
    case CServe(x, conts, fuel) => CServe(RItem(h, x), RSet(h, conts), fuel)
    case CCombine(x, c, fuel) => CCombine(RItem(h, x), RCat(h, c), fuel)
    case CComplete(x, fuel) => CComplete(RItem(h, x), fuel)
    case CStart(cat, r, prod, fuel) => CStart(RCat(h, cat), r, RProd(h, prod), fuel)
    case CWalk(conts, c, start, rest, fuel) =>
      CWalk(RSet(h, conts), RCat(h, c), RItems(h, start), RItems(h, rest), fuel)
    case CWander(conts, c, fuel) => CWander(RSet(h, conts), RCat(h, c), fuel)
    case CScan(rest, fuel) => CScan(RItems(h, rest), fuel)
  }

  function RCalls(h: Shift, calls: seq<Call>): (r: seq<Call>)
    ensures |r| == |calls| && forall i :: 0 <= i < |calls| ==> r[i] == RCall(h, calls[i])
  {
    seq(|calls|, i requires 0 <= i < |calls| => RCall(h, calls[i]))
  }

  function RPick(h: Shift, pick: Option<Item>): Option<Item> {
    match pick case None => None case Some(x) => Some(RItem(h, x))
  }

  function RPicks(h: Shift, picks: seq<Option<Item>>): (r: seq<Option<Item>>)
    ensures |r| == |picks| && forall i :: 0 <= i < |picks| ==> r[i] == RPick(h, picks[i])
  {
    seq(|picks|, i requires 0 <= i < |picks| => RPick(h, picks[i]))
  }

  /** The second effect is the first one renamed. */
  ghost predicate Matches(h: Shift, o: Effect, o': Effect) {
    if o.Stuck? then o'.Stuck?
    else o'.Then? && Renamed(h, o.s, o'.s) && o'.calls == RCalls(h, o.calls)
  }

  // ---------------------------------------------------------------------------- items

  function UProd(h: Shift, p: Production): Production {
    match p
    case Apply(fun, args) => Apply(fun, UIds(h, args))
    case Coerce(c) => Coerce(UCat(h, c))
  }

  function UItem(h: Shift, x: Item): Item {
    match x
    case NullItem => NullItem
    case Item(conts, cat, prod, linIdx, args, seqIdx, tokIdx) =>
      Item(USet(h, conts), UCat(h, cat), UProd(h, prod), linIdx,
           UIds(h, args), seqIdx, tokIdx)
  }

  lemma ItemBack(h: Shift, x: Item)
    ensures UItem(h, RItem(h, x)) == x
  {
    if x.Item? {
      assert UIds(h, RIds(h, x.args)) == x.args;
      if x.prod.Apply? {
        assert UIds(h, RIds(h, x.prod.args)) == x.prod.args;
      }
    }
  }

  lemma ItemIn(h: Shift, s: set<Item>, x: Item)
    ensures RItem(h, x) in RItems(h, s) <==> x in s
  {
    ItemBack(h, x);
    if RItem(h, x) in RItems(h, s) {
      var y :| y in s && RItem(h, y) == RItem(h, x);
      ItemBack(h, y);
    }
  }

  lemma ItemsAdd(h: Shift, s: set<Item>, x: Item)
    ensures RItems(h, s + {x}) == RItems(h, s) + {RItem(h, x)}
  {}

  lemma ItemsRemove(h: Shift, s: set<Item>, x: Item)
    ensures RItems(h, s - {x}) == RItems(h, s) - {RItem(h, x)}
  {
    forall y | y in s && y != x ensures RItem(h, y) != RItem(h, x) {
      ItemBack(h, x);
      ItemBack(h, y);
    }
  }

  lemma ItemsSame(h: Shift, s: set<Item>, t: set<Item>)
    ensures RItems(h, s) == RItems(h, t) <==> s == t
  {
    if RItems(h, s) == RItems(h, t) {
      forall x ensures x in s <==> x in t {
        ItemIn(h, s, x);
        ItemIn(h, t, x);
      }
    }
  }

  /** Renaming changes no symbol and no argument count, and commutes with moving
      an item on. */
  lemma ItemShape(h: Shift, x: Item)
    requires x.Item?
    ensures var y := RItem(h, x);
            && y.Item? && |y.args| == |x.args| && |ProdArgs(y.prod)| == |ProdArgs(x.prod)|
            && (HasCtnt(y.prod, y.linIdx) <==> HasCtnt(x.prod, x.linIdx))
            && (HasCtnt(x.prod, x.linIdx) ==> CurrSym(y) == CurrSym(x))
            && (BeforeCat(y) <==> BeforeCat(x)) && (BeforeToken(y) <==> BeforeToken(x))
  {}

  lemma CombinedRenamed(h: Shift, x: Item, c: CatId)
    requires BeforeCat(x)
    ensures BeforeCat(RItem(h, x)) && Combined(RItem(h, x), RCat(h, c)) == RItem(h, Combined(x, c))
  {
    ItemShape(h, x);
    var d := CurrSym(x).value.d;
    assert RIds(h, x.args[d := c]) == RIds(h, x.args)[d := RCat(h, c)];
  }

  lemma ScannedRenamed(h: Shift, x: Item)
    requires BeforeToken(x)
    ensures BeforeToken(RItem(h, x)) && Scanned(RItem(h, x)) == RItem(h, Scanned(x))
  {
    ItemShape(h, x);
  }

  lemma WithArgsRenamed(h: Shift, p: Production, args: seq<CatId>)
    requires |args| == |ProdArgs(p)|
    ensures |RIds(h, args)| == |ProdArgs(RProd(h, p))|
    ensures WithArgs(RProd(h, p), RIds(h, args)) == RProd(h, WithArgs(p, args))
  {}

  lemma StartedRenamed(h: Shift, conts: SetId, cat: CatId, r: nat, p: Production)
    ensures Started(RSet(h, conts), RCat(h, cat), r, RProd(h, p)) == RItem(h, Started(conts, cat, r, p))
  {
    assert ProdArgs(RProd(h, p)) == RIds(h, ProdArgs(p));
  }

  // --------------------------------------------------------------------------- tables

  lemma CatsAt(h: Shift, a: seq<CCat>, b: seq<CCat>, c: CatId)
    requires CatsRel(h, a, b)
    ensures RCat(h, c) < |b| <==> c < |a|
    ensures c < |a| ==> b[RCat(h, c)] == RCCat(h, a[c])
    ensures c < |a| ==> b[RCat(h, c)].cnccat == a[c].cnccat && ProdsOf(b[RCat(h, c)]) == RProds(h, ProdsOf(a[c]))
    ensures c < |a| ==> (b[RCat(h, c)].prods.NullProds? <==> a[c].prods.NullProds?)
    ensures c < |a| ==> (b[RCat(h, c)].prods.BufProds? <==> a[c].prods.BufProds?)
  {}

  lemma CatsUpdate(h: Shift, a: seq<CCat>, b: seq<CCat>, c: CatId, v: CCat)
    requires CatsRel(h, a, b) && c < |a|
    ensures RCat(h, c) < |b| && CatsRel(h, a[c := v], b[RCat(h, c) := RCCat(h, v)])
  {}

  lemma CatsPush(h: Shift, a: seq<CCat>, b: seq<CCat>, v: CCat)
    requires CatsRel(h, a, b)
    ensures |b| == RCat(h, |a|) && CatsRel(h, a + [v], b + [RCCat(h, v)])
  {}

  lemma SetsAt(h: Shift, a: seq<set<Item>>, b: seq<set<Item>>, j: SetId)
    requires SetsRel(h, a, b)
    ensures RSet(h, j) < |b| <==> j < |a|
    ensures j < |a| ==> b[RSet(h, j)] == RItems(h, a[j])
  {}

  lemma SetsAdd(h: Shift, a: seq<set<Item>>, b: seq<set<Item>>, j: SetId, x: Item)
    requires SetsRel(h, a, b) && j < |a|
    ensures RSet(h, j) < |b|
    ensures SetsRel(h, a[j := a[j] + {x}], b[RSet(h, j) := b[RSet(h, j)] + {RItem(h, x)}])
  {
    ItemsAdd(h, a[j], x);
  }

  lemma SetsPush(h: Shift, a: seq<set<Item>>, b: seq<set<Item>>)
    requires SetsRel(h, a, b)
    ensures |b| == RSet(h, |a|) && SetsRel(h, a + [{}], b + [{}])
  {
    assert RItems(h, {}) == {};
  }

  lemma TransitionsPut(h: Shift, a: map<Token, SetId>, b: map<Token, SetId>, tok: Token, j: SetId)
    requires TransitionsRel(h, a, b)
    ensures TransitionsRel(h, a[tok := j], b[tok := RSet(h, j)])
  {}

  lemma ContsPut(h: Shift, a: map<CatId, seq<Option<SetId>>>, b: map<CatId, seq<Option<SetId>>>, c: CatId, js: seq<Option<SetId>>)
    requires ContsRel(h, a, b)
    ensures ContsRel(h, a[c := js], b[RCat(h, c) := RContss(h, js)])
  {}

  lemma GeneratedPut(h: Shift, a: map<SetId, CatId>, b: map<SetId, CatId>, j: SetId, c: CatId)
    requires GeneratedRel(h, a, b)
    ensures GeneratedRel(h, a[j := c], b[RSet(h, j) := RCat(h, c)])
  {}

  // -------------------------------------------------------------------------- updates

  lemma InsertedRenamed(h: Shift, s: State, t: State, j: SetId, x: Item)
    requires Renamed(h, s, t) && j < |s.store.sets|
    ensures RSet(h, j) < |t.store.sets| && Renamed(h, Inserted(s, j, x), Inserted(t, RSet(h, j), RItem(h, x)))
  {
    SetsAdd(h, s.store.sets, t.store.sets, j, x);
  }

  lemma AgendaRenamed(h: Shift, s: State, t: State, tok: Token)
    requires Renamed(h, s, t)
    ensures Renamed(h, WithAgenda(s, tok), WithAgenda(t, tok))
    ensures tok in WithAgenda(s, tok).transitions && tok in WithAgenda(t, tok).transitions
    ensures WithAgenda(t, tok).transitions[tok] == RSet(h, WithAgenda(s, tok).transitions[tok])
  {
    SetsPush(h, s.store.sets, t.store.sets);
    TransitionsPut(h, s.transitions, t.transitions, tok, |s.store.sets|);
  }

  lemma ContssRenamed(h: Shift, s: State, t: State, cat: CatId)
    requires Renamed(h, s, t) && cat < |s.store.cats|
    ensures RCat(h, cat) < |t.store.cats| && Renamed(h, WithContss(s, cat), WithContss(t, RCat(h, cat)))
  {
    CatsAt(h, s.store.cats, t.store.cats, cat);
    var none := Nones(s.store.cats[cat].cnccat.nCtnts);
    ContsPut(h, s.contsMap, t.contsMap, cat, none);
    assert RContss(h, none) == none;
  }

  lemma ContsRenamed(h: Shift, s: State, t: State, cat: CatId, r: nat)
    requires Renamed(h, s, t) && cat in s.contsMap && r < |s.contsMap[cat]|
    ensures RCat(h, cat) in t.contsMap && r < |t.contsMap[RCat(h, cat)]|
    ensures Renamed(h, WithConts(s, cat, r), WithConts(t, RCat(h, cat), r))
  {
    SetsPush(h, s.store.sets, t.store.sets);
    var js := s.contsMap[cat];
    ContsPut(h, s.contsMap, t.contsMap, cat, js[r := Some(|s.store.sets|)]);
    assert RContss(h, js[r := Some(|s.store.sets|)]) == RContss(h, js)[r := Some(RSet(h, |s.store.sets|))];
  }

  lemma ProductionRenamed(h: Shift, s: State, t: State, c: CatId, p: Production)
    requires Renamed(h, s, t) && c < |s.store.cats| && s.store.cats[c].prods.BufProds?
    ensures RCat(h, c) < |t.store.cats| && t.store.cats[RCat(h, c)].prods.BufProds?
    ensures Renamed(h, WithProduction(s, c, p), WithProduction(t, RCat(h, c), RProd(h, p)))
  {
    var cat := s.store.cats[c];
    CatsAt(h, s.store.cats, t.store.cats, c);
    CatsUpdate(h, s.store.cats, t.store.cats, c, cat.(prods := BufProds(cat.prods.ps + [p])));
    assert RProds(h, cat.prods.ps + [p]) == RProds(h, cat.prods.ps) + [RProd(h, p)];
  }

  lemma CategoryRenamed(h: Shift, s: State, t: State, conts: SetId, b: CatId)
    requires Renamed(h, s, t) && b < |s.store.cats|
    ensures RCat(h, b) < |t.store.cats| == RCat(h, |s.store.cats|)
    ensures Renamed(h, WithCategory(s, conts, b), WithCategory(t, RSet(h, conts), RCat(h, b)))
  {
    CatsAt(h, s.store.cats, t.store.cats, b);
    var cat := CCat(s.store.cats[b].cnccat, BufProds([]));
    CatsPush(h, s.store.cats, t.store.cats, cat);
    assert RProds(h, []) == [];
    GeneratedPut(h, s.generated, t.generated, conts, |s.store.cats|);
  }

  // ------------------------------------------------------------------------ the calls

  lemma NoCalls(h: Shift)
    ensures RCalls(h, []) == []
  {}

  lemma OneCall(h: Shift, a: Call)
    ensures RCalls(h, [a]) == [RCall(h, a)]
  {}

  lemma TwoCalls(h: Shift, a: Call, b: Call)
    ensures RCalls(h, [a, b]) == [RCall(h, a), RCall(h, b)]
  {}

  lemma NextTokenRenamed(h: Shift, tok: Token, x: Item, s: State, t: State)
    requires Renamed(h, s, t)
    ensures Matches(h, NextToken(tok, x, s), NextToken(tok, RItem(h, x), t))
  {
    AgendaRenamed(h, s, t, tok);
    NoCalls(h);
    var s1, t1 := WithAgenda(s, tok), WithAgenda(t, tok);
    var j := s1.transitions[tok];
    SetsAt(h, s1.store.sets, t1.store.sets, j);
    if j < |s1.store.sets| {
      InsertedRenamed(h, s1, t1, j, x);
    }
  }

  lemma SeenRenamed(h: Shift, s: State, t: State, x: Item)
    requires Renamed(h, s, t)
    ensures RItem(h, x) in t.seen <==> x in s.seen
    ensures Renamed(h, s.(seen := s.seen + {x}), t.(seen := t.seen + {RItem(h, x)}))
  {
    ItemIn(h, s.seen, x);
    ItemsAdd(h, s.seen, x);
  }

  lemma NextSymbolRenamed(h: Shift, x: Item, sym: Option<Symbol>, fuel: nat, s: State, t: State)
    requires Renamed(h, s, t) && x.Item?
    ensures Matches(h, NextSymbol(x, sym, fuel, s), NextSymbol(RItem(h, x), sym, fuel, t))
  {
    match sym
    case None => OneCall(h, CComplete(x, fuel));
    case Some(SymCat(d, r)) =>
      if d < |x.args| {
        OneCall(h, CPredict(x, x.args[d], r, fuel));
      }
    case Some(SymKS(tokens)) =>
      if x.tokIdx < |tokens| {
        NextTokenRenamed(h, tokens[x.tokIdx], x, s, t);
      }
  }

  lemma NextItemRenamed(h: Shift, x: Item, fuel: nat, s: State, t: State)
    requires Renamed(h, s, t)
    ensures Matches(h, NextItem(x, fuel, s), NextItem(RItem(h, x), fuel, t))
  {
    NoCalls(h);
    SeenRenamed(h, s, t, x);
    ItemsAdd(h, s.starved, x);
    if fuel > 0 && x !in s.seen && x.Item? {
      ItemShape(h, x);
      if HasCtnt(x.prod, x.linIdx) {
        NextSymbolRenamed(h, x, CurrSym(x), fuel - 1, s.(seen := s.seen + {x}), t.(seen := t.seen + {RItem(h, x)}));
      }
    }
  }

  lemma StartCallsRenamed(h: Shift, prods: seq<Production>, conts: SetId, cat: CatId, r: nat, fuel: nat)
    ensures StartCalls(RProds(h, prods), RSet(h, conts), RCat(h, cat), r, fuel)
         == RCalls(h, StartCalls(prods, conts, cat, r, fuel))
  {
    forall i | 0 <= i < |prods|
      ensures StartCalls(RProds(h, prods), RSet(h, conts), RCat(h, cat), r, fuel)[i]
           == RCall(h, StartCalls(prods, conts, cat, r, fuel)[i])
    {
      StartedRenamed(h, conts, cat, r, prods[i]);
    }
  }

  lemma CallsAppend(h: Shift, a: seq<Call>, b: seq<Call>)
    ensures RCalls(h, a + b) == RCalls(h, a) + RCalls(h, b)
  {}

  lemma NextEnterRenamed(h: Shift, x: Item, cat: CatId, r: nat, j: SetId, fuel: nat, s: State, t: State)
    requires Renamed(h, s, t) && cat < |s.store.cats| && j < |s.store.sets|
    ensures RCat(h, cat) < |t.store.cats| && RSet(h, j) < |t.store.sets|
    ensures Matches(h, NextEnter(x, cat, r, j, fuel, s), NextEnter(RItem(h, x), RCat(h, cat), r, RSet(h, j), fuel, t))
  {
    CatsAt(h, s.store.cats, t.store.cats, cat);
    SetsAt(h, s.store.sets, t.store.sets, j);
    ItemIn(h, s.store.sets[j], x);
    OneCall(h, CServe(x, j, fuel));
    var prods := ProdsOf(s.store.cats[cat]);
    InsertedRenamed(h, s, t, j, x);
    StartCallsRenamed(h, prods, j, cat, r, fuel);
    CallsAppend(h, StartCalls(prods, j, cat, r, fuel), [CServe(x, j, fuel)]);
  }

  lemma NextContsRenamed(h: Shift, x: Item, cat: CatId, r: nat, fuel: nat, s: State, t: State)
    requires Renamed(h, s, t) && cat < |s.store.cats| && cat in s.contsMap
    ensures RCat(h, cat) < |t.store.cats| && RCat(h, cat) in t.contsMap
    ensures Matches(h, NextConts(x, cat, r, fuel, s), NextConts(RItem(h, x), RCat(h, cat), r, fuel, t))
  {
    CatsAt(h, s.store.cats, t.store.cats, cat);
    if r < |s.contsMap[cat]| {
      ContsRenamed(h, s, t, cat, r);
      var s1, t1 := WithConts(s, cat, r), WithConts(t, RCat(h, cat), r);
      var j := s1.contsMap[cat][r].value;
      SetsAt(h, s1.store.sets, t1.store.sets, j);
      if j < |s1.store.sets| {
        NextEnterRenamed(h, x, cat, r, j, fuel, s1, t1);
      }
    }
  }

  lemma NextPredictRenamed(h: Shift, x: Item, cat: CatId, r: nat, fuel: nat, s: State, t: State)
    requires Renamed(h, s, t)
    ensures Matches(h, NextPredict(x, cat, r, fuel, s), NextPredict(RItem(h, x), RCat(h, cat), r, fuel, t))
  {
    NoCalls(h);
    CatsAt(h, s.store.cats, t.store.cats, cat);
    if cat < |s.store.cats| && !s.store.cats[cat].prods.NullProds? {
      ContssRenamed(h, s, t, cat);
      NextContsRenamed(h, x, cat, r, fuel, WithContss(s, cat), WithContss(t, RCat(h, cat)));
    }
  }

  lemma RestartCallsRenamed(h: Shift, n: nat, cat: CatId, p: Production, fuel: nat)
    ensures RestartCalls(n, RCat(h, cat), RProd(h, p), fuel) == RCalls(h, RestartCalls(n, cat, p, fuel))
  {}

  lemma NextAgainRenamed(h: Shift, c: CatId, p: Production, fuel: nat, s: State, t: State)
    requires Renamed(h, s, t)
    ensures Matches(h, NextAgain(c, p, fuel, s), NextAgain(RCat(h, c), RProd(h, p), fuel, t))
  {
    CatsAt(h, s.store.cats, t.store.cats, c);
    if c < |s.store.cats| && s.store.cats[c].prods.BufProds? {
      ProductionRenamed(h, s, t, c, p);
      var s0, t0 := WithProduction(s, c, p), WithProduction(t, RCat(h, c), RProd(h, p));
      ContssRenamed(h, s0, t0, c);
      var s1 := WithContss(s0, c);
      assert c in s1.contsMap;
      RestartCallsRenamed(h, |s1.contsMap[c]|, c, p, fuel);
    }
  }

  lemma NextFirstRenamed(h: Shift, x: Item, p: Production, fuel: nat, s: State, t: State)
    requires Renamed(h, s, t) && x.Item? && x.cat < |s.store.cats| && x.conts < |s.store.sets|
    ensures RCat(h, x.cat) < |t.store.cats| && RSet(h, x.conts) < |t.store.sets|
    ensures Matches(h, NextFirst(x, p, fuel, s), NextFirst(RItem(h, x), RProd(h, p), fuel, t))
  {
    SetsAt(h, s.store.sets, t.store.sets, x.conts);
    CategoryRenamed(h, s, t, x.conts, x.cat);
    var s0, t0 := WithCategory(s, x.conts, x.cat), WithCategory(t, RSet(h, x.conts), RCat(h, x.cat));
    ProductionRenamed(h, s0, t0, |s.store.cats|, p);
    var waiting := s.store.sets[x.conts];
    OneCall(h, CWalk(x.conts, |s.store.cats|, waiting, waiting, fuel));
  }

  lemma NextCompleteRenamed(h: Shift, x: Item, fuel: nat, s: State, t: State)
    requires Renamed(h, s, t)
    ensures Matches(h, NextComplete(x, fuel, s), NextComplete(RItem(h, x), fuel, t))
  {
    if x.Item? && |x.args| == |ProdArgs(x.prod)| {
      ItemShape(h, x);
      WithArgsRenamed(h, x.prod, x.args);
      var p := WithArgs(x.prod, x.args);
      CatsAt(h, s.store.cats, t.store.cats, x.cat);
      SetsAt(h, s.store.sets, t.store.sets, x.conts);
      if x.conts in s.generated {
        NextAgainRenamed(h, s.generated[x.conts], p, fuel, s, t);
      } else {
        assert RSet(h, x.conts) !in t.generated;
        if x.cat < |s.store.cats| && x.conts < |s.store.sets| {
          NextFirstRenamed(h, x, p, fuel, s, t);
        }
      }
    }
  }

  lemma NextStartRenamed(h: Shift, cat: CatId, r: nat, p: Production, fuel: nat, s: State, t: State)
    requires Renamed(h, s, t)
    ensures Matches(h, NextStart(cat, r, p, fuel, s), NextStart(RCat(h, cat), r, RProd(h, p), fuel, t))
  {
    NoCalls(h);
    if cat in s.contsMap && r < |s.contsMap[cat]| && s.contsMap[cat][r].Some? {
      var j := s.contsMap[cat][r].value;
      StartedRenamed(h, j, cat, r, p);
      OneCall(h, CItem(Started(j, cat, r, p), fuel));
    }
  }

  lemma NextServeRenamed(h: Shift, x: Item, conts: SetId, fuel: nat, s: State, t: State)
    requires Renamed(h, s, t)
    ensures Matches(h, NextServe(x, conts, fuel, s), NextServe(RItem(h, x), RSet(h, conts), fuel, t))
  {
    NoCalls(h);
    if conts in s.generated {
      OneCall(h, CCombine(x, s.generated[conts], fuel));
    }
  }

  lemma NextCombineRenamed(h: Shift, x: Item, c: CatId, fuel: nat, s: State, t: State)
    requires Renamed(h, s, t)
    ensures Matches(h, NextCombine(x, c, fuel, s), NextCombine(RItem(h, x), RCat(h, c), fuel, t))
  {
    NoCalls(h);
    if x.NullItem? {
      assert RIds(h, s.completed + [c]) == RIds(h, s.completed) + [RCat(h, c)];
    } else {
      ItemShape(h, x);
      if BeforeCat(x) {
        CombinedRenamed(h, x, c);
        OneCall(h, CItem(Combined(x, c), fuel));
      }
    }
  }

  lemma NextWalkRenamed(h: Shift, conts: SetId, c: CatId, start: set<Item>, rest: set<Item>, fuel: nat,
                        s: State, t: State, pick: Option<Item>)
    requires Renamed(h, s, t)
    ensures Matches(h, NextWalk(conts, c, start, rest, fuel, s, pick),
                    NextWalk(RSet(h, conts), RCat(h, c), RItems(h, start), RItems(h, rest), fuel, t, RPick(h, pick)))
  {
    NoCalls(h);
    SetsAt(h, s.store.sets, t.store.sets, conts);
    OneCall(h, CWander(conts, c, fuel));
    ItemsSame(h, rest, {});
    assert RItems(h, {}) == {};
    assert RSets(h, s.unsettled + {conts}) == RSets(h, s.unsettled) + {RSet(h, conts)};
    if conts < |s.store.sets| {
      ItemsSame(h, s.store.sets[conts], start);
      if pick.Some? {
        ItemIn(h, rest, pick.value);
        ItemsRemove(h, rest, pick.value);
        TwoCalls(h, CCombine(pick.value, c, fuel), CWalk(conts, c, start, rest - {pick.value}, fuel));
      }
    }
  }

  lemma NextWanderRenamed(h: Shift, conts: SetId, c: CatId, fuel: nat, s: State, t: State, pick: Option<Item>)
    requires Renamed(h, s, t)
    ensures Matches(h, NextWander(conts, c, fuel, s, pick), NextWander(RSet(h, conts), RCat(h, c), fuel, t, RPick(h, pick)))
  {
    NoCalls(h);
    SetsAt(h, s.store.sets, t.store.sets, conts);
    if pick.Some? && conts < |s.store.sets| {
      ItemIn(h, s.store.sets[conts], pick.value);
      TwoCalls(h, CCombine(pick.value, c, fuel), CWander(conts, c, fuel));
    }
  }

  lemma NextScanRenamed(h: Shift, rest: set<Item>, fuel: nat, s: State, t: State, pick: Option<Item>)
    requires Renamed(h, s, t)
    ensures Matches(h, NextScan(rest, fuel, s, pick), NextScan(RItems(h, rest), fuel, t, RPick(h, pick)))
  {
    NoCalls(h);
    ItemsSame(h, rest, {});
    assert RItems(h, {}) == {};
    if pick.Some? {
      var x := pick.value;
      ItemIn(h, rest, x);
      ItemsRemove(h, rest, x);
      if x.Item? {
        ItemShape(h, x);
        if BeforeToken(x) {
          ScannedRenamed(h, x);
          TwoCalls(h, CItem(Scanned(x), fuel), CScan(rest - {x}, fuel));
        }
      }
    }
  }

  /** One call, renamed, does the same thing renamed. */
  lemma NextRenamed(h: Shift, call: Call, s: State, t: State, pick: Option<Item>)
    requires Renamed(h, s, t)
    ensures Matches(h, Next(call, s, pick), Next(RCall(h, call), t, RPick(h, pick)))
  {
    if pick == None || Picks(call) {
      match call
      case CItem(x, fuel) => NextItemRenamed(h, x, fuel, s, t);
      case CPredict(x, cat, r, fuel) => NextPredictRenamed(h, x, cat, r, fuel, s, t);
      case CServe(x, conts, fuel) => NextServeRenamed(h, x, conts, fuel, s, t);
      case CCombine(x, c, fuel) => NextCombineRenamed(h, x, c, fuel, s, t);
      case CComplete(x, fuel) => NextCompleteRenamed(h, x, fuel, s, t);
      case CStart(cat, r, p, fuel) => NextStartRenamed(h, cat, r, p, fuel, s, t);
      case CWalk(conts, c, start, rest, fuel) => NextWalkRenamed(h, conts, c, start, rest, fuel, s, t, pick);
      case CWander(conts, c, fuel) => NextWanderRenamed(h, conts, c, fuel, s, t, pick);
      case CScan(rest, fuel) => NextScanRenamed(h, rest, fuel, s, t, pick);
    }
  }

  // ------------------------------------------------------------------------------ runs

  lemma {:induction false} ReplayRenamed(h: Shift, s: State, t: State, stack: seq<Call>, picks: seq<Option<Item>>)
    requires Renamed(h, s, t)
    ensures var r, r' := Replay(Next, s, stack, picks), Replay(Next, t, RCalls(h, stack), RPicks(h, picks));
            (r.Some? <==> r'.Some?) && (r.Some? ==> Renamed(h, r.value, r'.value))
    decreases |picks|
  {
    if stack != [] && picks != [] {
      NextRenamed(h, stack[0], s, t, picks[0]);
      var o, o' := Next(stack[0], s, picks[0]), Next(RCall(h, stack[0]), t, RPick(h, picks[0]));
      assert RPicks(h, picks)[1..] == RPicks(h, picks[1..]);
      if o.Then? {
        CallsAppend(h, o.calls, stack[1..]);
        assert RCalls(h, stack)[1..] == RCalls(h, stack[1..]);
        ReplayRenamed(h, o.s, o'.s, o.calls + stack[1..], picks[1..]);
      }
    }
  }

  function UPick(h: Shift, pick: Option<Item>): Option<Item> {
    match pick case None => None case Some(x) => Some(UItem(h, x))
  }

  lemma PickedBack(h: Shift, s: set<Item>, x: Item)
    requires x in RItems(h, s)
    ensures RItem(h, UItem(h, x)) == x
  {
    var y :| y in s && RItem(h, y) == x;
    ItemBack(h, y);
  }

  /** Whatever a renamed call picks is the renaming of something. */
  lemma PickBack(h: Shift, call: Call, s: State, t: State, pick: Option<Item>)
    requires Renamed(h, s, t) && Next(RCall(h, call), t, pick).Then?
    ensures RPick(h, UPick(h, pick)) == pick
  {
    if pick.Some? {
      match call
      case CWalk(conts, c, start, rest, fuel) => PickedBack(h, rest, pick.value);
      case CWander(conts, c, fuel) =>
        SetsAt(h, s.store.sets, t.store.sets, conts);
        PickedBack(h, s.store.sets[conts], pick.value);
      case CScan(rest, fuel) => PickedBack(h, rest, pick.value);
    }
  }

  lemma {:induction false} ReplayBack(h: Shift, s: State, t: State, stack: seq<Call>, picks: seq<Option<Item>>)
      returns (back: seq<Option<Item>>)
    requires Renamed(h, s, t) && Replay(Next, t, RCalls(h, stack), picks).Some?
    ensures RPicks(h, back) == picks
    decreases |picks|
  {
    if stack == [] {
      return [];
    }
    var pick := UPick(h, picks[0]);
    var o, o' := Next(stack[0], s, pick), Next(RCall(h, stack[0]), t, picks[0]);
    StepBack(h, s, t, stack, picks[0]);
    var rest := ReplayBack(h, o.s, o'.s, o.calls + stack[1..], picks[1..]);
    assert [picks[0]] + picks[1..] == picks && RPicks(h, [pick] + rest) == [RPick(h, pick)] + RPicks(h, rest);
    back := [pick] + rest;
  }

  lemma StepBack(h: Shift, s: State, t: State, stack: seq<Call>, pick: Option<Item>)
    requires Renamed(h, s, t) && stack != [] && Next(RCall(h, stack[0]), t, pick).Then?
    ensures RPick(h, UPick(h, pick)) == pick && RCalls(h, stack)[0] == RCall(h, stack[0])
    ensures var o, o' := Next(stack[0], s, UPick(h, pick)), Next(RCall(h, stack[0]), t, pick);
            o.Then? && Renamed(h, o.s, o'.s) && RCalls(h, o.calls + stack[1..]) == o'.calls + RCalls(h, stack)[1..]
  {
    PickBack(h, stack[0], s, t, pick);
    NextRenamed(h, stack[0], s, t, UPick(h, pick));
    CallsAppend(h, Next(stack[0], s, UPick(h, pick)).calls, stack[1..]);
    assert RCalls(h, stack)[1..] == RCalls(h, stack[1..]);
  }

  /** The runs from a renamed state are exactly the renamed runs: each run has
      its counterpart... */
  lemma RunForth(h: Shift, s: State, t: State, stack: seq<Call>, s': State) returns (t': State)
    requires Renamed(h, s, t) && Machine.Ran(s, stack, s')
    ensures Machine.Ran(t, RCalls(h, stack), t') && Renamed(h, s', t')
  {
    var picks :| Replay(Next, s, stack, picks) == Some(s');
    ReplayRenamed(h, s, t, stack, picks);
    t' := Replay(Next, t, RCalls(h, stack), RPicks(h, picks)).value;
  }

  /** ... and is the counterpart of one. */
  lemma RunBack(h: Shift, s: State, t: State, stack: seq<Call>, t': State) returns (s': State)
    requires Renamed(h, s, t) && Machine.Ran(t, RCalls(h, stack), t')
    ensures Machine.Ran(s, stack, s') && Renamed(h, s', t')
  {
    var picks :| Replay(Next, t, RCalls(h, stack), picks) == Some(t');
    var back := ReplayBack(h, s, t, stack, picks);
    ReplayRenamed(h, s, t, stack, back);
    s' := Replay(Next, s, stack, back).value;
  }

  // ----------------------------------------------------------------- what is there already

  ghost predicate LowProd(n: nat, p: Production) {
    forall i :: 0 <= i < |ProdArgs(p)| ==> ProdArgs(p)[i] < n
  }

  ghost predicate LowItem(n: nat, m: nat, x: Item) {
    x.Item? ==> x.conts < m && x.cat < n && LowProd(n, x.prod) && forall i :: 0 <= i < |x.args| ==> x.args[i] < n
  }

  /** A store names nothing outside itself. */
  ghost predicate SelfContained(st: Store) {
    && (forall c, p :: 0 <= c < |st.cats| && p in ProdsOf(st.cats[c]) ==> LowProd(|st.cats|, p))
    && (forall j, x :: 0 <= j < |st.sets| && x in st.sets[j] ==> LowItem(|st.cats|, |st.sets|, x))
  }

  lemma LowProdSame(h: Shift, p: Production)
    requires LowProd(h.n, p)
    ensures RProd(h, p) == p
  {
    match p
    case Apply(_, args) =>
      assert ProdArgs(p) == args;
      assert RIds(h, args) == args;
    case Coerce(c) => assert ProdArgs(p)[0] == c;
  }

  lemma LowItemsSame(h: Shift, s: set<Item>)
    requires forall x :: x in s ==> LowItem(h.n, h.m, x)
    ensures RItems(h, s) == s
  {
    forall x | x in s ensures RItem(h, x) == x {
      if x.Item? {
        LowProdSame(h, x.prod);
        assert RIds(h, x.args) == x.args;
      }
    }
  }

  lemma LowCatSame(h: Shift, c: CCat)
    requires forall p :: p in ProdsOf(c) ==> LowProd(h.n, p)
    ensures RCCat(h, c) == c
  {
    var ps := ProdsOf(c);
    forall i | 0 <= i < |ps| ensures RProd(h, ps[i]) == ps[i] {
      LowProdSame(h, ps[i]);
    }
    assert RProds(h, ps) == ps;
  }

  /** What has been added to a store. */
  function Added(st: Store, st': Store): Shift
    requires st.cats <= st'.cats && st.sets <= st'.sets
  {
    Shift(|st.cats|, st'.cats[|st.cats|..], |st.sets|, st'.sets[|st.sets|..])
  }

  /** A step that begins on the larger store begins like one on the smaller. */
  lemma FreshRenamed(st: Store, st': Store)
    requires SelfContained(st) && st.cats <= st'.cats && st.sets <= st'.sets
    ensures Renamed(Added(st, st'), Fresh(st), Fresh(st'))
    ensures forall j :: 0 <= j < |st.sets| ==> RItems(Added(st, st'), st.sets[j]) == st.sets[j]
  {
    var h := Added(st, st');
    forall c | 0 <= c < |st.cats| ensures RCCat(h, st.cats[c]) == st.cats[c] {
      LowCatSame(h, st.cats[c]);
    }
    forall j | 0 <= j < |st.sets| ensures RItems(h, st.sets[j]) == st.sets[j] {
      LowItemsSame(h, st.sets[j]);
    }
    assert CatsRel(h, st.cats, st'.cats);
    assert SetsRel(h, st.sets, st'.sets);
    assert RIds(h, []) == [] && RItems(h, {}) == {};
  }
}
