/**
 The parser as a machine: a state, a stack of pending procedure calls, and what
 one call does at once and which calls it leaves to do.  The only freedom is in
 the order in which hash sets are walked; `pick` is the item visited next.
 */
module Machine {
  import opened Wrappers
  import opened Grammar
  import opened Chart
  import opened Runs

  /** What a parsing step works on; and, for the record, the items passed over because
      the depth of the calls had run out, and the item sets that have grown while they
      were walked. */
  datatype State = State(
    store: Store,
    transitions: map<Token, SetId>,
    completed: seq<CatId>,
    seen: set<Item>,
    contsMap: map<CatId, seq<Option<SetId>>>,
    generated: map<SetId, CatId>,
    starved: set<Item>,
    unsettled: set<SetId>)

  /** A step begins with empty tables. */
  function Fresh(st: Store): State {
    State(st, map[], [], {}, map[], map[], {}, {})
  }

  datatype Call =
    | CItem(x: Item, fuel: nat)
    | CPredict(x: Item, cat: CatId, r: nat, fuel: nat)
    | CServe(x: Item, conts: SetId, fuel: nat)
    | CCombine(x: Item, c: CatId, fuel: nat)
    | CComplete(x: Item, fuel: nat)
    | CStart(cat: CatId, r: nat, prod: Production, fuel: nat)
    | CWalk(conts: SetId, c: CatId, start: set<Item>, rest: set<Item>, fuel: nat)
    | CWander(conts: SetId, c: CatId, fuel: nat)
    | CScan(rest: set<Item>, fuel: nat)

  type Effect = Outcome<State, Call>

  // ------------------------------------------------------------------- single updates

  function Inserted(s: State, j: SetId, x: Item): State
    requires j < |s.store.sets|
  {
    s.(store := s.store.(sets := s.store.sets[j := s.store.sets[j] + {x}]))
  }

  function WithNewSet(s: State): State {
    s.(store := s.store.(sets := s.store.sets + [{}]))
  }

  /** The agenda of a token, made if missing. */
  function WithAgenda(s: State, tok: Token): State {
    if tok in s.transitions then s else WithNewSet(s).(transitions := s.transitions[tok := |s.store.sets|])
  }

  function Nones(n: nat): seq<Option<SetId>> {
    seq(n, _ => None)
  }

  function WithContss(s: State, cat: CatId): State
    requires cat < |s.store.cats|
  {
    if cat in s.contsMap then s
    else s.(contsMap := s.contsMap[cat := Nones(s.store.cats[cat].cnccat.nCtnts)])
  }

  /** The continuation set of a constituent, made if missing. */
  function WithConts(s: State, cat: CatId, r: nat): State
    requires cat in s.contsMap && r < |s.contsMap[cat]|
  {
    if s.contsMap[cat][r].Some? then s
    else WithNewSet(s).(contsMap := s.contsMap[cat := s.contsMap[cat][r := Some(|s.store.sets|)]])
  }

  function WithProduction(s: State, c: CatId, p: Production): State
    requires c < |s.store.cats| && s.store.cats[c].prods.BufProds?
  {
    var cat := s.store.cats[c];
    s.(store := s.store.(cats := s.store.cats[c := cat.(prods := BufProds(cat.prods.ps + [p]))]))
  }

  function WithCategory(s: State, conts: SetId, b: CatId): State
    requires b < |s.store.cats|
  {
    s.(store := s.store.(cats := s.store.cats + [CCat(s.store.cats[b].cnccat, BufProds([]))]),
       generated := s.generated[conts := |s.store.cats|])
  }

  function WithSeen(s: State, x: Item): State {
    s.(seen := s.seen + {x})
  }

  function Grown(s: State, conts: SetId): State {
    s.(unsettled := s.unsettled + {conts})
  }

  function Started(conts: SetId, cat: CatId, r: nat, p: Production): Item {
    Item(conts, cat, p, r, ProdArgs(p), 0, 0)
  }

  function StartCalls(prods: seq<Production>, conts: SetId, cat: CatId, r: nat, fuel: nat): seq<Call> {
    seq(|prods|, i requires 0 <= i < |prods| => CItem(Started(conts, cat, r, prods[i]), fuel))
  }

  function RestartCalls(n: nat, cat: CatId, p: Production, fuel: nat): seq<Call> {
    seq(n, (r: nat) => CStart(cat, r, p, fuel))
  }

  // ----------------------------------------------------------------------- one call

  function NextItem(x: Item, fuel: nat, s: State): Effect {
    if x in s.seen then Then(s, [])
    else if fuel == 0 then Then(s.(starved := s.starved + {x}), [])
    else if x.NullItem? || !HasCtnt(x.prod, x.linIdx) then Stuck
    else NextSymbol(x, CurrSym(x), fuel - 1, s.(seen := s.seen + {x}))
  }

  function NextSymbol(x: Item, sym: Option<Symbol>, fuel: nat, s: State): Effect
    requires x.Item?
  {
    match sym
    case None => Then(s, [CComplete(x, fuel)])
    case Some(SymCat(d, r)) => if d < |x.args| then Then(s, [CPredict(x, x.args[d], r, fuel)]) else Stuck
    case Some(SymKS(tokens)) => if x.tokIdx < |tokens| then NextToken(tokens[x.tokIdx], x, s) else Stuck
  }

  function NextToken(tok: Token, x: Item, s: State): Effect {
    var s1 := WithAgenda(s, tok);
    var j := s1.transitions[tok];
    if j < |s1.store.sets| then Then(Inserted(s1, j, x), []) else Stuck
  }

  function NextPredict(x: Item, cat: CatId, r: nat, fuel: nat, s: State): Effect {
    if cat >= |s.store.cats| then Stuck
    else if s.store.cats[cat].prods.NullProds? then Then(s, [])
    else NextConts(x, cat, r, fuel, WithContss(s, cat))
  }

  function NextConts(x: Item, cat: CatId, r: nat, fuel: nat, s: State): Effect
    requires cat < |s.store.cats| && cat in s.contsMap
  {
    if r >= |s.contsMap[cat]| then Stuck else
    var s1 := WithConts(s, cat, r);
    var j := s1.contsMap[cat][r].value;
    if j >= |s1.store.sets| then Stuck else NextEnter(x, cat, r, j, fuel, s1)
  }

  /** A new continuation predicts the category. */
  function NextEnter(x: Item, cat: CatId, r: nat, j: SetId, fuel: nat, s: State): Effect
    requires cat < |s.store.cats| && j < |s.store.sets|
  {
    if x in s.store.sets[j] then Then(s, [CServe(x, j, fuel)])
    else Then(Inserted(s, j, x), StartCalls(ProdsOf(s.store.cats[cat]), j, cat, r, fuel) + [CServe(x, j, fuel)])
  }

  /** What is completed here already is combined at once. */
  function NextServe(x: Item, conts: SetId, fuel: nat, s: State): Effect {
    if conts in s.generated then Then(s, [CCombine(x, s.generated[conts], fuel)]) else Then(s, [])
  }

  function NextComplete(x: Item, fuel: nat, s: State): Effect {
    if x.NullItem? || |x.args| != |ProdArgs(x.prod)| then Stuck else
    var p := WithArgs(x.prod, x.args);
    if x.conts in s.generated then NextAgain(s.generated[x.conts], p, fuel, s)
    else if x.cat < |s.store.cats| && x.conts < |s.store.sets| then NextFirst(x, p, fuel, s)
    else Stuck
  }

  /** A new category for what has just been completed. */
  function NextFirst(x: Item, p: Production, fuel: nat, s: State): Effect
    requires x.Item? && x.cat < |s.store.cats| && x.conts < |s.store.sets|
  {
    var s1 := WithProduction(WithCategory(s, x.conts, x.cat), |s.store.cats|, p);
    var waiting := s1.store.sets[x.conts];
    Then(s1, [CWalk(x.conts, |s.store.cats|, waiting, waiting, fuel)])
  }

  /** One more production for a category completed before. */
  function NextAgain(c: CatId, p: Production, fuel: nat, s: State): Effect {
    if c < |s.store.cats| && s.store.cats[c].prods.BufProds? then
      var s1 := WithContss(WithProduction(s, c, p), c);
      Then(s1, RestartCalls(|s1.contsMap[c]|, c, p, fuel))
    else Stuck
  }

  function NextStart(cat: CatId, r: nat, p: Production, fuel: nat, s: State): Effect {
    if cat in s.contsMap && r < |s.contsMap[cat]| then
      match s.contsMap[cat][r]
      case None => Then(s, [])
      case Some(j) => Then(s, [CItem(Started(j, cat, r, p), fuel)])
    else Stuck
  }

  function NextCombine(x: Item, c: CatId, fuel: nat, s: State): Effect {
    if x.NullItem? then Then(s.(completed := s.completed + [c]), [])
    else if BeforeCat(x) then Then(s, [CItem(Combined(x, c), fuel)])
    else Stuck
  }

  /** Visits the members of a set once each, as long as it does not grow. */
  function NextWalk(conts: SetId, c: CatId, start: set<Item>, rest: set<Item>, fuel: nat, s: State, pick: Option<Item>): Effect {
    if conts >= |s.store.sets| then Stuck
    else if s.store.sets[conts] != start then if pick == None then Then(Grown(s, conts), [CWander(conts, c, fuel)]) else Stuck
    else if pick == None then if rest == {} then Then(s, []) else Stuck
    else if pick.value in rest then
      Then(s, [CCombine(pick.value, c, fuel), CWalk(conts, c, start, rest - {pick.value}, fuel)])
    else Stuck
  }

  /** Visits any members, in any order. */
  function NextWander(conts: SetId, c: CatId, fuel: nat, s: State, pick: Option<Item>): Effect {
    if pick == None then Then(s, [])
    else if conts < |s.store.sets| && pick.value in s.store.sets[conts] then
      Then(s, [CCombine(pick.value, c, fuel), CWander(conts, c, fuel)])
    else Stuck
  }

  function NextScan(rest: set<Item>, fuel: nat, s: State, pick: Option<Item>): Effect {
    if pick == None then if rest == {} then Then(s, []) else Stuck
    else if pick.value in rest && BeforeToken(pick.value) then
      Then(s, [CItem(Scanned(pick.value), fuel), CScan(rest - {pick.value}, fuel)])
    else Stuck
  }

  predicate Picks(call: Call) {
    call.CWalk? || call.CWander? || call.CScan?
  }

  function Next(call: Call, s: State, pick: Option<Item>): Effect {
    if pick.Some? && !Picks(call) then Stuck else
    match call
    case CItem(x, fuel) => NextItem(x, fuel, s)
    case CPredict(x, cat, r, fuel) => NextPredict(x, cat, r, fuel, s)
    case CServe(x, conts, fuel) => NextServe(x, conts, fuel, s)
    case CCombine(x, c, fuel) => NextCombine(x, c, fuel, s)
    case CComplete(x, fuel) => NextComplete(x, fuel, s)
    case CStart(cat, r, p, fuel) => NextStart(cat, r, p, fuel, s)
    case CWalk(conts, c, start, rest, fuel) => NextWalk(conts, c, start, rest, fuel, s, pick)
    case CWander(conts, c, fuel) => NextWander(conts, c, fuel, s, pick)
    case CScan(rest, fuel) => NextScan(rest, fuel, s, pick)
  }

  /** Some run of the parser works the calls off and ends in `s'`. */
  ghost predicate Ran(s: State, stack: seq<Call>, s': State) {
    Runs.Ran(Next, s, stack, s')
  }

  ghost predicate Leads(s: State, stack: seq<Call>, s': State, stack': seq<Call>) {
    Runs.Leads(Next, s, stack, s', stack')
  }

  /** What a call has left to do has been worked off. */
  ghost predicate Finishes(o: Effect, s': State) {
    o.Then? && Ran(o.s, o.calls, s')
  }

  lemma CallDone(s: State, call: Call, pick: Option<Item>, s': State)
    requires Finishes(Next(call, s, pick), s')
    ensures Ran(s, [call], s')
  {
    var o := Next(call, s, pick);
    RanCall(Next, s, call, pick, o.s, o.calls, s');
  }

  lemma AtOnce(s: State)
    ensures Ran(s, [], s)
  {
    RanNothing<State, Call, Option<Item>>(Next, s);
  }

  lemma Both(s: State, a: seq<Call>, s1: State, b: seq<Call>, s2: State)
    requires Ran(s, a, s1) && Ran(s1, b, s2)
    ensures Ran(s, a + b, s2)
  {
    RanAppend(Next, s, a, s1, b, s2);
  }

  // ------------------------------------------------------------- single calls worked off

  lemma ItemSkipped(s: State, x: Item, fuel: nat, s': State)
    requires if x in s.seen then s' == s else fuel == 0 && s' == s.(starved := s.starved + {x})
    ensures Ran(s, [CItem(x, fuel)], s')
  {
    AtOnce(s');
    CallDone(s, CItem(x, fuel), None, s');
  }

  lemma ItemDone(s: State, x: Item, fuel: nat, s': State)
    requires fuel > 0 && x !in s.seen && x.Item? && HasCtnt(x.prod, x.linIdx)
    requires Finishes(NextSymbol(x, CurrSym(x), fuel - 1, WithSeen(s, x)), s')
    ensures Ran(s, [CItem(x, fuel)], s')
  {
    CallDone(s, CItem(x, fuel), None, s');
  }

  lemma CombineNull(s: State, x: Item, c: CatId, fuel: nat)
    requires x.NullItem?
    ensures Ran(s, [CCombine(x, c, fuel)], s.(completed := s.completed + [c]))
  {
    var s' := s.(completed := s.completed + [c]);
    AtOnce(s');
    CallDone(s, CCombine(x, c, fuel), None, s');
  }

  lemma CombineDone(s: State, x: Item, c: CatId, fuel: nat, s': State)
    requires BeforeCat(x) && Ran(s, [CItem(Combined(x, c), fuel)], s')
    ensures Ran(s, [CCombine(x, c, fuel)], s')
  {
    CallDone(s, CCombine(x, c, fuel), None, s');
  }

  lemma AgainDone(s: State, x: Item, fuel: nat, s': State)
    requires x.Item? && |x.args| == |ProdArgs(x.prod)| && x.conts in s.generated
    requires var c := s.generated[x.conts]; c < |s.store.cats| && s.store.cats[c].prods.BufProds?
    requires var c, p := s.generated[x.conts], WithArgs(x.prod, x.args);
             var s1 := WithContss(WithProduction(s, c, p), c);
             Ran(s1, RestartCalls(|s1.contsMap[c]|, c, p, fuel), s')
    ensures Ran(s, [CComplete(x, fuel)], s')
  {
    CallDone(s, CComplete(x, fuel), None, s');
  }

  lemma FirstDone(s: State, x: Item, fuel: nat, s1: State, s': State)
    requires x.Item? && |x.args| == |ProdArgs(x.prod)| && x.conts !in s.generated
    requires x.cat < |s.store.cats| && x.conts < |s.store.sets|
    requires s1 == WithProduction(WithCategory(s, x.conts, x.cat), |s.store.cats|, WithArgs(x.prod, x.args))
    requires var waiting := s.store.sets[x.conts]; Ran(s1, [CWalk(x.conts, |s.store.cats|, waiting, waiting, fuel)], s')
    ensures Ran(s, [CComplete(x, fuel)], s')
  {
    CallDone(s, CComplete(x, fuel), None, s');
  }

  lemma EnterDone(s: State, x: Item, cat: CatId, r: nat, j: SetId, fuel: nat, s1: State, s': State)
    requires cat < |s.store.cats| && j < |s.store.sets| && Ran(s1, [CServe(x, j, fuel)], s')
    requires if x in s.store.sets[j] then s1 == s
             else Ran(Inserted(s, j, x), StartCalls(ProdsOf(s.store.cats[cat]), j, cat, r, fuel), s1)
    ensures Finishes(NextEnter(x, cat, r, j, fuel, s), s')
  {
    if x !in s.store.sets[j] {
      Both(Inserted(s, j, x), StartCalls(ProdsOf(s.store.cats[cat]), j, cat, r, fuel), s1, [CServe(x, j, fuel)], s');
    }
  }

  lemma PredictDone(s: State, x: Item, cat: CatId, r: nat, fuel: nat, j: SetId, s1: State, s': State)
    requires cat < |s.store.cats| && !s.store.cats[cat].prods.NullProds?
    requires var s0 := WithContss(s, cat); r < |s0.contsMap[cat]| && s1 == WithConts(s0, cat, r)
    requires s1.contsMap[cat][r] == Some(j) && j < |s1.store.sets|
    requires Finishes(NextEnter(x, cat, r, j, fuel, s1), s')
    ensures Ran(s, [CPredict(x, cat, r, fuel)], s')
  {
    CallDone(s, CPredict(x, cat, r, fuel), None, s');
  }

  lemma PredictNull(s: State, x: Item, cat: CatId, r: nat, fuel: nat)
    requires cat < |s.store.cats| && s.store.cats[cat].prods.NullProds?
    ensures Ran(s, [CPredict(x, cat, r, fuel)], s)
  {
    AtOnce(s);
    CallDone(s, CPredict(x, cat, r, fuel), None, s);
  }

  lemma ServeDone(s: State, x: Item, conts: SetId, fuel: nat, s': State)
    requires if conts in s.generated then Ran(s, [CCombine(x, s.generated[conts], fuel)], s') else s' == s
    ensures Ran(s, [CServe(x, conts, fuel)], s')
  {
    AtOnce(s);
    CallDone(s, CServe(x, conts, fuel), None, s');
  }

  lemma StartDone(s: State, cat: CatId, r: nat, p: Production, fuel: nat, s': State)
    requires cat in s.contsMap && r < |s.contsMap[cat]|
    requires match s.contsMap[cat][r]
             case None => s' == s
             case Some(j) => Ran(s, [CItem(Started(j, cat, r, p), fuel)], s')
    ensures Ran(s, [CStart(cat, r, p, fuel)], s')
  {
    AtOnce(s);
    CallDone(s, CStart(cat, r, p, fuel), None, s');
  }

  // ------------------------------------------------------------------------- the loops

  lemma StartCallsSnoc(prods: seq<Production>, i: nat, conts: SetId, cat: CatId, r: nat, fuel: nat)
    requires i < |prods|
    ensures StartCalls(prods[..i + 1], conts, cat, r, fuel)
         == StartCalls(prods[..i], conts, cat, r, fuel) + [CItem(Started(conts, cat, r, prods[i]), fuel)]
  {}

  lemma RestartCallsSnoc(n: nat, cat: CatId, p: Production, fuel: nat)
    ensures RestartCalls(n + 1, cat, p, fuel) == RestartCalls(n, cat, p, fuel) + [CStart(cat, n, p, fuel)]
  {}

  /** One visit of a walk whose set has not grown. */
  lemma WalkStep(s: State, conts: SetId, c: CatId, start: set<Item>, rest: set<Item>, fuel: nat, x: Item, s': State)
    requires conts < |s.store.sets| && s.store.sets[conts] == start && x in rest && Ran(s, [CCombine(x, c, fuel)], s')
    ensures Leads(s, [CWalk(conts, c, start, rest, fuel)], s', [CWalk(conts, c, start, rest - {x}, fuel)])
  {
    var walk, walk' := CWalk(conts, c, start, rest, fuel), CWalk(conts, c, start, rest - {x}, fuel);
    StepThen(s, walk, Some(x), [CCombine(x, c, fuel)], [walk'], s');
  }

  /** A call that leaves some calls to do, the first of which have been. */
  lemma StepThen(s: State, call: Call, pick: Option<Item>, a: seq<Call>, b: seq<Call>, s': State)
    requires Next(call, s, pick) == Then(s, a + b) && Ran(s, a, s')
    ensures Leads(s, [call], s', b)
  {
    LeadsStep(Next, s, call, [], pick, s, a + b);
    assert [call] + [] == [call] && a + b + [] == a + b;
    LeadsDone(Next, s, a, s', b);
  }

  /** A call that does something at once and leaves others to do. */
  lemma StepInto(s: State, call: Call, s1: State, b: seq<Call>)
    requires Next(call, s, None) == Then(s1, b)
    ensures Leads(s, [call], s1, b)
  {
    LeadsStep(Next, s, call, [], None, s1, b);
    assert [call] + [] == [call] && b + [] == b;
  }

  lemma WanderStep(s: State, conts: SetId, c: CatId, fuel: nat, x: Item, s': State)
    requires conts < |s.store.sets| && x in s.store.sets[conts] && Ran(s, [CCombine(x, c, fuel)], s')
    ensures Leads(s, [CWander(conts, c, fuel)], s', [CWander(conts, c, fuel)])
  {
    StepThen(s, CWander(conts, c, fuel), Some(x), [CCombine(x, c, fuel)], [CWander(conts, c, fuel)], s');
  }

  lemma ScanStep(s: State, rest: set<Item>, fuel: nat, x: Item, s': State)
    requires x in rest && BeforeToken(x) && Ran(s, [CItem(Scanned(x), fuel)], s')
    ensures Leads(s, [CScan(rest, fuel)], s', [CScan(rest - {x}, fuel)])
  {
    StepThen(s, CScan(rest, fuel), Some(x), [CItem(Scanned(x), fuel)], [CScan(rest - {x}, fuel)], s');
  }

  lemma LeadsOn(s: State, a: seq<Call>, s1: State, b: seq<Call>, s2: State, c: seq<Call>)
    requires Leads(s, a, s1, b) && Leads(s1, b, s2, c)
    ensures Leads(s, a, s2, c)
  {}

  lemma LeadsEnd(s: State, a: seq<Call>, s1: State, b: seq<Call>, s2: State)
    requires Leads(s, a, s1, b) && Ran(s1, b, s2)
    ensures Ran(s, a, s2)
  {}

  /** A walk ends when everything has been visited, or goes on as wandering when
      the set has grown. */
  lemma WalkEnds(s: State, conts: SetId, c: CatId, start: set<Item>, rest: set<Item>, fuel: nat)
    requires conts < |s.store.sets|
    ensures s.store.sets[conts] == start && rest == {} ==> Ran(s, [CWalk(conts, c, start, rest, fuel)], s)
    ensures s.store.sets[conts] != start ==>
              Leads(s, [CWalk(conts, c, start, rest, fuel)], Grown(s, conts), [CWander(conts, c, fuel)])
  {
    var walk := CWalk(conts, c, start, rest, fuel);
    AtOnce(s);
    if s.store.sets[conts] == start && rest == {} {
      CallDone(s, walk, None, s);
    } else if s.store.sets[conts] != start {
      StepInto(s, walk, Grown(s, conts), [CWander(conts, c, fuel)]);
    }
  }

  lemma WanderEnds(s: State, conts: SetId, c: CatId, fuel: nat)
    ensures Ran(s, [CWander(conts, c, fuel)], s)
  {
    AtOnce(s);
    CallDone(s, CWander(conts, c, fuel), None, s);
  }

  lemma ScanEnds(s: State, fuel: nat)
    ensures Ran(s, [CScan({}, fuel)], s)
  {
    AtOnce(s);
    CallDone(s, CScan({}, fuel), None, s);
  }
}
