/**
 The parser's data and what is true of it.

 Pool-allocated categories and item sets live in a `Store` and are named by
 their index.  Beside it runs a ghost `Ledger`: for every category the facts
 it is known to satisfy and the category it was completed from, and for every
 item set what its items are waiting for.
 */
module Chart {
  import opened Wrappers
  import opened Grammar

  type SetId = nat

  /** `NullItem` is the null continuation of the start category. */
  datatype Item =
    | NullItem
    | Item(conts: SetId, cat: CatId, prod: Production, linIdx: nat,
           args: seq<CatId>, seqIdx: nat, tokIdx: nat)

  datatype Store = Store(cats: seq<CCat>, sets: seq<set<Item>>)

  /** "Every tree of the category linearizes at `r` to `word`." */
  datatype Fact = Fact(r: nat, word: seq<Token>)

  /** `Conts`: items that wait for constituent `r` of `cat` after `prefix`.
      `Agenda`: items that wait for token `tok` after `prefix`. */
  datatype SetInfo =
    | Conts(cat: CatId, r: nat, prefix: seq<Token>)
    | Agenda(tok: Token, prefix: seq<Token>)

  datatype Ledger = Ledger(facts: seq<set<Fact>>, parent: seq<Option<CatId>>, info: seq<SetInfo>)

  /** What a parse was started for: a constituent of some categories of the
      grammar. */
  datatype Goal = Goal(grammar: seq<CCat>, start: nat, roots: set<CatId>)

  // ---------------------------------------------------------------- refinement

  /** `a` was reached from `b` by zero or more completions. */
  ghost predicate Refines(parent: seq<Option<CatId>>, a: CatId, b: CatId)
    decreases a
  {
    a < |parent| && (a == b || (parent[a].Some? && parent[a].value < a && Refines(parent, parent[a].value, b)))
  }

  ghost predicate AllRefine(parent: seq<Option<CatId>>, xs: seq<CatId>, ys: seq<CatId>) {
    |xs| == |ys| && forall i :: 0 <= i < |xs| ==> Refines(parent, xs[i], ys[i])
  }

  ghost predicate ProdRefines(parent: seq<Option<CatId>>, p: Production, q: Production) {
    match p
    case Apply(fun, args) => q.Apply? && q.fun == fun && AllRefine(parent, args, q.args)
    case Coerce(cat) => q.Coerce? && Refines(parent, cat, q.cat)
  }

  lemma {:induction false} RefinesExtends(parent: seq<Option<CatId>>, parent': seq<Option<CatId>>, a: CatId, b: CatId)
    requires parent <= parent' && Refines(parent, a, b)
    ensures Refines(parent', a, b)
    decreases a
  {
    if a != b {
      RefinesExtends(parent, parent', parent[a].value, b);
    }
  }

  lemma {:induction false} RefinesTransitive(parent: seq<Option<CatId>>, a: CatId, b: CatId, c: CatId)
    requires Refines(parent, a, b) && Refines(parent, b, c)
    ensures Refines(parent, a, c)
    decreases a
  {
    if a != b {
      RefinesTransitive(parent, parent[a].value, b, c);
    }
  }

  // ------------------------------------------------------------------- spelling

  /** The facts about `args` make symbol `s` stand for `u`. */
  ghost predicate SymSpells(facts: seq<set<Fact>>, args: seq<CatId>, s: Symbol, u: seq<Token>) {
    match s
    case SymKS(tokens) => u == tokens
    case SymCat(d, r) => d < |args| && args[d] < |facts| && Fact(r, u) in facts[args[d]]
  }

  ghost predicate Spells(facts: seq<set<Fact>>, args: seq<CatId>, syms: seq<Symbol>, u: seq<Token>)
    decreases |syms|
  {
    if syms == [] then u == [] else
    exists n :: 0 <= n <= |u|
      && Spells(facts, args, syms[..|syms| - 1], u[..n])
      && SymSpells(facts, args, syms[|syms| - 1], u[n..])
  }

  /** Facts about more specific arguments, or more facts, spell at least as much. */
  ghost predicate AtLeast(facts: seq<set<Fact>>, args: seq<CatId>, facts': seq<set<Fact>>, args': seq<CatId>) {
    && |args| == |args'|
    && forall i :: 0 <= i < |args| && args[i] < |facts| ==> args'[i] < |facts'| && facts[args[i]] <= facts'[args'[i]]
  }

  lemma {:induction false} SpellsMonotone(facts: seq<set<Fact>>, args: seq<CatId>,
                                          facts': seq<set<Fact>>, args': seq<CatId>,
                                          syms: seq<Symbol>, u: seq<Token>)
    requires Spells(facts, args, syms, u) && AtLeast(facts, args, facts', args')
    ensures Spells(facts', args', syms, u)
    decreases |syms|
  {
    if syms != [] {
      var n :| 0 <= n <= |u|
        && Spells(facts, args, syms[..|syms| - 1], u[..n])
        && SymSpells(facts, args, syms[|syms| - 1], u[n..]);
      SpellsMonotone(facts, args, facts', args', syms[..|syms| - 1], u[..n]);
      assert SymSpells(facts', args', syms[|syms| - 1], u[n..]);
    }
  }

  /** One more symbol, one more piece of the word. */
  lemma SpellsSnoc(facts: seq<set<Fact>>, args: seq<CatId>, syms: seq<Symbol>, k: nat, u: seq<Token>, v: seq<Token>)
    requires k < |syms| && Spells(facts, args, syms[..k], u) && SymSpells(facts, args, syms[k], v)
    ensures Spells(facts, args, syms[..k + 1], u + v)
  {
    var w := u + v;
    assert w[..|u|] == u && w[|u|..] == v;
    assert syms[..k + 1][..k] == syms[..k];
  }

  // ------------------------------------------------------------------ invariants

  /** A category's facts hold of everything one of its productions builds. */
  ghost predicate FactsHold(facts: seq<set<Fact>>, c: CatId, p: Production)
    requires c < |facts|
  {
    forall f :: f in facts[c] ==> HasCtnt(p, f.r) && Spells(facts, ProdArgs(p), ProdSyms(p, f.r), f.word)
  }

  ghost predicate ComesFrom(cats: seq<CCat>, parent: seq<Option<CatId>>, b: CatId, p: Production)
    requires b < |cats|
  {
    exists q :: q in ProdsOf(cats[b]) && ProdRefines(parent, p, q)
  }

  ghost predicate ProdOk(st: Store, g: Ledger, c: CatId, p: Production) {
    && c < |st.cats| && c < |g.facts| && c < |g.parent|
    && ProdWf(st.cats, st.cats[c].cnccat.nCtnts, p)
    && FactsHold(g.facts, c, p)
    && (g.parent[c].Some? ==>
          g.parent[c].value < |st.cats| && ComesFrom(st.cats, g.parent, g.parent[c].value, p))
  }

  ghost predicate LineageOk(st: Store, g: Ledger, c: CatId) {
    && c < |st.cats| && c < |g.facts| && c < |g.parent|
    && match g.parent[c]
       case None => g.facts[c] == {} && !st.cats[c].prods.BufProds?
       case Some(b) =>
         && b < c
         && st.cats[c].prods.BufProds? && !st.cats[b].prods.NullProds?
         && st.cats[c].cnccat == st.cats[b].cnccat
         && g.facts[b] <= g.facts[c]
  }

  ghost predicate CatOk(st: Store, g: Ledger, c: CatId) {
    && LineageOk(st, g, c)
    && forall p :: p in ProdsOf(st.cats[c]) ==> ProdOk(st, g, c, p)
  }

  /** The dot stands before a symbol, inside a token symbol, or at the end;
      both counters fit the item's 16- and 8-bit fields. */
  ghost predicate DotOk(x: Item)
    requires x.Item? && HasCtnt(x.prod, x.linIdx)
  {
    var syms := ProdSyms(x.prod, x.linIdx);
    && x.seqIdx <= |syms| <= 65535
    && x.tokIdx <= 255
    && (x.tokIdx > 0 ==> x.seqIdx < |syms| && syms[x.seqIdx].SymKS? && x.tokIdx < |syms[x.seqIdx].tokens|)
  }

  /** What stands before the dot spells `u`. */
  ghost predicate DotSpells(facts: seq<set<Fact>>, x: Item, u: seq<Token>)
    requires x.Item? && HasCtnt(x.prod, x.linIdx) && DotOk(x)
  {
    var syms := ProdSyms(x.prod, x.linIdx);
    && x.tokIdx <= |u|
    && (x.tokIdx > 0 ==> u[|u| - x.tokIdx..] == syms[x.seqIdx].tokens[..x.tokIdx])
    && Spells(facts, x.args, syms[..x.seqIdx], u[..|u| - x.tokIdx])
  }

  ghost predicate ItemOk(st: Store, g: Ledger, x: Item, w: seq<Token>) {
    && x.Item?
    && x.cat < |st.cats| && x.conts < |g.info|
    && x.prod in ProdsOf(st.cats[x.cat])
    && x.linIdx < st.cats[x.cat].cnccat.nCtnts
    && HasCtnt(x.prod, x.linIdx)
    && AllRefine(g.parent, x.args, ProdArgs(x.prod))
    && DotOk(x)
    && g.info[x.conts].Conts? && g.info[x.conts].cat == x.cat && g.info[x.conts].r == x.linIdx
    && g.info[x.conts].prefix <= w
    && DotSpells(g.facts, x, w[|g.info[x.conts].prefix|..])
  }

  /** The symbol after the dot, when the item is not complete. */
  function CurrSym(x: Item): Option<Symbol>
    requires x.Item? && HasCtnt(x.prod, x.linIdx)
  {
    var syms := ProdSyms(x.prod, x.linIdx);
    if x.seqIdx < |syms| then Some(syms[x.seqIdx]) else None
  }

  /** `x` continues with constituent `r` of `cat` once `w` has been read. */
  ghost predicate Awaits(st: Store, g: Ledger, goal: Goal, x: Item, cat: CatId, r: nat, w: seq<Token>) {
    match x
    case NullItem => w == [] && r == goal.start && cat in goal.roots
    case Item(_, _, _, _, args, _, _) =>
      && ItemOk(st, g, x, w)
      && CurrSym(x).Some? && CurrSym(x).value.SymCat? && CurrSym(x).value.r == r
      && CurrSym(x).value.d < |args| && args[CurrSym(x).value.d] == cat
  }

  ghost predicate AwaitsToken(st: Store, g: Ledger, x: Item, tok: Token, w: seq<Token>) {
    && ItemOk(st, g, x, w)
    && CurrSym(x).Some? && CurrSym(x).value.SymKS?
    && x.tokIdx < |CurrSym(x).value.tokens| && CurrSym(x).value.tokens[x.tokIdx] == tok
  }

  ghost predicate MemberOk(st: Store, g: Ledger, goal: Goal, info: SetInfo, x: Item) {
    match info
    case Conts(cat, r, prefix) => Awaits(st, g, goal, x, cat, r, prefix)
    case Agenda(tok, prefix) => AwaitsToken(st, g, x, tok, prefix)
  }

  ghost predicate InfoOk(st: Store, info: SetInfo) {
    info.Conts? ==>
      && info.cat < |st.cats| && !st.cats[info.cat].prods.NullProds?
      && info.r < st.cats[info.cat].cnccat.nCtnts
  }

  ghost predicate SetOk(st: Store, g: Ledger, goal: Goal, s: SetId) {
    && s < |st.sets| && s < |g.info|
    && InfoOk(st, g.info[s])
    && forall x :: x in st.sets[s] ==> MemberOk(st, g, goal, g.info[s], x)
  }

  predicate GoalOk(goal: Goal) {
    && GrammarWf(goal.grammar)
    && forall c :: c in goal.roots ==>
         c < |goal.grammar| && (goal.grammar[c].prods.NullProds? || goal.start < goal.grammar[c].cnccat.nCtnts)
  }

  /** The grammar's categories come first, as they were; all others have been
      completed from something. */
  ghost predicate Rooted(st: Store, g: Ledger, goal: Goal) {
    && goal.grammar <= st.cats
    && |g.parent| == |st.cats|
    && forall c :: 0 <= c < |st.cats| ==> (g.parent[c].None? <==> c < |goal.grammar|)
  }

  ghost predicate Valid(st: Store, g: Ledger, goal: Goal) {
    && |g.facts| == |g.parent| == |st.cats|
    && |g.info| == |st.sets|
    && GoalOk(goal) && Rooted(st, g, goal)
    && (forall c :: 0 <= c < |st.cats| ==> CatOk(st, g, c))
    && (forall s :: 0 <= s < |st.sets| ==> SetOk(st, g, goal, s))
  }

  /** The store and ledger only ever grow. */
  ghost predicate Grows(st: Store, g: Ledger, st': Store, g': Ledger) {
    && g.facts <= g'.facts && g.parent <= g'.parent && g.info <= g'.info
    && |st.cats| <= |st'.cats| && |st.sets| <= |st'.sets|
    && (forall c :: 0 <= c < |st.cats| ==>
          && st'.cats[c].cnccat == st.cats[c].cnccat
          && (st'.cats[c] == st.cats[c] ||
              (st.cats[c].prods.BufProds? && st'.cats[c].prods.BufProds? && st.cats[c].prods.ps <= st'.cats[c].prods.ps)))
    && (forall s :: 0 <= s < |st.sets| ==> st.sets[s] <= st'.sets[s])
  }

  lemma GrowsTransitive(st: Store, g: Ledger, st': Store, g': Ledger, st'': Store, g'': Ledger)
    requires Grows(st, g, st', g') && Grows(st', g', st'', g'')
    ensures Grows(st, g, st'', g'')
  {}

  // ------------------------------------------------- what growing leaves in place

  lemma ProdsGrow(st: Store, g: Ledger, st': Store, g': Ledger, c: CatId, p: Production)
    requires Grows(st, g, st', g') && c < |st.cats| && p in ProdsOf(st.cats[c])
    ensures p in ProdsOf(st'.cats[c])
  {}

  lemma SetsGrow(st: Store, g: Ledger, st': Store, g': Ledger, s: SetId)
    requires Grows(st, g, st', g') && s < |st.sets|
    ensures s < |st'.sets| && st.sets[s] <= st'.sets[s]
  {}

  lemma AllRefineGrows(parent: seq<Option<CatId>>, parent': seq<Option<CatId>>, xs: seq<CatId>, ys: seq<CatId>)
    requires parent <= parent' && AllRefine(parent, xs, ys)
    ensures AllRefine(parent', xs, ys)
  {
    forall i | 0 <= i < |xs| ensures Refines(parent', xs[i], ys[i]) {
      RefinesExtends(parent, parent', xs[i], ys[i]);
    }
  }

  lemma ProdWfGrows(st: Store, g: Ledger, st': Store, g': Ledger, n: nat, p: Production)
    requires Grows(st, g, st', g') && ProdWf(st.cats, n, p)
    ensures ProdWf(st'.cats, n, p)
  {}

  lemma ProdOkGrows(st: Store, g: Ledger, st': Store, g': Ledger, c: CatId, p: Production)
    requires Grows(st, g, st', g') && ProdOk(st, g, c, p)
    ensures ProdOk(st', g', c, p)
  {
    ProdWfGrows(st, g, st', g', st.cats[c].cnccat.nCtnts, p);
    forall f | f in g'.facts[c]
      ensures HasCtnt(p, f.r) && Spells(g'.facts, ProdArgs(p), ProdSyms(p, f.r), f.word)
    {
      SpellsMonotone(g.facts, ProdArgs(p), g'.facts, ProdArgs(p), ProdSyms(p, f.r), f.word);
    }
    if g.parent[c].Some? {
      var b := g.parent[c].value;
      var q :| q in ProdsOf(st.cats[b]) && ProdRefines(g.parent, p, q);
      if p.Apply? {
        AllRefineGrows(g.parent, g'.parent, p.args, q.args);
      } else {
        RefinesExtends(g.parent, g'.parent, p.cat, q.cat);
      }
      assert q in ProdsOf(st'.cats[b]) && ProdRefines(g'.parent, p, q);
    }
  }

  lemma CatOkGrows(st: Store, g: Ledger, st': Store, g': Ledger, c: CatId)
    requires Grows(st, g, st', g') && CatOk(st, g, c) && c < |st'.cats| && st'.cats[c] == st.cats[c]
    ensures CatOk(st', g', c)
  {
    forall p | p in ProdsOf(st'.cats[c]) ensures ProdOk(st', g', c, p) {
      ProdOkGrows(st, g, st', g', c, p);
    }
  }

  lemma ItemOkGrows(st: Store, g: Ledger, st': Store, g': Ledger, x: Item, w: seq<Token>)
    requires Grows(st, g, st', g') && ItemOk(st, g, x, w)
    ensures ItemOk(st', g', x, w)
  {
    AllRefineGrows(g.parent, g'.parent, x.args, ProdArgs(x.prod));
    var u := w[|g.info[x.conts].prefix|..];
    SpellsMonotone(g.facts, x.args, g'.facts, x.args, ProdSyms(x.prod, x.linIdx)[..x.seqIdx], u[..|u| - x.tokIdx]);
  }

  lemma MemberOkGrows(st: Store, g: Ledger, st': Store, g': Ledger, goal: Goal, info: SetInfo, x: Item)
    requires Grows(st, g, st', g') && MemberOk(st, g, goal, info, x)
    ensures MemberOk(st', g', goal, info, x)
  {
    if x.Item? {
      ItemOkGrows(st, g, st', g', x, info.prefix);
    }
  }

  lemma SetOkGrows(st: Store, g: Ledger, st': Store, g': Ledger, goal: Goal, s: SetId)
    requires Grows(st, g, st', g') && SetOk(st, g, goal, s) && s < |st'.sets| && st'.sets[s] == st.sets[s]
    ensures SetOk(st', g', goal, s)
  {
    forall x | x in st'.sets[s] ensures MemberOk(st', g', goal, g'.info[s], x) {
      MemberOkGrows(st, g, st', g', goal, g.info[s], x);
    }
  }

  // ------------------------------------------------------------ the four updates

  /** A new, empty item set. */
  lemma NewSetValid(st: Store, g: Ledger, goal: Goal, info: SetInfo)
    requires Valid(st, g, goal) && InfoOk(st, info)
    ensures var st' := st.(sets := st.sets + [{}]);
            var g' := g.(info := g.info + [info]);
            Valid(st', g', goal) && Grows(st, g, st', g')
  {
    var st' := st.(sets := st.sets + [{}]);
    var g' := g.(info := g.info + [info]);
    forall c | 0 <= c < |st'.cats| ensures CatOk(st', g', c) {
      CatOkGrows(st, g, st', g', c);
    }
    forall s | 0 <= s < |st.sets| ensures SetOk(st', g', goal, s) {
      SetOkGrows(st, g, st', g', goal, s);
    }
  }

  /** One more item in a set. */
  lemma InsertValid(st: Store, g: Ledger, goal: Goal, s: SetId, x: Item)
    requires Valid(st, g, goal) && s < |st.sets| && MemberOk(st, g, goal, g.info[s], x)
    ensures var st' := st.(sets := st.sets[s := st.sets[s] + {x}]);
            Valid(st', g, goal) && Grows(st, g, st', g)
  {
    var st' := st.(sets := st.sets[s := st.sets[s] + {x}]);
    forall c | 0 <= c < |st'.cats| ensures CatOk(st', g, c) {
      CatOkGrows(st, g, st', g, c);
    }
    forall s' | 0 <= s' < |st'.sets| ensures SetOk(st', g, goal, s') {
      assert SetOk(st, g, goal, s');
      forall y | y in st'.sets[s'] ensures MemberOk(st', g, goal, g.info[s'], y) {
        MemberOkGrows(st, g, st', g, goal, g.info[s'], y);
      }
    }
  }

  /** A new category completed from `b`, without productions yet. */
  lemma NewCatValid(st: Store, g: Ledger, goal: Goal, b: CatId, f: Fact)
    requires Valid(st, g, goal) && b < |st.cats| && !st.cats[b].prods.NullProds?
    ensures var st' := st.(cats := st.cats + [CCat(st.cats[b].cnccat, BufProds([]))]);
            var g' := g.(facts := g.facts + [g.facts[b] + {f}], parent := g.parent + [Some(b)]);
            Valid(st', g', goal) && Grows(st, g, st', g')
  {
    var st' := st.(cats := st.cats + [CCat(st.cats[b].cnccat, BufProds([]))]);
    var g' := g.(facts := g.facts + [g.facts[b] + {f}], parent := g.parent + [Some(b)]);
    forall c | 0 <= c < |st.cats| ensures CatOk(st', g', c) {
      CatOkGrows(st, g, st', g', c);
    }
    assert CatOk(st', g', |st.cats|);
    forall s | 0 <= s < |st'.sets| ensures SetOk(st', g', goal, s) {
      SetOkGrows(st, g, st', g', goal, s);
    }
  }

  /** One more production in a category's buffer. */
  lemma PushValid(st: Store, g: Ledger, goal: Goal, c: CatId, p: Production)
    requires Valid(st, g, goal) && ProdOk(st, g, c, p) && st.cats[c].prods.BufProds?
    ensures var st' := st.(cats := st.cats[c := st.cats[c].(prods := BufProds(st.cats[c].prods.ps + [p]))]);
            Valid(st', g, goal) && Grows(st, g, st', g)
  {
    var st' := st.(cats := st.cats[c := st.cats[c].(prods := BufProds(st.cats[c].prods.ps + [p]))]);
    forall c' | 0 <= c' < |st'.cats| ensures CatOk(st', g, c') {
      assert CatOk(st, g, c');
      forall q | q in ProdsOf(st'.cats[c']) ensures ProdOk(st', g, c', q) {
        ProdOkGrows(st, g, st', g, c', q);
      }
    }
    forall s | 0 <= s < |st'.sets| ensures SetOk(st', g, goal, s) {
      SetOkGrows(st, g, st', g, goal, s);
    }
  }

  // ---------------------------------------------------------- completing, combining

  /** A refinement keeps the shape of the category and all its facts. */
  lemma {:induction false} RefinesShape(st: Store, g: Ledger, goal: Goal, a: CatId, b: CatId)
    requires Valid(st, g, goal) && Refines(g.parent, a, b)
    ensures b <= a < |st.cats|
    ensures st.cats[a].cnccat == st.cats[b].cnccat
    ensures a == b || (!st.cats[a].prods.NullProds? && !st.cats[b].prods.NullProds?)
    ensures g.facts[b] <= g.facts[a]
    decreases a
  {
    if a != b {
      assert CatOk(st, g, a);
      RefinesShape(st, g, goal, g.parent[a].value, b);
    }
  }

  lemma AllRefineAtLeast(st: Store, g: Ledger, goal: Goal, xs: seq<CatId>, ys: seq<CatId>)
    requires Valid(st, g, goal) && AllRefine(g.parent, xs, ys)
    ensures AtLeast(g.facts, ys, g.facts, xs)
  {
    forall i | 0 <= i < |ys| ensures xs[i] < |g.facts| && ys[i] < |g.facts| && g.facts[ys[i]] <= g.facts[xs[i]] {
      RefinesShape(st, g, goal, xs[i], ys[i]);
    }
  }

  /** The same production over more specific arguments. */
  function WithArgs(p: Production, args: seq<CatId>): Production
    requires |args| == |ProdArgs(p)|
  {
    match p
    case Apply(fun, _) => Apply(fun, args)
    case Coerce(_) => Coerce(args[0])
  }

  lemma WithArgsWf(st: Store, g: Ledger, goal: Goal, n: nat, p: Production, args: seq<CatId>)
    requires Valid(st, g, goal) && ProdWf(st.cats, n, p) && AllRefine(g.parent, args, ProdArgs(p))
    ensures ProdWf(st.cats, n, WithArgs(p, args))
  {
    var q := WithArgs(p, args);
    assert ProdArgs(q) == args;
    forall i | 0 <= i < |args| ensures args[i] < |st.cats| {
      RefinesShape(st, g, goal, args[i], ProdArgs(p)[i]);
    }
    forall r | 0 <= r < n ensures ProdSyms(q, r) == ProdSyms(p, r) {}
    forall r, k | 0 <= r < n && 0 <= k < |ProdSyms(q, r)|
      ensures SymWf(st.cats, args, ProdSyms(q, r)[k])
    {
      var s := ProdSyms(p, r)[k];
      assert SymWf(st.cats, ProdArgs(p), s);
      if s.SymCat? {
        RefinesShape(st, g, goal, args[s.d], ProdArgs(p)[s.d]);
      }
    }
  }

  /** The word an item has covered since it was predicted. */
  ghost function Span(g: Ledger, x: Item, w: seq<Token>): seq<Token>
    requires x.Item? && x.conts < |g.info| && g.info[x.conts].prefix <= w
  {
    w[|g.info[x.conts].prefix|..]
  }

  /** A finished item turns into a production of the category completed from
      its own: it satisfies all the old facts and the new one. */
  lemma CompletedProdOk(st: Store, g: Ledger, goal: Goal, x: Item, w: seq<Token>, c: CatId)
    requires Valid(st, g, goal) && ItemOk(st, g, x, w) && CurrSym(x) == None
    requires c < |st.cats| && g.parent[c] == Some(x.cat)
    requires g.facts[c] == g.facts[x.cat] + {Fact(x.linIdx, Span(g, x, w))}
    ensures ProdOk(st, g, c, WithArgs(x.prod, x.args))
  {
    var p, q := x.prod, WithArgs(x.prod, x.args);
    assert ProdArgs(q) == x.args;
    assert CatOk(st, g, x.cat) && ProdOk(st, g, x.cat, p) && CatOk(st, g, c);
    WithArgsWf(st, g, goal, st.cats[c].cnccat.nCtnts, p, x.args);
    AllRefineAtLeast(st, g, goal, x.args, ProdArgs(p));
    forall f | f in g.facts[c]
      ensures HasCtnt(q, f.r) && Spells(g.facts, x.args, ProdSyms(q, f.r), f.word)
    {
      if f in g.facts[x.cat] {
        SpellsMonotone(g.facts, ProdArgs(p), g.facts, x.args, ProdSyms(p, f.r), f.word);
        assert ProdSyms(q, f.r) == ProdSyms(p, f.r);
      } else {
        var syms := ProdSyms(p, x.linIdx);
        assert syms[..x.seqIdx] == syms;
        var u := Span(g, x, w);
        assert u[..|u| - x.tokIdx] == u;
        assert ProdSyms(q, f.r) == syms;
      }
    }
    assert ProdRefines(g.parent, q, p);
  }

  /** The item moved past its category symbol, that argument now the completed
      category `c`. */
  function Combined(x: Item, c: CatId): Item
    requires x.Item? && HasCtnt(x.prod, x.linIdx)
    requires CurrSym(x).Some? && CurrSym(x).value.SymCat? && CurrSym(x).value.d < |x.args|
  {
    x.(args := x.args[CurrSym(x).value.d := c], seqIdx := x.seqIdx + 1)
  }

  predicate BeforeCat(x: Item) {
    && x.Item? && HasCtnt(x.prod, x.linIdx)
    && CurrSym(x).Some? && CurrSym(x).value.SymCat? && CurrSym(x).value.d < |x.args|
  }

  /** Every item of a continuation set has been given the category `c`: it has
      been moved past its category symbol, or, as the null item of the start
      category, `c` is completed. */
  ghost predicate AllServed(conts: set<Item>, c: CatId, seen: set<Item>, completed: seq<CatId>) {
    forall x :: x in conts ==>
      if x.NullItem? then c in completed else BeforeCat(x) && Combined(x, c) in seen
  }

  lemma AllServedStep(done: set<Item>, x: Item, c: CatId, seen: set<Item>, completed: seq<CatId>,
                      seen': set<Item>, completed': seq<CatId>)
    requires AllServed(done, c, seen, completed) && seen <= seen' && completed <= completed'
    requires AllServed({x}, c, seen', completed')
    ensures AllServed(done + {x}, c, seen', completed')
  {}

  lemma SpansJoin(p: seq<Token>, q: seq<Token>, w: seq<Token>)
    requires p <= q <= w
    ensures q[|p|..] + w[|q|..] == w[|p|..]
  {}

  lemma CombinedOk(st: Store, g: Ledger, goal: Goal, x: Item, b: CatId, r: nat, prefix: seq<Token>, c: CatId, w: seq<Token>)
    requires Valid(st, g, goal) && x.Item? && Awaits(st, g, goal, x, b, r, prefix) && prefix <= w
    requires c < |st.cats| && g.parent[c] == Some(b) && Fact(r, w[|prefix|..]) in g.facts[c]
    ensures ItemOk(st, g, Combined(x, c), w)
  {
    var y := Combined(x, c);
    var d := CurrSym(x).value.d;
    assert CatOk(st, g, c);
    forall i | 0 <= i < |y.args| ensures Refines(g.parent, y.args[i], ProdArgs(x.prod)[i]) {
      if i == d {
        assert Refines(g.parent, b, ProdArgs(x.prod)[d]);
      }
    }
    assert AtLeast(g.facts, x.args, g.facts, y.args);
    var syms := ProdSyms(x.prod, x.linIdx);
    var p0 := g.info[x.conts].prefix;
    var u, v := prefix[|p0|..], w[|prefix|..];
    assert u[..|u| - x.tokIdx] == u;
    SpellsMonotone(g.facts, x.args, g.facts, y.args, syms[..x.seqIdx], u);
    SpellsSnoc(g.facts, y.args, syms, x.seqIdx, u, v);
    SpansJoin(p0, prefix, w);
    assert (u + v)[..|u + v| - y.tokIdx] == u + v;
  }

  predicate BeforeToken(x: Item) {
    x.Item? && HasCtnt(x.prod, x.linIdx) && CurrSym(x).Some? && CurrSym(x).value.SymKS?
  }

  ghost predicate AllScanned(agenda: set<Item>, seen: set<Item>) {
    forall x :: x in agenda ==> BeforeToken(x) && Scanned(x) in seen
  }

  lemma AllScannedStep(done: set<Item>, seen: set<Item>, seen': set<Item>, x: Item)
    requires AllScanned(done, seen) && seen <= seen' && BeforeToken(x) && Scanned(x) in seen'
    ensures AllScanned(done + {x}, seen')
  {}

  /** The item moved past one token; at the end of the token symbol it moves
      on to the next symbol. */
  function Scanned(x: Item): Item
    requires BeforeToken(x)
  {
    if x.tokIdx + 1 == |CurrSym(x).value.tokens|
    then x.(tokIdx := 0, seqIdx := x.seqIdx + 1)
    else x.(tokIdx := x.tokIdx + 1)
  }

  lemma ScannedSpells(facts: seq<set<Fact>>, x: Item, u: seq<Token>, tok: Token)
    requires x.Item? && HasCtnt(x.prod, x.linIdx) && DotOk(x) && DotSpells(facts, x, u)
    requires CurrSym(x).Some? && CurrSym(x).value.SymKS?
    requires x.tokIdx < |CurrSym(x).value.tokens| <= 255 && CurrSym(x).value.tokens[x.tokIdx] == tok
    ensures DotOk(Scanned(x)) && DotSpells(facts, Scanned(x), u + [tok])
  {
    var y := Scanned(x);
    var syms := ProdSyms(x.prod, x.linIdx);
    var toks := syms[x.seqIdx].tokens;
    var head := u[..|u| - x.tokIdx];
    OneToken(u, toks, x.tokIdx);
    var u' := u + [tok];
    if x.tokIdx + 1 == |toks| {
      assert toks[..x.tokIdx + 1] == toks;
      SpellsSnoc(facts, x.args, syms, x.seqIdx, head, toks);
      assert u'[..|u'| - y.tokIdx] == u' == head + toks;
    } else {
      assert syms[..y.seqIdx] == syms[..x.seqIdx] && u'[..|u'| - y.tokIdx] == head;
    }
  }

  /** `u` ends in the first `n` tokens of `toks`; one more follows. */
  lemma OneToken(u: seq<Token>, toks: seq<Token>, n: nat)
    requires n < |toks| && n <= |u| && u[|u| - n..] == toks[..n]
    ensures var u' := u + [toks[n]];
            && u' == u[..|u| - n] + toks[..n + 1]
            && u'[..|u'| - (n + 1)] == u[..|u| - n]
            && u'[|u'| - (n + 1)..] == toks[..n + 1]
  {}

  lemma ScannedOk(st: Store, g: Ledger, goal: Goal, x: Item, tok: Token, w: seq<Token>)
    requires Valid(st, g, goal) && AwaitsToken(st, g, x, tok, w)
    ensures ItemOk(st, g, Scanned(x), w + [tok])
  {
    assert CatOk(st, g, x.cat) && ProdOk(st, g, x.cat, x.prod);
    assert SymWf(st.cats, ProdArgs(x.prod), ProdSyms(x.prod, x.linIdx)[x.seqIdx]);
    var p0 := g.info[x.conts].prefix;
    assert (w + [tok])[|p0|..] == w[|p0|..] + [tok];
    ScannedSpells(g.facts, x, w[|p0|..], tok);
  }

  /** A freshly predicted item has covered nothing. */
  lemma PredictedOk(st: Store, g: Ledger, goal: Goal, s: SetId, p: Production, w: seq<Token>)
    requires Valid(st, g, goal) && s < |st.sets| && g.info[s].Conts? && g.info[s].prefix == w
    requires g.info[s].cat < |st.cats| && p in ProdsOf(st.cats[g.info[s].cat])
    ensures ItemOk(st, g, Item(s, g.info[s].cat, p, g.info[s].r, ProdArgs(p), 0, 0), w)
  {
    var c := g.info[s].cat;
    assert SetOk(st, g, goal, s);
    assert CatOk(st, g, c) && ProdOk(st, g, c, p);
    assert w[|w|..] == [];
  }
}
