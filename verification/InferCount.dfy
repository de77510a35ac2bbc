/**
 How often inference comes to a derivation: every attempt for an expression is a
 derivation of it, and every derivation is an attempt once for every way of picking
 its rules from the indices.
 */
module InferCount {
  import opened Arith
  import opened Wrappers
  import opened Grammar
  import opened Linearize
  import opened Expr
  import opened Choice
  import opened Searching
  import opened LzrIndex
  import opened InferTree

  // ----------------------------------------------------------------- everything indexed

  /** Every production of the grammar has been indexed. */
  ghost predicate AllIndexed(cats: seq<CCat>, rules: seq<Rule>) {
    forall c, p :: 0 <= c < |cats| && p in ProdsOf(cats[c]) ==> Rule(c, p) in rules
  }

  /** Indexing every category indexes every production. */
  lemma IndexedAll(cats: seq<CCat>, order: seq<CatId>)
    requires forall i :: 0 <= i < |order| ==> order[i] < |cats|
    requires forall c :: 0 <= c < |cats| ==> c in order
    ensures AllIndexed(cats, AllRules(cats, order))
  {
    forall c, p | 0 <= c < |cats| && p in ProdsOf(cats[c])
      ensures Rule(c, p) in AllRules(cats, order)
    {
      InAllRules(cats, order, c, p);
    }
  }

  /** And once, if no category is met twice and no production listed twice. */
  lemma {:induction false} IndexedOnce(cats: seq<CCat>, order: seq<CatId>)
    requires forall i :: 0 <= i < |order| ==> order[i] < |cats|
    requires Distinct(order) && forall c :: 0 <= c < |cats| ==> Distinct(ProdsOf(cats[c]))
    ensures Distinct(AllRules(cats, order))
    ensures forall i :: 0 <= i < |AllRules(cats, order)| ==> AllRules(cats, order)[i].cat in order
    decreases |order|
  {
    if order != [] {
      var front, c := order[..|order| - 1], order[|order| - 1];
      IndexedOnce(cats, front);
      RulesOfOnce(c, ProdsOf(cats[c]));
    }
  }

  lemma {:induction false} RulesOfOnce(c: CatId, ps: seq<Production>)
    requires Distinct(ps)
    ensures |RulesOf(c, ps)| == |ps| && forall i :: 0 <= i < |ps| ==> RulesOf(c, ps)[i] == Rule(c, ps[i])
    decreases |ps|
  {
    if ps != [] {
      RulesOfOnce(c, ps[..|ps| - 1]);
    }
  }

  lemma {:induction false} InAllRules(cats: seq<CCat>, order: seq<CatId>, c: CatId, p: Production)
    requires forall i :: 0 <= i < |order| ==> order[i] < |cats|
    requires c in order && p in ProdsOf(cats[c])
    ensures Rule(c, p) in AllRules(cats, order)
    decreases |order|
  {
    var k := |order| - 1;
    if order[k] == c {
      InRulesOf(c, ProdsOf(cats[c]), p);
    } else {
      assert c in order[..k];
      InAllRules(cats, order[..k], c, p);
    }
  }

  lemma {:induction false} InRulesOf(c: CatId, ps: seq<Production>, p: Production)
    requires p in ps
    ensures Rule(c, p) in RulesOf(c, ps)
    decreases |ps|
  {
    if p != ps[|ps| - 1] {
      assert p in ps[..|ps| - 1];
      InRulesOf(c, ps[..|ps| - 1], p);
    }
  }

  /** An expression that is that of an application is an application. */
  lemma {:induction false} StripApplied(e: Expr, name: string, xs: seq<Expr>)
    requires Strip(e) == Applied(Fun(name), xs)
    ensures Unapplied(e).Some? && Unapplied(e).value.fun == name && StripAll(Unapplied(e).value.args) == xs
    decreases e
  {
    match e
    case Typed(x) => StripApplied(x, name, xs);
    case ImplArg(x) => StripApplied(x, name, xs);
    case App(fun, arg) =>
      var k := |xs| - 1;
      StripApplied(fun, name, xs[..k]);
      var a := Unapplied(fun).value;
      assert StripAll(a.args + [arg])[..k] == StripAll(a.args);
      assert xs == xs[..k] + [xs[k]];
    case _ =>
  }

  /** A rule is in the indices as often as it has been indexed. */
  lemma {:induction false} EntryCount(rules: seq<Rule>, name: string, args: seq<CatId>, c: CatId, fun: CncFun)
    ensures multiset(EntriesFor(rules, name, args))[Entry(c, fun)]
         == if fun.name == name then multiset(rules)[Rule(c, Apply(fun, args))] else 0
    decreases |rules|
  {
    if rules != [] {
      var front, r := rules[..|rules| - 1], rules[|rules| - 1];
      EntryCount(front, name, args, c, fun);
      assert rules == front + [r];
    }
  }

  lemma {:induction false} SuperCount(rules: seq<Rule>, c: CatId, super: CatId)
    ensures multiset(SupersFor(rules, c))[super] == multiset(rules)[Rule(super, Coerce(c))]
    decreases |rules|
  {
    if rules != [] {
      var front, r := rules[..|rules| - 1], rules[|rules| - 1];
      SuperCount(front, c, super);
      assert rules == front + [r];
    }
  }

  // ------------------------------------------------------------------------------- ways

  /** The ways of picking the rules of a derivation from those indexed. */
  ghost function Ways(rules: seq<Rule>, c: CatId, d: Deriv): nat
    decreases d, 1
  {
    match d
    case ByApply(fun, cats, kids) =>
      if |kids| == |cats| then multiset(rules)[Rule(c, Apply(fun, cats))] * WaysFrom(rules, d, 0) else 0
    case ByCoerce(c', kid) => multiset(rules)[Rule(c, Coerce(c'))] * Ways(rules, c', kid)
  }

  ghost function WaysFrom(rules: seq<Rule>, d: Deriv, i: nat): nat
    requires d.ByApply? && i <= |d.kids| == |d.cats|
    decreases d, 0, |d.kids| - i
  {
    if i == |d.kids| then 1 else Ways(rules, d.cats[i], d.kids[i]) * WaysFrom(rules, d, i + 1)
  }

  /** There is a way exactly for the derivations of the grammar, if all of it is
      indexed. */
  lemma {:induction false} WaysDerives(cats: seq<CCat>, rules: seq<Rule>, c: CatId, d: Deriv)
    requires RulesOk(cats, rules)
    ensures Ways(rules, c, d) > 0 ==> Derives(cats, c, d)
    ensures AllIndexed(cats, rules) && Derives(cats, c, d) ==> Ways(rules, c, d) > 0
    decreases d, 1
  {
    match d
    case ByApply(fun, argCats, kids) =>
      if |kids| == |argCats| {
        WaysFromDerives(cats, rules, d, 0);
        Product(multiset(rules)[Rule(c, Apply(fun, argCats))], WaysFrom(rules, d, 0));
      }
    case ByCoerce(c', kid) =>
      WaysDerives(cats, rules, c', kid);
      Product(multiset(rules)[Rule(c, Coerce(c'))], Ways(rules, c', kid));
  }

  lemma {:induction false} WaysFromDerives(cats: seq<CCat>, rules: seq<Rule>, d: Deriv, i: nat)
    requires RulesOk(cats, rules) && d.ByApply? && i <= |d.kids| == |d.cats|
    ensures WaysFrom(rules, d, i) > 0 ==> forall k :: i <= k < |d.kids| ==> Derives(cats, d.cats[k], d.kids[k])
    ensures AllIndexed(cats, rules) && (forall k :: i <= k < |d.kids| ==> Derives(cats, d.cats[k], d.kids[k])) ==>
              WaysFrom(rules, d, i) > 0
    decreases d, 0, |d.kids| - i
  {
    if i < |d.kids| {
      WaysDerives(cats, rules, d.cats[i], d.kids[i]);
      WaysFromDerives(cats, rules, d, i + 1);
      Product(Ways(rules, d.cats[i], d.kids[i]), WaysFrom(rules, d, i + 1));
    }
  }

  /** And at most one way, if no rule has been indexed twice. */
  lemma {:induction false} WaysOnce(rules: seq<Rule>, c: CatId, d: Deriv)
    requires Distinct(rules)
    ensures Ways(rules, c, d) <= 1
    decreases d, 1
  {
    match d
    case ByApply(fun, cats, kids) =>
      DistinctOnce(rules, Rule(c, Apply(fun, cats)));
      if |kids| == |cats| {
        WaysOnceFrom(rules, d, 0);
      }
    case ByCoerce(c', kid) =>
      DistinctOnce(rules, Rule(c, Coerce(c')));
      WaysOnce(rules, c', kid);
  }

  lemma {:induction false} WaysOnceFrom(rules: seq<Rule>, d: Deriv, i: nat)
    requires Distinct(rules) && d.ByApply? && i <= |d.kids| == |d.cats|
    ensures WaysFrom(rules, d, i) <= 1
    decreases d, 0, |d.kids| - i
  {
    if i < |d.kids| {
      WaysOnce(rules, d.cats[i], d.kids[i]);
      WaysOnceFrom(rules, d, i + 1);
    }
  }

  // ----------------------------------------------------------- attempts with derivations

  /** A category and a derivation from it. */
  datatype Got = Got(cat: CatId, d: Deriv)

  /** The decisions of `InferTree`, with derivations at the leaves. */
  ghost function SuperGot(ix: Index, l: Ladder, g: Got): Decision<Got>
    requires Climbs(ix, l)
    decreases if l.rank(g.cat) < l.top then l.top - l.rank(g.cat) else 0
  {
    if g.cat in ix.coerces then
      var ss := ix.coerces[g.cat];
      Node([Leaf(g)] + seq(|ss|, i requires 0 <= i < |ss| => SuperGot(ix, l, Got(ss[i], ByCoerce(g.cat, g.d)))))
    else Leaf(g)
  }

  ghost function ExprGot(ix: Index, l: Ladder, e: Expr): Decision<Option<Got>>
    requires Climbs(ix, l)
    decreases Size(e), 3, 0
  {
    match Unapplied(e)
    case None => Leaf(None)
    case Some(a) => if a.fun in ix.funs then ArgsGot(ix, l, e, [], []) else Leaf(None)
  }

  ghost function ArgGot(ix: Index, l: Ladder, arg: Expr): Decision<Option<Got>>
    requires Climbs(ix, l)
    decreases Size(arg), 4, 0
  {
    Bind(ExprGot(ix, l, arg), (g: Option<Got>) => ClimbGot(ix, l, g))
  }

  ghost function ClimbGot(ix: Index, l: Ladder, g: Option<Got>): Decision<Option<Got>>
    requires Climbs(ix, l)
  {
    if g == None then Leaf(None) else Bind(SuperGot(ix, l, g.value), (h: Got) => Leaf(Some(h)))
  }

  ghost function ArgsGot(ix: Index, l: Ladder, e: Expr, cats: seq<CatId>, ds: seq<Deriv>): Decision<Option<Got>>
    requires Known(ix, l, e) && |cats| == |ds| <= |Unapplied(e).value.args|
    decreases Size(e), 1, |Unapplied(e).value.args| - |cats|, 0
  {
    var a := Unapplied(e).value;
    if |cats| == |a.args| then RuleGot(ix.funs[a.fun], cats, ds)
    else
      ArgsSmaller(e, |cats|);
      Bind(ArgGot(ix, l, a.args[|cats|]), (g: Option<Got>) => RestGot(ix, l, e, cats, ds, g))
  }

  ghost function RestGot(ix: Index, l: Ladder, e: Expr, cats: seq<CatId>, ds: seq<Deriv>, g: Option<Got>): Decision<Option<Got>>
    requires Known(ix, l, e) && |cats| == |ds| < |Unapplied(e).value.args|
    decreases Size(e), 1, |Unapplied(e).value.args| - |cats| - 1, 1
  {
    if g == None then Leaf(None) else ArgsGot(ix, l, e, cats + [g.value.cat], ds + [g.value.d])
  }

  ghost function RuleGot(infer: InferMap, cats: seq<CatId>, ds: seq<Deriv>): Decision<Option<Got>> {
    if cats !in infer then Leaf(None)
    else if infer[cats] == [] then Dead(Leaf(None))
    else Node(seq(|infer[cats]|, i requires 0 <= i < |infer[cats]| => Leaf(Some(GotBy(infer[cats][i], cats, ds)))))
  }

  function GotBy(entry: Entry, cats: seq<CatId>, ds: seq<Deriv>): Got {
    Got(entry.cat, ByApply(entry.fun, cats, ds))
  }

  // ------------------------------------------------------------ the same attempts, shown

  function Show(g: Option<Got>): Option<Res> {
    if g.Some? then Some(Res(g.value.cat, Tree(g.value.d))) else None
  }

  function ShowAll(gs: seq<Option<Got>>): (rs: seq<Option<Res>>)
    ensures |rs| == |gs|
  {
    seq(|gs|, i requires 0 <= i < |gs| => Show(gs[i]))
  }

  function CatsOf(gs: seq<Got>): (cs: seq<CatId>)
    ensures |cs| == |gs|
  {
    seq(|gs|, i requires 0 <= i < |gs| => gs[i].cat)
  }

  function Trees(ds: seq<Deriv>): (ts: seq<CncTree>)
    ensures |ts| == |ds|
  {
    seq(|ds|, i requires 0 <= i < |ds| => Tree(ds[i]))
  }

  lemma ShowAppend(gs: seq<Option<Got>>, hs: seq<Option<Got>>)
    ensures ShowAll(gs + hs) == ShowAll(gs) + ShowAll(hs)
  {}

  /** When what follows is shown alike, so is the whole. */
  lemma {:induction false} ShowFlat(gs: seq<Option<Got>>, f: Option<Got> -> Decision<Option<Got>>, h: Option<Res> -> Decision<Option<Res>>)
    requires forall g :: Leaves(h(Show(g))) == ShowAll(Leaves(f(g)))
    ensures FlatLeaves(ShowAll(gs), h) == ShowAll(FlatLeaves(gs, f))
    decreases |gs|
  {
    if gs != [] {
      ShowFlat(gs[1..], f, h);
      assert ShowAll(gs)[1..] == ShowAll(gs[1..]) && ShowAll(gs)[0] == Show(gs[0]);
      ShowAppend(Leaves(f(gs[0])), FlatLeaves(gs[1..], f));
    }
  }

  lemma {:induction false} SuperShown(ix: Index, l: Ladder, g: Got)
    requires Climbs(ix, l)
    ensures Leaves(SuperTree(ix, l, g.cat)) == CatsOf(Leaves(SuperGot(ix, l, g)))
    ensures forall h :: h in Leaves(SuperGot(ix, l, g)) ==> Tree(h.d) == Tree(g.d)
    decreases if l.rank(g.cat) < l.top then l.top - l.rank(g.cat) else 0, 1, 0
  {
    if g.cat in ix.coerces {
      SuperShownFrom(ix, l, g, 0);
    }
  }

  lemma {:induction false} SuperShownFrom(ix: Index, l: Ladder, g: Got, i: nat)
    requires Climbs(ix, l) && g.cat in ix.coerces && i <= |ix.coerces[g.cat]| + 1
    ensures LeavesFrom(SuperTree(ix, l, g.cat), i) == CatsOf(LeavesFrom(SuperGot(ix, l, g), i))
    ensures forall h :: h in LeavesFrom(SuperGot(ix, l, g), i) ==> Tree(h.d) == Tree(g.d)
    decreases if l.rank(g.cat) < l.top then l.top - l.rank(g.cat) else 0, 0, |ix.coerces[g.cat]| + 1 - i
  {
    var ss := ix.coerces[g.cat];
    if i <= |ss| {
      SuperShownFrom(ix, l, g, i + 1);
      var t, u := SuperTree(ix, l, g.cat), SuperGot(ix, l, g);
      if i > 0 {
        SuperShown(ix, l, Got(ss[i - 1], ByCoerce(g.cat, g.d)));
      }
      assert Leaves(t.kids[i]) == CatsOf(Leaves(u.kids[i]));
      assert CatsOf(Leaves(u.kids[i]) + LeavesFrom(u, i + 1)) == CatsOf(Leaves(u.kids[i])) + CatsOf(LeavesFrom(u, i + 1));
    }
  }

  lemma ClimbShown(ix: Index, l: Ladder, g: Option<Got>)
    requires Climbs(ix, l)
    ensures Leaves(ClimbTree(ix, l, Show(g))) == ShowAll(Leaves(ClimbGot(ix, l, g)))
  {
    if g.Some? {
      var f, h := (h: Got) => Leaf(Some(h)), (c: CatId) => Leaf(Some(Res(c, Tree(g.value.d))));
      SuperShown(ix, l, g.value);
      LeavesOfBind(SuperGot(ix, l, g.value), f);
      LeavesOfBind(SuperTree(ix, l, g.value.cat), h);
      SinglesShown(Leaves(SuperGot(ix, l, g.value)), Tree(g.value.d), f, h);
    }
  }

  lemma {:induction false} SinglesShown(gs: seq<Got>, t: CncTree, f: Got -> Decision<Option<Got>>, h: CatId -> Decision<Option<Res>>)
    requires (forall g :: g in gs ==> Tree(g.d) == t) && (forall g :: f(g) == Leaf(Some(g))) && forall c :: h(c) == Leaf(Some(Res(c, t)))
    ensures FlatLeaves(CatsOf(gs), h) == ShowAll(FlatLeaves(gs, f))
    decreases |gs|
  {
    if gs != [] {
      SinglesShown(gs[1..], t, f, h);
      assert CatsOf(gs)[1..] == CatsOf(gs[1..]);
      ShowAppend(Leaves(f(gs[0])), FlatLeaves(gs[1..], f));
      assert Leaves(h(gs[0].cat)) == ShowAll(Leaves(f(gs[0])));
    }
  }

  lemma {:induction false} ExprShown(ix: Index, l: Ladder, e: Expr)
    requires Climbs(ix, l)
    ensures Leaves(ExprTree(ix, l, e)) == ShowAll(Leaves(ExprGot(ix, l, e)))
    decreases Size(e), 3, 0
  {
    if Unapplied(e).Some? && Unapplied(e).value.fun in ix.funs {
      ArgsShown(ix, l, e, [], []);
      assert Trees([]) == [];
    }
  }

  lemma {:induction false} ArgShown(ix: Index, l: Ladder, arg: Expr)
    requires Climbs(ix, l)
    ensures Leaves(ArgTree(ix, l, arg)) == ShowAll(Leaves(ArgGot(ix, l, arg)))
    decreases Size(arg), 4, 0
  {
    var f, h := (g: Option<Got>) => ClimbGot(ix, l, g), (r: Option<Res>) => ClimbTree(ix, l, r);
    ExprShown(ix, l, arg);
    LeavesOfBind(ExprGot(ix, l, arg), f);
    LeavesOfBind(ExprTree(ix, l, arg), h);
    forall g ensures Leaves(h(Show(g))) == ShowAll(Leaves(f(g))) {
      ClimbShown(ix, l, g);
    }
    ShowFlat(Leaves(ExprGot(ix, l, arg)), f, h);
  }

  lemma {:induction false} ArgsShown(ix: Index, l: Ladder, e: Expr, cats: seq<CatId>, ds: seq<Deriv>)
    requires Known(ix, l, e) && |cats| == |ds| <= |Unapplied(e).value.args|
    ensures Leaves(ArgsTree(ix, l, e, cats, Trees(ds))) == ShowAll(Leaves(ArgsGot(ix, l, e, cats, ds)))
    decreases Size(e), 1, |Unapplied(e).value.args| - |cats|, 0
  {
    var a := Unapplied(e).value;
    if |cats| == |a.args| {
      RuleShown(ix.funs[a.fun], cats, ds);
    } else {
      ArgsSmaller(e, |cats|);
      var f, h := (g: Option<Got>) => RestGot(ix, l, e, cats, ds, g), (r: Option<Res>) => RestTree(ix, l, e, cats, Trees(ds), r);
      ArgShown(ix, l, a.args[|cats|]);
      LeavesOfBind(ArgGot(ix, l, a.args[|cats|]), f);
      LeavesOfBind(ArgTree(ix, l, a.args[|cats|]), h);
      forall g ensures Leaves(h(Show(g))) == ShowAll(Leaves(f(g))) {
        if g.Some? {
          ArgsShown(ix, l, e, cats + [g.value.cat], ds + [g.value.d]);
          assert Trees(ds + [g.value.d]) == Trees(ds) + [Tree(g.value.d)];
        }
      }
      ShowFlat(Leaves(ArgGot(ix, l, a.args[|cats|])), f, h);
    }
  }

  lemma RuleShown(infer: InferMap, cats: seq<CatId>, ds: seq<Deriv>)
    ensures Leaves(RuleTree(infer, cats, Trees(ds))) == ShowAll(Leaves(RuleGot(infer, cats, ds)))
  {
    if cats in infer && infer[cats] != [] {
      RuleShownFrom(infer, cats, ds, 0);
    }
  }

  lemma {:induction false} RuleShownFrom(infer: InferMap, cats: seq<CatId>, ds: seq<Deriv>, i: nat)
    requires cats in infer && infer[cats] != [] && i <= |infer[cats]|
    ensures LeavesFrom(RuleTree(infer, cats, Trees(ds)), i) == ShowAll(LeavesFrom(RuleGot(infer, cats, ds), i))
    decreases |infer[cats]| - i
  {
    if i < |infer[cats]| {
      RuleShownFrom(infer, cats, ds, i + 1);
      var t, u := RuleTree(infer, cats, Trees(ds)), RuleGot(infer, cats, ds);
      assert u.kids[i] == Leaf(Some(GotBy(infer[cats][i], cats, ds)));
      assert t.kids[i] == Leaf(Some(Result(infer[cats][i], Trees(ds))));
      ShowAppend(Leaves(u.kids[i]), LeavesFrom(u, i + 1));
      assert Leaves(t.kids[i]) == ShowAll(Leaves(u.kids[i]));
    }
  }

  // ---------------------------------------------------------------- counting: coercions

  /** Under the coercions of a derivation. */
  ghost function BaseOf(g: Got): Got
    decreases g.d
  {
    match g.d
    case ByApply(_, _, _) => g
    case ByCoerce(c, kid) => BaseOf(Got(c, kid))
  }

  /** The ways of climbing from one derivation to another. */
  ghost function Chain(rules: seq<Rule>, g0: Got, g: Got): nat
    decreases g.d
  {
    if g == g0 then 1 else
    match g.d
    case ByApply(_, _, _) => 0
    case ByCoerce(c, kid) => multiset(rules)[Rule(g.cat, Coerce(c))] * Chain(rules, g0, Got(c, kid))
  }

  ghost function Height(d: Deriv): nat {
    if d.ByCoerce? then 1 + Height(d.kid) else 0
  }

  lemma {:induction false} ChainShort(rules: seq<Rule>, g0: Got, g: Got)
    requires Height(g.d) < Height(g0.d)
    ensures Chain(rules, g0, g) == 0
    decreases g.d
  {
    if g.d.ByCoerce? {
      ChainShort(rules, g0, Got(g.d.cat, g.d.kid));
    }
  }

  /** From a derivation by a rule one can climb only to those above it. */
  lemma {:induction false} ChainBase(rules: seq<Rule>, g0: Got, g: Got)
    requires g0.d.ByApply?
    ensures Chain(rules, g0, g) > 0 ==> g0 == BaseOf(g)
    decreases g.d
  {
    if g.d.ByCoerce? {
      ChainBase(rules, g0, Got(g.d.cat, g.d.kid));
      Product(multiset(rules)[Rule(g.cat, Coerce(g.d.cat))], Chain(rules, g0, Got(g.d.cat, g.d.kid)));
    }
  }

  lemma {:induction false} ChainWays(rules: seq<Rule>, g: Got)
    ensures var b := BaseOf(g);
            && b.d.ByApply? && Tree(b.d) == Tree(g.d)
            && Ways(rules, b.cat, b.d) * Chain(rules, b, g) == Ways(rules, g.cat, g.d)
    decreases g.d
  {
    if g.d.ByCoerce? {
      var kid := Got(g.d.cat, g.d.kid);
      ChainWays(rules, kid);
      var b := BaseOf(g);
      Reorder(Ways(rules, b.cat, b.d), multiset(rules)[Rule(g.cat, Coerce(g.d.cat))], Chain(rules, b, kid));
    }
  }

  /** One step up. */
  ghost function Over(g: Got, super: CatId): Got {
    Got(super, ByCoerce(g.cat, g.d))
  }

  ghost function SumFrom(rules: seq<Rule>, g0: Got, ss: seq<CatId>, i: nat, g: Got): nat
    requires i <= |ss|
    decreases |ss| - i
  {
    if i == |ss| then 0 else Chain(rules, Over(g0, ss[i]), g) + SumFrom(rules, g0, ss, i + 1, g)
  }

  lemma {:induction false} SumShort(rules: seq<Rule>, g0: Got, ss: seq<CatId>, i: nat, g: Got)
    requires i <= |ss| && Height(g.d) <= Height(g0.d)
    ensures SumFrom(rules, g0, ss, i, g) == 0
    decreases |ss| - i
  {
    if i < |ss| {
      SumShort(rules, g0, ss, i + 1, g);
      ChainShort(rules, Over(g0, ss[i]), g);
    }
  }

  lemma {:induction false} SumNext(rules: seq<Rule>, g0: Got, ss: seq<CatId>, i: nat, super: CatId)
    requires i <= |ss|
    ensures SumFrom(rules, g0, ss, i, Over(g0, super)) == multiset(ss[i..])[super]
    decreases |ss| - i
  {
    if i < |ss| {
      SumNext(rules, g0, ss, i + 1, super);
      ChainShort(rules, Over(g0, ss[i]), g0);
      assert ss[i..] == [ss[i]] + ss[i + 1..];
    }
  }

  lemma {:induction false} SumHigher(rules: seq<Rule>, g0: Got, ss: seq<CatId>, i: nat, g: Got)
    requires i <= |ss| && g.d.ByCoerce? && Got(g.d.cat, g.d.kid) != g0
    ensures SumFrom(rules, g0, ss, i, g)
         == multiset(rules)[Rule(g.cat, Coerce(g.d.cat))] * SumFrom(rules, g0, ss, i, Got(g.d.cat, g.d.kid))
    decreases |ss| - i
  {
    if i < |ss| {
      SumHigher(rules, g0, ss, i + 1, g);
      var kid := Got(g.d.cat, g.d.kid);
      Distribute(Chain(rules, Over(g0, ss[i]), kid), SumFrom(rules, g0, ss, i + 1, kid),
                 multiset(rules)[Rule(g.cat, Coerce(g.d.cat))]);
    }
  }

  /** One climbs no step, or a first one and then on. */
  lemma {:induction false} ChainSplit(rules: seq<Rule>, g0: Got, g: Got)
    ensures Chain(rules, g0, g) == One(g == g0) + SumFrom(rules, g0, SupersFor(rules, g0.cat), 0, g)
    decreases g.d
  {
    var ss := SupersFor(rules, g0.cat);
    if g == g0 || g.d.ByApply? {
      SumShort(rules, g0, ss, 0, g);
    } else if Got(g.d.cat, g.d.kid) == g0 {
      SumNext(rules, g0, ss, 0, g.cat);
      SuperCount(rules, g0.cat, g.cat);
      assert ss[0..] == ss;
    } else {
      ChainSplit(rules, g0, Got(g.d.cat, g.d.kid));
      SumHigher(rules, g0, ss, 0, g);
    }
  }

  ghost predicate Indexed(rules: seq<Rule>, ix: Index) {
    IndexExact(rules, ix.funs, ix.coerces)
  }

  lemma {:induction false} TimesSuper(rules: seq<Rule>, ix: Index, l: Ladder, g0: Got, g: Got)
    requires Climbs(ix, l) && Indexed(rules, ix)
    ensures Times(SuperGot(ix, l, g0), g) == Chain(rules, g0, g)
    decreases if l.rank(g0.cat) < l.top then l.top - l.rank(g0.cat) else 0, 1, 0
  {
    ChainSplit(rules, g0, g);
    assert SupersAt(ix.coerces, g0.cat) == SupersFor(rules, g0.cat);
    if g0.cat in ix.coerces {
      TimesSuperFrom(rules, ix, l, g0, g, 0);
      var t := SuperGot(ix, l, g0);
      assert t.kids[0] == Leaf(g0) && TimesFrom(t, 0, g) == Times(t.kids[0], g) + TimesFrom(t, 1, g);
    }
  }

  lemma {:induction false} TimesSuperFrom(rules: seq<Rule>, ix: Index, l: Ladder, g0: Got, g: Got, i: nat)
    requires Climbs(ix, l) && Indexed(rules, ix) && g0.cat in ix.coerces && i <= |ix.coerces[g0.cat]|
    ensures TimesFrom(SuperGot(ix, l, g0), i + 1, g) == SumFrom(rules, g0, ix.coerces[g0.cat], i, g)
    decreases if l.rank(g0.cat) < l.top then l.top - l.rank(g0.cat) else 0, 0, |ix.coerces[g0.cat]| - i
  {
    var ss := ix.coerces[g0.cat];
    if i < |ss| {
      TimesSuperFrom(rules, ix, l, g0, g, i + 1);
      TimesSuper(rules, ix, l, Over(g0, ss[i]), g);
      assert SuperGot(ix, l, g0).kids[i + 1] == SuperGot(ix, l, Over(g0, ss[i]));
    }
  }

  lemma TimesClimb(rules: seq<Rule>, ix: Index, l: Ladder, u: Option<Got>, g: Got)
    requires Climbs(ix, l) && Indexed(rules, ix)
    ensures Times(ClimbGot(ix, l, u), Some(g)) == if u.Some? then Chain(rules, u.value, g) else 0
  {
    if u.Some? {
      TimesSuper(rules, ix, l, u.value, g);
      TimesBind(SuperGot(ix, l, u.value), (h: Got) => Leaf(Some(h)), g, Some(g));
    }
  }

  // -------------------------------------------------------------- counting: expressions

  /** A derivation of an expression by a rule. */
  ghost predicate Fits(e: Expr, d: Deriv) {
    d.ByApply? && Abstract(Tree(d)) == Strip(e)
  }

  /** Among the attempts for an expression, each derivation of it by a rule is
      there once for every way of picking its rules, and nothing else is. */
  lemma {:induction false} TimesExpr(rules: seq<Rule>, ix: Index, l: Ladder, e: Expr, g: Got)
    requires Climbs(ix, l) && Indexed(rules, ix)
    ensures Times(ExprGot(ix, l, e), Some(g)) == Ways(rules, g.cat, g.d) * One(Fits(e, g.d))
    decreases Size(e), 3, 0
  {
    FitsExactly(e, g.d);
    if Unapplied(e).Some? && Unapplied(e).value.fun in ix.funs {
      TimesArgs(rules, ix, l, e, [], [], g);
      if Unapplied(e).value.fun == FunName(g.d) && ArgCount(g.d) == |Unapplied(e).value.args| && |g.d.cats| == |g.d.kids| {
        LaterWays(rules, Unapplied(e).value.args, g.d, 0);
        var m, a := multiset(rules)[Rule(g.cat, Apply(g.d.fun, g.d.cats))], WaysFrom(rules, g.d, 0);
        Reorder(m, a, One(MatchFrom(Unapplied(e).value.args, g.d, 0)));
      }
    } else if Fits(e, g.d) {
      assert EntriesAt(ix.funs, g.d.fun.name, g.d.cats) == EntriesFor(rules, g.d.fun.name, g.d.cats);
      EntryCount(rules, g.d.fun.name, g.d.cats, g.cat, g.d.fun);
    }
  }

  ghost function FunName(d: Deriv): string {
    if d.ByApply? then d.fun.name else ""
  }

  ghost function ArgCount(d: Deriv): int {
    if d.ByApply? then |d.kids| else -1
  }

  ghost predicate MatchFrom(args: seq<Expr>, d: Deriv, k: nat)
    requires d.ByApply? && |d.kids| == |args|
  {
    forall i :: k <= i < |args| ==> Abstract(Tree(d.kids[i])) == Strip(args[i])
  }

  lemma FitsExactly(e: Expr, d: Deriv)
    ensures Fits(e, d) <==>
            && Unapplied(e).Some? && d.ByApply?
            && Unapplied(e).value.fun == FunName(d) && ArgCount(d) == |Unapplied(e).value.args|
            && MatchFrom(Unapplied(e).value.args, d, 0)
  {
    if d.ByApply? {
      var t := Tree(d);
      if Fits(e, d) {
        StripApplied(e, d.fun.name, AbstractAll(t.args));
        var args := Unapplied(e).value.args;
        forall i | 0 <= i < |args| ensures Abstract(Tree(d.kids[i])) == Strip(args[i]) {
          assert StripAll(args)[i] == AbstractAll(t.args)[i];
        }
      } else if Unapplied(e).Some? && |d.kids| == |Unapplied(e).value.args| && MatchFrom(Unapplied(e).value.args, d, 0) {
        ReapplyStrips(e);
        assert StripAll(Unapplied(e).value.args) == AbstractAll(t.args);
      }
    }
  }

  lemma {:induction false} TimesArg(rules: seq<Rule>, ix: Index, l: Ladder, arg: Expr, g: Got)
    requires Climbs(ix, l) && Indexed(rules, ix)
    ensures Times(ArgGot(ix, l, arg), Some(g)) == Ways(rules, g.cat, g.d) * One(Abstract(Tree(g.d)) == Strip(arg))
    decreases Size(arg), 4, 0
  {
    var t, f, v := ExprGot(ix, l, arg), (u: Option<Got>) => ClimbGot(ix, l, u), Some(BaseOf(g));
    ChainWays(rules, g);
    forall u | u in Leaves(t) && u != v ensures Times(f(u), Some(g)) == 0 {
      TimesClimb(rules, ix, l, u, g);
      if u.Some? {
        TimesExpr(rules, ix, l, arg, u.value);
        TimesLeaves(t, u);
        Product(Ways(rules, u.value.cat, u.value.d), One(Fits(arg, u.value.d)));
        ChainBase(rules, u.value, g);
      }
    }
    TimesBind(t, f, v, Some(g));
    TimesExpr(rules, ix, l, arg, v.value);
    TimesClimb(rules, ix, l, v, g);
    var a, b := Ways(rules, v.value.cat, v.value.d), Chain(rules, v.value, g);
    Reorder(a, One(Fits(arg, v.value.d)), b);
  }

  /** The ways for the arguments from number `k` on. */
  ghost function Later(rules: seq<Rule>, args: seq<Expr>, d: Deriv, k: nat): nat
    requires d.ByApply? && |d.kids| == |d.cats| == |args| && k <= |args|
    decreases |args| - k
  {
    if k == |args| then 1
    else Ways(rules, d.cats[k], d.kids[k]) * One(Abstract(Tree(d.kids[k])) == Strip(args[k])) * Later(rules, args, d, k + 1)
  }

  lemma {:induction false} LaterWays(rules: seq<Rule>, args: seq<Expr>, d: Deriv, k: nat)
    requires d.ByApply? && |d.kids| == |d.cats| == |args| && k <= |args|
    ensures Later(rules, args, d, k) == WaysFrom(rules, d, k) * One(MatchFrom(args, d, k))
    decreases |args| - k
  {
    if k < |args| {
      LaterWays(rules, args, d, k + 1);
    }
  }

  /** `d` applies a function of that name to arguments that begin like this. */
  ghost predicate Begins(name: string, n: nat, cats: seq<CatId>, ds: seq<Deriv>, d: Deriv) {
    d.ByApply? && d.fun.name == name && |d.kids| == |d.cats| == n && cats <= d.cats && ds <= d.kids
  }

  ghost function TimesOfArgs(rules: seq<Rule>, a: Application, cats: seq<CatId>, ds: seq<Deriv>, g: Got): nat
    requires |cats| == |ds| <= |a.args|
  {
    if Begins(a.fun, |a.args|, cats, ds, g.d)
    then multiset(rules)[Rule(g.cat, Apply(g.d.fun, g.d.cats))] * Later(rules, a.args, g.d, |cats|)
    else 0
  }

  lemma {:induction false} TimesArgs(rules: seq<Rule>, ix: Index, l: Ladder, e: Expr, cats: seq<CatId>, ds: seq<Deriv>, g: Got)
    requires Known(ix, l, e) && Indexed(rules, ix) && |cats| == |ds| <= |Unapplied(e).value.args|
    ensures Times(ArgsGot(ix, l, e, cats, ds), Some(g)) == TimesOfArgs(rules, Unapplied(e).value, cats, ds, g)
    decreases Size(e), 1, |Unapplied(e).value.args| - |cats|, 0
  {
    var a, k := Unapplied(e).value, |cats|;
    if k == |a.args| {
      TimesRule(rules, ix, a, cats, ds, g);
    } else {
      ArgsSmaller(e, k);
      var t, f := ArgGot(ix, l, a.args[k]), (u: Option<Got>) => RestGot(ix, l, e, cats, ds, u);
      var proper := Begins(a.fun, |a.args|, cats, ds, g.d);
      var v := if proper then Some(Got(g.d.cats[k], g.d.kids[k])) else None;
      forall u ensures Times(f(u), Some(g)) == if u.Some? then TimesOfRest(rules, a, cats, ds, g, u.value) else 0 {
        if u.Some? {
          TimesArgs(rules, ix, l, e, cats + [u.value.cat], ds + [u.value.d], g);
        }
      }
      forall u: Option<Got> | u != v ensures Times(f(u), Some(g)) == 0 {
        if u.Some? {
          OnlyNext(a, cats, ds, g, u.value);
        }
      }
      TimesBind(t, f, v, Some(g));
      if proper {
        TimesArg(rules, ix, l, a.args[k], v.value);
        ArgsJoin(rules, a, cats, ds, g);
      }
    }
  }

  ghost function TimesOfRest(rules: seq<Rule>, a: Application, cats: seq<CatId>, ds: seq<Deriv>, g: Got, h: Got): nat
    requires |cats| == |ds| < |a.args|
  {
    TimesOfArgs(rules, a, cats + [h.cat], ds + [h.d], g)
  }

  lemma OnlyNext(a: Application, cats: seq<CatId>, ds: seq<Deriv>, g: Got, h: Got)
    requires |cats| == |ds| < |a.args|
    ensures Begins(a.fun, |a.args|, cats + [h.cat], ds + [h.d], g.d) <==>
            Begins(a.fun, |a.args|, cats, ds, g.d) && h == Got(g.d.cats[|cats|], g.d.kids[|ds|])
  {
    var k := |cats|;
    if Begins(a.fun, |a.args|, cats + [h.cat], ds + [h.d], g.d) {
      assert (cats + [h.cat])[k] == h.cat && (ds + [h.d])[k] == h.d;
      assert cats == (cats + [h.cat])[..k] && ds == (ds + [h.d])[..k];
    }
  }

  lemma ArgsJoin(rules: seq<Rule>, a: Application, cats: seq<CatId>, ds: seq<Deriv>, g: Got)
    requires |cats| == |ds| < |a.args| && Begins(a.fun, |a.args|, cats, ds, g.d)
    ensures var k := |cats|;
            Ways(rules, g.d.cats[k], g.d.kids[k]) * One(Abstract(Tree(g.d.kids[k])) == Strip(a.args[k]))
            * TimesOfRest(rules, a, cats, ds, g, Got(g.d.cats[k], g.d.kids[k]))
            == TimesOfArgs(rules, a, cats, ds, g)
  {
    var k := |cats|;
    OnlyNext(a, cats, ds, g, Got(g.d.cats[k], g.d.kids[k]));
    var m, x := multiset(rules)[Rule(g.cat, Apply(g.d.fun, g.d.cats))], Later(rules, a.args, g.d, k + 1);
    var w := Ways(rules, g.d.cats[k], g.d.kids[k]) * One(Abstract(Tree(g.d.kids[k])) == Strip(a.args[k]));
    Reorder(w, m, x);
  }

  lemma TimesRule(rules: seq<Rule>, ix: Index, a: Application, cats: seq<CatId>, ds: seq<Deriv>, g: Got)
    requires Indexed(rules, ix) && a.fun in ix.funs && |cats| == |ds| == |a.args|
    ensures Times(RuleGot(ix.funs[a.fun], cats, ds), Some(g)) == TimesOfArgs(rules, a, cats, ds, g)
  {
    var infer, t := ix.funs[a.fun], RuleGot(ix.funs[a.fun], cats, ds);
    assert EntriesAt(ix.funs, a.fun, cats) == EntriesFor(rules, a.fun, cats);
    if g.d.ByApply? {
      EntryCount(rules, a.fun, cats, g.cat, g.d.fun);
      assert Begins(a.fun, |a.args|, cats, ds, g.d) ==> g.d.cats == cats && g.d.kids == ds;
    }
    if cats in infer && infer[cats] != [] {
      var entries := infer[cats];
      var v := if g.d.ByApply? then Entry(g.cat, g.d.fun) else entries[0];
      var n := One(g.d.ByApply? && g.d.cats == cats && g.d.kids == ds);
      forall i | 0 <= i < |entries| ensures Times(t.kids[i], Some(g)) == if entries[i] == v then n else 0 {
        assert t.kids[i] == Leaf(Some(GotBy(entries[i], cats, ds)));
      }
      TimesBranches(t, Some(g), entries, v, n, 0);
      assert entries[0..] == entries;
    }
  }

  // ------------------------------------------------------------------------------ results

  /** The results of the attempts, with their derivations. */
  ghost function AllGot(ix: Index, l: Ladder, e: Expr): seq<Got>
    requires Climbs(ix, l)
  {
    Results(Leaves(ExprGot(ix, l, e)))
  }

  lemma {:induction false} ResultsShown(gs: seq<Option<Got>>)
    ensures |Results(ShowAll(gs))| == |Results(gs)|
    ensures forall i :: 0 <= i < |Results(gs)| ==>
              Results(ShowAll(gs))[i] == Res(Results(gs)[i].cat, Tree(Results(gs)[i].d))
    decreases |gs|
  {
    if gs != [] {
      ResultsShown(gs[1..]);
      assert ShowAll(gs)[1..] == ShowAll(gs[1..]) && ShowAll(gs)[0] == Show(gs[0]);
    }
  }

  /** They are what inference comes to, and each derivation is among them as often
      as there are ways of picking its rules. */
  lemma AttemptsCounted(rules: seq<Rule>, ix: Index, l: Ladder, e: Expr)
    requires Climbs(ix, l) && Indexed(rules, ix)
    ensures var out, gs := Results(Leaves(ExprTree(ix, l, e))), AllGot(ix, l, e);
            && |out| == |gs|
            && (forall i :: 0 <= i < |gs| ==> out[i] == Res(gs[i].cat, Tree(gs[i].d)))
            && (forall g: Got :: multiset(gs)[g] == Ways(rules, g.cat, g.d) * One(Fits(e, g.d)))
  {
    var leaves, gs := Leaves(ExprGot(ix, l, e)), AllGot(ix, l, e);
    ExprShown(ix, l, e);
    ResultsShown(leaves);
    forall g: Got ensures multiset(gs)[g] == Ways(rules, g.cat, g.d) * One(Fits(e, g.d)) {
      ResultsCount(leaves, g);
      TimesLeaves(ExprGot(ix, l, e), Some(g));
      TimesExpr(rules, ix, l, e, g);
    }
  }

  lemma {:induction false} BaseDerives(cats: seq<CCat>, g: Got)
    requires Derives(cats, g.cat, g.d)
    ensures Derives(cats, BaseOf(g).cat, BaseOf(g).d) && BaseOf(g).d.ByApply? && Tree(BaseOf(g).d) == Tree(g.d)
    decreases g.d
  {
    if g.d.ByCoerce? {
      BaseDerives(cats, Got(g.d.cat, g.d.kid));
    }
  }
}
