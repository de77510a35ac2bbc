/**
 The linearizer's indices (`pgf/linearize.c`): the rules of the grammar by function
 and argument categories, and the coercions by the category they start from.
 */
module LzrIndex {
  import opened Wrappers
  import opened Grammar
  import opened Linearize

  // --------------------------------------------------------------------- the indices

  datatype Entry = Entry(cat: CatId, fun: CncFun)

  /** A production together with the category it belongs to. */
  datatype Rule = Rule(cat: CatId, prod: Production)

  type InferMap = map<seq<CatId>, seq<Entry>>

  /** The rules for one function and argument categories, in index order. */
  function EntriesFor(rules: seq<Rule>, name: string, args: seq<CatId>): seq<Entry> {
    if rules == [] then [] else
    var rest := EntriesFor(rules[..|rules| - 1], name, args);
    var r := rules[|rules| - 1];
    if r.prod.Apply? && r.prod.fun.name == name && r.prod.args == args
    then rest + [Entry(r.cat, r.prod.fun)] else rest
  }

  /** The categories that a category coerces into, in index order. */
  function SupersFor(rules: seq<Rule>, cat: CatId): seq<CatId> {
    if rules == [] then [] else
    var rest := SupersFor(rules[..|rules| - 1], cat);
    var r := rules[|rules| - 1];
    if r.prod == Coerce(cat) then rest + [r.cat] else rest
  }

  function EntriesAt(funs: map<string, InferMap>, name: string, args: seq<CatId>): seq<Entry> {
    if name in funs && args in funs[name] then funs[name][args] else []
  }

  function SupersAt(coerces: map<CatId, seq<CatId>>, cat: CatId): seq<CatId> {
    if cat in coerces then coerces[cat] else []
  }

  /** The indices hold the indexed rules, all of them, nothing else, in order. */
  ghost predicate IndexExact(rules: seq<Rule>, funs: map<string, InferMap>, coerces: map<CatId, seq<CatId>>) {
    && (forall name, args :: EntriesAt(funs, name, args) == EntriesFor(rules, name, args))
    && (forall cat :: SupersAt(coerces, cat) == SupersFor(rules, cat))
  }

  ghost predicate RulesOk(cats: seq<CCat>, rules: seq<Rule>) {
    forall i :: 0 <= i < |rules| ==> rules[i].cat < |cats| && rules[i].prod in ProdsOf(cats[rules[i].cat])
  }

  lemma {:induction false} EntryIsRule(rules: seq<Rule>, name: string, args: seq<CatId>, k: nat)
    requires k < |EntriesFor(rules, name, args)|
    ensures var e := EntriesFor(rules, name, args)[k];
            e.fun.name == name && Rule(e.cat, Apply(e.fun, args)) in rules
    decreases |rules|
  {
    var rest := EntriesFor(rules[..|rules| - 1], name, args);
    if k < |rest| {
      EntryIsRule(rules[..|rules| - 1], name, args, k);
    } else {
      assert rules[|rules| - 1] in rules;
    }
  }

  lemma {:induction false} SuperIsRule(rules: seq<Rule>, cat: CatId, k: nat)
    requires k < |SupersFor(rules, cat)|
    ensures Rule(SupersFor(rules, cat)[k], Coerce(cat)) in rules
    decreases |rules|
  {
    var rest := SupersFor(rules[..|rules| - 1], cat);
    if k < |rest| {
      SuperIsRule(rules[..|rules| - 1], cat, k);
    } else {
      assert rules[|rules| - 1] in rules;
    }
  }

  class Lzr {
    const cats: seq<CCat>
    var funIndices: map<string, InferMap>
    var coerceIdx: map<CatId, seq<CatId>>
    ghost var rules: seq<Rule>

    ghost predicate Valid()
      reads this
    {
      RulesOk(cats, rules) && IndexExact(rules, funIndices, coerceIdx)
    }

    constructor (cats: seq<CCat>)
      ensures Valid() && rules == [] && this.cats == cats
    {
      this.cats := cats;
      funIndices, coerceIdx, rules := map[], map[], [];
    }

    method AddInferEntry(infer: InferMap, cat: CatId, fun: CncFun, args: seq<CatId>) returns (infer': InferMap)
      ensures infer' == infer[args := (if args in infer then infer[args] else []) + [Entry(cat, fun)]]
    {
      var entries := if args in infer then infer[args] else [];
      infer' := infer[args := entries + [Entry(cat, fun)]];
    }

    method Index(cat: CatId, prod: Production)
      requires Valid() && cat < |cats| && prod in ProdsOf(cats[cat])
      modifies this
      ensures Valid() && rules == old(rules) + [Rule(cat, prod)]
    {
      match prod {
        case Apply(fun, args) =>
          var infer := if fun.name in funIndices then funIndices[fun.name] else map[];
          infer := AddInferEntry(infer, cat, fun, args);
          ApplyIndexed(rules, funIndices, coerceIdx, cat, fun, args, infer);
          funIndices := funIndices[fun.name := infer];
        case Coerce(c) =>
          var supers := if c in coerceIdx then coerceIdx[c] else [];
          CoerceIndexed(rules, funIndices, coerceIdx, cat, c);
          coerceIdx := coerceIdx[c := supers + [cat]];
      }
      rules := rules + [Rule(cat, prod)];
    }

    /** All productions of a category (none when the list is null). */
    method IndexCat(cat: CatId)
      requires Valid() && cat < |cats|
      modifies this
      ensures Valid() && rules == old(rules) + RulesOf(cat, ProdsOf(cats[cat]))
    {
      if cats[cat].prods.NullProds? {
        assert rules == rules + [];
        return;
      }
      var prods := cats[cat].prods.ps;
      for i := 0 to |prods|
        invariant Valid() && rules == old(rules) + RulesOf(cat, prods[..i])
      {
        Index(cat, prods[i]);
        assert prods[..i + 1][..i] == prods[..i];
      }
      assert prods[..|prods|] == prods;
    }

    /** Indexes the categories of the grammar in the order they are met. */
    method IndexAll(order: seq<CatId>)
      requires Valid() && forall i :: 0 <= i < |order| ==> order[i] < |cats|
      modifies this
      ensures Valid() && rules == old(rules) + AllRules(cats, order)
    {
      for k := 0 to |order|
        invariant Valid() && rules == old(rules) + AllRules(cats, order[..k])
      {
        IndexCat(order[k]);
        AllRulesStep(cats, order, k, old(rules));
      }
      assert order[..|order|] == order;
    }
  }

  /** The rules of several categories, one after the other. */
  ghost function AllRules(cats: seq<CCat>, order: seq<CatId>): seq<Rule>
    requires forall i :: 0 <= i < |order| ==> order[i] < |cats|
  {
    if order == [] then [] else
    var c := order[|order| - 1];
    AllRules(cats, order[..|order| - 1]) + RulesOf(c, ProdsOf(cats[c]))
  }

  lemma AllRulesStep(cats: seq<CCat>, order: seq<CatId>, k: nat, before: seq<Rule>)
    requires k < |order| && forall i :: 0 <= i < |order| ==> order[i] < |cats|
    ensures before + AllRules(cats, order[..k]) + RulesOf(order[k], ProdsOf(cats[order[k]])) ==
            before + AllRules(cats, order[..k + 1])
  {
    assert order[..k + 1][..k] == order[..k];
    Regroup(before, AllRules(cats, order[..k]), RulesOf(order[k], ProdsOf(cats[order[k]])));
  }

  ghost function RulesOf(cat: CatId, prods: seq<Production>): seq<Rule> {
    if prods == [] then [] else RulesOf(cat, prods[..|prods| - 1]) + [Rule(cat, prods[|prods| - 1])]
  }

  lemma ApplyIndexed(rules: seq<Rule>, funs: map<string, InferMap>, coerces: map<CatId, seq<CatId>>,
                     cat: CatId, fun: CncFun, args: seq<CatId>, infer: InferMap)
    requires IndexExact(rules, funs, coerces)
    requires var was: InferMap := if fun.name in funs then funs[fun.name] else map[];
             infer == was[args := (if args in was then was[args] else []) + [Entry(cat, fun)]]
    ensures IndexExact(rules + [Rule(cat, Apply(fun, args))], funs[fun.name := infer], coerces)
  {
    var rules' := rules + [Rule(cat, Apply(fun, args))];
    assert rules'[..|rules'| - 1] == rules;
    forall name, args' ensures EntriesAt(funs[fun.name := infer], name, args') == EntriesFor(rules', name, args') {
      assert EntriesAt(funs, name, args') == EntriesFor(rules, name, args');
    }
  }

  lemma CoerceIndexed(rules: seq<Rule>, funs: map<string, InferMap>, coerces: map<CatId, seq<CatId>>,
                      cat: CatId, c: CatId)
    requires IndexExact(rules, funs, coerces)
    ensures IndexExact(rules + [Rule(cat, Coerce(c))], funs, coerces[c := SupersAt(coerces, c) + [cat]])
  {
    var rules' := rules + [Rule(cat, Coerce(c))];
    assert rules'[..|rules'| - 1] == rules;
    forall name, args ensures EntriesAt(funs, name, args) == EntriesFor(rules', name, args) {
      assert EntriesAt(funs, name, args) == EntriesFor(rules, name, args);
    }
    forall c' ensures SupersAt(coerces[c := SupersAt(coerces, c) + [cat]], c') == SupersFor(rules', c') {
      assert SupersAt(coerces, c') == SupersFor(rules, c');
    }
  }
}
