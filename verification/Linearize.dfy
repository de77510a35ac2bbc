/**
 The meaning of concrete trees (`pgf/linearize.c`) and the trees a category
 derives.
 */
module Linearize {
  import opened Wrappers
  import opened Grammar
  import E = Expr

  datatype CncTree = App(fun: CncFun, args: seq<CncTree>)

  /** The tokens of constituent `r` of a tree.  `None` is a failed
      precondition check: an argument or constituent index out of range. */
  function Lin(t: CncTree, r: nat): Option<seq<Token>>
    decreases t, 1, 0
  {
    if r < |t.fun.lins| then LinSyms(t, t.fun.lins[r]) else None
  }

  function LinSyms(t: CncTree, syms: seq<Symbol>): Option<seq<Token>>
    decreases t, 0, |syms|
  {
    if syms == [] then Some([]) else
    var rest := LinSyms(t, syms[..|syms| - 1]);
    var last := LinSym(t, syms[|syms| - 1]);
    if rest.Some? && last.Some? then Some(rest.value + last.value) else None
  }

  function LinSym(t: CncTree, s: Symbol): Option<seq<Token>>
    decreases t, 0, 0
  {
    match s
    case SymKS(tokens) => Some(tokens)
    case SymCat(d, r) => if d < |t.args| then Lin(t.args[d], r) else None
  }

  /** A derivation records the production used at every node, coercions
      included. */
  datatype Deriv =
    | ByApply(fun: CncFun, cats: seq<CatId>, kids: seq<Deriv>)
    | ByCoerce(cat: CatId, kid: Deriv)

  ghost predicate Derives(cats: seq<CCat>, c: CatId, d: Deriv)
    decreases d
  {
    c < |cats| &&
    match d
    case ByApply(fun, argCats, kids) =>
      && Apply(fun, argCats) in ProdsOf(cats[c])
      && |kids| == |argCats|
      && forall i :: 0 <= i < |kids| ==> Derives(cats, argCats[i], kids[i])
    case ByCoerce(c', kid) =>
      Coerce(c') in ProdsOf(cats[c]) && Derives(cats, c', kid)
  }

  /** The concrete tree of a derivation: coercions leave no trace. */
  function Tree(d: Deriv): CncTree {
    match d
    case ByApply(fun, _, kids) => App(fun, seq(|kids|, i requires 0 <= i < |kids| => Tree(kids[i])))
    case ByCoerce(_, kid) => Tree(kid)
  }

  /** The expression a concrete tree is a tree of. */
  function Abstract(t: CncTree): E.Expr {
    E.Applied(E.Fun(t.fun.name), AbstractAll(t.args))
  }

  function AbstractAll(ts: seq<CncTree>): seq<E.Expr> {
    seq(|ts|, i requires 0 <= i < |ts| => Abstract(ts[i]))
  }

  /** Emits the tokens of constituent `r` the way the linearizer does: one
      pass over the symbols, recursing into arguments. */
  method LinearizeTree(t: CncTree, r: nat) returns (ok: bool, out: seq<Token>)
    ensures Lin(t, r) == if ok then Some(out) else None
    decreases t
  {
    out := [];
    if r >= |t.fun.lins| {
      return false, out;
    }
    var syms := t.fun.lins[r];
    for i := 0 to |syms|
      invariant LinSyms(t, syms[..i]) == Some(out)
    {
      assert syms[..i + 1][..i] == syms[..i];
      match syms[i]
      case SymKS(tokens) =>
        out := out + tokens;
      case SymCat(d, r') =>
        var sub := [];
        if d < |t.args| {
          ok, sub := LinearizeTree(t.args[d], r');
        } else {
          ok := false;
        }
        if !ok {
          LinSymsNone(t, syms, i + 1);
          return false, out;
        }
        out := out + sub;
    }
    assert syms[..|syms|] == syms;
    ok := true;
  }

  lemma {:induction false} LinSymsNone(t: CncTree, syms: seq<Symbol>, k: nat)
    requires k <= |syms| && LinSyms(t, syms[..k]) == None
    ensures LinSyms(t, syms) == None
    decreases |syms| - k
  {
    if k == |syms| {
      assert syms[..k] == syms;
    } else {
      assert syms[..k + 1][..k] == syms[..k];
      LinSymsNone(t, syms, k + 1);
    }
  }
}
