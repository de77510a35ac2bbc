/**
 The concrete grammar, as `pgf/data.h` lays it out: categories with their
 productions, concrete functions with their symbol sequences.
 */
module Grammar {

  type Token = string
  type CatId = nat

  /** `SymCat(d, r)` stands for constituent `r` of argument `d`. */
  datatype Symbol = SymCat(d: nat, r: nat) | SymKS(tokens: seq<Token>)

  /** One symbol sequence per constituent. */
  datatype CncFun = CncFun(name: string, lins: seq<seq<Symbol>>)

  datatype CncCat = CncCat(cid: string, nCtnts: nat)

  datatype Production = Apply(fun: CncFun, args: seq<CatId>) | Coerce(cat: CatId)

  /** A production list is null, a plain sequence (categories of the grammar)
      or a growing buffer (categories created while parsing). */
  datatype Productions = NullProds | SeqProds(ps: seq<Production>) | BufProds(ps: seq<Production>)

  datatype CCat = CCat(cnccat: CncCat, prods: Productions)

  function ProdsOf(c: CCat): seq<Production> {
    if c.prods.NullProds? then [] else c.prods.ps
  }

  function ProdArgs(p: Production): seq<CatId> {
    match p
    case Apply(_, args) => args
    case Coerce(cat) => [cat]
  }

  predicate HasCtnt(p: Production, r: nat) {
    p.Apply? ==> r < |p.fun.lins|
  }

  /** The symbols of constituent `r`; a coercion passes its argument's
      constituent through. */
  function ProdSyms(p: Production, r: nat): seq<Symbol>
    requires HasCtnt(p, r)
  {
    match p
    case Apply(fun, _) => fun.lins[r]
    case Coerce(_) => [SymCat(0, r)]
  }

  predicate SymWf(cats: seq<CCat>, args: seq<CatId>, s: Symbol) {
    match s
    case SymKS(tokens) => 0 < |tokens| <= 255
    case SymCat(d, r) =>
      && d < |args| && args[d] < |cats|
      && (cats[args[d]].prods.NullProds? || r < cats[args[d]].cnccat.nCtnts)
  }

  /** What the grammar reader guarantees of a production of a category with
      `nCtnts` constituents, and what the item fields can index. */
  predicate ProdWf(cats: seq<CCat>, nCtnts: nat, p: Production) {
    && (forall i :: 0 <= i < |ProdArgs(p)| ==> ProdArgs(p)[i] < |cats|)
    && (p.Apply? ==> |p.fun.lins| == nCtnts)
    && (forall r :: 0 <= r < nCtnts ==> |ProdSyms(p, r)| <= 65535)
    && (forall r, k :: 0 <= r < nCtnts && 0 <= k < |ProdSyms(p, r)| ==>
          SymWf(cats, ProdArgs(p), ProdSyms(p, r)[k]))
  }

  /** A grammar as read: no category has a buffer yet. */
  predicate GrammarWf(cats: seq<CCat>) {
    forall c :: 0 <= c < |cats| ==>
      && !cats[c].prods.BufProds?
      && forall p :: p in ProdsOf(cats[c]) ==> ProdWf(cats, cats[c].cnccat.nCtnts, p)
  }
}
