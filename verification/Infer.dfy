/**
 From abstract to concrete trees: backtracking inference over the linearizer's
 indices (`pgf/linearize.c`).
 */
module Infer {
  import opened Wrappers
  import opened Grammar
  import opened Linearize
  import opened Expr
  import opened Choice
  import opened LzrIndex
  import opened InferTree
  import opened Searching

  // ----------------------------------------------------------------------- inference

  /** Coercions climb a finite ladder. */
  ghost predicate Ranked(rules: seq<Rule>, rank: CatId -> nat, top: nat) {
    forall r :: r in rules && r.prod.Coerce? ==> rank(r.prod.cat) < rank(r.cat) <= top
  }

  ghost predicate Acyclic(rules: seq<Rule>) {
    exists rank, top: nat :: Ranked(rules, rank, top)
  }

  ghost function Indices(lzr: Lzr): Index
    reads lzr
  {
    Index(lzr.funIndices, lzr.coerceIdx)
  }

  lemma RankedClimbs(lzr: Lzr, rank: CatId -> nat, top: nat)
    requires lzr.Valid() && Ranked(lzr.rules, rank, top)
    ensures Climbs(Indices(lzr), Ladder(rank, top))
  {
    forall c, i | c in lzr.coerceIdx && 0 <= i < |lzr.coerceIdx[c]|
      ensures rank(c) < rank(lzr.coerceIdx[c][i]) <= top
    {
      assert lzr.coerceIdx[c] == SupersAt(lzr.coerceIdx, c) == SupersFor(lzr.rules, c);
      SuperIsRule(lzr.rules, c, i);
    }
  }

  /** No more choices than this are made for an expression of some size. */
  ghost function Depth(size: nat, top: nat): nat {
    if size == 0 then 0 else Depth(size - 1, top) + top + 2
  }

  lemma {:induction false} DepthSum(m: nat, n: nat, top: nat)
    ensures Depth(m + n, top) == Depth(m, top) + Depth(n, top)
    decreases n
  {
    if n > 0 {
      DepthSum(m, n - 1, top);
    }
  }

  lemma DepthMonotone(m: nat, n: nat, top: nat)
    requires m <= n
    ensures Depth(m, top) <= Depth(n, top)
  {
    DepthSum(m, n - m, top);
  }

  /** What the first `i` arguments and the coercions above them count for. */
  ghost function ArgsSize(args: seq<Expr>, i: nat): nat
    requires i <= |args|
  {
    if i == 0 then 0 else ArgsSize(args, i - 1) + Size(args[i - 1]) + 1
  }

  lemma {:induction false} ArgsSizeFront(args: seq<Expr>, more: seq<Expr>, i: nat)
    requires i <= |args|
    ensures ArgsSize(args + more, i) == ArgsSize(args, i)
    decreases i
  {
    if i > 0 {
      ArgsSizeFront(args, more, i - 1);
    }
  }

  lemma {:induction false} ArgsSizeMonotone(args: seq<Expr>, i: nat, j: nat)
    requires i <= j <= |args|
    ensures ArgsSize(args, i) <= ArgsSize(args, j)
    decreases j
  {
    if i < j {
      ArgsSizeMonotone(args, i, j - 1);
    }
  }

  lemma {:induction false} ArgsSizeBound(e: Expr)
    requires Unapplied(e).Some?
    ensures var args := Unapplied(e).value.args; ArgsSize(args, |args|) + 1 <= Size(e)
    decreases e
  {
    match e
    case Typed(x) => ArgsSizeBound(x);
    case ImplArg(x) => ArgsSizeBound(x);
    case App(fun, arg) =>
      ArgsSizeBound(fun);
      var args := Unapplied(fun).value.args;
      ArgsSizeFront(args, [arg], |args|);
    case _ =>
  }

  /** The path fits its room, and there is room for `need` more choices. */
  ghost predicate HasRoom(ch: GuChoice, need: nat, room: nat)
    reads ch
  {
    |ch.path| <= room && ch.pathIdx + need <= room
  }

  /** One step up the ladder, along an indexed coercion. */
  lemma ClimbOk(lzr: Lzr, cat: CatId, k: nat, d: Deriv)
    requires lzr.Valid() && cat in lzr.coerceIdx && k < |lzr.coerceIdx[cat]| && Derives(lzr.cats, cat, d)
    ensures Derives(lzr.cats, lzr.coerceIdx[cat][k], ByCoerce(cat, d)) && Tree(ByCoerce(cat, d)) == Tree(d)
  {
    assert lzr.coerceIdx[cat] == SupersAt(lzr.coerceIdx, cat) == SupersFor(lzr.rules, cat);
    SuperIsRule(lzr.rules, cat, k);
  }

  /** Climbs to any category the given one coerces into, as chosen. */
  method PickSupercat(lzr: Lzr, ch: GuChoice, cat: CatId, ghost d: Deriv, ghost room: nat, ghost l: Ladder)
      returns (ok: bool, c: CatId, ghost d': Deriv)
    requires lzr.Valid() && Climbs(Indices(lzr), l) && ch.Valid() && Derives(lzr.cats, cat, d)
    requires HasRoom(ch, l.top + 1, room)
    modifies ch
    ensures ch.Valid() && old(ch.path) <= ch.path && |ch.path| <= room
    ensures old(ch.pathIdx) <= ch.pathIdx <= old(ch.pathIdx) + l.top + 1
    ensures ok ==> Derives(lzr.cats, c, d') && Tree(d') == Tree(d)
    ensures Climbed(Indices(lzr), l, cat, old(ch.path), old(ch.pathIdx), ch.path, ch.pathIdx, ok, c)
  {
    c, d' := cat, d;
    ok := true;
    ghost var steps, ix := 0, Indices(lzr);
    ClimbStart(ix, l, cat, ch.path, ch.pathIdx);
    while c in lzr.coerceIdx
      invariant ch.Valid() && old(ch.path) <= ch.path && |ch.path| <= room
      invariant ok && Derives(lzr.cats, c, d') && Tree(d') == Tree(d)
      invariant old(ch.pathIdx) <= ch.pathIdx <= old(ch.pathIdx) + steps
      invariant steps <= l.rank(c) && steps <= l.top
      invariant Climbing(ix, l, cat, old(ch.path), old(ch.pathIdx), ch.path, ch.pathIdx, c)
      decreases l.top - l.rank(c)
    {
      var supers := lzr.coerceIdx[c];
      if |supers| + 1 > UINT8_MAX {
        return false, c, d';
      }
      var n;
      ghost var path, idx := ch.path, ch.pathIdx;
      ok, n := ch.Next(|supers| + 1);
      ClimbNext(ix, l, cat, old(ch.path), old(ch.pathIdx), path, idx, c, ch.path, ok, n, ch.pathIdx);
      if !ok || n == 0 {
        return;
      }
      ClimbOk(lzr, c, n - 1, d');
      d' := ByCoerce(c, d');
      c := supers[n - 1];
      steps := steps + 1;
    }
    ClimbEnd(ix, l, cat, old(ch.path), old(ch.pathIdx), ch.path, ch.pathIdx, c);
  }

  /** The walk up from `cat` that began at `start` has got to the tree `t`. */
  ghost predicate OnTheWay(ix: Index, l: Ladder, cat: CatId, p: seq<nat>, start: nat, path: seq<nat>, idx: nat, t: Decision<CatId>)
    requires Climbs(ix, l)
  {
    start <= |p| && p <= path &&
    var w := Walk(SuperTree(ix, l, cat), p[start..]);
    w.Walked? ==> Along(w, path, start, idx, t)
  }

  /** It has got to the categories above `c`... */
  ghost predicate Climbing(ix: Index, l: Ladder, cat: CatId, p: seq<nat>, start: nat, path: seq<nat>, idx: nat, c: CatId)
    requires Climbs(ix, l)
  {
    SmallIndex(ix) ==> OnTheWay(ix, l, cat, p, start, path, idx, SuperTree(ix, l, c))
  }

  /** ... or it has ended at `c`. */
  ghost predicate Climbed(ix: Index, l: Ladder, cat: CatId, p: seq<nat>, start: nat, path: seq<nat>, idx: nat, ok: bool, c: CatId)
    requires Climbs(ix, l)
  {
    SmallIndex(ix) ==> Walks(SuperTree(ix, l, cat), p, start, path, idx, ok, c)
  }

  lemma ClimbStart(ix: Index, l: Ladder, cat: CatId, path: seq<nat>, idx: nat)
    requires Climbs(ix, l) && idx <= |path|
    ensures Climbing(ix, l, cat, path, idx, path, idx, cat)
  {
    AlongStart(path, idx, SuperTree(ix, l, cat));
  }

  lemma ClimbNext(ix: Index, l: Ladder, cat: CatId, p: seq<nat>, start: nat, path: seq<nat>, idx: nat, c: CatId,
                  path': seq<nat>, ok: bool, n: int, idx': nat)
    requires Climbs(ix, l) && Climbing(ix, l, cat, p, start, path, idx, c) && c in ix.coerces
    requires idx <= |path| && start <= |p|
    requires if idx == |path| then ok && n == 0 && path' == path + [|ix.coerces[c]| + 1]
             else path' == path && ok == (path[idx] <= |ix.coerces[c]| + 1) && (ok ==> n == |ix.coerces[c]| + 1 - path[idx])
    ensures ok && 0 < n <= |ix.coerces[c]| && idx' == idx + 1 ==> Climbing(ix, l, cat, p, start, path', idx', ix.coerces[c][n - 1])
    ensures !ok || (n == 0 && idx' == idx + 1) ==> Climbed(ix, l, cat, p, start, path', idx', ok, c)
  {
    var w, t := Walk(SuperTree(ix, l, cat), p[start..]), SuperTree(ix, l, c);
    if SmallIndex(ix) && w.Walked? {
      AlongNext(w, path, start, idx, t, path', ok, n);
      if n == 0 {
        WalksEnd(w, p, path', start, idx + 1, c);
      }
    }
  }

  lemma ClimbEnd(ix: Index, l: Ladder, cat: CatId, p: seq<nat>, start: nat, path: seq<nat>, idx: nat, c: CatId)
    requires Climbs(ix, l) && Climbing(ix, l, cat, p, start, path, idx, c) && c !in ix.coerces && start <= |p|
    ensures Climbed(ix, l, cat, p, start, path, idx, true, c)
  {
    var w := Walk(SuperTree(ix, l, cat), p[start..]);
    if SmallIndex(ix) && w.Walked? {
      WalksEnd(w, p, path, start, idx, c);
    }
  }

  lemma WalksEnd<L>(w: Walked<L>, path: seq<nat>, path': seq<nat>, start: nat, idx: nat, v: L)
    requires Along(w, path', start, idx, Leaf(v)) && path <= path' && start <= |path|
    ensures w.Walked? && w.leaf == v && path' == path[..start] + w.used + w.rest && idx == start + |w.used|
  {
    AlongEnd(w, path', start, idx, v);
    assert path' == path'[..start] + path'[start..idx] + path'[idx..];
    assert path'[..start] == path[..start];
  }

  /** Arguments inferred so far: their categories, trees, and where in the
      choice path each one began. */
  datatype Attempt = Attempt(marks: seq<nat>, argCats: seq<CatId>, trees: seq<CncTree>)

  ghost predicate ArgOk(cats: seq<CCat>, e: Expr, c: CatId, t: CncTree, d: Deriv) {
    Derives(cats, c, d) && Tree(d) == t && Abstract(t) == Strip(e)
  }

  ghost predicate AttemptOk(cats: seq<CCat>, args: seq<Expr>, at: Attempt, ds: seq<Deriv>, start: nat, idx: nat) {
    && |at.argCats| == |at.trees| == |ds| <= |args| && |at.marks| == |ds| + 1
    && at.marks[0] == start
    && (forall k, l :: 0 <= k < l < |at.marks| ==> at.marks[k] <= at.marks[l])
    && at.marks[|ds|] <= idx
    && forall k :: 0 <= k < |ds| ==> ArgOk(cats, args[k], at.argCats[k], at.trees[k], ds[k])
  }

  lemma AttemptGrows(cats: seq<CCat>, args: seq<Expr>, at: Attempt, ds: seq<Deriv>, start: nat, idx: nat,
                     c: CatId, t: CncTree, d: Deriv, idx': nat)
    requires AttemptOk(cats, args, at, ds, start, idx) && |ds| < |args| && idx <= idx'
    requires ArgOk(cats, args[|ds|], c, t, d)
    ensures AttemptOk(cats, args, Attempt(at.marks + [idx'], at.argCats + [c], at.trees + [t]), ds + [d], start, idx')
  {}

  /** The first `k` arguments of an attempt. */
  function Cut(at: Attempt, k: nat): Attempt
    requires k <= |at.argCats| == |at.trees| && |at.marks| == |at.trees| + 1
  {
    Attempt(at.marks[..k + 1], at.argCats[..k], at.trees[..k])
  }

  /** `p` has been reached from `q` by making choices and stepping counters. */
  ghost predicate Onward(q: seq<nat>, p: seq<nat>, room: nat) {
    Counters(p) && |p| <= room && Weight(p, room) <= Weight(q, room)
  }

  lemma OnwardExtends(q: seq<nat>, p: seq<nat>, p': seq<nat>, room: nat)
    requires Onward(q, p, room) && p <= p' && Counters(p') && |p'| <= room
    ensures Onward(q, p', room)
  {
    assert p + p'[|p|..] == p';
    WeightExtends(p, p'[|p|..], room);
  }

  /** What was recorded before `n` still is. */
  ghost predicate SameFront(p: seq<nat>, p': seq<nat>, n: nat) {
    n <= |p| && n <= |p'| && p'[..n] == p[..n]
  }

  lemma SameFrontOn(p: seq<nat>, p1: seq<nat>, p2: seq<nat>, n: nat, m: nat)
    requires SameFront(p, p1, n) && SameFront(p1, p2, m) && n <= m
    ensures SameFront(p, p2, n)
  {
    assert p2[..n] == p2[..m][..n] == p1[..m][..n] == p1[..n];
  }

  lemma SameFrontExtends(p: seq<nat>, p': seq<nat>, n: nat)
    requires p <= p' && n <= |p|
    ensures SameFront(p, p', n)
  {}

  lemma FrontBelow(p: seq<nat>, p': seq<nat>, n: nat, m: nat)
    requires SameFront(p, p', m) && n <= m
    ensures SameFront(p, p', n)
  {
    assert p'[..n] == p'[..m][..n] == p[..m][..n] == p[..n];
  }

  /** How a search leaves the path: where it got to (`reached`) when it found
      something, and otherwise back at its beginning, with nothing recorded but
      what is left of that. */
  ghost predicate Searched(p: seq<nat>, idx: nat, p': seq<nat>, idx': nat, reached: seq<nat>,
                           ok: bool, found: bool, depth: nat, room: nat) {
    && |p'| <= room && idx <= idx' && SameFront(p, p', idx) && Onward(p, reached, room)
    && (found ==> p' == reached && idx' <= idx + depth)
    && (ok ==> p' <= reached && (!found ==> idx' == idx))
  }

  /** Where inference may go on from: the marks stay within the room. */
  ghost predicate MarksFit(args: seq<Expr>, marks: seq<nat>, start: nat, top: nat) {
    |marks| <= |args| + 1
    && forall k :: 0 <= k < |marks| ==> marks[k] <= start + Depth(ArgsSize(args, k), top)
  }

  /** The next argument and a coercion above it, in numbers. */
  lemma DepthOfNext(args: seq<Expr>, i: nat, top: nat)
    requires i < |args|
    ensures Depth(ArgsSize(args, i + 1), top) == Depth(ArgsSize(args, i), top) + Depth(Size(args[i]), top) + top + 2
  {
    DepthSum(ArgsSize(args, i), Size(args[i]), top);
    var n := ArgsSize(args, i) + Size(args[i]);
    assert Depth(n + 1, top) == Depth(n, top) + top + 2;
  }

  lemma MarksFitSnoc(args: seq<Expr>, marks: seq<nat>, start: nat, top: nat, mark: nat)
    requires MarksFit(args, marks, start, top) && 1 <= |marks| <= |args|
    requires mark <= marks[|marks| - 1] + (Depth(Size(args[|marks| - 1]), top) + top + 1)
    ensures MarksFit(args, marks + [mark], start, top)
  {
    DepthOfNext(args, |marks| - 1, top);
  }

  /** There is room for the next argument and a coercion above it... */
  lemma NextFits(e: Expr, args: seq<Expr>, marks: seq<nat>, i: nat, start: nat, top: nat, room: nat)
    requires Unapplied(e).Some? && Unapplied(e).value.args == args && i < |args|
    requires MarksFit(args, marks, start, top) && i < |marks| && start + Depth(Size(e), top) <= room
    ensures marks[i] + (Depth(Size(args[i]), top) + top + 1) <= room
  {
    ArgsSizeBound(e);
    DepthOfNext(args, i, top);
    ArgsSizeMonotone(args, i + 1, |args|);
    DepthMonotone(ArgsSize(args, i + 1), Size(e), top);
  }

  /** ... and for picking a rule when all arguments are there. */
  lemma LastFits(e: Expr, args: seq<Expr>, marks: seq<nat>, start: nat, top: nat)
    requires Unapplied(e).Some? && Unapplied(e).value.args == args
    requires MarksFit(args, marks, start, top) && |marks| == |args| + 1
    ensures marks[|args|] + 1 <= start + Depth(Size(e), top)
  {
    ArgsSizeBound(e);
    var n := ArgsSize(args, |args|);
    assert Depth(n + 1, top) == Depth(n, top) + top + 2;
    DepthMonotone(n + 1, Size(e), top);
  }

  /** The search stands at an attempt, as long as no list is too long to count. */
  ghost predicate OnSearch(ix: Index, l: Ladder, e: Expr, at: Attempt, path: seq<nat>, start: nat, idx: nat, p: seq<nat>)
    requires Known(ix, l, e) && |at.argCats| == |at.trees| <= |Unapplied(e).value.args|
  {
    SmallIndex(ix) ==> Going(ix, l, e, at.marks, at.argCats, at.trees, path, start, idx, p)
  }

  ghost predicate OnReturn(ix: Index, l: Ladder, e: Expr, at: Attempt, path: seq<nat>, start: nat, p: seq<nat>)
    requires Known(ix, l, e) && |at.argCats| == |at.trees| <= |Unapplied(e).value.args|
  {
    SmallIndex(ix) ==> GoingBack(ix, l, e, at.marks, at.argCats, at.trees, path, start, p)
  }

  /** There is something to follow, so no check may fail. */
  ghost predicate Must(ix: Index, l: Ladder, e: Expr, p: seq<nat>)
    requires Known(ix, l, e)
  {
    SmallIndex(ix) && (Follows(WholeTree(ix, l, e), p) || Recorded(WholeTree(ix, l, e), p))
  }

  /** Infers the missing arguments.  When that fails, the path is what is left of
      `reached`. */
  method TryArgs(lzr: Lzr, ch: GuChoice, ghost e: Expr, ghost name: string, args: seq<Expr>, at: Attempt, ghost ds: seq<Deriv>,
                 ghost start: nat, ghost room: nat, ghost l: Ladder, ghost p: seq<nat>)
      returns (ok: bool, found: bool, at': Attempt, ghost ds': seq<Deriv>, ghost reached: seq<nat>)
    requires lzr.Valid() && Climbs(Indices(lzr), l) && ch.Valid()
    requires Unapplied(e) == Some(Application(name, args))
    requires Standing(lzr.cats, args, at, ds, start, ch.pathIdx, l.top)
    requires |ch.path| <= room && start + Depth(Size(e), l.top) <= room
    requires name in lzr.funIndices && OnSearch(Indices(lzr), l, e, at, ch.path, start, ch.pathIdx, p)
    modifies ch
    ensures ch.Valid() && (ok ==> Standing(lzr.cats, args, at', ds', start, ch.pathIdx, l.top))
    ensures |ch.path| <= room && Onward(old(ch.path), reached, room) && SameFront(old(ch.path), ch.path, start)
    ensures found ==> ok && ch.path == reached && |ds'| == |args|
    ensures ch.pathIdx >= start
    ensures ok ==> ch.path <= reached
    ensures Must(Indices(lzr), l, e, p) ==> ok
    ensures found ==> OnSearch(Indices(lzr), l, e, at', ch.path, start, ch.pathIdx, p)
    ensures ok && !found ==> OnReturn(Indices(lzr), l, e, at', ch.path, start, p)
    decreases Size(e), 1
  {
    at', ds', ok, found, reached := at, ds, true, true, ch.path;
    while |at'.argCats| < |args|
      invariant ch.Valid() && ok && found && Standing(lzr.cats, args, at', ds', start, ch.pathIdx, l.top)
      invariant ch.path == reached && Onward(old(ch.path), reached, room)
      invariant SameFront(old(ch.path), ch.path, start)
      invariant OnSearch(Indices(lzr), l, e, at', ch.path, start, ch.pathIdx, p)
      decreases |args| - |at'.argCats|
    {
      ghost var before := ch.path;
      ok, found, at', ds', reached := TryArg(lzr, ch, e, name, args, at', ds', start, room, l, p);
      SameFrontOn(old(ch.path), before, ch.path, start, start);
      if !found {
        return;
      }
    }
  }

  /** Infers the missing arguments, then picks a rule for their categories. */
  method ApplyTry(lzr: Lzr, ch: GuChoice, ghost e: Expr, name: string, args: seq<Expr>, infer: InferMap,
                  at: Attempt, ghost ds: seq<Deriv>, ghost start: nat, ghost room: nat, ghost l: Ladder, ghost p: seq<nat>)
      returns (ok: bool, entry: Option<Entry>, at': Attempt, ghost ds': seq<Deriv>, ghost reached: seq<nat>)
    requires lzr.Valid() && Climbs(Indices(lzr), l) && ch.Valid()
    requires Unapplied(e) == Some(Application(name, args))
    requires name in lzr.funIndices && lzr.funIndices[name] == infer
    requires Standing(lzr.cats, args, at, ds, start, ch.pathIdx, l.top)
    requires |ch.path| <= room && start + Depth(Size(e), l.top) <= room
    requires OnSearch(Indices(lzr), l, e, at, ch.path, start, ch.pathIdx, p)
    modifies ch
    ensures ch.Valid() && ch.pathIdx >= start
    ensures ok && entry == None ==> Standing(lzr.cats, args, at', ds', start, ch.pathIdx, l.top)
    ensures entry.Some? ==> ok && AttemptOk(lzr.cats, args, at', ds', start, ch.pathIdx) && |ds'| == |args|
    ensures entry.Some? ==> entry.value.fun.name == name
                            && Rule(entry.value.cat, Apply(entry.value.fun, at'.argCats)) in lzr.rules
    ensures |ch.path| <= room && Onward(old(ch.path), reached, room) && SameFront(old(ch.path), ch.path, start)
    ensures entry.Some? ==> ch.path == reached && ch.pathIdx <= start + Depth(Size(e), l.top)
    ensures ok ==> ch.path <= reached
    ensures Must(Indices(lzr), l, e, p) ==> ok
    ensures entry.Some? && SmallIndex(Indices(lzr)) ==>
              Concluded(WholeTree(Indices(lzr), l, e), p, ch.path, start, ch.pathIdx, Some(Result(entry.value, at'.trees)))
    ensures ok && entry == None ==> OnReturn(Indices(lzr), l, e, at', ch.path, start, p)
    decreases Size(e), 2
  {
    var found;
    entry := None;
    ok, found, at', ds', reached := TryArgs(lzr, ch, e, name, args, at, ds, start, room, l, p);
    if !found {
      return;
    }
    ghost var was, wasIdx := ch.path, ch.pathIdx;
    LastFits(e, args, at'.marks, start, l.top);
    ok, entry := PickEntry(lzr, ch, name, infer, at'.argCats, at'.trees);
    reached := ch.path;
    OnwardExtends(old(ch.path), was, reached, room);
    SameFrontExtends(was, ch.path, start);
    SameFrontOn(old(ch.path), was, ch.path, start, start);
    if SmallIndex(Indices(lzr)) {
      GoingRule(Indices(lzr), l, e, at'.marks, at'.argCats, at'.trees, was, start, wasIdx, p,
                ch.path, ch.pathIdx, ok, ResultOf(entry, at'.trees));
    }
  }

  /** Picks a rule for the argument categories. */
  method PickEntry(lzr: Lzr, ch: GuChoice, name: string, infer: InferMap, argCats: seq<CatId>, ghost trees: seq<CncTree>)
      returns (ok: bool, entry: Option<Entry>)
    requires lzr.Valid() && ch.Valid() && name in lzr.funIndices && lzr.funIndices[name] == infer
    modifies ch
    ensures ch.Valid() && old(ch.path) <= ch.path
    ensures |ch.path| <= (if |old(ch.path)| < old(ch.pathIdx) + 1 then old(ch.pathIdx) + 1 else |old(ch.path)|)
    ensures entry.Some? ==> ok && entry.value.fun.name == name && ch.pathIdx == old(ch.pathIdx) + 1
                            && Rule(entry.value.cat, Apply(entry.value.fun, argCats)) in lzr.rules
    ensures entry == None ==> ch.path == old(ch.path) && ch.pathIdx == old(ch.pathIdx)
    ensures Picked(Indices(lzr), infer, argCats, trees, old(ch.path), old(ch.pathIdx), ch.path, ch.pathIdx, ok, entry)
  {
    ok, entry := true, None;
    NonePicked(infer, argCats, trees, ch.path, ch.pathIdx);
    if argCats !in infer {
      return;
    }
    var entries := infer[argCats];
    if |entries| > UINT8_MAX {
      return false, None;
    }
    var n;
    ok, n := ch.Next(|entries|);
    OnePicked(infer, argCats, trees, old(ch.path), old(ch.pathIdx), ch.path, ok, n);
    if ok && n >= 0 {
      assert entries == EntriesAt(lzr.funIndices, name, argCats) == EntriesFor(lzr.rules, name, argCats);
      EntryIsRule(lzr.rules, name, argCats, n);
      entry := Some(entries[n]);
    }
  }

  /** The entry recorded has been picked, or the first one. */
  ghost predicate Picked(ix: Index, infer: InferMap, argCats: seq<CatId>, trees: seq<CncTree>, p: seq<nat>, idx: nat,
                         p': seq<nat>, idx': nat, ok: bool, entry: Option<Entry>) {
    SmallIndex(ix) ==> Walks(RuleTree(infer, argCats, trees), p, idx, p', idx', ok, ResultOf(entry, trees))
  }

  lemma NonePicked(infer: InferMap, argCats: seq<CatId>, trees: seq<CncTree>, path: seq<nat>, idx: nat)
    requires idx <= |path|
    ensures argCats !in infer || infer[argCats] == [] ==>
              Walks(RuleTree(infer, argCats, trees), path, idx, path, idx, true, None)
  {
    if argCats !in infer || infer[argCats] == [] {
      assert Walk(RuleTree(infer, argCats, trees), path[idx..]) == Walked(None, [], path[idx..]);
      assert path == path[..idx] + [] + path[idx..];
    }
  }

  lemma OnePicked(infer: InferMap, argCats: seq<CatId>, trees: seq<CncTree>, path: seq<nat>, idx: nat,
                  path': seq<nat>, ok: bool, n: int)
    requires idx <= |path| && argCats in infer
    requires infer[argCats] != [] ==>
               if idx == |path| then ok && n == 0 && path' == path + [|infer[argCats]|]
               else path' == path && ok == (path[idx] <= |infer[argCats]|) && (ok ==> n == |infer[argCats]| - path[idx])
    ensures var w := Walk(RuleTree(infer, argCats, trees), path[idx..]);
            infer[argCats] != [] && w.Walked? ==>
              && ok && 0 <= n < |infer[argCats]|
              && Walks(RuleTree(infer, argCats, trees), path, idx, path', idx + 1, true, Some(Result(infer[argCats][n], trees)))
  {
    var t := RuleTree(infer, argCats, trees);
    var w := Walk(t, path[idx..]);
    if infer[argCats] != [] && w.Walked? {
      AlongStart(path, idx, t);
      AlongNext(w, path, idx, idx, t, path', ok, n);
      WalksEnd(w, path, path', idx, idx + 1, Some(Result(infer[argCats][n], trees)));
    }
  }

  function ResultOf(entry: Option<Entry>, trees: seq<CncTree>): Option<Res> {
    if entry.Some? then Some(Result(entry.value, trees)) else None
  }

  /** An argument, and a category it coerces into. */
  method InferArg(lzr: Lzr, ch: GuChoice, arg: Expr, ghost room: nat, ghost l: Ladder)
      returns (ok: bool, r: Option<Res>, ghost d: Deriv, ghost reached: seq<nat>)
    requires lzr.Valid() && Climbs(Indices(lzr), l) && ch.Valid()
    requires HasRoom(ch, Depth(Size(arg), l.top) + l.top + 1, room)
    modifies ch
    ensures ch.Valid()
    ensures Searched(old(ch.path), old(ch.pathIdx), ch.path, ch.pathIdx, reached, ok, r.Some?,
                     Depth(Size(arg), l.top) + l.top + 1, room)
    ensures SmallIndex(Indices(lzr)) ==>
              SearchOk(ArgTree(Indices(lzr), l, arg), old(ch.path), old(ch.pathIdx), ch.path, ch.pathIdx, ok, r)
    ensures r.Some? ==> ok && ArgOk(lzr.cats, arg, r.value.cat, r.value.tree, d)
    decreases Size(arg), 7
  {
    var r1;
    ok, r1, d, reached := InferExpr(lzr, ch, arg, room, l);
    ghost var mid, midIdx, ok1 := ch.path, ch.pathIdx, ok;
    if r1 == None {
      r := None;
      ArgSearched(Indices(lzr), l, arg, old(ch.path), old(ch.pathIdx), mid, midIdx, ok1, r1, ch.path, ch.pathIdx, ok, r, 0);
      return;
    }
    var c;
    ok, c, d := PickSupercat(lzr, ch, r1.value.cat, d, room, l);
    reached := ch.path;
    OnwardExtends(old(ch.path), mid, reached, room);
    SameFrontExtends(mid, ch.path, old(ch.pathIdx));
    SameFrontOn(old(ch.path), mid, ch.path, old(ch.pathIdx), old(ch.pathIdx));
    r := if ok then Some(Res(c, r1.value.tree)) else None;
    ArgSearched(Indices(lzr), l, arg, old(ch.path), old(ch.pathIdx), mid, midIdx, ok1, r1, ch.path, ch.pathIdx, ok, r, c);
  }

  lemma ArgSearched(ix: Index, l: Ladder, arg: Expr, path: seq<nat>, idx: nat, mid: seq<nat>, midIdx: nat, ok1: bool, r1: Option<Res>,
                    path': seq<nat>, idx': nat, ok: bool, r: Option<Res>, c: CatId)
    requires Climbs(ix, l) && (SmallIndex(ix) ==> SearchOk(ExprTree(ix, l, arg), path, idx, mid, midIdx, ok1, r1))
    requires r1.Some? ==> Climbed(ix, l, r1.value.cat, mid, midIdx, path', idx', ok, c)
    requires r1 == None ==> path' == mid && idx' == midIdx && ok == ok1
    requires r == if r1.Some? && ok then Some(Res(c, r1.value.tree)) else None
    requires SameFront(path, path', idx)
    ensures SmallIndex(ix) ==> SearchOk(ArgTree(ix, l, arg), path, idx, path', idx', ok, r)
  {
    if SmallIndex(ix) {
      ArgReplays(ix, l, arg, path, idx, mid, midIdx, ok1, r1, path', idx', ok, c);
      ArgFinds(ix, l, arg, path, idx, mid, midIdx, ok1, r1, path', idx', ok, c);
    }
  }

  /** Where an attempt stands: its arguments, its marks, and the path. */
  ghost predicate Standing(cats: seq<CCat>, args: seq<Expr>, at: Attempt, ds: seq<Deriv>, start: nat, idx: nat, top: nat) {
    AttemptOk(cats, args, at, ds, start, idx) && MarksFit(args, at.marks, start, top) && idx == at.marks[|ds|]
  }

  lemma StandingSnoc(cats: seq<CCat>, args: seq<Expr>, at: Attempt, ds: seq<Deriv>, start: nat, idx: nat, top: nat,
                     c: CatId, t: CncTree, d: Deriv, idx': nat)
    requires Standing(cats, args, at, ds, start, idx, top) && |ds| < |args| && ArgOk(cats, args[|ds|], c, t, d)
    requires idx <= idx' <= idx + (Depth(Size(args[|ds|]), top) + top + 1)
    ensures Standing(cats, args, Attempt(at.marks + [idx'], at.argCats + [c], at.trees + [t]), ds + [d], start, idx', top)
  {
    AttemptGrows(cats, args, at, ds, start, idx, c, t, d, idx');
    MarksFitSnoc(args, at.marks, start, top, idx');
  }

  /** Infers one more argument. */
  method TryArg(lzr: Lzr, ch: GuChoice, ghost e: Expr, ghost name: string, args: seq<Expr>, at: Attempt, ghost ds: seq<Deriv>,
                ghost start: nat, ghost room: nat, ghost l: Ladder, ghost p: seq<nat>)
      returns (ok: bool, found: bool, at': Attempt, ghost ds': seq<Deriv>, ghost reached: seq<nat>)
    requires lzr.Valid() && Climbs(Indices(lzr), l) && ch.Valid()
    requires Unapplied(e) == Some(Application(name, args)) && |ds| < |args|
    requires Standing(lzr.cats, args, at, ds, start, ch.pathIdx, l.top)
    requires |ch.path| <= room && start + Depth(Size(e), l.top) <= room
    requires name in lzr.funIndices && OnSearch(Indices(lzr), l, e, at, ch.path, start, ch.pathIdx, p)
    modifies ch
    ensures ch.Valid() && (ok ==> Standing(lzr.cats, args, at', ds', start, ch.pathIdx, l.top))
    ensures |ch.path| <= room && Onward(old(ch.path), reached, room) && SameFront(old(ch.path), ch.path, start)
    ensures found ==> ok && ch.path == reached && |ds'| == |ds| + 1
    ensures ch.pathIdx >= start
    ensures ok ==> ch.path <= reached
    ensures Must(Indices(lzr), l, e, p) ==> ok
    ensures found ==> OnSearch(Indices(lzr), l, e, at', ch.path, start, ch.pathIdx, p)
    ensures ok && !found ==> OnReturn(Indices(lzr), l, e, at', ch.path, start, p)
    decreases Size(e), 0
  {
    at', ds' := at, ds;
    var i := |at.argCats|;
    ArgsSmaller(e, i);
    NextFits(e, args, at.marks, i, start, l.top, room);
    var r;
    ghost var d;
    ok, r, d, reached := InferArg(lzr, ch, args[i], room, l);
    FrontBelow(old(ch.path), ch.path, start, old(ch.pathIdx));
    found := r.Some?;
    if SmallIndex(Indices(lzr)) {
      GoingArg(Indices(lzr), l, e, at.marks, at.argCats, at.trees, old(ch.path), start, old(ch.pathIdx), p,
               ch.path, ch.pathIdx, ok, r);
    }
    if found {
      StandingSnoc(lzr.cats, args, at, ds, start, old(ch.pathIdx), l.top, r.value.cat, r.value.tree, d, ch.pathIdx);
      at' := Attempt(at.marks + [ch.pathIdx], at.argCats + [r.value.cat], at.trees + [r.value.tree]);
      ds' := ds + [d];
    }
  }

  /** A counter of the path has been stepped, and what was behind it dropped. */
  ghost predicate SteppedBack(p: seq<nat>, start: nat, k: nat, p': seq<nat>, idx: nat) {
    && start <= idx <= k < |p| && p[k] > 1 && p' == p[..k] + [p[k] - 1]
    && p'[start..] == Advanced(p[start..])
  }

  /** Goes back to the latest argument that has another alternative: some counter
      of the path is stepped and the rest dropped. */
  method Backtrack(lzr: Lzr, ch: GuChoice, args: seq<Expr>, at: Attempt, ghost ds: seq<Deriv>, ghost start: nat, ghost top: nat)
      returns (more: bool, at': Attempt, ghost ds': seq<Deriv>, ghost k: nat)
    requires ch.Valid() && Standing(lzr.cats, args, at, ds, start, ch.pathIdx, top)
    modifies ch
    ensures ch.Valid() && ch.pathIdx >= start
    ensures more ==> Standing(lzr.cats, args, at', ds', start, ch.pathIdx, top) && |ds'| < |ds|
                     && ch.pathIdx == at'.marks[|ds'|] < |ch.path| && at' == Cut(at, |ds'|)
    ensures more ==> SteppedBack(old(ch.path), start, k, ch.path, ch.pathIdx)
    ensures !more && |ds| > 0 ==> ch.pathIdx == |ch.path| == start && Advanced(old(ch.path)[start..]) == []
    ensures !more ==> ch.path <= old(ch.path) && (|ds| == 0 ==> ch.path == old(ch.path) && ch.pathIdx == old(ch.pathIdx))
  {
    at', ds', k := at, ds, 0;
    var i := |at.argCats|;
    more := false;
    while !more
      invariant 0 <= i <= |at.argCats| && ch.Valid() && at.marks[i] <= ch.pathIdx
      invariant i < |at.argCats| ==> ch.pathIdx == at.marks[i]
      invariant !more ==> i == |at.argCats| || ch.pathIdx == |ch.path|
      invariant more ==> i < |at.argCats| && ch.pathIdx < |ch.path|
      invariant !more ==> ch.path <= old(ch.path)
      invariant i == |at.argCats| ==> ch.path == old(ch.path) && ch.pathIdx == old(ch.pathIdx)
      invariant !more ==> Advanced(ch.path[start..]) == Advanced(old(ch.path)[start..])
      invariant more ==> SteppedBack(old(ch.path), start, k, ch.path, ch.pathIdx)
      decreases i, !more
    {
      if i == 0 {
        return;
      }
      i := i - 1;
      ch.Reset(at.marks[i]);
      ghost var cut := ch.path;
      more := ch.Advance();
      k := StepBack(old(ch.path), cut, start, at.marks[i], ch.path);
    }
    StandingCut(lzr.cats, args, at, ds, start, old(ch.pathIdx), top, i);
    at', ds' := Cut(at, i), ds[..i];
  }

  /** One step back: a counter behind the mark is stepped, or there is none. */
  lemma StepBack(whole: seq<nat>, cut: seq<nat>, start: nat, mark: nat, p: seq<nat>) returns (k: nat)
    requires cut <= whole && start <= mark <= |cut| && p == cut[..mark] + Advanced(cut[mark..])
    requires Advanced(cut[start..]) == Advanced(whole[start..])
    ensures |p| > mark ==> SteppedBack(whole, start, k, p, mark)
    ensures |p| <= mark ==> p <= whole && Advanced(p[start..]) == Advanced(whole[start..])
  {
    k := Stepped(cut, whole, mark, p);
    AdvancedFrom(cut, start, mark, p);
  }

  /** What advancing does to a path cut off from a longer one. */
  lemma Stepped(cut: seq<nat>, whole: seq<nat>, mark: nat, p: seq<nat>) returns (k: nat)
    requires cut <= whole && mark <= |cut| && p == cut[..mark] + Advanced(cut[mark..])
    ensures |p| > mark ==> mark <= k < |whole| && whole[k] > 1 && p == whole[..k] + [whole[k] - 1]
    ensures |p| <= mark ==> p <= whole
  {
    k := 0;
    if Advanced(cut[mark..]) != [] {
      var j := AdvancedAt(cut[mark..]);
      k := mark + j;
      assert cut[..mark] + cut[mark..][..j] == whole[..k];
    }
  }

  /** Advancing from a mark is advancing from an earlier one, as far as it goes. */
  lemma AdvancedFrom(cut: seq<nat>, start: nat, mark: nat, p: seq<nat>)
    requires start <= mark <= |cut| && p == cut[..mark] + Advanced(cut[mark..])
    ensures |p| > mark ==> p[start..] == Advanced(cut[start..])
    ensures |p| <= mark ==> Advanced(p[start..]) == Advanced(cut[start..])
  {
    var a, b := cut[start..mark], cut[mark..];
    assert cut[start..] == a + b;
    AdvancedAppend(a, b);
    assert p[start..] == a + Advanced(b);
    assert Advanced(b) == [] ==> a + Advanced(b) == a;
  }

  lemma StandingCut(cats: seq<CCat>, args: seq<Expr>, at: Attempt, ds: seq<Deriv>, start: nat, idx: nat, top: nat, n: nat)
    requires Standing(cats, args, at, ds, start, idx, top) && n <= |ds|
    ensures Standing(cats, args, Cut(at, n), ds[..n], start, at.marks[n], top)
  {}

  /** Stepping a counter of what an attempt has reached is progress over where the
      attempt began. */
  lemma StepIsProgress(q: seq<nat>, reached: seq<nat>, cut: seq<nat>, k: nat, room: nat, p: seq<nat>, start: nat, idx: nat)
    requires Onward(q, reached, room) && cut <= reached && SteppedBack(cut, start, k, p, idx)
    ensures |p| <= room && Weight(p, room) < Weight(q, room) && SameFront(cut, p, start)
  {
    assert cut[..k] == reached[..k];
    WeightSteps(reached, k, room);
  }

  /** One attempt, and where to go on when it fails. */
  method TryOnce(lzr: Lzr, ch: GuChoice, ghost e: Expr, name: string, args: seq<Expr>, infer: InferMap,
                 at: Attempt, ghost ds: seq<Deriv>, ghost start: nat, ghost room: nat, ghost l: Ladder, ghost p: seq<nat>)
      returns (ok: bool, r: Option<Res>, ghost d: Deriv, more: bool, at': Attempt, ghost ds': seq<Deriv>, ghost reached: seq<nat>)
    requires lzr.Valid() && Climbs(Indices(lzr), l) && ch.Valid()
    requires Unapplied(e) == Some(Application(name, args))
    requires name in lzr.funIndices && lzr.funIndices[name] == infer
    requires Standing(lzr.cats, args, at, ds, start, ch.pathIdx, l.top)
    requires |ch.path| <= room && start + Depth(Size(e), l.top) <= room
    requires OnSearch(Indices(lzr), l, e, at, ch.path, start, ch.pathIdx, p)
    modifies ch
    ensures ch.Valid() && |ch.path| <= room && SameFront(old(ch.path), ch.path, start) && ch.pathIdx >= start
    ensures Onward(old(ch.path), reached, room)
    ensures r.Some? ==> ok && ArgOk(lzr.cats, e, r.value.cat, r.value.tree, d)
    ensures r.Some? ==> ch.path == reached && ch.pathIdx <= start + Depth(Size(e), l.top)
    ensures ok && r == None && more ==> Standing(lzr.cats, args, at', ds', start, ch.pathIdx, l.top)
    ensures ok && r == None && more ==> Weight(ch.path, room) < Weight(old(ch.path), room)
    ensures ok && r == None && more ==> OnSearch(Indices(lzr), l, e, at', ch.path, start, ch.pathIdx, p)
    ensures ok && r == None && !more ==> ch.path <= reached && ch.pathIdx == start
    ensures Outcome(Indices(lzr), l, e, p, ch.path, start, ch.pathIdx, ok, r, more)
    decreases Size(e), 3
  {
    var entry;
    r, d, more := None, ByCoerce(0, ByApply(CncFun("", []), [], [])), false;
    ok, entry, at', ds', reached := ApplyTry(lzr, ch, e, name, args, infer, at, ds, start, room, l, p);
    if entry.Some? {
      d := ByApply(entry.value.fun, at'.argCats, ds');
      ApplicationOk(lzr.cats, lzr.rules, e, name, args, entry.value, at', ds');
      r := Some(Result(entry.value, at'.trees));
      return;
    }
    if !ok {
      return;
    }
    ghost var before := ch.path;
    more, at', ds' := TryNext(lzr, ch, e, args, at', ds', start, old(ch.path), reached, room, l, p);
    SameFrontOn(old(ch.path), before, ch.path, start, start);
  }

  /** A function applied to arguments: tries alternatives until one fits or none
      is left. */
  method InferApplication(lzr: Lzr, ch: GuChoice, ghost e: Expr, name: string, args: seq<Expr>,
                          ghost room: nat, ghost l: Ladder)
      returns (ok: bool, r: Option<Res>, ghost d: Deriv, ghost reached: seq<nat>)
    requires lzr.Valid() && Climbs(Indices(lzr), l) && ch.Valid()
    requires Unapplied(e) == Some(Application(name, args))
    requires HasRoom(ch, Depth(Size(e), l.top), room)
    modifies ch
    ensures ch.Valid()
    ensures Searched(old(ch.path), old(ch.pathIdx), ch.path, ch.pathIdx, reached, ok, r.Some?, Depth(Size(e), l.top), room)
    ensures r.Some? ==> ok && ArgOk(lzr.cats, e, r.value.cat, r.value.tree, d)
    ensures SmallIndex(Indices(lzr)) ==>
              SearchOk(ExprTree(Indices(lzr), l, e), old(ch.path), old(ch.pathIdx), ch.path, ch.pathIdx, ok, r)
    decreases Size(e), 5
  {
    ok, r, d := true, None, ByCoerce(0, ByApply(CncFun("", []), [], []));
    reached := ch.path;
    if name !in lzr.funIndices {
      LeafSearched(ch.path, ch.pathIdx);
      return;
    }
    ok, r, d, reached := TryAll(lzr, ch, e, name, args, lzr.funIndices[name], room, l);
    OutcomeOk(Indices(lzr), l, e, old(ch.path), old(ch.pathIdx), ch.path, ch.pathIdx, ok, r, false);
  }

  /** Tries alternatives until one fits or none is left. */
  method TryAll(lzr: Lzr, ch: GuChoice, ghost e: Expr, name: string, args: seq<Expr>, infer: InferMap,
                ghost room: nat, ghost l: Ladder)
      returns (ok: bool, r: Option<Res>, ghost d: Deriv, ghost reached: seq<nat>)
    requires lzr.Valid() && Climbs(Indices(lzr), l) && ch.Valid()
    requires Unapplied(e) == Some(Application(name, args))
    requires name in lzr.funIndices && lzr.funIndices[name] == infer
    requires HasRoom(ch, Depth(Size(e), l.top), room)
    modifies ch
    ensures ch.Valid()
    ensures Searched(old(ch.path), old(ch.pathIdx), ch.path, ch.pathIdx, reached, ok, r.Some?, Depth(Size(e), l.top), room)
    ensures r.Some? ==> ok && ArgOk(lzr.cats, e, r.value.cat, r.value.tree, d)
    ensures Outcome(Indices(lzr), l, e, old(ch.path)[old(ch.pathIdx)..], ch.path, old(ch.pathIdx), ch.pathIdx, ok, r, false)
    decreases Size(e), 4
  {
    var mark := ch.Mark();
    var at := Attempt([mark], [], []);
    ghost var ds: seq<Deriv>, p := [], ch.path[mark..];
    GoingStart(Indices(lzr), l, e, ch.path, mark);
    var more := true;
    while more
      invariant ch.Valid() && more && Standing(lzr.cats, args, at, ds, mark, ch.pathIdx, l.top)
      invariant OnSearch(Indices(lzr), l, e, at, ch.path, mark, ch.pathIdx, p)
      invariant Onward(old(ch.path), ch.path, room) && SameFront(old(ch.path), ch.path, mark)
      decreases Weight(ch.path, room)
    {
      ghost var before := ch.path;
      ok, r, d, more, at, ds, reached := TryOnce(lzr, ch, e, name, args, infer, at, ds, mark, room, l, p);
      SameFrontOn(old(ch.path), before, ch.path, mark, mark);
      if !ok || r.Some? || !more {
        return;
      }
    }
  }

  /** After a failed attempt: the next one begins further on, if there is one. */
  method TryNext(lzr: Lzr, ch: GuChoice, ghost e: Expr, args: seq<Expr>, at: Attempt, ghost ds: seq<Deriv>, ghost start: nat,
                 ghost began: seq<nat>, ghost reached: seq<nat>, ghost room: nat, ghost l: Ladder, ghost p: seq<nat>)
      returns (more: bool, at': Attempt, ghost ds': seq<Deriv>)
    requires ch.Valid() && Standing(lzr.cats, args, at, ds, start, ch.pathIdx, l.top) && |ch.path| <= room
    requires Onward(began, reached, room) && ch.path <= reached
    requires Known(Indices(lzr), l, e) && args == Unapplied(e).value.args
    requires OnReturn(Indices(lzr), l, e, at, ch.path, start, p)
    modifies ch
    ensures ch.Valid() && SameFront(old(ch.path), ch.path, start)
    ensures more ==> Standing(lzr.cats, args, at', ds', start, ch.pathIdx, l.top)
    ensures more ==> |ch.path| <= room && Weight(ch.path, room) < Weight(began, room)
    ensures !more ==> ch.path <= old(ch.path) && ch.pathIdx == start
    ensures more ==> OnSearch(Indices(lzr), l, e, at', ch.path, start, ch.pathIdx, p)
    ensures !more && SmallIndex(Indices(lzr)) ==> Exhausted(WholeTree(Indices(lzr), l, e), p, ch.path, start)
  {
    ghost var k;
    more, at', ds', k := Backtrack(lzr, ch, args, at, ds, start, l.top);
    if more {
      StepIsProgress(began, reached, old(ch.path), k, room, ch.path, start, ch.pathIdx);
      BackOnSearch(Indices(lzr), l, e, at, old(ch.path), start, p, ch.path, k, ch.pathIdx, at', ds');
    } else {
      BackAtStart(Indices(lzr), l, e, at, old(ch.path), start, p, ch.path);
    }
  }

  lemma BackOnSearch(ix: Index, l: Ladder, e: Expr, at: Attempt, path: seq<nat>, start: nat, p: seq<nat>,
                     path': seq<nat>, k: nat, idx: nat, at': Attempt, ds: seq<Deriv>)
    requires Known(ix, l, e) && |at.argCats| == |at.trees| <= |Unapplied(e).value.args| && |at.marks| == |at.argCats| + 1
    requires OnReturn(ix, l, e, at, path, start, p)
    requires |ds| <= |at.argCats| && at' == Cut(at, |ds|) && idx == at.marks[|ds|]
    requires forall j :: 0 <= j <= |ds| ==> at.marks[j] <= idx
    requires SteppedBack(path, start, k, path', idx)
    ensures OnSearch(ix, l, e, at', path', start, idx, p)
  {
    if SmallIndex(ix) {
      GoingNext(ix, l, e, at.marks, at.argCats, at.trees, path, start, p, path', |ds|, idx);
    }
  }

  lemma BackAtStart(ix: Index, l: Ladder, e: Expr, at: Attempt, path: seq<nat>, start: nat, p: seq<nat>, path': seq<nat>)
    requires Known(ix, l, e) && |at.argCats| == |at.trees| <= |Unapplied(e).value.args| && |at.marks| == |at.argCats| + 1
    requires OnReturn(ix, l, e, at, path, start, p) && at.marks[0] == start <= |path|
    requires if |at.argCats| == 0 then path' == path else |path'| == start && Advanced(path[start..]) == []
    ensures SmallIndex(ix) ==> Exhausted(WholeTree(ix, l, e), p, path', start)
  {
    if |at.argCats| == 0 && |path| == start {
      assert path[start..] == [];
    }
  }

  /** No attempt is left, none has had a result, and nothing is recorded. */
  ghost predicate Exhausted(t: Decision<Option<Res>>, p: seq<nat>, path: seq<nat>, start: nat) {
    !Recorded(t, p) && (Follows(t, p) ==> First(Remaining(t, p)) == None && |path| == start)
  }

  /** What an attempt has come to: a result, the end, or neither. */
  ghost predicate Outcome(ix: Index, l: Ladder, e: Expr, p: seq<nat>, path: seq<nat>, start: nat, idx: nat,
                          ok: bool, r: Option<Res>, more: bool)
    requires Known(ix, l, e)
  {
    && (Must(ix, l, e, p) ==> ok)
    && (r.Some? && SmallIndex(ix) ==> Concluded(WholeTree(ix, l, e), p, path, start, idx, r))
    && (ok && r == None && !more && SmallIndex(ix) ==> Exhausted(WholeTree(ix, l, e), p, path, start))
  }

  lemma OutcomeOk(ix: Index, l: Ladder, e: Expr, path: seq<nat>, start: nat, path': seq<nat>, idx: nat,
                  ok: bool, r: Option<Res>, more: bool)
    requires Known(ix, l, e) && SameFront(path, path', start)
    requires Outcome(ix, l, e, path[start..], path', start, idx, ok, r, more)
    requires !ok || r.Some? || !more
    requires (r.Some? ==> ok) && (ok && r == None ==> idx == start)
    ensures SmallIndex(ix) ==> SearchOk(WholeTree(ix, l, e), path, start, path', idx, ok, r)
  {
    if SmallIndex(ix) && r.Some? {
      ConcludedOk(ix, l, e, path, start, path', idx, r);
    } else if SmallIndex(ix) && ok {
      NothingFound(ix, l, e, path, start, path');
    }
  }

  lemma NothingFound(ix: Index, l: Ladder, e: Expr, path: seq<nat>, start: nat, path': seq<nat>)
    requires Known(ix, l, e) && SameFront(path, path', start)
    requires Exhausted(WholeTree(ix, l, e), path[start..], path', start)
    ensures SearchOk(WholeTree(ix, l, e), path, start, path', start, true, None)
  {
    assert |path'| == start ==> path' == path'[..start];
  }

  lemma ApplicationOk(cats: seq<CCat>, rules: seq<Rule>, e: Expr, name: string, args: seq<Expr>,
                      entry: Entry, at: Attempt, ds: seq<Deriv>)
    requires RulesOk(cats, rules) && Unapplied(e) == Some(Application(name, args))
    requires |at.argCats| == |at.trees| == |ds| == |args|
    requires forall k :: 0 <= k < |ds| ==> ArgOk(cats, args[k], at.argCats[k], at.trees[k], ds[k])
    requires entry.fun.name == name && Rule(entry.cat, Apply(entry.fun, at.argCats)) in rules
    ensures ArgOk(cats, e, entry.cat, CncTree.App(entry.fun, at.trees), ByApply(entry.fun, at.argCats, ds))
  {
    var t := CncTree.App(entry.fun, at.trees);
    assert Tree(ByApply(entry.fun, at.argCats, ds)).args == at.trees;
    ReapplyStrips(e);
    assert AbstractAll(t.args) == StripAll(args);
  }

  /** Any tree returned for an expression is a tree of that expression and
      derives from the returned category. */
  method InferExpr(lzr: Lzr, ch: GuChoice, e: Expr, ghost room: nat, ghost l: Ladder)
      returns (ok: bool, r: Option<Res>, ghost d: Deriv, ghost reached: seq<nat>)
    requires lzr.Valid() && Climbs(Indices(lzr), l) && ch.Valid()
    requires HasRoom(ch, Depth(Size(e), l.top), room)
    modifies ch
    ensures ch.Valid()
    ensures Searched(old(ch.path), old(ch.pathIdx), ch.path, ch.pathIdx, reached, ok, r.Some?, Depth(Size(e), l.top), room)
    ensures r.Some? ==> ok && ArgOk(lzr.cats, e, r.value.cat, r.value.tree, d)
    ensures SmallIndex(Indices(lzr)) ==>
              SearchOk(ExprTree(Indices(lzr), l, e), old(ch.path), old(ch.pathIdx), ch.path, ch.pathIdx, ok, r)
    decreases Size(e), 6
  {
    var appl := Unapply(e);
    if appl == None {
      d := ByCoerce(0, ByApply(CncFun("", []), [], []));
      LeafSearched(ch.path, ch.pathIdx);
      return true, None, d, ch.path;
    }
    ok, r, d, reached := InferApplication(lzr, ch, e, appl.value.fun, appl.value.args, room, l);
  }

  /** Inference on its own, for any choice path. */
  method InferWith(lzr: Lzr, ch: GuChoice, e: Expr, ghost l: Ladder) returns (ok: bool, r: Option<Res>, ghost d: Deriv)
    requires lzr.Valid() && Climbs(Indices(lzr), l) && ch.Valid()
    modifies ch
    ensures ch.Valid() && ch.pathIdx >= old(ch.pathIdx)
    ensures r.Some? ==> ok && ArgOk(lzr.cats, e, r.value.cat, r.value.tree, d)
    ensures ok && r == None ==> ch.pathIdx == old(ch.pathIdx)
    ensures SmallIndex(Indices(lzr)) ==>
              SearchOk(ExprTree(Indices(lzr), l, e), old(ch.path), old(ch.pathIdx), ch.path, ch.pathIdx, ok, r)
  {
    ghost var need := ch.pathIdx + Depth(Size(e), l.top);
    ghost var reached;
    ok, r, d, reached := InferExpr(lzr, ch, e, if |ch.path| < need then need else |ch.path|, l);
  }
}
