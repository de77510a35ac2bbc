/**
 The decisions inference takes, as a tree: its leaves are the attempts, with what
 they result in.
 */
module InferTree {
  import opened Wrappers
  import opened Grammar
  import opened Linearize
  import opened Expr
  import opened Choice
  import opened Searching
  import opened LzrIndex

  /** A category and a tree of it. */
  datatype Res = Res(cat: CatId, tree: CncTree)

  datatype Index = Index(funs: map<string, InferMap>, coerces: map<CatId, seq<CatId>>)

  /** Coercions climb a ladder of finite height. */
  datatype Ladder = Ladder(rank: CatId -> nat, top: nat)

  ghost predicate Climbs(ix: Index, l: Ladder) {
    forall c, i :: c in ix.coerces && 0 <= i < |ix.coerces[c]| ==>
      l.rank(c) < l.rank(ix.coerces[c][i]) <= l.top
  }

  /** All lists are short enough for the counters of a choice object. */
  ghost predicate SmallIndex(ix: Index) {
    && (forall c :: c in ix.coerces ==> |ix.coerces[c]| < UINT8_MAX)
    && (forall f, cs :: f in ix.funs && cs in ix.funs[f] ==> |ix.funs[f][cs]| <= UINT8_MAX)
  }

  // ------------------------------------------------------------------------- the trees

  /** The category itself, or any it coerces into. */
  ghost function SuperTree(ix: Index, l: Ladder, c: CatId): Decision<CatId>
    requires Climbs(ix, l)
    decreases if l.rank(c) < l.top then l.top - l.rank(c) else 0
  {
    if c in ix.coerces then
      var ss := ix.coerces[c];
      Node([Leaf(c)] + seq(|ss|, i requires 0 <= i < |ss| => SuperTree(ix, l, ss[i])))
    else Leaf(c)
  }

  ghost function ExprTree(ix: Index, l: Ladder, e: Expr): Decision<Option<Res>>
    requires Climbs(ix, l)
    decreases Size(e), 3, 0
  {
    match Unapplied(e)
    case None => Leaf(None)
    case Some(a) => if a.fun in ix.funs then ArgsTree(ix, l, e, [], []) else Leaf(None)
  }

  /** An argument, and any category it coerces into. */
  ghost function ArgTree(ix: Index, l: Ladder, arg: Expr): Decision<Option<Res>>
    requires Climbs(ix, l)
    decreases Size(arg), 4, 0
  {
    Bind(ExprTree(ix, l, arg), (r: Option<Res>) => ClimbTree(ix, l, r))
  }

  ghost function ClimbTree(ix: Index, l: Ladder, r: Option<Res>): Decision<Option<Res>>
    requires Climbs(ix, l)
  {
    if r == None then Leaf(None)
    else Bind(SuperTree(ix, l, r.value.cat), (c: CatId) => Leaf(Some(Res(c, r.value.tree))))
  }

  /** Attempts that begin with arguments of the categories `cats` and the trees
      `trees`. */
  ghost function ArgsTree(ix: Index, l: Ladder, e: Expr, cats: seq<CatId>, trees: seq<CncTree>): Decision<Option<Res>>
    requires Climbs(ix, l) && Unapplied(e).Some? && Unapplied(e).value.fun in ix.funs
    requires |cats| == |trees| <= |Unapplied(e).value.args|
    decreases Size(e), 1, |Unapplied(e).value.args| - |cats|, 0
  {
    var a := Unapplied(e).value;
    if |cats| == |a.args| then RuleTree(ix.funs[a.fun], cats, trees)
    else
      ArgsSmaller(e, |cats|);
      Bind(ArgTree(ix, l, a.args[|cats|]), (r: Option<Res>) => RestTree(ix, l, e, cats, trees, r))
  }

  /** How it goes on after an argument. */
  ghost function RestTree(ix: Index, l: Ladder, e: Expr, cats: seq<CatId>, trees: seq<CncTree>, r: Option<Res>): Decision<Option<Res>>
    requires Climbs(ix, l) && Unapplied(e).Some? && Unapplied(e).value.fun in ix.funs
    requires |cats| == |trees| < |Unapplied(e).value.args|
    decreases Size(e), 1, |Unapplied(e).value.args| - |cats| - 1, 1
  {
    if r == None then Leaf(None) else ArgsTree(ix, l, e, cats + [r.value.cat], trees + [r.value.tree])
  }

  /** Any rule for the argument categories. */
  ghost function RuleTree(infer: InferMap, cats: seq<CatId>, trees: seq<CncTree>): Decision<Option<Res>> {
    if cats !in infer then Leaf(None)
    else if infer[cats] == [] then Dead(Leaf(None))
    else Node(seq(|infer[cats]|, i requires 0 <= i < |infer[cats]| => Leaf(Some(Result(infer[cats][i], trees)))))
  }

  function Result(entry: Entry, trees: seq<CncTree>): Res {
    Res(entry.cat, CncTree.App(entry.fun, trees))
  }

  // --------------------------------------------------------------------------- bounded

  lemma {:induction false} BoundedSuper(ix: Index, l: Ladder, c: CatId)
    requires Climbs(ix, l) && SmallIndex(ix)
    ensures Bounded(SuperTree(ix, l, c))
    decreases if l.rank(c) < l.top then l.top - l.rank(c) else 0
  {
    if c in ix.coerces {
      var ss := ix.coerces[c];
      var t := SuperTree(ix, l, c);
      forall i | 0 <= i < |t.kids| ensures Bounded(t.kids[i]) {
        if i > 0 {
          BoundedSuper(ix, l, ss[i - 1]);
        }
      }
    }
  }

  lemma {:induction false} BoundedExpr(ix: Index, l: Ladder, e: Expr)
    requires Climbs(ix, l) && SmallIndex(ix)
    ensures Bounded(ExprTree(ix, l, e))
    decreases Size(e), 3, 0
  {
    if Unapplied(e).Some? && Unapplied(e).value.fun in ix.funs {
      BoundedArgs(ix, l, e, [], []);
    }
  }

  lemma {:induction false} BoundedArg(ix: Index, l: Ladder, arg: Expr)
    requires Climbs(ix, l) && SmallIndex(ix)
    ensures Bounded(ArgTree(ix, l, arg))
    decreases Size(arg), 4, 0
  {
    BoundedExpr(ix, l, arg);
    var f := (r: Option<Res>) => ClimbTree(ix, l, r);
    forall r ensures Bounded(f(r)) {
      BoundedClimb(ix, l, r);
    }
    BoundedBind(ExprTree(ix, l, arg), f);
  }

  lemma BoundedClimb(ix: Index, l: Ladder, r: Option<Res>)
    requires Climbs(ix, l) && SmallIndex(ix)
    ensures Bounded(ClimbTree(ix, l, r))
  {
    if r.Some? {
      BoundedSuper(ix, l, r.value.cat);
      BoundedBind(SuperTree(ix, l, r.value.cat), (c: CatId) => Leaf(Some(Res(c, r.value.tree))));
    }
  }

  lemma {:induction false} BoundedArgs(ix: Index, l: Ladder, e: Expr, cats: seq<CatId>, trees: seq<CncTree>)
    requires Climbs(ix, l) && SmallIndex(ix) && Unapplied(e).Some? && Unapplied(e).value.fun in ix.funs
    requires |cats| == |trees| <= |Unapplied(e).value.args|
    ensures Bounded(ArgsTree(ix, l, e, cats, trees))
    decreases Size(e), 1, |Unapplied(e).value.args| - |cats|, 0
  {
    var a := Unapplied(e).value;
    if |cats| < |a.args| {
      ArgsSmaller(e, |cats|);
      BoundedArg(ix, l, a.args[|cats|]);
      var f := (r: Option<Res>) => RestTree(ix, l, e, cats, trees, r);
      forall r ensures Bounded(f(r)) {
        if r.Some? {
          BoundedArgs(ix, l, e, cats + [r.value.cat], trees + [r.value.tree]);
        }
      }
      BoundedBind(ArgTree(ix, l, a.args[|cats|]), f);
    }
  }

  // ------------------------------------------------------------------------ searching

  /** A method searches a tree as it should. */
  ghost predicate SearchOk(t: Decision<Option<Res>>, p: seq<nat>, idx: nat, p': seq<nat>, idx': nat, ok: bool, r: Option<Res>) {
    Replays(t, p, idx, p', idx', ok, r) && Finds(t, p, idx, p', idx', ok, r)
  }

  lemma LeafSearched(p: seq<nat>, idx: nat)
    requires idx <= |p|
    ensures SearchOk(Leaf(None), p, idx, p, idx, true, None)
  {
    assert p[idx..] == [] ==> p == p[..idx];
  }

  /** Searching an argument: the expression, then the categories above it. */
  lemma ArgReplays(ix: Index, l: Ladder, arg: Expr, path: seq<nat>, idx: nat, mid: seq<nat>, midIdx: nat, ok1: bool, r1: Option<Res>,
                   path': seq<nat>, idx': nat, ok2: bool, c: CatId)
    requires Climbs(ix, l) && Replays(ExprTree(ix, l, arg), path, idx, mid, midIdx, ok1, r1)
    requires r1.Some? ==> Walks(SuperTree(ix, l, r1.value.cat), mid, midIdx, path', idx', ok2, c)
    requires idx <= |path| && idx <= |path'| && path'[..idx] == path[..idx]
    ensures var w := Walk(ArgTree(ix, l, arg), path[idx..]);
            w.Walked? && w.leaf.Some? ==>
              && ok1 && r1.Some? && ok2
              && Replays(ArgTree(ix, l, arg), path, idx, path', idx', true, Some(Res(c, r1.value.tree)))
  {
    var t := ArgTree(ix, l, arg);
    var w := Walk(t, path[idx..]);
    if w.Walked? && w.leaf.Some? {
      var f := (r: Option<Res>) => ClimbTree(ix, l, r);
      AlongStart(path, idx, t);
      ReplaysPart(w, path, idx, idx, ExprTree(ix, l, arg), f, mid, midIdx, ok1, r1);
      var g := (c: CatId) => Leaf(Some(Res(c, r1.value.tree)));
      AlongBind(w, mid, idx, midIdx, SuperTree(ix, l, r1.value.cat), g);
      AlongEnd(w, path', idx, idx', Some(Res(c, r1.value.tree)));
      CutTwice(path', idx, idx');
    }
  }

  lemma ArgFinds(ix: Index, l: Ladder, arg: Expr, path: seq<nat>, idx: nat, mid: seq<nat>, midIdx: nat, ok1: bool, r1: Option<Res>,
                 path': seq<nat>, idx': nat, ok2: bool, c: CatId)
    requires Climbs(ix, l) && SmallIndex(ix) && SearchOk(ExprTree(ix, l, arg), path, idx, mid, midIdx, ok1, r1)
    requires r1.Some? ==> Walks(SuperTree(ix, l, r1.value.cat), mid, midIdx, path', idx', ok2, c)
    requires idx <= |path| && idx <= |path'| && path'[..idx] == path[..idx]
    ensures Follows(ArgTree(ix, l, arg), path[idx..]) ==>
              && ok1
              && (r1 == None ==> First(Remaining(ArgTree(ix, l, arg), path[idx..])) == None && mid == path[..idx] && midIdx == idx)
              && (r1.Some? ==> ok2 && Finds(ArgTree(ix, l, arg), path, idx, path', idx', true, Some(Res(c, r1.value.tree))))
  {
    var t, s := ArgTree(ix, l, arg), ExprTree(ix, l, arg);
    if Follows(t, path[idx..]) {
      var f := (r: Option<Res>) => ClimbTree(ix, l, r);
      BoundedArg(ix, l, arg);
      BoundedExpr(ix, l, arg);
      StandsStart(t, path, idx);
      FindsPart(t, path[idx..], path, idx, idx, s, f, mid, midIdx, ok1, r1);
      assert path[idx..idx] == [];
      if r1.Some? {
        var g := (c: CatId) => Leaf(Some(Res(c, r1.value.tree)));
        BoundedSuper(ix, l, r1.value.cat);
        StandsReplayed(t, path[idx..], mid, idx, midIdx, SuperTree(ix, l, r1.value.cat), g);
        StandsEnd(t, path, idx, path', idx', Some(Res(c, r1.value.tree)));
      }
    }
  }

  /** All attempts for an application. */
  ghost function WholeTree(ix: Index, l: Ladder, e: Expr): Decision<Option<Res>>
    requires Known(ix, l, e)
  {
    ArgsTree(ix, l, e, [], [])
  }

  ghost predicate Known(ix: Index, l: Ladder, e: Expr) {
    Climbs(ix, l) && Unapplied(e).Some? && Unapplied(e).value.fun in ix.funs
  }

  /** The path recorded leads to a result. */
  ghost predicate Recorded(t: Decision<Option<Res>>, p: seq<nat>) {
    Walk(t, p).Walked? && Walk(t, p).leaf.Some?
  }

  /** Up to every mark, the path leads to the attempts with the arguments before
      it. */
  ghost predicate MarksAt(ix: Index, l: Ladder, e: Expr, marks: seq<nat>, cats: seq<CatId>, trees: seq<CncTree>,
                          path: seq<nat>, start: nat)
    requires Known(ix, l, e) && |cats| == |trees| <= |Unapplied(e).value.args|
  {
    |marks| == |cats| + 1 &&
    forall j :: 0 <= j <= |cats| ==>
      start <= marks[j] <= |path| && At(WholeTree(ix, l, e), path[start..marks[j]], ArgsTree(ix, l, e, cats[..j], trees[..j]))
  }

  /** Where a search for `p` stands after some arguments. */
  ghost predicate Going(ix: Index, l: Ladder, e: Expr, marks: seq<nat>, cats: seq<CatId>, trees: seq<CncTree>,
                        path: seq<nat>, start: nat, idx: nat, p: seq<nat>)
    requires Known(ix, l, e) && |cats| == |trees| <= |Unapplied(e).value.args|
  {
    var t, s := WholeTree(ix, l, e), ArgsTree(ix, l, e, cats, trees);
    && (Follows(t, p) ==> Stands(t, p, path, start, idx, s) && MarksAt(ix, l, e, marks, cats, trees, path, start))
    && (Recorded(t, p) ==> Along(Walk(t, p), path, start, idx, s))
  }

  /** A search for `p` that has to go back. */
  ghost predicate GoingBack(ix: Index, l: Ladder, e: Expr, marks: seq<nat>, cats: seq<CatId>, trees: seq<CncTree>,
                            path: seq<nat>, start: nat, p: seq<nat>)
    requires Known(ix, l, e) && |cats| == |trees| <= |Unapplied(e).value.args|
  {
    && !Recorded(WholeTree(ix, l, e), p)
    && (Follows(WholeTree(ix, l, e), p) ==>
          && start <= |path| && GivenUp(WholeTree(ix, l, e), p, path[start..])
          && MarksAt(ix, l, e, marks, cats, trees, path, start) && |path| == marks[|cats|])
  }

  lemma MarksAtSnoc(ix: Index, l: Ladder, e: Expr, marks: seq<nat>, cats: seq<CatId>, trees: seq<CncTree>,
                    path: seq<nat>, start: nat, path': seq<nat>, idx: nat, idx': nat, c: CatId, t: CncTree)
    requires Known(ix, l, e) && |cats| == |trees| < |Unapplied(e).value.args|
    requires MarksAt(ix, l, e, marks, cats, trees, path, start) && idx == marks[|cats|]
    requires forall j :: 0 <= j <= |cats| ==> marks[j] <= idx
    requires idx <= |path'| && path'[..idx] == path[..idx] && start <= idx' <= |path'|
    requires At(WholeTree(ix, l, e), path'[start..idx'], ArgsTree(ix, l, e, cats + [c], trees + [t]))
    ensures MarksAt(ix, l, e, marks + [idx'], cats + [c], trees + [t], path', start)
  {
    var marks', cats', trees' := marks + [idx'], cats + [c], trees + [t];
    forall j | 0 <= j <= |cats'|
      ensures start <= marks'[j] <= |path'|
      ensures At(WholeTree(ix, l, e), path'[start..marks'[j]], ArgsTree(ix, l, e, cats'[..j], trees'[..j]))
    {
      if j <= |cats| {
        SameBetween(path, path', start, marks[j], idx);
        assert cats'[..j] == cats[..j] && trees'[..j] == trees[..j];
      } else {
        assert cats'[..j] == cats' && trees'[..j] == trees';
      }
    }
  }

  lemma MarksAtCut(ix: Index, l: Ladder, e: Expr, marks: seq<nat>, cats: seq<CatId>, trees: seq<CncTree>,
                   path: seq<nat>, start: nat, path': seq<nat>, n: nat, idx: nat)
    requires Known(ix, l, e) && |cats| == |trees| <= |Unapplied(e).value.args| && n <= |cats|
    requires MarksAt(ix, l, e, marks, cats, trees, path, start)
    requires forall j :: 0 <= j <= n ==> marks[j] <= idx
    requires idx <= |path| && idx <= |path'| && path'[..idx] == path[..idx]
    ensures MarksAt(ix, l, e, marks[..n + 1], cats[..n], trees[..n], path', start)
  {
    forall j | 0 <= j <= n
      ensures start <= marks[..n + 1][j] <= |path'|
      ensures At(WholeTree(ix, l, e), path'[start..marks[..n + 1][j]], ArgsTree(ix, l, e, cats[..n][..j], trees[..n][..j]))
    {
      SameBetween(path, path', start, marks[j], idx);
      assert cats[..n][..j] == cats[..j];
      assert trees[..n][..j] == trees[..j];
    }
  }

  /** One more argument has been searched. */
  lemma GoingArg(ix: Index, l: Ladder, e: Expr, marks: seq<nat>, cats: seq<CatId>, trees: seq<CncTree>,
                 path: seq<nat>, start: nat, idx: nat, p: seq<nat>, path': seq<nat>, idx': nat, ok: bool, r: Option<Res>)
    requires Known(ix, l, e) && SmallIndex(ix) && |cats| == |trees| < |Unapplied(e).value.args| && |marks| == |cats| + 1
    requires Going(ix, l, e, marks, cats, trees, path, start, idx, p) && idx == marks[|cats|]
    requires forall j :: 0 <= j <= |cats| ==> marks[j] <= idx
    requires SearchOk(ArgTree(ix, l, Unapplied(e).value.args[|cats|]), path, idx, path', idx', ok, r)
    requires idx <= |path'| && idx <= |path| && path'[..idx] == path[..idx]
    ensures Follows(WholeTree(ix, l, e), p) || Recorded(WholeTree(ix, l, e), p) ==> ok
    ensures r.Some? ==> Going(ix, l, e, marks + [idx'], cats + [r.value.cat], trees + [r.value.tree], path', start, idx', p)
    ensures r == None ==> GoingBack(ix, l, e, marks, cats, trees, path', start, p)
  {
    var t, arg := WholeTree(ix, l, e), Unapplied(e).value.args[|cats|];
    var s, f := ArgTree(ix, l, arg), (r: Option<Res>) => RestTree(ix, l, e, cats, trees, r);
    assert ArgsTree(ix, l, e, cats, trees) == Bind(s, f);
    if Recorded(t, p) {
      ReplaysPart(Walk(t, p), path, start, idx, s, f, path', idx', ok, r);
    }
    if Follows(t, p) {
      BoundedArgs(ix, l, e, [], []);
      BoundedArg(ix, l, arg);
      FindsPart(t, p, path, start, idx, s, f, path', idx', ok, r);
      if r.Some? {
        MarksAtSnoc(ix, l, e, marks, cats, trees, path, start, path', idx, idx', r.value.cat, r.value.tree);
      } else {
        assert path'[start..] == path[start..idx];
        MarksAtCut(ix, l, e, marks, cats, trees, path, start, path', |cats|, idx);
        assert marks[..|cats| + 1] == marks && cats[..|cats|] == cats && trees[..|cats|] == trees;
      }
    }
  }

  lemma GoingStart(ix: Index, l: Ladder, e: Expr, path: seq<nat>, start: nat)
    requires Known(ix, l, e) && start <= |path|
    ensures Going(ix, l, e, [start], [], [], path, start, start, path[start..])
  {
    var t := WholeTree(ix, l, e);
    AlongStart(path, start, t);
    assert path[start..start] == [];
    if Follows(t, path[start..]) {
      StandsStart(t, path, start);
    }
  }

  /** All arguments are there and a rule has been picked, or there is none. */
  lemma GoingRule(ix: Index, l: Ladder, e: Expr, marks: seq<nat>, cats: seq<CatId>, trees: seq<CncTree>,
                  path: seq<nat>, start: nat, idx: nat, p: seq<nat>, path': seq<nat>, idx': nat, ok: bool, r: Option<Res>)
    requires Known(ix, l, e) && SmallIndex(ix) && |cats| == |trees| == |Unapplied(e).value.args|
    requires Going(ix, l, e, marks, cats, trees, path, start, idx, p) && |marks| == |cats| + 1 && idx == marks[|cats|]
    requires Walks(RuleTree(ix.funs[Unapplied(e).value.fun], cats, trees), path, idx, path', idx', ok, r)
    requires r == None ==> path' == path && idx' == idx
    requires start <= |path'| && start <= |path| && path'[..start] == path[..start]
    ensures Follows(WholeTree(ix, l, e), p) || Recorded(WholeTree(ix, l, e), p) ==> ok
    ensures r.Some? ==> Concluded(WholeTree(ix, l, e), p, path', start, idx', r)
    ensures r == None ==> GoingBack(ix, l, e, marks, cats, trees, path', start, p)
  {
    var t, s := WholeTree(ix, l, e), ArgsTree(ix, l, e, cats, trees);
    BoundedArgs(ix, l, e, [], []);
    BoundedArgs(ix, l, e, cats, trees);
    if Recorded(t, p) {
      RecordedLast(Walk(t, p), path, start, idx, s, path', idx', ok, r);
    }
    if Follows(t, p) {
      StandsLast(t, p, path, start, idx, s, path', idx', ok, r);
      if r == None {
        StandsOver(t, p, path', start, idx', Leaf(None));
        assert path'[start..idx'] == path'[start..];
      }
    }
  }

  /** A search for `p` has ended at a leaf with a result. */
  ghost predicate Concluded(t: Decision<Option<Res>>, p: seq<nat>, path: seq<nat>, start: nat, idx: nat, r: Option<Res>) {
    && (Follows(t, p) ==> Stands(t, p, path, start, idx, Leaf(r)))
    && (Recorded(t, p) ==> Along(Walk(t, p), path, start, idx, Leaf(r)))
  }

  lemma RecordedLast(w: Walked<Option<Res>>, path: seq<nat>, start: nat, idx: nat, s: Decision<Option<Res>>,
                     path': seq<nat>, idx': nat, ok: bool, r: Option<Res>)
    requires w.Walked? && w.leaf.Some? && Along(w, path, start, idx, s) && Walks(s, path, idx, path', idx', ok, r)
    ensures ok && r.Some? && Along(w, path', start, idx', Leaf(r))
  {
    var v := Walk(s, path[idx..]);
    PathSplit(path, start, idx, v.used, v.rest);
    NothingBehind(path[start..idx], v.used);
  }

  /** What has been concluded is what a search method should deliver. */
  lemma ConcludedOk(ix: Index, l: Ladder, e: Expr, path: seq<nat>, start: nat, path': seq<nat>, idx': nat, r: Option<Res>)
    requires Known(ix, l, e) && SmallIndex(ix) && start <= |path| && start <= |path'| && path'[..start] == path[..start]
    requires r.Some? && Concluded(WholeTree(ix, l, e), path[start..], path', start, idx', r)
    ensures SearchOk(WholeTree(ix, l, e), path, start, path', idx', true, r)
  {
    var t := WholeTree(ix, l, e);
    BoundedArgs(ix, l, e, [], []);
    if Recorded(t, path[start..]) {
      AlongEnd(Walk(t, path[start..]), path', start, idx', r);
      CutTwice(path', start, idx');
    }
    if Follows(t, path[start..]) {
      StandsEnd(t, path, start, path', idx', r);
    }
  }

  lemma AtLastMark(ix: Index, l: Ladder, e: Expr, marks: seq<nat>, cats: seq<CatId>, trees: seq<CncTree>,
                   path: seq<nat>, start: nat, idx: nat)
    requires Known(ix, l, e) && |cats| == |trees| <= |Unapplied(e).value.args| && |marks| == |cats| + 1
    requires MarksAt(ix, l, e, marks, cats, trees, path, start) && idx == marks[|cats|]
    ensures start <= idx <= |path| && At(WholeTree(ix, l, e), path[start..idx], ArgsTree(ix, l, e, cats, trees))
  {
    assert cats[..|cats|] == cats && trees[..|trees|] == trees;
  }

  /** The next attempt after one that failed. */
  lemma GoingNext(ix: Index, l: Ladder, e: Expr, marks: seq<nat>, cats: seq<CatId>, trees: seq<CncTree>,
                  path: seq<nat>, start: nat, p: seq<nat>, path': seq<nat>, n: nat, idx: nat)
    requires Known(ix, l, e) && |cats| == |trees| <= |Unapplied(e).value.args| && |marks| == |cats| + 1
    requires GoingBack(ix, l, e, marks, cats, trees, path, start, p)
    requires n <= |cats| && idx == marks[n] && forall j :: 0 <= j <= n ==> marks[j] <= idx
    requires start <= idx <= |path| && idx <= |path'| && path'[..idx] == path[..idx]
    requires path'[start..] == Advanced(path[start..]) != []
    ensures Going(ix, l, e, marks[..n + 1], cats[..n], trees[..n], path', start, idx, p)
  {
    var t := WholeTree(ix, l, e);
    if Follows(t, p) {
      MarksAtCut(ix, l, e, marks, cats, trees, path, start, path', n, idx);
      AtLastMark(ix, l, e, marks[..n + 1], cats[..n], trees[..n], path', start, idx);
      StandsAgain(t, p, path', start, idx, ArgsTree(ix, l, e, cats[..n], trees[..n]));
    }
  }
}
