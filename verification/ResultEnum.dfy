/**
 The expressions of a parse state, one after the other (`pgf_parse_result`).
 */
module ResultEnum {
  import opened Wrappers
  import opened Grammar
  import opened Linearize
  import opened Chart
  import opened Parser
  import opened ParseTheorems
  import opened ParseResult
  import opened Expr
  import opened Choice
  import opened Searching
  import opened Extraction
  import opened ExtractionCount

  // ------------------------------------------------------------------ what comes next

  /** What is behind the first result. */
  ghost function Behind<A>(vs: seq<Option<A>>): seq<Option<A>> {
    if vs == [] then [] else if vs[0].Some? then vs[1..] else Behind(vs[1..])
  }

  /** The last of some leaves, if any, has a result. */
  ghost predicate EndsWell<A>(vs: seq<Option<A>>) {
    vs == [] || vs[|vs| - 1].Some?
  }

  lemma {:induction false} ResultsBehind<A>(vs: seq<Option<A>>)
    ensures First(vs).Some? ==> Results(vs) == [First(vs).value] + Results(Behind(vs)) && |Behind(vs)| < |vs|
    ensures First(vs) == None ==> Results(vs) == []
    decreases |vs|
  {
    if vs != [] && vs[0] == None {
      ResultsBehind(vs[1..]);
      assert Results(vs) == Results(vs[1..]);
    }
  }

  lemma {:induction false} EndsBehind<A>(vs: seq<Option<A>>)
    ensures First(vs).Some? ==> (EndsWell(Behind(vs)) <==> EndsWell(vs))
    ensures First(vs) == None ==> (EndsWell(vs) <==> vs == [])
    decreases |vs|
  {
    if vs != [] {
      var rest := vs[1..];
      assert rest != [] ==> rest[|rest| - 1] == vs[|vs| - 1];
      if vs[0] == None {
        EndsBehind(rest);
      }
    }
  }

  // -------------------------------------------------------------------------- the tree

  /** A completed category, then what is read off it. */
  ghost function ResultTree(cats: seq<CCat>, completed: seq<CatId>): Decision<Found>
    requires Closed(cats) && forall i :: 0 <= i < |completed| ==> completed[i] < |cats|
  {
    Node(seq(|completed|, i requires 0 <= i < |completed| => UnfoldCat(cats, completed[i], {})))
  }

  lemma BoundedResults(cats: seq<CCat>, completed: seq<CatId>)
    requires Closed(cats) && SmallBuffers(cats) && 1 <= |completed| <= UINT8_MAX
    requires forall i :: 0 <= i < |completed| ==> completed[i] < |cats|
    ensures Bounded(ResultTree(cats, completed))
  {
    forall i | 0 <= i < |completed| ensures Bounded(UnfoldCat(cats, completed[i], {})) {
      BoundedCat(cats, completed[i], {});
    }
  }

  /** An expression is that of a derivation with holes of a completed category. */
  ghost predicate ReadOff(cats: seq<CCat>, completed: seq<CatId>, e: Expr) {
    exists c, pd :: c in completed && PDerives(cats, c, pd) && ExprOf(pd) == e
  }

  /** Reading a category off, as the way through the whole tree goes on. */
  lemma WentThrough(t: Decision<Found>, path: seq<nat>, mid: seq<nat>, i: nat, path': seq<nat>, idx': nat,
                    ok: bool, e: Option<Expr>, seen: set<CatId>, pd: Partial)
    requires Bounded(t) && t.Node? && Follows(t, path) && i < |t.kids|
    requires if path == [] then i == 0 && mid == [|t.kids|] else mid == path && path[0] <= |t.kids| && i == |t.kids| - path[0]
    requires Went(Walk(t.kids[i], mid[1..]), mid, 1, path', idx', ok, e, seen, pd)
    ensures path' == Extend(t, path) && Remaining(t, path) != [] && e == ExprAt(Remaining(t, path)[0])
  {
    WalkWhole(t, path);
    var w := Walk(t, path);
    assert path[0..] == path;
    AlongStart(path, 0, t);
    AlongNext(w, path, 0, 0, t, mid, true, i);
    var v := Walk(t.kids[i], mid[1..]);
    assert mid[0..1] == mid[..1];
    assert w == After(mid[..1], v);
    assert mid[..1] + v.used + [] == mid[..1] + v.used;
  }

  // ------------------------------------------------------------------ the last alternative

  /** Reads a category by the last production of every buffer, arguments from left
      to right: the categories met, or none if one is met twice or a buffer is
      empty. */
  function LastRead(cats: seq<CCat>, c: CatId, seen: set<CatId>): (r: Option<set<CatId>>)
    requires Closed(cats) && c < |cats|
    ensures r.Some? ==> seen <= r.value
    decreases Unseen(|cats|, seen), 0, 0
  {
    if c in seen then None
    else if !cats[c].prods.BufProds? then Some(seen + {c})
    else if cats[c].prods.ps == [] then None
    else
      UnseenShrinks(|cats|, seen, seen + {c});
      var p := cats[c].prods.ps[|cats[c].prods.ps| - 1];
      assert p in ProdsOf(cats[c]);
      LastReadAll(cats, ProdArgs(p), seen + {c})
  }

  function LastReadAll(cats: seq<CCat>, args: seq<CatId>, seen: set<CatId>): (r: Option<set<CatId>>)
    requires Closed(cats) && forall i :: 0 <= i < |args| ==> args[i] < |cats|
    ensures r.Some? ==> seen <= r.value
    decreases Unseen(|cats|, seen), 1, |args|
  {
    if args == [] then Some(seen) else
    var s := LastRead(cats, args[0], seen);
    if s == None then None else
    UnseenShrinks(|cats|, seen, s.value);
    LastReadAll(cats, args[1..], s.value)
  }

  /** The rightmost leaf. */
  ghost function LastLeaf<L>(t: Decision<L>): L
    requires Bounded(t)
  {
    match t
    case Leaf(v) => v
    case Dead(rest) => LastLeaf(rest)
    case Node(kids) => LastLeaf(kids[|kids| - 1])
  }

  lemma {:induction false} LastOfLeaves<L>(t: Decision<L>)
    requires Bounded(t)
    ensures Leaves(t) != [] && Leaves(t)[|Leaves(t)| - 1] == LastLeaf(t)
    decreases t, 0
  {
    match t
    case Leaf(_) =>
    case Dead(rest) => LastOfLeaves(rest);
    case Node(kids) => LastOfLeavesFrom(t, 0);
  }

  lemma {:induction false} LastOfLeavesFrom<L>(t: Decision<L>, i: nat)
    requires Bounded(t) && t.Node? && i < |t.kids|
    ensures LeavesFrom(t, i) != [] && LeavesFrom(t, i)[|LeavesFrom(t, i)| - 1] == LastLeaf(t)
    decreases t, 0, |t.kids| - i
  {
    if i == |t.kids| - 1 {
      LastOfLeaves(t.kids[i]);
      assert LeavesFrom(t, i + 1) == [];
    } else {
      LastOfLeavesFrom(t, i + 1);
    }
  }

  lemma {:induction false} LastOfBind<A(!new), B>(t: Decision<A>, f: A -> Decision<B>)
    requires Bounded(t) && forall v :: Bounded(f(v))
    ensures Bounded(Bind(t, f)) && LastLeaf(Bind(t, f)) == LastLeaf(f(LastLeaf(t)))
    decreases t
  {
    BoundedBind(t, f);
    match t
    case Leaf(_) =>
    case Dead(rest) => LastOfBind(rest, f);
    case Node(kids) => LastOfBind(kids[|kids| - 1], f);
  }

  /** A leaf is what reading by the last productions comes to. */
  ghost predicate IsLast(r: Option<set<CatId>>, leaf: Found) {
    (leaf.pd.Some? <==> r.Some?) && (r.Some? ==> leaf.seen == r.value)
  }

  lemma {:induction false} LastOfCat(cats: seq<CCat>, c: CatId, seen: set<CatId>)
    requires Closed(cats) && SmallBuffers(cats) && c < |cats|
    ensures Bounded(UnfoldCat(cats, c, seen)) && IsLast(LastRead(cats, c, seen), LastLeaf(UnfoldCat(cats, c, seen)))
    decreases Unseen(|cats|, seen), 0, 0, 0
  {
    BoundedCat(cats, c, seen);
    if c !in seen && cats[c].prods.BufProds? && cats[c].prods.ps != [] {
      UnseenShrinks(|cats|, seen, seen + {c});
      var ps := cats[c].prods.ps;
      assert ps[|ps| - 1] in ProdsOf(cats[c]);
      LastOfProd(cats, c, ps[|ps| - 1], seen + {c});
    }
  }

  lemma {:induction false} LastOfProd(cats: seq<CCat>, c: CatId, p: Production, seen: set<CatId>)
    requires Closed(cats) && SmallBuffers(cats) && c < |cats| && p in ProdsOf(cats[c])
    ensures Bounded(UnfoldProd(cats, c, p, seen))
    ensures IsLast(LastReadAll(cats, ProdArgs(p), seen), LastLeaf(UnfoldProd(cats, c, p, seen)))
    decreases Unseen(|cats|, seen), 2, 0, 0
  {
    BoundedProd(cats, c, p, seen);
    match p
    case Apply(fun, args) =>
      assert ProdArgs(p) == args && args[0..] == args;
      LastOfArgs(cats, fun, args, [], seen);
    case Coerce(c') =>
      assert ProdArgs(p)[0] < |cats| && ProdArgs(p)[1..] == [];
      LastOfCat(cats, c', seen);
      LastOfBind(UnfoldCat(cats, c', seen), (r: Found) => Leaf(Coerced(c', r)));
  }

  lemma {:induction false} LastOfArgs(cats: seq<CCat>, fun: CncFun, args: seq<CatId>, kids: seq<Partial>, seen: set<CatId>)
    requires Closed(cats) && SmallBuffers(cats) && |kids| <= |args| && forall i :: 0 <= i < |args| ==> args[i] < |cats|
    ensures Bounded(UnfoldArgs(cats, fun, args, kids, seen))
    ensures IsLast(LastReadAll(cats, args[|kids|..], seen), LastLeaf(UnfoldArgs(cats, fun, args, kids, seen)))
    decreases Unseen(|cats|, seen), 1, |args| - |kids|, 0
  {
    BoundedArgs(cats, fun, args, kids, seen);
    if |kids| < |args| {
      var k := |kids|;
      var t, f := UnfoldCat(cats, args[k], seen), (r: Found) => UnfoldRest(cats, fun, args, kids, seen, r);
      LastOfCat(cats, args[k], seen);
      forall r ensures Bounded(f(r)) {
        BoundedRest(cats, fun, args, kids, seen, r);
      }
      LastOfBind(t, f);
      var r := LastLeaf(t);
      assert args[k..][0] == args[k] && args[k..][1..] == args[k + 1..];
      if r.pd.Some? {
        UnseenShrinks(|cats|, seen, r.seen);
        LastOfArgs(cats, fun, args, kids + [r.pd.value], r.seen);
      }
    }
  }

  /** The last alternative of a state has an expression. */
  predicate LastHasResult(cats: seq<CCat>, completed: seq<CatId>)
    requires Closed(cats) && forall i :: 0 <= i < |completed| ==> completed[i] < |cats|
  {
    completed == [] || LastRead(cats, completed[|completed| - 1], {}).Some?
  }

  lemma EndsWellExactly(cats: seq<CCat>, completed: seq<CatId>)
    requires Closed(cats) && SmallBuffers(cats) && |completed| <= UINT8_MAX
    requires forall i :: 0 <= i < |completed| ==> completed[i] < |cats|
    ensures EndsWell(Exprs(Leaves(ResultTree(cats, completed)))) <==> LastHasResult(cats, completed)
  {
    if completed != [] {
      var t := ResultTree(cats, completed);
      BoundedResults(cats, completed);
      LastOfLeaves(t);
      LastOfCat(cats, completed[|completed| - 1], {});
      assert t.kids[|completed| - 1] == UnfoldCat(cats, completed[|completed| - 1], {});
    }
  }

  // ----------------------------------------------------------------------- enumeration

  class ResultState {
    const cats: seq<CCat>
    const completed: seq<CatId>
    const ch: GuChoice
    var ended: bool   // the choice object has been given up

    ghost predicate Valid()
      reads this, ch
    {
      && Closed(cats) && SmallBuffers(cats) && |completed| <= UINT8_MAX
      && (forall i :: 0 <= i < |completed| ==> completed[i] < |cats|)
      && ch.Valid() && ch.pathIdx == 0
      && (!ended && completed != [] ==> Follows(ResultTree(cats, completed), ch.path))
    }

    /** What is still to come, alternatives without an expression included. */
    ghost function Left(): seq<Option<Expr>>
      requires Valid()
      reads this, ch
    {
      if ended || completed == [] then [] else Exprs(Remaining(ResultTree(cats, completed), ch.path))
    }

    constructor (cats: seq<CCat>, completed: seq<CatId>)
      requires Closed(cats) && SmallBuffers(cats) && |completed| <= UINT8_MAX
      requires forall i :: 0 <= i < |completed| ==> completed[i] < |cats|
      ensures Valid() && fresh(ch) && this.cats == cats && this.completed == completed
      ensures Left() == Exprs(Leaves(ResultTree(cats, completed)))
    {
      this.cats, this.completed, ended := cats, completed, false;
      ch := new GuChoice();
      new;
      FollowsEmpty(ResultTree(cats, completed));
      RemainingEmpty(ResultTree(cats, completed));
    }

    /** Reads one alternative off the completed category that has been chosen. */
    method ReadAt(i: nat, mark: nat, ghost path: seq<nat>) returns (e: Option<Expr>, more: bool)
      requires Closed(cats) && SmallBuffers(cats) && i < |completed| <= UINT8_MAX
      requires forall i :: 0 <= i < |completed| ==> completed[i] < |cats|
      requires Follows(ResultTree(cats, completed), path) && mark == 0 && ch.Valid() && ch.pathIdx == 1
      requires if path == [] then i == 0 && ch.path == [|completed|]
               else ch.path == path && path[0] <= |completed| && i == |completed| - path[0]
      modifies ch
      ensures ch.Valid() && ch.pathIdx == 0 && Bounded(ResultTree(cats, completed))
      ensures ch.path == Advanced(Extend(ResultTree(cats, completed), path))
      ensures var rest := Remaining(ResultTree(cats, completed), path); rest != [] && e == ExprAt(rest[0])
      ensures e.Some? ==> ReadOff(cats, completed, e.value)
      ensures more <==> ch.path != []
    {
      ghost var t, mid := ResultTree(cats, completed), ch.path;
      BoundedResults(cats, completed);
      var ok, seen;
      ghost var pd;
      ok, e, seen, pd := CatToExpr(cats, completed[i], ch, {});
      assert t.kids[i] == UnfoldCat(cats, completed[i], {});
      WentThrough(t, path, mid, i, ch.path, ch.pathIdx, ok, e, seen, pd);
      ch.Reset(mark);
      ghost var whole := ch.path;
      more := ch.Advance();
      assert whole[0..] == whole;
    }

    /** Chooses an alternative, reads it off and advances; with nothing to choose
        from, `none`. */
    method Step() returns (none: bool, e: Option<Expr>)
      requires Valid() && !ended
      modifies this`ended, ch
      ensures Valid() && (none <==> completed == [])
      ensures none ==> e == None && !ended
      ensures !none ==> old(Left()) != [] && e == old(Left())[0] && Left() == old(Left())[1..]
      ensures e.Some? ==> ReadOff(cats, completed, e.value)
    {
      var mark := ch.Mark();
      ghost var path, left := ch.path, Left();
      var ok, i := ch.Next(|completed|);
      if i == -1 {
        return true, None;
      }
      var more;
      e, more := ReadAt(i, mark, path);
      OneLess(ResultTree(cats, completed), path, e, left);
      ended := !more;
      none := false;
    }

    /** The next expression; `ok` is false when the choice object is used after
        it has been given up. */
    method Next() returns (ok: bool, e: Option<Expr>)
      requires Valid()
      modifies this`ended, ch
      ensures Valid() && e == First(old(Left()))
      ensures ok <==> old(Left()) == [] || e.Some?
      ensures e.Some? ==> Left() == Behind(old(Left())) && ReadOff(cats, completed, e.value)
      ensures e == None ==> Left() == []
    {
      if ended {
        return true, None;
      }
      e := None;
      while e == None
        invariant Valid() && Ahead(Left(), old(Left()), e)
        invariant e == None && ended ==> Left() == [] && old(Left()) != []
        invariant e.Some? ==> ReadOff(cats, completed, e.value)
        decreases e == None, |Left()|
      {
        if ended {
          return false, None;
        }
        var none;
        none, e := Step();
        if none {
          return true, None;
        }
      }
      ok := true;
    }
  }

  /** Where a request has got to in `all`. */
  ghost predicate Ahead(left: seq<Option<Expr>>, all: seq<Option<Expr>>, e: Option<Expr>) {
    if e == None then First(left) == First(all) && Behind(left) == Behind(all)
    else e == First(all) && left == Behind(all)
  }

  lemma OneLess(t: Decision<Found>, path: seq<nat>, e: Option<Expr>, left: seq<Option<Expr>>)
    requires Bounded(t) && Follows(t, path) && left == Exprs(Remaining(t, path))
    requires Remaining(t, path) != [] && e == ExprAt(Remaining(t, path)[0])
    ensures var p := Advanced(Extend(t, path));
            && left != [] && left[0] == e && Follows(t, p)
            && left[1..] == if p == [] then [] else Exprs(Remaining(t, p))
  {
    ExtendCompletes(t, path);
    AdvanceDropsOne(t, Extend(t, path));
    ExprsTail(Remaining(t, path));
  }

  lemma ExprsTail(rs: seq<Found>)
    requires rs != []
    ensures Exprs(rs) != [] && Exprs(rs)[0] == ExprAt(rs[0]) && Exprs(rs)[1..] == Exprs(rs[1..])
    ensures |rs| == 1 ==> Exprs(rs)[1..] == []
  {}

  /** Asking for expressions until there is none yields the results of all
      completed categories in order.  The last request fails exactly when reading
      the last completed category by the last production of every buffer meets a
      category twice or an empty buffer. */
  method AllResults(cats: seq<CCat>, completed: seq<CatId>) returns (ok: bool, out: seq<Expr>)
    requires Closed(cats) && SmallBuffers(cats) && |completed| <= UINT8_MAX
    requires forall i :: 0 <= i < |completed| ==> completed[i] < |cats|
    ensures out == Results(Exprs(Leaves(ResultTree(cats, completed))))
    ensures ok <==> LastHasResult(cats, completed)
    ensures AllReadOff(cats, completed, out)
  {
    EndsWellExactly(cats, completed);
    var state := new ResultState(cats, completed);
    ghost var all := state.Left();
    out := [];
    while true
      invariant state.Valid() && fresh(state) && fresh(state.ch) && state.cats == cats && state.completed == completed
      invariant Given(out, state.Left(), all) && AllReadOff(cats, completed, out)
      decreases |state.Left()|
    {
      ghost var left := state.Left();
      var e;
      ok, e := state.Next();
      OneGiven(out, left, all, e);
      if e == None {
        return;
      }
      out := out + [e.value];
    }
  }

  ghost predicate AllReadOff(cats: seq<CCat>, completed: seq<CatId>, out: seq<Expr>) {
    forall i :: 0 <= i < |out| ==> ReadOff(cats, completed, out[i])
  }

  /** Of the results of `all`, those of `left` have not been given out yet. */
  ghost predicate Given(out: seq<Expr>, left: seq<Option<Expr>>, all: seq<Option<Expr>>) {
    out + Results(left) == Results(all) && (EndsWell(left) <==> EndsWell(all))
  }

  lemma OneGiven(out: seq<Expr>, left: seq<Option<Expr>>, all: seq<Option<Expr>>, e: Option<Expr>)
    requires Given(out, left, all) && e == First(left)
    ensures e.Some? ==> Given(out + [e.value], Behind(left), all) && |Behind(left)| < |left|
    ensures e == None ==> out == Results(all) && (EndsWell(all) <==> left == [])
  {
    ResultsBehind(left);
    EndsBehind(left);
    if e.Some? {
      assert out + [e.value] + Results(Behind(left)) == out + ([e.value] + Results(Behind(left)));
    }
  }

  /** However the metavariables of an expression are filled as the parse allows,
      the tree linearizes to `w`. */
  ghost predicate SpelledBy(cats: seq<CCat>, completed: seq<CatId>, start: nat, e: Expr, w: seq<Token>) {
    exists c, pd :: c in completed && PDerives(cats, c, pd) && ExprOf(pd) == e &&
      forall d :: Fills(cats, pd, d) ==> Instance(e, Abstract(Tree(d))) && Lin(Tree(d), start) == Some(w)
  }

  /** The expressions of a parse state are well typed and spell the tokens fed, all
      of them. */
  method ResultsOf(parsing: Parsing, state: Parse, ghost w: seq<Token>) returns (ok: bool, out: seq<Expr>)
    requires Valid(parsing.store, parsing.g, parsing.goal) && ParseOk(parsing.g, parsing.goal, w, state)
    requires SmallBuffers(parsing.store.cats) && |state.completed| <= UINT8_MAX
    ensures var cats := parsing.store.cats;
            Closed(cats) && (forall i :: 0 <= i < |state.completed| ==> state.completed[i] < |cats|)
            && (ok <==> LastHasResult(cats, state.completed))
            && out == Results(Exprs(Leaves(ResultTree(cats, state.completed))))
    ensures forall i :: 0 <= i < |out| ==>
              WellTyped(parsing.goal, out[i]) && SpelledBy(parsing.store.cats, state.completed, parsing.goal.start, out[i], w)
  {
    ghost var st, g, goal := parsing.store, parsing.g, parsing.goal;
    ValidClosed(st, g, goal);
    assert forall i :: 0 <= i < |state.completed| ==> CompletedOk(g, goal, w, state.completed[i]);
    ok, out := AllResults(parsing.store.cats, state.completed);
    forall i | 0 <= i < |out|
      ensures WellTyped(goal, out[i]) && SpelledBy(st.cats, state.completed, goal.start, out[i], w)
    {
      assert ReadOff(st.cats, state.completed, out[i]);
      ReadOffSound(st, g, goal, w, state, out[i]);
    }
  }

  lemma ReadOffSound(st: Store, g: Ledger, goal: Goal, w: seq<Token>, state: Parse, e: Expr)
    requires Valid(st, g, goal) && ParseOk(g, goal, w, state) && ReadOff(st.cats, state.completed, e)
    ensures WellTyped(goal, e) && SpelledBy(st.cats, state.completed, goal.start, e, w)
  {
    var c, pd :| c in state.completed && PDerives(st.cats, c, pd) && ExprOf(pd) == e;
    ExtractionSound(st, g, goal, w, state, c, pd);
  }

  /** An expression is among the results exactly when it is that of a derivation,
      of some completed category, that can be read without meeting a category
      twice. */
  lemma YieldsExactly(cats: seq<CCat>, completed: seq<CatId>, e: Expr)
    requires Closed(cats) && forall i :: 0 <= i < |completed| ==> completed[i] < |cats|
    ensures e in Results(Exprs(Leaves(ResultTree(cats, completed)))) <==>
            exists c, pd :: c in completed && Readable(cats, c, pd) && Visits(c, pd, {}).Some? && ExprOf(pd) == e
  {
    ResultsIn(Exprs(Leaves(ResultTree(cats, completed))), e);
    if Some(e) in Exprs(Leaves(ResultTree(cats, completed))) {
      var c, pd := YieldedRead(cats, completed, e);
    }
    if c, pd :| c in completed && Readable(cats, c, pd) && Visits(c, pd, {}).Some? && ExprOf(pd) == e {
      ReadYielded(cats, completed, c, pd);
    }
  }

  lemma YieldedRead(cats: seq<CCat>, completed: seq<CatId>, e: Expr) returns (c: CatId, pd: Partial)
    requires Closed(cats) && forall i :: 0 <= i < |completed| ==> completed[i] < |cats|
    requires Some(e) in Exprs(Leaves(ResultTree(cats, completed)))
    ensures c in completed && Readable(cats, c, pd) && Visits(c, pd, {}).Some? && ExprOf(pd) == e
  {
    var t := ResultTree(cats, completed);
    var leaves := Leaves(t);
    var j :| 0 <= j < |leaves| && Exprs(leaves)[j] == Some(e);
    var i := FromLeavesFrom(t, 0, leaves[j]);
    c, pd := completed[i], leaves[j].pd.value;
    EachChoice(cats, c, pd, leaves[j].seen);
    ReadableCopies(cats, c, pd);
    assert leaves[j] in multiset(Leaves(t.kids[i]));
  }

  lemma ReadYielded(cats: seq<CCat>, completed: seq<CatId>, c: CatId, pd: Partial)
    requires Closed(cats) && forall i :: 0 <= i < |completed| ==> completed[i] < |cats|
    requires c in completed && Readable(cats, c, pd) && Visits(c, pd, {}).Some?
    ensures Some(ExprOf(pd)) in Exprs(Leaves(ResultTree(cats, completed)))
  {
    var t := ResultTree(cats, completed);
    var leaves := Leaves(t);
    var i :| 0 <= i < |completed| && completed[i] == c;
    var found := Found(Some(pd), Visits(c, pd, {}).value);
    EachChoice(cats, c, pd, found.seen);
    ReadableCopies(cats, c, pd);
    assert found in multiset(Leaves(t.kids[i]));
    InLeavesFrom(t, 0, i, found);
    var j :| 0 <= j < |leaves| && leaves[j] == found;
    assert Exprs(leaves)[j] == Some(ExprOf(pd));
  }
}
