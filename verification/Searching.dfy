/**
 Searching a decision tree for the first leaf with a result, and what that means
 for trees put together from others.
 */
module Searching {
  import opened Wrappers
  import opened Choice

  // ------------------------------------------------------------------------- subtrees

  /** A path leads to a subtree. */
  ghost predicate At<L>(t: Decision<L>, a: seq<nat>, s: Decision<L>)
    decreases t
  {
    || (a == [] && t == s)
    || match t
       case Leaf(_) => false
       case Node(kids) => a != [] && 1 <= a[0] <= |kids| && At(kids[|kids| - a[0]], a[1..], s)
       case Dead(rest) => At(rest, a, s)
  }

  lemma {:induction false} AtTransitive<L>(t: Decision<L>, a: seq<nat>, s: Decision<L>, b: seq<nat>, u: Decision<L>)
    requires At(t, a, s) && At(s, b, u)
    ensures At(t, a + b, u)
    decreases t
  {
    if a == [] && t == s {
      assert a + b == b;
    } else {
      match t
      case Dead(rest) => AtTransitive(rest, a, s, b, u);
      case Node(kids) =>
        AtTransitive(kids[|kids| - a[0]], a[1..], s, b, u);
        assert (a + b)[1..] == a[1..] + b;
    }
  }

  /** The leaves to the right of the subtree a path leads to. */
  ghost function Later<L>(t: Decision<L>, a: seq<nat>): seq<L>
    decreases t
  {
    match t
    case Leaf(_) => []
    case Node(kids) =>
      if a == [] || !(1 <= a[0] <= |kids|) then []
      else Later(kids[|kids| - a[0]], a[1..]) + LeavesFrom(t, |kids| - a[0] + 1)
    case Dead(rest) => Later(rest, a)
  }

  lemma {:induction false} LaterEmpty<L>(t: Decision<L>)
    ensures Later(t, []) == []
    decreases t
  {
    if t.Dead? {
      LaterEmpty(t.rest);
    }
  }

  /** What remains behind a path is what remains in the subtree, then what is to
      its right. */
  lemma {:induction false} RemainingAt<L>(t: Decision<L>, a: seq<nat>, s: Decision<L>, p: seq<nat>)
    requires At(t, a, s) && Follows(s, p)
    ensures Follows(t, a + p) && Remaining(t, a + p) == Remaining(s, p) + Later(t, a)
    decreases t
  {
    if a == [] && t == s {
      assert a + p == p;
      LaterEmpty(t);
      assert Remaining(t, p) + [] == Remaining(t, p);
    } else {
      match t
      case Dead(rest) => RemainingAt(rest, a, s, p);
      case Node(kids) =>
        RemainingAt(kids[|kids| - a[0]], a[1..], s, p);
        assert (a + p)[1..] == a[1..] + p;
    }
  }

  /** Advancing past a subtree goes on with what is to its right. */
  lemma {:induction false} LaterAdvanced<L>(t: Decision<L>, a: seq<nat>, s: Decision<L>)
    requires Bounded(t) && At(t, a, s)
    ensures Follows(t, Advanced(a))
    ensures Advanced(a) == [] ==> Later(t, a) == []
    ensures Advanced(a) != [] ==> Remaining(t, Advanced(a)) == Later(t, a)
    decreases t
  {
    FollowsEmpty(t);
    LaterEmpty(t);
    if !(a == [] && t == s) {
      match t
      case Dead(rest) => LaterAdvanced(rest, a, s);
      case Node(kids) =>
        LaterAdvanced(kids[|kids| - a[0]], a[1..], s);
        LaterInNode(t, a[0], a[1..]);
        assert [a[0]] + a[1..] == a;
    }
  }

  lemma LaterInNode<L>(t: Decision<L>, c: nat, q: seq<nat>)
    requires Bounded(t) && t.Node? && 1 <= c <= |t.kids|
    requires var kid := t.kids[|t.kids| - c];
             && Follows(kid, Advanced(q))
             && (Advanced(q) == [] ==> Later(kid, q) == [])
             && (Advanced(q) != [] ==> Remaining(kid, Advanced(q)) == Later(kid, q))
    ensures var after := Later(t.kids[|t.kids| - c], q) + LeavesFrom(t, |t.kids| - c + 1);
            var a := Advanced([c] + q);
            && Follows(t, a) && (a == [] ==> after == []) && (a != [] ==> Remaining(t, a) == after)
  {
    AdvancedCons(c, q);
    if Advanced(q) != [] {
      RemainingNode(t, c, Advanced(q));
    } else if c > 1 {
      NextBranch(t, c - 1);
    } else {
      FollowsEmpty(t);
    }
  }

  // -------------------------------------------------------------------- put together

  /** The leaves of what each of some leaves is bound to. */
  ghost function FlatLeaves<A, B>(vs: seq<A>, f: A -> Decision<B>): seq<B> {
    if vs == [] then [] else Leaves(f(vs[0])) + FlatLeaves(vs[1..], f)
  }

  lemma {:induction false} FlatAppend<A, B>(us: seq<A>, vs: seq<A>, f: A -> Decision<B>)
    ensures FlatLeaves(us + vs, f) == FlatLeaves(us, f) + FlatLeaves(vs, f)
    decreases |us|
  {
    if us == [] {
      assert us + vs == vs;
    } else {
      FlatAppend(us[1..], vs, f);
      assert (us + vs)[1..] == us[1..] + vs;
      Regroup(Leaves(f(us[0])), FlatLeaves(us[1..], f), FlatLeaves(vs, f));
    }
  }

  lemma FlatOne<A, B>(v: A, f: A -> Decision<B>)
    ensures FlatLeaves([v], f) == Leaves(f(v))
  {
    assert [v][1..] == [];
    assert Leaves(f(v)) + [] == Leaves(f(v));
  }

  lemma {:induction false} LeavesOfBind<A, B>(t: Decision<A>, f: A -> Decision<B>)
    ensures Leaves(Bind(t, f)) == FlatLeaves(Leaves(t), f)
    decreases t, 0
  {
    match t
    case Leaf(v) => FlatOne(v, f);
    case Dead(rest) => LeavesOfBind(rest, f);
    case Node(kids) => LeavesOfBindFrom(t, f, 0);
  }

  lemma {:induction false} LeavesOfBindFrom<A, B>(t: Decision<A>, f: A -> Decision<B>, i: nat)
    requires t.Node? && i <= |t.kids|
    ensures LeavesFrom(Bind(t, f), i) == FlatLeaves(LeavesFrom(t, i), f)
    decreases t, 0, |t.kids| - i
  {
    if i < |t.kids| {
      LeavesOfBind(t.kids[i], f);
      LeavesOfBindFrom(t, f, i + 1);
      FlatAppend(Leaves(t.kids[i]), LeavesFrom(t, i + 1), f);
    }
  }

  /** A path within the first part leaves what its remaining leaves are bound
      to. */
  lemma {:induction false} RemainingBind<A, B>(t: Decision<A>, f: A -> Decision<B>, p: seq<nat>)
    requires Follows(t, p)
    ensures Follows(Bind(t, f), p) && Remaining(Bind(t, f), p) == FlatLeaves(Remaining(t, p), f)
    decreases t
  {
    match t
    case Leaf(v) =>
      FollowsEmpty(f(v));
      RemainingEmpty(f(v));
      FlatOne(v, f);
    case Dead(rest) => RemainingBind(rest, f, p);
    case Node(kids) =>
      if p == [] {
        LeavesOfBind(t, f);
      } else {
        var i := |kids| - p[0];
        RemainingBind(kids[i], f, p[1..]);
        LeavesOfBindFrom(t, f, i + 1);
        FlatAppend(Remaining(kids[i], p[1..]), LeavesFrom(t, i + 1), f);
      }
  }

  /** A path behind the first part follows what the leaf it reached is bound to. */
  lemma {:induction false} FollowsBind<A, B>(t: Decision<A>, f: A -> Decision<B>, p: seq<nat>)
    requires Follows(Bind(t, f), p)
    ensures Follows(t, p) || (Walk(t, p).Walked? && Follows(f(Walk(t, p).leaf), Walk(t, p).rest))
    decreases t
  {
    match t
    case Leaf(_) =>
    case Dead(rest) => FollowsBind(rest, f, p);
    case Node(kids) =>
      if p != [] {
        FollowsBind(kids[|kids| - p[0]], f, p[1..]);
      }
  }

  /** A walk to a leaf leads to what the leaf is bound to. */
  lemma {:induction false} AtBind<A, B>(t: Decision<A>, f: A -> Decision<B>, p: seq<nat>)
    requires Walk(t, p).Walked?
    ensures At(Bind(t, f), Walk(t, p).used, f(Walk(t, p).leaf))
    decreases t
  {
    match t
    case Leaf(_) =>
    case Dead(rest) => AtBind(rest, f, p);
    case Node(kids) =>
      var q := if p == [] then [] else p[1..];
      var i := if p == [] then 0 else |kids| - p[0];
      AtBind(kids[i], f, q);
      var used := Walk(t, p).used;
      assert used[1..] == Walk(kids[i], q).used && used[0] == |kids| - i;
  }

  /** A path that goes on behind a subtree follows the subtree. */
  lemma {:induction false} FollowsAt<L>(t: Decision<L>, a: seq<nat>, s: Decision<L>, p: seq<nat>)
    requires At(t, a, s) && Follows(t, a + p)
    ensures Follows(s, p)
    decreases t
  {
    if a == [] && t == s {
      assert a + p == p;
    } else {
      match t
      case Dead(rest) => FollowsAt(rest, a, s, p);
      case Node(kids) =>
        assert (a + p)[1..] == a[1..] + p;
        FollowsAt(kids[|kids| - a[0]], a[1..], s, p);
    }
  }

  /** Advancing steps the last live counter, wherever one looks from. */
  lemma {:induction false} AdvancedAppend(a: seq<nat>, b: seq<nat>)
    ensures Advanced(a + b) == if Advanced(b) != [] then a + Advanced(b) else Advanced(a)
    decreases |b|
  {
    if b == [] {
      assert a + b == a;
    } else {
      var k := |b| - 1;
      assert (a + b)[..|a + b| - 1] == a + b[..k];
      if b[k] > 1 {
        assert a + b[..k] + [b[k] - 1] == a + (b[..k] + [b[k] - 1]);
      } else {
        AdvancedAppend(a, b[..k]);
      }
    }
  }

  // --------------------------------------------------------------------- first results

  /** The first result among some leaves. */
  ghost function First<A>(vs: seq<Option<A>>): Option<A> {
    if vs == [] then None else if vs[0].Some? then vs[0] else First(vs[1..])
  }

  lemma {:induction false} FirstAppend<A>(us: seq<Option<A>>, vs: seq<Option<A>>)
    ensures First(us + vs) == if First(us).Some? then First(us) else First(vs)
    decreases |us|
  {
    if us == [] {
      assert us + vs == vs;
    } else {
      FirstAppend(us[1..], vs);
      assert (us + vs)[1..] == us[1..] + vs;
    }
  }

  /** Where nothing is found there is nothing to go on from. */
  lemma {:induction false} FlatNone<A, B>(vs: seq<Option<A>>, f: Option<A> -> Decision<Option<B>>)
    requires First(vs) == None && Leaves(f(None)) == [None]
    ensures First(FlatLeaves(vs, f)) == None
    decreases |vs|
  {
    if vs != [] {
      FlatNone(vs[1..], f);
      FirstAppend(Leaves(f(vs[0])), FlatLeaves(vs[1..], f));
      var none: seq<Option<B>> := [None];
      assert none[1..] == [] && First(none) == None;
    }
  }

  /** `rest` is what is left of `all` behind some leaves without a result. */
  ghost predicate Skips<A(!new)>(all: seq<Option<A>>, rest: seq<Option<A>>) {
    exists front :: all == front + rest && First(front) == None
  }

  lemma SkipsBy<A(!new)>(all: seq<Option<A>>, front: seq<Option<A>>, rest: seq<Option<A>>)
    requires all == front + rest && First(front) == None
    ensures Skips(all, rest)
  {}

  lemma SkipsTransitive<A(!new)>(all: seq<Option<A>>, mid: seq<Option<A>>, rest: seq<Option<A>>)
    requires Skips(all, mid) && Skips(mid, rest)
    ensures Skips(all, rest)
  {
    var f :| all == f + mid && First(f) == None;
    var g :| mid == g + rest && First(g) == None;
    FirstAppend(f, g);
    assert f + (g + rest) == f + g + rest;
    SkipsBy(all, f + g, rest);
  }

  lemma SkipsAppend<A(!new)>(all: seq<Option<A>>, rest: seq<Option<A>>, more: seq<Option<A>>)
    requires Skips(all, rest)
    ensures Skips(all + more, rest + more)
  {
    var f :| all == f + rest && First(f) == None;
    assert f + rest + more == f + (rest + more);
    SkipsBy(all + more, f, rest + more);
  }

  lemma SkipsFirst<A(!new)>(all: seq<Option<A>>, rest: seq<Option<A>>)
    requires Skips(all, rest)
    ensures First(rest) == First(all)
  {
    var f :| all == f + rest && First(f) == None;
    FirstAppend(f, rest);
  }

  lemma SkipsFlat<A(!new), B(!new)>(all: seq<Option<A>>, rest: seq<Option<A>>, f: Option<A> -> Decision<Option<B>>)
    requires Skips(all, rest) && Leaves(f(None)) == [None]
    ensures Skips(FlatLeaves(all, f), FlatLeaves(rest, f))
  {
    var front :| all == front + rest && First(front) == None;
    FlatAppend(front, rest, f);
    FlatNone(front, f);
    SkipsBy(FlatLeaves(all, f), FlatLeaves(front, f), FlatLeaves(rest, f));
  }

  /** `q` is where a search from `p` gets to: leaves without a result have been
      passed. */
  ghost predicate Passed<A(!new)>(t: Decision<Option<A>>, p: seq<nat>, q: seq<nat>) {
    Follows(t, p) && Follows(t, q) && Skips(Remaining(t, p), Remaining(t, q))
  }

  lemma PassedSelf<A(!new)>(t: Decision<Option<A>>, p: seq<nat>)
    requires Follows(t, p)
    ensures Passed(t, p, p)
  {
    assert Remaining(t, p) == [] + Remaining(t, p);
    SkipsBy(Remaining(t, p), [], Remaining(t, p));
  }

  lemma PassedTransitive<A(!new)>(t: Decision<Option<A>>, p: seq<nat>, q: seq<nat>, r: seq<nat>)
    requires Passed(t, p, q) && Passed(t, q, r)
    ensures Passed(t, p, r)
  {
    SkipsTransitive(Remaining(t, p), Remaining(t, q), Remaining(t, r));
  }

  /** A search finds the same from wherever it has got to. */
  lemma PassedFirst<A(!new)>(t: Decision<Option<A>>, p: seq<nat>, q: seq<nat>)
    requires Passed(t, p, q)
    ensures First(Remaining(t, q)) == First(Remaining(t, p))
  {
    SkipsFirst(Remaining(t, p), Remaining(t, q));
  }

  /** The same for what is bound to the results. */
  lemma PassedBind<A(!new), B(!new)>(t: Decision<Option<A>>, f: Option<A> -> Decision<Option<B>>, p: seq<nat>, q: seq<nat>)
    requires Passed(t, p, q) && Leaves(f(None)) == [None]
    ensures Passed(Bind(t, f), p, q)
  {
    RemainingBind(t, f, p);
    RemainingBind(t, f, q);
    SkipsFlat(Remaining(t, p), Remaining(t, q), f);
  }

  /** And for a tree in which this is a subtree. */
  lemma PassedAt<A(!new)>(t: Decision<Option<A>>, a: seq<nat>, s: Decision<Option<A>>, p: seq<nat>, q: seq<nat>)
    requires At(t, a, s) && Passed(s, p, q)
    ensures Passed(t, a + p, a + q)
  {
    RemainingAt(t, a, s, p);
    RemainingAt(t, a, s, q);
    SkipsAppend(Remaining(s, p), Remaining(s, q), Later(t, a));
  }

  /** Behind a subtree without results the search goes on to its right. */
  lemma PassedOver<A(!new)>(t: Decision<Option<A>>, a: seq<nat>, s: Decision<Option<A>>, p: seq<nat>)
    requires Bounded(t) && At(t, a, s) && Follows(s, p) && First(Remaining(s, p)) == None
    ensures Follows(t, a + p) && Follows(t, Advanced(a))
    ensures Advanced(a) == [] ==> First(Remaining(t, a + p)) == None
    ensures Advanced(a) != [] ==> Passed(t, a + p, Advanced(a))
  {
    RemainingAt(t, a, s, p);
    LaterAdvanced(t, a, s);
    FirstAppend(Remaining(s, p), Later(t, a));
    SkipsBy(Remaining(t, a + p), Remaining(s, p), Later(t, a));
  }

  // -------------------------------------------------------------- a search on the way

  /** A whole walk `w` has got to the tree `s`, at position `idx` of the path. */
  ghost predicate Along<L>(w: Walked<L>, path: seq<nat>, start: nat, idx: nat, s: Decision<L>) {
    start <= idx <= |path| && w == After(path[start..idx], Walk(s, path[idx..]))
  }

  lemma AlongStart<L>(path: seq<nat>, start: nat, s: Decision<L>)
    requires start <= |path|
    ensures Along(Walk(s, path[start..]), path, start, start, s)
  {
    var w := Walk(s, path[start..]);
    assert w.Walked? ==> [] + w.used == w.used;
  }

  /** The first of two parts has been walked through. */
  lemma AlongBind<A, B>(w: Walked<B>, path: seq<nat>, start: nat, idx: nat, t: Decision<A>, f: A -> Decision<B>)
    requires w.Walked? && Along(w, path, start, idx, Bind(t, f))
    ensures var v := Walk(t, path[idx..]);
            && v.Walked?
            && Along(w, path[..idx] + v.used + v.rest, start, idx + |v.used|, f(v.leaf))
  {
    WalkBind(t, f, path[idx..]);
    var v := Walk(t, path[idx..]);
    var rest := Walk(f(v.leaf), v.rest);
    AfterTwice(path[start..idx], v.used, rest);
    PathSplit(path, start, idx, v.used, v.rest);
  }

  /** A walk that has got to a leaf. */
  lemma AlongEnd<L>(w: Walked<L>, path: seq<nat>, start: nat, idx: nat, v: L)
    requires Along(w, path, start, idx, Leaf(v))
    ensures w == Walked(v, path[start..idx], path[idx..])
  {
    assert path[start..idx] + [] == path[start..idx];
  }

  /** A search in `t` from `p` on has got to the tree `s`. */
  ghost predicate Stands<A(!new)>(t: Decision<Option<A>>, p: seq<nat>, path: seq<nat>, start: nat, idx: nat, s: Decision<Option<A>>) {
    && start <= idx <= |path| && At(t, path[start..idx], s) && Follows(s, path[idx..])
    && Passed(t, p, path[start..])
  }

  lemma StandsStart<A(!new)>(t: Decision<Option<A>>, path: seq<nat>, start: nat)
    requires start <= |path| && Follows(t, path[start..])
    ensures Stands(t, path[start..], path, start, start, t)
  {
    PassedSelf(t, path[start..]);
    assert path[start..start] == [];
  }

  /** The first of two parts has been searched, with a result. */
  lemma StandsFound<A(!new), B(!new)>(t: Decision<Option<B>>, p: seq<nat>, path: seq<nat>, start: nat, idx: nat,
                                      s: Decision<Option<A>>, f: Option<A> -> Decision<Option<B>>, q: seq<nat>)
    requires Stands(t, p, path, start, idx, Bind(s, f)) && Leaves(f(None)) == [None]
    requires Passed(s, path[idx..], q) && Walk(s, q).Walked? && Walk(s, q).used == q && Walk(s, q).rest == []
    ensures var path' := path[..idx] + q; Stands(t, p, path', start, |path'|, f(Walk(s, q).leaf))
  {
    var path', a, v := path[..idx] + q, path[start..idx], Walk(s, q).leaf;
    PassedBind(s, f, path[idx..], q);
    PassedAt(t, a, Bind(s, f), path[idx..], q);
    assert path[start..] == a + path[idx..];
    PassedTransitive(t, p, path[start..], a + q);
    AtBind(s, f, q);
    AtTransitive(t, a, Bind(s, f), q, f(v));
    FollowsEmpty(f(v));
    PathSplit(path, start, idx, q, []);
    assert path[..idx] + q + [] == path' && a + q + [] == a + q;
  }

  /** The first of two parts has been searched, without a result. */
  lemma StandsFailed<A(!new), B(!new)>(t: Decision<Option<B>>, p: seq<nat>, path: seq<nat>, start: nat, idx: nat,
                                       s: Decision<Option<A>>, f: Option<A> -> Decision<Option<B>>)
    requires Bounded(t) && Stands(t, p, path, start, idx, Bind(s, f)) && Leaves(f(None)) == [None]
    requires Follows(s, path[idx..]) && First(Remaining(s, path[idx..])) == None
    ensures GivenUp(t, p, path[start..idx])
  {
    RemainingBind(s, f, path[idx..]);
    FlatNone(Remaining(s, path[idx..]), f);
    StandsOver(t, p, path, start, idx, Bind(s, f));
  }

  /** Nothing was found up to the end of the subtree that `a` leads to. */
  ghost predicate GivenUp<A(!new)>(t: Decision<Option<A>>, p: seq<nat>, a: seq<nat>) {
    && Follows(t, p) && Follows(t, Advanced(a))
    && (Advanced(a) == [] ==> First(Remaining(t, p)) == None)
    && (Advanced(a) != [] ==> Passed(t, p, Advanced(a)))
  }

  lemma StandsOver<A(!new)>(t: Decision<Option<A>>, p: seq<nat>, path: seq<nat>, start: nat, idx: nat, s: Decision<Option<A>>)
    requires Bounded(t) && Stands(t, p, path, start, idx, s) && First(Remaining(s, path[idx..])) == None
    ensures GivenUp(t, p, path[start..idx])
  {
    var a := path[start..idx];
    assert path[start..] == a + path[idx..];
    PassedOver(t, a, s, path[idx..]);
    PassedFirst(t, p, path[start..]);
    if Advanced(a) != [] {
      PassedTransitive(t, p, path[start..], Advanced(a));
    }
  }

  /** A search that goes on from a path stands at every subtree on it. */
  lemma StandsAgain<A(!new)>(t: Decision<Option<A>>, p: seq<nat>, path: seq<nat>, start: nat, idx: nat, s: Decision<Option<A>>)
    requires start <= idx <= |path| && At(t, path[start..idx], s) && Passed(t, p, path[start..])
    ensures Stands(t, p, path, start, idx, s)
  {
    assert path[start..] == path[start..idx] + path[idx..];
    FollowsAt(t, path[start..idx], s, path[idx..]);
  }

  lemma {:induction false} WalkKeeps<L>(t: Decision<L>, p: seq<nat>)
    requires Walk(t, p).Walked?
    ensures Walk(t, p).rest != [] ==> Walk(t, p).used + Walk(t, p).rest == p
    ensures Walk(t, p).rest == [] ==> Follows(t, p)
    decreases t
  {
    match t
    case Leaf(_) => assert [] + p == p;
    case Dead(rest) => WalkKeeps(rest, p);
    case Node(kids) =>
      if p != [] {
        WalkKeeps(kids[|kids| - p[0]], p[1..]);
        if Walk(t, p).rest != [] {
          KeepsOne(p, Walk(kids[|kids| - p[0]], p[1..]));
        }
      } else {
        WalkKeeps(kids[0], []);
      }
  }

  lemma KeepsOne<L>(p: seq<nat>, w: Walked<L>)
    requires p != [] && w.Walked? && w.used + w.rest == p[1..]
    ensures After([p[0]], w).used + w.rest == p
  {
    assert [p[0]] + w.used + w.rest == [p[0]] + (w.used + w.rest);
  }

  /** The first of two parts has been replayed; behind it the search is where it
      was. */
  lemma StandsReplayed<A(!new), B(!new)>(t: Decision<Option<B>>, p: seq<nat>, path: seq<nat>, start: nat, idx: nat,
                                         s: Decision<A>, f: A -> Decision<Option<B>>)
    requires Stands(t, p, path, start, idx, Bind(s, f)) && Bounded(s)
    ensures var w := Walk(s, path[idx..]);
            w.Walked? && Stands(t, p, path[..idx] + w.used + w.rest, start, idx + |w.used|, f(w.leaf))
  {
    var r, a := path[idx..], path[start..idx];
    FollowsBind(s, f, r);
    if Follows(s, r) {
      WalkWhole(s, r);
    }
    var w := Walk(s, r);
    WalkKeeps(s, r);
    ReplayedOn(t, p, path, start, idx, s, f, w);
    AtBind(s, f, r);
    AtTransitive(t, a, Bind(s, f), w.used, f(w.leaf));
    FollowsAt(t, a + w.used, f(w.leaf), w.rest);
    PathSplit(path, start, idx, w.used, w.rest);
  }

  lemma ReplayedOn<A(!new), B(!new)>(t: Decision<Option<B>>, p: seq<nat>, path: seq<nat>, start: nat, idx: nat,
                                     s: Decision<A>, f: A -> Decision<Option<B>>, w: Walked<A>)
    requires Stands(t, p, path, start, idx, Bind(s, f)) && Bounded(s) && w == Walk(s, path[idx..]) && w.Walked?
    ensures Passed(t, p, path[start..idx] + w.used + w.rest)
  {
    WalkKeeps(s, path[idx..]);
    var a := path[start..idx];
    if w.rest == [] {
      WalkWhole(s, path[idx..]);
      StandsExtended(t, p, path, start, idx, s, f);
      NothingBehind(a, w.used);
    } else {
      ThreeParts(path, start, idx, w.used, w.rest);
    }
  }

  lemma NothingBehind(a: seq<nat>, b: seq<nat>)
    ensures a + b + [] == a + b
  {}

  lemma SameBetween(path: seq<nat>, path': seq<nat>, a: nat, b: nat, idx: nat)
    requires a <= b <= idx <= |path| && idx <= |path'| && path'[..idx] == path[..idx]
    ensures path'[a..b] == path[a..b]
  {
    assert path'[a..b] == path'[..idx][a..b];
    assert path[a..b] == path[..idx][a..b];
  }

  lemma CutTwice(path: seq<nat>, a: nat, b: nat)
    requires a <= b <= |path|
    ensures path == path[..a] + path[a..b] + path[b..]
  {}

  lemma ThreeParts(path: seq<nat>, start: nat, idx: nat, used: seq<nat>, rest: seq<nat>)
    requires start <= idx <= |path| && used + rest == path[idx..]
    ensures path[start..idx] + used + rest == path[start..]
  {
    assert path[start..idx] + used + rest == path[start..idx] + (used + rest);
    assert path[start..] == path[start..idx] + path[idx..];
  }

  /** Taking first branches passes nothing. */
  lemma StandsExtended<A(!new), B(!new)>(t: Decision<Option<B>>, p: seq<nat>, path: seq<nat>, start: nat, idx: nat,
                                         s: Decision<A>, f: A -> Decision<Option<B>>)
    requires Stands(t, p, path, start, idx, Bind(s, f)) && Bounded(s) && Follows(s, path[idx..])
    ensures Passed(t, p, path[start..idx] + Extend(s, path[idx..]))
  {
    var r, a := path[idx..], path[start..idx];
    ExtendCompletes(s, r);
    SameBehind(t, a, s, f, r, Extend(s, r));
    InTwo(path, start, idx);
    PassedSame(t, p, path[start..], a + Extend(s, r));
  }

  lemma InTwo(path: seq<nat>, a: nat, b: nat)
    requires a <= b <= |path|
    ensures path[a..] == path[a..b] + path[b..]
  {}

  lemma SameAt<L>(t: Decision<L>, a: seq<nat>, s: Decision<L>, q: seq<nat>, r: seq<nat>)
    requires At(t, a, s) && Follows(s, q) && Follows(s, r) && Remaining(s, r) == Remaining(s, q)
    ensures Follows(t, a + q) && Follows(t, a + r) && Remaining(t, a + r) == Remaining(t, a + q)
  {
    RemainingAt(t, a, s, q);
    RemainingAt(t, a, s, r);
  }

  lemma SameBehind<A, B(!new)>(t: Decision<Option<B>>, a: seq<nat>, s: Decision<A>, f: A -> Decision<Option<B>>, q: seq<nat>, r: seq<nat>)
    requires At(t, a, Bind(s, f)) && Follows(s, q) && Follows(s, r) && Remaining(s, r) == Remaining(s, q)
    ensures Follows(t, a + q) && Follows(t, a + r) && Remaining(t, a + r) == Remaining(t, a + q)
  {
    RemainingBind(s, f, q);
    RemainingBind(s, f, r);
    SameAt(t, a, Bind(s, f), q, r);
  }

  lemma PassedSame<A(!new)>(t: Decision<Option<A>>, p: seq<nat>, q: seq<nat>, r: seq<nat>)
    requires Passed(t, p, q) && Follows(t, r) && Remaining(t, r) == Remaining(t, q)
    ensures Passed(t, p, r)
  {}

  // ------------------------------------------------------------ what a search method does

  /** A recorded result is replayed. */
  ghost predicate Replays<A>(t: Decision<Option<A>>, p: seq<nat>, idx: nat, p': seq<nat>, idx': nat, ok: bool, r: Option<A>) {
    idx <= |p| &&
    var w := Walk(t, p[idx..]);
    w.Walked? && w.leaf.Some? ==>
      ok && r == w.leaf && p' == p[..idx] + w.used + w.rest && idx' == idx + |w.used|
  }

  /** From a recorded beginning, the first result is found, and its path recorded;
      or there is none, and nothing is. */
  ghost predicate Finds<A(!new)>(t: Decision<Option<A>>, p: seq<nat>, idx: nat, p': seq<nat>, idx': nat, ok: bool, r: Option<A>) {
    idx <= |p| && (Follows(t, p[idx..]) ==>
      && ok && r == First(Remaining(t, p[idx..]))
      && (r.Some? ==> idx' == |p'| && FoundAt(t, p, idx, p', r))
      && (r == None ==> p' == p[..idx] && idx' == idx))
  }

  ghost predicate FoundAt<A(!new)>(t: Decision<Option<A>>, p: seq<nat>, idx: nat, p': seq<nat>, r: Option<A>) {
    && idx <= |p| && idx <= |p'| && p'[..idx] == p[..idx]
    && Passed(t, p[idx..], p'[idx..]) && Walk(t, p'[idx..]) == Walked(r, p'[idx..], [])
  }

  /** A search method called on the first of two parts, on the way through a
      recorded result. */
  lemma ReplaysPart<A, B>(w: Walked<Option<B>>, path: seq<nat>, start: nat, idx: nat,
                          s: Decision<Option<A>>, f: Option<A> -> Decision<Option<B>>,
                          path': seq<nat>, idx': nat, ok: bool, r: Option<A>)
    requires w.Walked? && w.leaf.Some? && Along(w, path, start, idx, Bind(s, f)) && f(None) == Leaf(None)
    requires Replays(s, path, idx, path', idx', ok, r)
    ensures ok && r.Some? && Along(w, path', start, idx', f(r))
  {
    AlongBind(w, path, start, idx, s, f);
  }

  /** A search method called on the first of two parts, on the way through a
      search. */
  lemma FindsPart<A(!new), B(!new)>(t: Decision<Option<B>>, p: seq<nat>, path: seq<nat>, start: nat, idx: nat,
                                    s: Decision<Option<A>>, f: Option<A> -> Decision<Option<B>>,
                                    path': seq<nat>, idx': nat, ok: bool, r: Option<A>)
    requires Bounded(t) && Bounded(s) && Stands(t, p, path, start, idx, Bind(s, f)) && f(None) == Leaf(None)
    requires Replays(s, path, idx, path', idx', ok, r) && Finds(s, path, idx, path', idx', ok, r)
    ensures ok
    ensures r.Some? ==> Stands(t, p, path', start, idx', f(r))
    ensures r == None ==> GivenUp(t, p, path[start..idx]) && path' == path[..idx] && idx' == idx
  {
    if Follows(s, path[idx..]) {
      if r.Some? {
        FindsResult(t, p, path, start, idx, s, f, path', r);
      } else {
        StandsFailed(t, p, path, start, idx, s, f);
      }
    } else {
      FollowsBind(s, f, path[idx..]);
      WalkKeeps(s, path[idx..]);
      StandsReplayed(t, p, path, start, idx, s, f);
    }
  }

  lemma FindsResult<A(!new), B(!new)>(t: Decision<Option<B>>, p: seq<nat>, path: seq<nat>, start: nat, idx: nat,
                                      s: Decision<Option<A>>, f: Option<A> -> Decision<Option<B>>,
                                      path': seq<nat>, r: Option<A>)
    requires Stands(t, p, path, start, idx, Bind(s, f)) && f(None) == Leaf(None) && FoundAt(s, path, idx, path', r)
    ensures Stands(t, p, path', start, |path'|, f(r))
  {
    var q := path'[idx..];
    StandsFound(t, p, path, start, idx, s, f, q);
    assert path' == path'[..idx] + q;
  }

  lemma {:induction false} WalkAt<L>(t: Decision<L>, a: seq<nat>, v: L)
    requires At(t, a, Leaf(v))
    ensures Walk(t, a) == Walked(v, a, [])
    decreases t
  {
    if !(a == [] && t == Leaf(v)) {
      match t
      case Dead(rest) => WalkAt(rest, a, v);
      case Node(kids) =>
        WalkAt(kids[|kids| - a[0]], a[1..], v);
        assert [a[0]] + a[1..] == a;
    }
  }

  /** A search that has got to a leaf with a result has found the first one. */
  lemma StandsEnd<A(!new)>(t: Decision<Option<A>>, path: seq<nat>, idx: nat, path': seq<nat>, idx': nat, r: Option<A>)
    requires Bounded(t) && idx <= |path| && Stands(t, path[idx..], path', idx, idx', Leaf(r)) && r.Some?
    requires path'[..idx] == path[..idx]
    ensures Finds(t, path, idx, path', idx', true, r) && idx' == |path'|
  {
    assert path'[idx..idx'] == path'[idx..];
    WalkAt(t, path'[idx..], r);
    WalkWhole(t, path'[idx..]);
    PassedFirst(t, path[idx..], path'[idx..]);
  }

  /** A tree without failures is walked through as recorded. */
  ghost predicate Walks<L>(t: Decision<L>, p: seq<nat>, idx: nat, p': seq<nat>, idx': nat, ok: bool, r: L) {
    idx <= |p| &&
    var w := Walk(t, p[idx..]);
    w.Walked? ==> ok && r == w.leaf && p' == p[..idx] + w.used + w.rest && idx' == idx + |w.used|
  }

  /** One choice on the way through a walk. */
  lemma AlongNext<L>(w: Walked<L>, path: seq<nat>, start: nat, idx: nat, t: Decision<L>, path': seq<nat>, ok: bool, i: int)
    requires w.Walked? && Along(w, path, start, idx, t) && t.Node? && t.kids != []
    requires if idx == |path| then ok && i == 0 && path' == path + [|t.kids|]
             else path' == path && ok == (path[idx] <= |t.kids|) && (ok ==> i == |t.kids| - path[idx])
    ensures ok && 0 <= i < |t.kids| && Along(w, path', start, idx + 1, t.kids[i])
  {
    var rest := path[idx..];
    var k := if idx == |path| then |t.kids| else path[idx];
    var q := if idx == |path| then [] else rest[1..];
    assert Walk(t, rest) == After([k], Walk(t.kids[|t.kids| - k], q));
    AfterTwice(path[start..idx], [k], Walk(t.kids[|t.kids| - k], q));
    OneMore(path, start, idx, path', k, q);
  }

  lemma {:induction false} AtWalk<L>(t: Decision<L>, p: seq<nat>)
    requires Walk(t, p).Walked?
    ensures At(t, Walk(t, p).used, Leaf(Walk(t, p).leaf))
    decreases t
  {
    match t
    case Leaf(_) =>
    case Dead(rest) => AtWalk(rest, p);
    case Node(kids) =>
      var q := if p == [] then [] else p[1..];
      var i := if p == [] then 0 else |kids| - p[0];
      AtWalk(kids[i], q);
      var used := Walk(t, p).used;
      assert used[1..] == Walk(kids[i], q).used && used[0] == |kids| - i;
  }

  lemma LastPassed<A(!new)>(t: Decision<Option<A>>, p: seq<nat>, path: seq<nat>, start: nat, idx: nat, s: Decision<Option<A>>)
    requires Stands(t, p, path, start, idx, s) && Bounded(s)
    ensures Passed(t, p, path[start..idx] + Extend(s, path[idx..]))
  {
    var rest, a := path[idx..], path[start..idx];
    ExtendCompletes(s, rest);
    SameAt(t, a, s, rest, Extend(s, rest));
    InTwo(path, start, idx);
    PassedSame(t, p, path[start..], a + Extend(s, rest));
  }

  /** A search walks through the last part of a tree. */
  lemma StandsLast<A(!new)>(t: Decision<Option<A>>, p: seq<nat>, path: seq<nat>, start: nat, idx: nat, s: Decision<Option<A>>,
                            path': seq<nat>, idx': nat, ok: bool, r: Option<A>)
    requires Stands(t, p, path, start, idx, s) && Bounded(s) && Walks(s, path, idx, path', idx', ok, r)
    ensures ok && Stands(t, p, path', start, idx', Leaf(r)) && idx' == |path'|
  {
    var rest, a := path[idx..], path[start..idx];
    WalkWhole(s, rest);
    var u := Extend(s, rest);
    LastPassed(t, p, path, start, idx, s);
    AtWalk(s, rest);
    AtTransitive(t, a, s, u, Leaf(r));
    PathSplit(path, start, idx, u, []);
    NothingBehind(path[..idx], u);
    NothingBehind(a, u);
  }

  // ------------------------------------------------------------------------- results

  /** The results among some leaves, in order. */
  ghost function Results<A>(vs: seq<Option<A>>): seq<A> {
    if vs == [] then [] else (if vs[0].Some? then [vs[0].value] else []) + Results(vs[1..])
  }

  lemma {:induction false} ResultsFirst<A>(vs: seq<Option<A>>)
    ensures First(vs) == if Results(vs) == [] then None else Some(Results(vs)[0])
    decreases |vs|
  {
    if vs != [] {
      ResultsFirst(vs[1..]);
    }
  }

  lemma {:induction false} ResultsAppend<A>(us: seq<Option<A>>, vs: seq<Option<A>>)
    ensures Results(us + vs) == Results(us) + Results(vs)
    decreases |us|
  {
    if us == [] {
      assert us + vs == vs;
    } else {
      ResultsAppend(us[1..], vs);
      assert (us + vs)[1..] == us[1..] + vs;
      Regroup(if us[0].Some? then [us[0].value] else [], Results(us[1..]), Results(vs));
    }
  }

  lemma ResultsSkips<A(!new)>(all: seq<Option<A>>, rest: seq<Option<A>>)
    requires Skips(all, rest)
    ensures Results(rest) == Results(all)
  {
    var front :| all == front + rest && First(front) == None;
    ResultsAppend(front, rest);
    ResultsFirst(front);
  }

  lemma {:induction false} ResultsIn<A>(vs: seq<Option<A>>, r: A)
    ensures r in Results(vs) <==> Some(r) in vs
    decreases |vs|
  {
    if vs != [] {
      ResultsIn(vs[1..], r);
      assert Some(r) in vs <==> vs[0] == Some(r) || Some(r) in vs[1..];
    }
  }

  lemma {:induction false} InLeavesFrom<L>(t: Decision<L>, i: nat, k: nat, v: L)
    requires t.Node? && i <= k < |t.kids| && v in Leaves(t.kids[k])
    ensures v in LeavesFrom(t, i)
    decreases k - i
  {
    if i < k {
      InLeavesFrom(t, i + 1, k, v);
    }
  }

  lemma {:induction false} FromLeavesFrom<L>(t: Decision<L>, i: nat, v: L) returns (k: nat)
    requires t.Node? && i <= |t.kids| && v in LeavesFrom(t, i)
    ensures k < |t.kids| && v in Leaves(t.kids[k])
    decreases |t.kids| - i
  {
    if v in Leaves(t.kids[i]) {
      k := i;
    } else {
      k := FromLeavesFrom(t, i + 1, v);
    }
  }

  lemma {:induction false} ResultsCount<A>(vs: seq<Option<A>>, r: A)
    ensures multiset(Results(vs))[r] == multiset(vs)[Some(r)]
    decreases |vs|
  {
    if vs != [] {
      ResultsCount(vs[1..], r);
      assert vs == [vs[0]] + vs[1..];
    }
  }

  /** Advancing from where a result was found drops exactly that result. */
  lemma ResultDropped<A(!new)>(t: Decision<Option<A>>, p: seq<nat>, q: seq<nat>, r: A)
    requires Bounded(t) && Passed(t, p, q) && Walk(t, q) == Walked(Some(r), q, [])
    ensures Results(Remaining(t, p)) != [] && Results(Remaining(t, p))[0] == r && Follows(t, Advanced(q))
    ensures Results(Remaining(t, p))[1..] == if Advanced(q) == [] then [] else Results(Remaining(t, Advanced(q)))
  {
    ResultsSkips(Remaining(t, p), Remaining(t, q));
    WalkWhole(t, q);
    ExtendCompletes(t, q);
    AdvanceDropsOne(t, q);
  }
}
