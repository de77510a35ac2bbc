/**
 Backtracking by replay (`gu/choice.c`): a path of remaining-choice counters.
 Position `k` of the path holds how many branches of the `k`-th choice are
 still to be tried, the current one included.
 */
module Choice {
  import opened Arith

  const UINT8_MAX := 255

  /** Dropping exhausted counters and stepping the last live one. */
  function Advanced(p: seq<nat>): seq<nat>
  {
    if p == [] then []
    else if p[|p| - 1] > 1 then p[..|p| - 1] + [p[|p| - 1] - 1]
    else Advanced(p[..|p| - 1])
  }

  // ------------------------------------------------------------------------ progress

  function Scale(n: nat): nat {
    if n == 0 then 1 else 256 * Scale(n - 1)
  }

  ghost predicate Counters(p: seq<nat>) {
    forall k :: 0 <= k < |p| ==> 1 <= p[k] <= UINT8_MAX
  }

  /** A path as a number with `room` digits; choices not made yet count as if
      everything were still to be tried. */
  ghost function Weight(p: seq<nat>, room: nat): nat
    decreases room
  {
    if room == 0 then 0
    else if p == [] then UINT8_MAX * Scale(room - 1) + Weight([], room - 1)
    else p[0] * Scale(room - 1) + Weight(p[1..], room - 1)
  }

  lemma {:induction false} WeightEmpty(room: nat)
    ensures Weight([], room) < Scale(room)
    decreases room
  {
    if room > 0 {
      WeightEmpty(room - 1);
    }
  }

  lemma {:induction false} DigitBelow(a: nat, b: nat, s: nat)
    requires a <= b
    ensures a * s <= b * s
    ensures a < b ==> a * s + s <= b * s
    decreases b
  {
    if a < b {
      DigitBelow(a, b - 1, s);
      assert b * s == (b - 1) * s + s;
    }
  }

  /** Making another choice does not put the path back. */
  lemma {:induction false} WeightExtends(p: seq<nat>, q: seq<nat>, room: nat)
    requires Counters(q) && |p + q| <= room
    ensures Weight(p + q, room) <= Weight(p, room)
    decreases room
  {
    if q == [] {
      assert p + q == p;
    } else if p == [] {
      assert p + q == q;
      assert [] + q[1..] == q[1..];
      WeightExtends([], q[1..], room - 1);
      DigitBelow(q[0], UINT8_MAX, Scale(room - 1));
    } else {
      assert (p + q)[1..] == p[1..] + q;
      WeightExtends(p[1..], q, room - 1);
    }
  }

  /** Stepping a counter is progress over every path that had it as it was. */
  lemma {:induction false} WeightSteps(p: seq<nat>, k: nat, room: nat)
    requires k < |p| <= room && p[k] > 0
    ensures Weight(p[..k] + [p[k] - 1], room) < Weight(p, room)
    decreases room
  {
    var q := p[..k] + [p[k] - 1];
    if k == 0 {
      assert q[1..] == [];
      WeightEmpty(room - 1);
      DigitBelow(q[0], p[0], Scale(room - 1));
    } else {
      assert q[1..] == p[1..][..k - 1] + [p[1..][k - 1] - 1];
      WeightSteps(p[1..], k - 1, room - 1);
    }
  }

  /** Where an advanced path was stepped. */
  lemma {:induction false} AdvancedAt(p: seq<nat>) returns (k: nat)
    requires Advanced(p) != []
    ensures k < |p| && p[k] > 1 && Advanced(p) == p[..k] + [p[k] - 1]
    decreases |p|
  {
    if p[|p| - 1] > 1 {
      k := |p| - 1;
    } else {
      var q := p[..|p| - 1];
      k := AdvancedAt(q);
      assert q[..k] == p[..k];
    }
  }

  /** The branch taken among `n` at position `idx` of a path. */
  function Picked(path: seq<nat>, idx: nat, n: nat): int {
    if idx < |path| then n - path[idx] else 0
  }

  class GuChoice {
    var path: seq<nat>
    var pathIdx: nat

    ghost predicate Valid()
      reads this
    {
      && pathIdx <= |path|
      && forall k :: 0 <= k < |path| ==> 1 <= path[k] <= UINT8_MAX
    }

    constructor ()
      ensures Valid() && path == [] && pathIdx == 0
    {
      path, pathIdx := [], 0;
    }

    method Mark() returns (mark: nat)
      requires Valid()
      ensures mark == pathIdx
    {
      mark := pathIdx;
    }

    method Reset(mark: nat)
      requires Valid() && mark <= pathIdx
      modifies this`pathIdx
      ensures Valid() && pathIdx == mark
    {
      pathIdx := mark;
    }

    /** `ok` is false when the recorded counter exceeds the number of choices,
        which the source asserts against. */
    method Next(n: nat) returns (ok: bool, choice: int)
      requires Valid() && n <= UINT8_MAX
      modifies this
      ensures Valid() && -1 <= choice < n
      ensures n == 0 ==> ok && choice == -1 && path == old(path) && pathIdx == old(pathIdx)
      // a fresh choice starts with the first branch
      ensures n > 0 && old(pathIdx) == |old(path)| ==>
                ok && choice == 0 && path == old(path) + [n] && pathIdx == old(pathIdx) + 1
      // a recorded choice is replayed
      ensures n > 0 && old(pathIdx) < |old(path)| ==>
                && path == old(path)
                && ok == (old(path)[old(pathIdx)] <= n)
                && (ok ==> choice == n - old(path)[old(pathIdx)] && pathIdx == old(pathIdx) + 1)
                && (!ok ==> pathIdx == old(pathIdx))
    {
      if n == 0 {
        return true, -1;
      }
      var i := 0;
      if |path| > pathIdx {
        i := path[pathIdx];
        if i > n {
          return false, -1;
        }
      } else {
        path := path + [n];
        i := n;
      }
      choice := if i == 0 then -1 else n - i;
      pathIdx := pathIdx + 1;
      ok := true;
    }

    method Advance() returns (more: bool)
      requires Valid()
      modifies this`path
      ensures Valid()
      ensures path == old(path)[..pathIdx] + Advanced(old(path)[pathIdx..])
      ensures more <==> |path| > pathIdx
    {
      ghost var before := path;
      while |path| > pathIdx
        invariant pathIdx <= |path| && path <= before
        invariant Valid()
        invariant Advanced(before[pathIdx..]) == Advanced(path[pathIdx..])
      {
        var last := path[|path| - 1];
        ghost var tail := path[pathIdx..];
        path := path[..|path| - 1];
        assert tail[..|tail| - 1] == path[pathIdx..];
        if last > 1 {
          path := path + [last - 1];
          assert path == before[..pathIdx] + (tail[..|tail| - 1] + [last - 1]);
          return true;
        }
      }
      more := false;
    }
  }

  // --------------------------------------------------------------- decision trees

  /** A deterministic client of the choice object, unfolded: `Node(kids)` asks
      for a choice among `kids`, `Dead(rest)` asks for a choice among none (and
      is told there is none), `Leaf` is the end of a run. */
  datatype Decision<L> = Leaf(value: L) | Node(kids: seq<Decision<L>>) | Dead(rest: Decision<L>)

  /** Every choice has between one and 255 branches. */
  predicate Bounded<L>(t: Decision<L>) {
    match t
    case Leaf(_) => true
    case Node(kids) => 1 <= |kids| <= UINT8_MAX && forall i :: 0 <= i < |kids| ==> Bounded(kids[i])
    case Dead(rest) => Bounded(rest)
  }

  /** All leaves from left to right. */
  function Leaves<L>(t: Decision<L>): seq<L>
    decreases t, 0
  {
    match t
    case Leaf(v) => [v]
    case Node(kids) => LeavesFrom(t, 0)
    case Dead(rest) => Leaves(rest)
  }

  function LeavesFrom<L>(t: Decision<L>, i: nat): seq<L>
    requires t.Node? && i <= |t.kids|
    decreases t, 0, |t.kids| - i
  {
    if i == |t.kids| then [] else Leaves(t.kids[i]) + LeavesFrom(t, i + 1)
  }

  /** `p` records choices of a run through `t`, from the root on. */
  ghost predicate Follows<L>(t: Decision<L>, p: seq<nat>)
    decreases t
  {
    match t
    case Leaf(_) => p == []
    case Node(kids) => p == [] || (1 <= p[0] <= |kids| && Follows(kids[|kids| - p[0]], p[1..]))
    case Dead(rest) => Follows(rest, p)
  }

  /** `p` records the choices of a whole run. */
  ghost predicate Complete<L>(t: Decision<L>, p: seq<nat>)
    decreases t
  {
    match t
    case Leaf(_) => p == []
    case Node(kids) => p != [] && 1 <= p[0] <= |kids| && Complete(kids[|kids| - p[0]], p[1..])
    case Dead(rest) => Complete(rest, p)
  }

  /** The leaves a run following `p` reaches, and all those to its right. */
  ghost function Remaining<L>(t: Decision<L>, p: seq<nat>): seq<L>
    requires Follows(t, p)
    decreases t
  {
    match t
    case Leaf(v) => [v]
    case Node(kids) =>
      if p == [] then Leaves(t) else
      var i := |kids| - p[0];
      Remaining(kids[i], p[1..]) + LeavesFrom(t, i + 1)
    case Dead(rest) => Remaining(rest, p)
  }

  lemma {:induction false} CompleteFollows<L>(t: Decision<L>, p: seq<nat>)
    requires Complete(t, p)
    ensures Follows(t, p)
    decreases t
  {
    match t
    case Leaf(_) =>
    case Node(kids) => CompleteFollows(kids[|kids| - p[0]], p[1..]);
    case Dead(rest) => CompleteFollows(rest, p);
  }

  lemma {:induction false} LeavesNonempty<L>(t: Decision<L>)
    requires Bounded(t)
    ensures Leaves(t) != []
    decreases t
  {
    match t
    case Leaf(_) =>
    case Node(kids) =>
      LeavesNonempty(kids[0]);
      assert LeavesFrom(t, 0) == Leaves(kids[0]) + LeavesFrom(t, 1);
    case Dead(rest) => LeavesNonempty(rest);
  }

  lemma {:induction false} RemainingEmpty<L>(t: Decision<L>)
    requires Follows(t, [])
    ensures Remaining(t, []) == Leaves(t)
    decreases t
  {
    if t.Dead? {
      RemainingEmpty(t.rest);
    }
  }

  lemma {:induction false} FollowsEmpty<L>(t: Decision<L>)
    ensures Follows(t, [])
    decreases t
  {
    if t.Dead? {
      FollowsEmpty(t.rest);
    }
  }

  lemma {:induction false} AdvancedCons(c: nat, p: seq<nat>)
    ensures Advanced([c] + p) ==
            if Advanced(p) != [] then [c] + Advanced(p) else if c > 1 then [c - 1] else []
    decreases |p|
  {
    var q := [c] + p;
    if p != [] {
      assert q[..|q| - 1] == [c] + p[..|p| - 1];
      AdvancedCons(c, p[..|p| - 1]);
      if p[|p| - 1] > 1 {
        assert q[..|q| - 1] + [q[|q| - 1] - 1] == [c] + (p[..|p| - 1] + [p[|p| - 1] - 1]);
      }
    } else {
      assert q[..|q| - 1] == [];
      assert Advanced(q[..|q| - 1]) == [];
      assert [] + [c - 1] == [c - 1];
    }
  }

  /** Advancing past a whole run drops exactly the leaf it reached; nothing is
      left to advance to exactly when that leaf was the last one. */
  lemma {:induction false} AdvanceDropsOne<L>(t: Decision<L>, p: seq<nat>)
    requires Bounded(t) && Complete(t, p)
    ensures Follows(t, p) && Follows(t, Advanced(p)) && Remaining(t, p) != []
    ensures Advanced(p) == [] <==> |Remaining(t, p)| == 1
    ensures Advanced(p) != [] ==> Remaining(t, Advanced(p)) == Remaining(t, p)[1..]
    decreases t
  {
    CompleteFollows(t, p);
    FollowsEmpty(t);
    match t
    case Leaf(_) =>
    case Dead(rest) =>
      AdvanceDropsOne(rest, p);
    case Node(kids) =>
      var c, q := p[0], p[1..];
      assert p == [c] + q;
      AdvanceDropsOne(kids[|kids| - c], q);
      AdvanceInNode(t, c, q);
  }

  /** Advancing below a node, given how it goes in the branch taken. */
  lemma AdvanceInNode<L>(t: Decision<L>, c: nat, q: seq<nat>)
    requires Bounded(t) && t.Node? && 1 <= c <= |t.kids|
    requires var kid := t.kids[|t.kids| - c];
             && Follows(kid, q) && Follows(kid, Advanced(q)) && Remaining(kid, q) != []
             && (Advanced(q) == [] <==> |Remaining(kid, q)| == 1)
             && (Advanced(q) != [] ==> Remaining(kid, Advanced(q)) == Remaining(kid, q)[1..])
    ensures var p := [c] + q;
            && Follows(t, p) && Follows(t, Advanced(p)) && Remaining(t, p) != []
            && (Advanced(p) == [] <==> |Remaining(t, p)| == 1)
            && (Advanced(p) != [] ==> Remaining(t, Advanced(p)) == Remaining(t, p)[1..])
  {
    var kid := t.kids[|t.kids| - c];
    AdvancedCons(c, q);
    RemainingNode(t, c, q);
    DropFirst(Remaining(kid, q), LeavesFrom(t, |t.kids| - c + 1));
    if Advanced(q) != [] {
      RemainingNode(t, c, Advanced(q));
    } else if c > 1 {
      NextBranch(t, c - 1);
    } else {
      FollowsEmpty(t);
    }
  }

  lemma DropFirst<L>(here: seq<L>, after: seq<L>)
    requires here != []
    ensures (here + after)[1..] == here[1..] + after
  {}

  lemma RemainingNode<L>(t: Decision<L>, c: nat, q: seq<nat>)
    requires t.Node? && 1 <= c <= |t.kids| && Follows(t.kids[|t.kids| - c], q)
    ensures Follows(t, [c] + q)
    ensures Remaining(t, [c] + q) == Remaining(t.kids[|t.kids| - c], q) + LeavesFrom(t, |t.kids| - c + 1)
  {
    assert ([c] + q)[1..] == q;
  }

  /** A branch that has just been begun has all its leaves before it. */
  lemma NextBranch<L>(t: Decision<L>, c: nat)
    requires Bounded(t) && t.Node? && 1 <= c <= |t.kids|
    ensures Follows(t, [c]) && Remaining(t, [c]) == LeavesFrom(t, |t.kids| - c) && Remaining(t, [c]) != []
  {
    var kid := t.kids[|t.kids| - c];
    FollowsEmpty(kid);
    RemainingEmpty(kid);
    LeavesNonempty(kid);
    RemainingNode(t, c, []);
    assert [c] + [] == [c];
  }

  /** The path after a whole run: the recorded choices, then first branches. */
  ghost function Extend<L>(t: Decision<L>, p: seq<nat>): seq<nat>
    requires Bounded(t) && Follows(t, p)
    decreases t
  {
    match t
    case Leaf(_) => []
    case Node(kids) =>
      if p == [] then FollowsEmpty(kids[0]); [|kids|] + Extend(kids[0], [])
      else [p[0]] + Extend(kids[|kids| - p[0]], p[1..])
    case Dead(rest) => Extend(rest, p)
  }

  lemma {:induction false} ExtendCompletes<L>(t: Decision<L>, p: seq<nat>)
    requires Bounded(t) && Follows(t, p)
    ensures Complete(t, Extend(t, p)) && Follows(t, Extend(t, p))
    ensures Remaining(t, Extend(t, p)) == Remaining(t, p)
    decreases t
  {
    match t
    case Leaf(_) =>
    case Dead(rest) => ExtendCompletes(rest, p);
    case Node(kids) =>
      if p == [] {
        FollowsEmpty(kids[0]);
        RemainingEmpty(kids[0]);
        ExtendCompletes(kids[0], []);
        ExtendNode(t, |kids|, Extend(kids[0], []));
        assert LeavesFrom(t, 0) == Leaves(kids[0]) + LeavesFrom(t, 1);
      } else {
        ExtendCompletes(kids[|kids| - p[0]], p[1..]);
        ExtendNode(t, p[0], Extend(kids[|kids| - p[0]], p[1..]));
      }
  }

  /** A whole path through one branch, seen from the node above. */
  lemma ExtendNode<L>(t: Decision<L>, c: nat, e: seq<nat>)
    requires t.Node? && 1 <= c <= |t.kids| && Complete(t.kids[|t.kids| - c], e)
    ensures Complete(t, [c] + e) && Follows(t, [c] + e) && Follows(t.kids[|t.kids| - c], e)
    ensures Remaining(t, [c] + e) == Remaining(t.kids[|t.kids| - c], e) + LeavesFrom(t, |t.kids| - c + 1)
  {
    var p := [c] + e;
    assert p[1..] == e;
    CompleteFollows(t.kids[|t.kids| - c], e);
  }

  /** One run of the client: replays the recorded path, then takes first
      branches.  It reaches the first remaining leaf, and no assertion of the
      choice object fails. */
  method Run<L>(ch: GuChoice, t: Decision<L>) returns (ok: bool, leaf: L)
    requires ch.Valid() && Bounded(t) && Follows(t, ch.path[ch.pathIdx..])
    modifies ch
    ensures ch.Valid() && ok
    ensures ch.pathIdx == |ch.path|
    ensures ch.path == old(ch.path[..ch.pathIdx]) + Extend(t, old(ch.path[ch.pathIdx..]))
    ensures Remaining(t, old(ch.path[ch.pathIdx..])) != []
    ensures leaf == Remaining(t, old(ch.path[ch.pathIdx..]))[0]
    decreases t
  {
    ghost var a, p := ch.path[..ch.pathIdx], ch.path[ch.pathIdx..];
    match t
    case Leaf(v) =>
      ok, leaf := true, v;
    case Dead(rest) =>
      var _, _ := ch.Next(0);
      ok, leaf := Run(ch, rest);
    case Node(kids) =>
      var _, i := ch.Next(|kids|);
      ghost var c := |kids| - i;
      ghost var q := if p == [] then [] else p[1..];
      assert ch.path[..ch.pathIdx] == a + [c] && ch.path[ch.pathIdx..] == q;
      if p == [] {
        FollowsEmpty(kids[0]);
        RemainingEmpty(kids[0]);
        assert LeavesFrom(t, 0) == Leaves(kids[0]) + LeavesFrom(t, 1);
      }
      ok, leaf := Run(ch, kids[i]);
      assert a + [c] + Extend(kids[i], q) == a + ([c] + Extend(kids[i], q));
      assert Remaining(t, p) == Remaining(kids[i], q) + LeavesFrom(t, i + 1);
  }

  /** What one run followed by one advance does to what remains. */
  lemma RunThenAdvance<L>(t: Decision<L>, p: seq<nat>)
    requires Bounded(t) && Follows(t, p)
    ensures var a := Advanced(Extend(t, p));
            && Follows(t, a) && Remaining(t, p) != []
            && (a == [] <==> |Remaining(t, p)| == 1)
            && (a != [] ==> Remaining(t, a) == Remaining(t, p)[1..])
  {
    ExtendCompletes(t, p);
    AdvanceDropsOne(t, Extend(t, p));
  }

  /** Run, go back to the mark, advance. */
  method RunAndAdvance<L>(ch: GuChoice, t: Decision<L>, mark: nat, ghost p: seq<nat>) returns (leaf: L, more: bool)
    requires ch.Valid() && mark == ch.pathIdx && p == ch.path[mark..]
    requires Bounded(t) && Follows(t, p)
    modifies ch
    ensures ch.Valid() && ch.pathIdx == mark
    ensures ch.path == old(ch.path[..mark]) + Advanced(Extend(t, p))
    ensures Remaining(t, p) != [] && leaf == Remaining(t, p)[0]
    ensures more <==> Advanced(Extend(t, p)) != []
  {
    ghost var a := ch.path[..mark];
    var _, v := Run(ch, t);
    leaf := v;
    ch.Reset(mark);
    assert ch.path[mark..] == Extend(t, p) && ch.path[..mark] == a;
    more := ch.Advance();
  }

  /** The run/reset/advance loop: from the recorded position on, every leaf
      exactly once, from left to right; afterwards the path is cut back to the
      mark. */
  method Enumerate<L>(ch: GuChoice, t: Decision<L>) returns (out: seq<L>)
    requires ch.Valid() && Bounded(t) && Follows(t, ch.path[ch.pathIdx..])
    modifies ch
    ensures ch.Valid()
    ensures out == Remaining(t, old(ch.path[ch.pathIdx..]))
    ensures old(ch.pathIdx) == |old(ch.path)| ==> out == Leaves(t)
    ensures ch.pathIdx == old(ch.pathIdx) && ch.path == old(ch.path[..ch.pathIdx])
  {
    var mark := ch.Mark();
    ghost var a, p := ch.path[..mark], ch.path[mark..];
    ghost var all := Remaining(t, p);
    if p == [] {
      RemainingEmpty(t);
    }
    out := [];
    var more := true;
    while more
      invariant ch.Valid() && ch.pathIdx == mark == |a|
      invariant ch.path[..mark] == a && ch.path[mark..] == p
      invariant more ==> Follows(t, p) && out + Remaining(t, p) == all
      invariant !more ==> out == all && p == []
      decreases more, |all| - |out|
    {
      var leaf;
      leaf, more := RunAndAdvance(ch, t, mark, p);
      RunThenAdvance(t, p);
      out := Appended(out, Remaining(t, p), leaf);
      p := Advanced(Extend(t, p));
    }
  }

  /** Moving the first remaining leaf to the output. */
  function Appended<L>(out: seq<L>, ghost rest: seq<L>, leaf: L): (r: seq<L>)
    requires rest != [] && rest[0] == leaf
    ensures r + rest[1..] == out + rest
    ensures |rest| == 1 ==> r == out + rest
  {
    assert out + [leaf] + rest[1..] == out + rest;
    out + [leaf]
  }

  // ------------------------------------------------------------------ one part of a run

  /** Decisions followed by decisions that depend on how they went. */
  ghost function Bind<A, B>(t: Decision<A>, f: A -> Decision<B>): Decision<B> {
    match t
    case Leaf(v) => f(v)
    case Node(kids) => Node(seq(|kids|, i requires 0 <= i < |kids| => Bind(kids[i], f)))
    case Dead(rest) => Dead(Bind(rest, f))
  }

  /** A run through `t` that finds `p` recorded, which may go on behind `t`: the
      leaf, the counters on the way, and what is recorded behind them. */
  datatype Walked<L> = Lost | Walked(leaf: L, used: seq<nat>, rest: seq<nat>)

  function After<L>(used: seq<nat>, w: Walked<L>): Walked<L> {
    if w.Lost? then Lost else w.(used := used + w.used)
  }

  ghost function Walk<L>(t: Decision<L>, p: seq<nat>): Walked<L>
    decreases t
  {
    match t
    case Leaf(v) => Walked(v, [], p)
    case Node(kids) =>
      if kids == [] then Lost
      else if p == [] then After([|kids|], Walk(kids[0], []))
      else if 1 <= p[0] <= |kids| then After([p[0]], Walk(kids[|kids| - p[0]], p[1..]))
      else Lost
    case Dead(rest) => Walk(rest, p)
  }

  /** A run through a whole tree reaches the first remaining leaf. */
  lemma {:induction false} WalkWhole<L>(t: Decision<L>, p: seq<nat>)
    requires Bounded(t) && Follows(t, p)
    ensures Remaining(t, p) != [] && Walk(t, p) == Walked(Remaining(t, p)[0], Extend(t, p), [])
    decreases t
  {
    match t
    case Leaf(_) =>
    case Dead(rest) => WalkWhole(rest, p);
    case Node(kids) =>
      if p == [] {
        FollowsEmpty(kids[0]);
        WalkWhole(kids[0], []);
        WalkFirst(t);
      } else {
        WalkWhole(kids[|kids| - p[0]], p[1..]);
        WalkNode(t, p);
      }
  }

  lemma WalkFirst<L>(t: Decision<L>)
    requires Bounded(t) && t.Node? && Follows(t.kids[0], [])
    requires var kid := t.kids[0];
             Remaining(kid, []) != [] && Walk(kid, []) == Walked(Remaining(kid, [])[0], Extend(kid, []), [])
    ensures Remaining(t, []) != [] && Walk(t, []) == Walked(Remaining(t, [])[0], Extend(t, []), [])
  {
    RemainingEmpty(t.kids[0]);
    assert LeavesFrom(t, 0) == Leaves(t.kids[0]) + LeavesFrom(t, 1);
  }

  lemma WalkNode<L>(t: Decision<L>, p: seq<nat>)
    requires Bounded(t) && t.Node? && p != [] && Follows(t, p)
    requires var kid := t.kids[|t.kids| - p[0]];
             && Remaining(kid, p[1..]) != []
             && Walk(kid, p[1..]) == Walked(Remaining(kid, p[1..])[0], Extend(kid, p[1..]), [])
    ensures Remaining(t, p) != [] && Walk(t, p) == Walked(Remaining(t, p)[0], Extend(t, p), [])
  {}

  /** What a run through the second part adds to one through the first. */
  ghost function Onto<A, B>(w: Walked<A>, f: A -> Decision<B>): Walked<B> {
    if w.Lost? then Lost else After(w.used, Walk(f(w.leaf), w.rest))
  }

  lemma AfterOnto<A, B>(c: nat, w: Walked<A>, f: A -> Decision<B>)
    ensures Onto(After([c], w), f) == After([c], Onto(w, f))
  {
    if w.Walked? && Walk(f(w.leaf), w.rest).Walked? {
      var used := Walk(f(w.leaf), w.rest).used;
      assert [c] + w.used + used == [c] + (w.used + used);
    }
  }

  lemma AfterTwice<L>(a: seq<nat>, b: seq<nat>, w: Walked<L>)
    ensures After(a, After(b, w)) == After(a + b, w)
  {
    if w.Walked? {
      assert a + (b + w.used) == a + b + w.used;
    }
  }

  lemma OneMore(path: seq<nat>, start: nat, idx: nat, path': seq<nat>, k: nat, q: seq<nat>)
    requires start <= idx <= |path|
    requires if idx == |path| then path' == path + [k] && q == [] else path' == path && path[idx] == k && q == path[idx..][1..]
    ensures path'[start..idx + 1] == path[start..idx] + [k] && path'[idx + 1..] == q
  {}

  lemma PathSplit(p: seq<nat>, a: nat, b: nat, used: seq<nat>, rest: seq<nat>)
    requires a <= b <= |p|
    ensures var p' := p[..b] + used + rest;
            && p'[..a] == p[..a] && p'[a..b + |used|] == p[a..b] + used && p'[b + |used|..] == rest
            && p'[a..] == p[a..b] + used + rest && p' == p[..a] + (p[a..b] + used) + rest
  {}

  lemma {:induction false} WalkBind<A, B>(t: Decision<A>, f: A -> Decision<B>, p: seq<nat>)
    ensures Walk(Bind(t, f), p) == Onto(Walk(t, p), f)
    decreases t
  {
    match t
    case Leaf(v) =>
      var w := Walk(f(v), p);
      assert w.Walked? ==> [] + w.used == w.used;
    case Dead(rest) => WalkBind(rest, f, p);
    case Node(kids) =>
      if kids != [] {
        if p == [] {
          WalkBind(kids[0], f, []);
          AfterOnto(|kids|, Walk(kids[0], []), f);
        } else if 1 <= p[0] <= |kids| {
          WalkBind(kids[|kids| - p[0]], f, p[1..]);
          AfterOnto(p[0], Walk(kids[|kids| - p[0]], p[1..]), f);
        }
      }
  }

  lemma {:induction false} BoundedBind<A(!new), B>(t: Decision<A>, f: A -> Decision<B>)
    requires Bounded(t) && forall v :: Bounded(f(v))
    ensures Bounded(Bind(t, f))
    decreases t
  {
    match t
    case Leaf(_) =>
    case Dead(rest) => BoundedBind(rest, f);
    case Node(kids) =>
      forall i | 0 <= i < |kids| ensures Bounded(Bind(kids[i], f)) {
        BoundedBind(kids[i], f);
      }
  }

  // ------------------------------------------------------------------- how often a leaf

  /** How many leaves have the value `w`. */
  ghost function Times<L>(t: Decision<L>, w: L): nat
    decreases t, 0
  {
    match t
    case Leaf(v) => if v == w then 1 else 0
    case Node(kids) => TimesFrom(t, 0, w)
    case Dead(rest) => Times(rest, w)
  }

  ghost function TimesFrom<L>(t: Decision<L>, i: nat, w: L): nat
    requires t.Node? && i <= |t.kids|
    decreases t, 0, |t.kids| - i
  {
    if i == |t.kids| then 0 else Times(t.kids[i], w) + TimesFrom(t, i + 1, w)
  }

  lemma {:induction false} TimesLeaves<L>(t: Decision<L>, w: L)
    ensures multiset(Leaves(t))[w] == Times(t, w)
    decreases t, 0
  {
    match t
    case Leaf(_) =>
    case Dead(rest) => TimesLeaves(rest, w);
    case Node(_) => TimesLeavesFrom(t, 0, w);
  }

  lemma {:induction false} TimesLeavesFrom<L>(t: Decision<L>, i: nat, w: L)
    requires t.Node? && i <= |t.kids|
    ensures multiset(LeavesFrom(t, i))[w] == TimesFrom(t, i, w)
    decreases t, 0, |t.kids| - i
  {
    if i < |t.kids| {
      TimesLeaves(t.kids[i], w);
      TimesLeavesFrom(t, i + 1, w);
      assert multiset(Leaves(t.kids[i]) + LeavesFrom(t, i + 1)) == multiset(Leaves(t.kids[i])) + multiset(LeavesFrom(t, i + 1));
    }
  }

  /** When only `v` can lead to `w`, it does so as often as `v` is reached. */
  lemma {:induction false} TimesBind<A(!new), B>(t: Decision<A>, f: A -> Decision<B>, v: A, w: B)
    requires forall u :: u in Leaves(t) && u != v ==> Times(f(u), w) == 0
    ensures Times(Bind(t, f), w) == Times(t, v) * Times(f(v), w)
    decreases t, 0
  {
    match t
    case Leaf(u) => assert u in Leaves(t);
    case Dead(rest) => TimesBind(rest, f, v, w);
    case Node(kids) => TimesBindFrom(t, f, v, w, 0);
  }

  lemma {:induction false} TimesBindFrom<A(!new), B>(t: Decision<A>, f: A -> Decision<B>, v: A, w: B, i: nat)
    requires t.Node? && i <= |t.kids| && forall u :: u in LeavesFrom(t, i) && u != v ==> Times(f(u), w) == 0
    ensures TimesFrom(Bind(t, f), i, w) == TimesFrom(t, i, v) * Times(f(v), w)
    decreases t, 0, |t.kids| - i
  {
    if i < |t.kids| {
      TimesBind(t.kids[i], f, v, w);
      TimesBindFrom(t, f, v, w, i + 1);
      Distribute(Times(t.kids[i], v), TimesFrom(t, i + 1, v), Times(f(v), w));
    }
  }

  /** When the branches for one of several values lead to `w`, all equally often,
      and no others do. */
  lemma {:induction false} TimesBranches<L, V>(t: Decision<L>, w: L, vs: seq<V>, v: V, n: nat, i: nat)
    requires t.Node? && i <= |t.kids| == |vs|
    requires forall k :: 0 <= k < |vs| ==> Times(t.kids[k], w) == if vs[k] == v then n else 0
    ensures TimesFrom(t, i, w) == multiset(vs[i..])[v] * n
    decreases |t.kids| - i
  {
    if i < |t.kids| {
      TimesBranches(t, w, vs, v, n, i + 1);
      assert vs[i..] == [vs[i]] + vs[i + 1..];
      Distribute(if vs[i] == v then 1 else 0, multiset(vs[i + 1..])[v], n);
    }
  }
}
