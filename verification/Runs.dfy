/**
 Runs of a machine with a stack of pending calls.  What a call does at once, and
 which calls it leaves to do, is a function of the state and of a free choice.
 */
module Runs {
  import opened Wrappers

  datatype Outcome<S, C> = Stuck | Then(s: S, calls: seq<C>)

  /** Works a stack of calls off, top first, along given choices. */
  function Replay<S, C, P>(next: (C, S, P) -> Outcome<S, C>, s: S, stack: seq<C>, picks: seq<P>): Option<S>
    decreases |picks|
  {
    if stack == [] then if picks == [] then Some(s) else None
    else if picks == [] then None else
    match next(stack[0], s, picks[0])
    case Stuck => None
    case Then(s1, calls) => Replay(next, s1, calls + stack[1..], picks[1..])
  }

  /** Some run works the calls off and ends in `s'`. */
  ghost predicate Ran<S, C, P(!new)>(next: (C, S, P) -> Outcome<S, C>, s: S, stack: seq<C>, s': S) {
    exists picks :: Replay(next, s, stack, picks) == Some(s')
  }

  /** Every run from the second configuration completes one from the first. */
  ghost predicate Leads<S(!new), C, P(!new)>(next: (C, S, P) -> Outcome<S, C>, s: S, stack: seq<C>, s': S, stack': seq<C>) {
    forall t :: Ran(next, s', stack', t) ==> Ran(next, s, stack, t)
  }

  lemma RanNothing<S, C, P(!new)>(next: (C, S, P) -> Outcome<S, C>, s: S)
    ensures Ran(next, s, [], s)
  {
    assert Replay(next, s, [], []) == Some(s);
  }

  /** One call, then what it leaves to do. */
  lemma LeadsStep<S(!new), C, P(!new)>(next: (C, S, P) -> Outcome<S, C>, s: S, call: C, rest: seq<C>, pick: P, s1: S, calls: seq<C>)
    requires next(call, s, pick) == Then(s1, calls)
    ensures Leads(next, s, [call] + rest, s1, calls + rest)
  {
    forall t | Ran(next, s1, calls + rest, t) ensures Ran(next, s, [call] + rest, t) {
      var picks :| Replay(next, s1, calls + rest, picks) == Some(t);
      var stack, all := [call] + rest, [pick] + picks;
      assert stack[1..] == rest && all[1..] == picks;
      assert Replay(next, s, stack, all) == Some(t);
    }
  }

  lemma {:induction false} ReplayAppend<S, C, P>(next: (C, S, P) -> Outcome<S, C>, s: S, a: seq<C>, ps: seq<P>, s1: S,
                                                 b: seq<C>, qs: seq<P>)
    requires Replay(next, s, a, ps) == Some(s1)
    ensures Replay(next, s, a + b, ps + qs) == Replay(next, s1, b, qs)
    decreases |ps|
  {
    if a == [] {
      assert a + b == b && ps + qs == qs;
    } else {
      var o := next(a[0], s, ps[0]);
      ReplayAppend(next, o.s, o.calls + a[1..], ps[1..], s1, b, qs);
      assert (a + b)[1..] == a[1..] + b && (ps + qs)[1..] == ps[1..] + qs;
      assert o.calls + a[1..] + b == o.calls + (a[1..] + b);
    }
  }

  /** Calls that have been worked off. */
  lemma LeadsDone<S(!new), C, P(!new)>(next: (C, S, P) -> Outcome<S, C>, s: S, a: seq<C>, s1: S, b: seq<C>)
    requires Ran(next, s, a, s1)
    ensures Leads(next, s, a + b, s1, b)
  {
    var ps :| Replay(next, s, a, ps) == Some(s1);
    forall t | Ran(next, s1, b, t) ensures Ran(next, s, a + b, t) {
      var qs :| Replay(next, s1, b, qs) == Some(t);
      ReplayAppend(next, s, a, ps, s1, b, qs);
    }
  }

  lemma RanAppend<S(!new), C, P(!new)>(next: (C, S, P) -> Outcome<S, C>, s: S, a: seq<C>, s1: S, b: seq<C>, s2: S)
    requires Ran(next, s, a, s1) && Ran(next, s1, b, s2)
    ensures Ran(next, s, a + b, s2)
  {
    LeadsDone(next, s, a, s1, b);
  }

  /** A call whose first step is known and whose rest has been worked off. */
  lemma RanCall<S(!new), C, P(!new)>(next: (C, S, P) -> Outcome<S, C>, s: S, call: C, pick: P, s1: S, calls: seq<C>, s': S)
    requires next(call, s, pick) == Then(s1, calls) && Ran(next, s1, calls, s')
    ensures Ran(next, s, [call], s')
  {
    LeadsStep(next, s, call, [], pick, s1, calls);
    assert [call] + [] == [call] && calls + [] == calls;
  }
}
