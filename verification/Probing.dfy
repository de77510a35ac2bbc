/**
 Double hashing over a table of prime size: the probe sequence of every key
 visits every slot.
 */
module Probing {
  import opened Arith
  import opened Primes

  /** The `t`-th slot probed for a hash (`gu_map_lookup`): the start is the
      hash modulo `n`, the step lies in 1..n-2. */
  function Probe(h: nat, n: nat, t: nat): nat
    requires n > 2
  {
    (h % n + t * Step(h, n)) % n
  }

  function Step(h: nat, n: nat): nat
    requires n > 2
  {
    h % (n - 2) + 1
  }

  /** The slot `step` further on, around the table. */
  function NextSlot(idx: nat, step: nat, n: nat): nat
    requires n > 0
  {
    (idx + step) % n
  }

  // ------------------------------------------------------------------- modular facts

  lemma {:induction false} ModMultiple(x: int, n: int, k: nat)
    requires n > 0
    ensures (x + n * k) % n == x % n
    decreases k
  {
    if k > 0 {
      ModMultiple(x, n, k - 1);
      assert n * k == n * (k - 1) + n;
      AddMod(x + n * (k - 1), n);
    }
  }

  lemma ModAdd(x: nat, y: nat, n: int)
    requires n > 0
    ensures (x % n + y) % n == (x + y) % n
  {
    var q := x / n;
    assert x == n * q + x % n;
    ModMultiple(x % n + y, n, q);
  }

  lemma MulSucc(t: int, s: int)
    ensures (t + 1) * s == t * s + s
  {}

  lemma ProbeStep(h: nat, n: nat, t: nat)
    requires n > 2
    ensures NextSlot(Probe(h, n, t), Step(h, n), n) == Probe(h, n, t + 1)
  {
    var a, s := h % n, Step(h, n);
    MulSucc(t, s);
    ModAdd(a + t * s, s, n);
  }

  lemma ProbeStart(h: nat, n: nat)
    requires n > 2
    ensures Probe(h, n, 0) == h % n
  {
    assert 0 * Step(h, n) == 0;
    ModAdd(h, 0, n);
  }

  /** A prime divides no product of two smaller numbers. */
  lemma {:induction false} NoZeroDivisors(n: int, a: int, b: int)
    requires IsPrime(n) && 0 < a < n && 0 < b < n
    ensures a * b % n != 0
    decreases a
  {
    if a * b % n == 0 {
      if a > 1 {
        var q, r := n / a, n % a;
        assert n == a * q + r;
        assert !Divides(a, n);
        NoZeroDivisors(n, r, b);
        assert r * b == n * b - q * (a * b) by { assert (a * q + r) * b == q * (a * b) + r * b; }
        MultipleDifference(n, b, q, a * b);
      }
      assert false;
    }
  }

  lemma MultipleDifference(n: int, b: int, q: int, c: int)
    requires n > 0 && c % n == 0
    ensures (n * b - q * c) % n == 0
  {
    var d := c / n;
    assert c == n * d;
    assert n * b - q * c == n * (b - q * d) by { assert q * (n * d) == n * (q * d); }
    UniqueDivMod(n * b - q * c, n, b - q * d, 0);
  }

  lemma ModEqual(x: int, y: int, n: int)
    requires n > 0 && x % n == y % n
    ensures (y - x) % n == 0
  {
    var q, q' := x / n, y / n;
    assert y - x == n * (q' - q) + 0;
    UniqueDivMod(y - x, n, q' - q, 0);
  }

  /** Two different probes within one round hit different slots. */
  lemma ProbeInjective(h: nat, n: nat, s: nat, t: nat)
    requires IsPrime(n) && n > 2 && s < t < n
    ensures Probe(h, n, s) != Probe(h, n, t)
  {
    if Probe(h, n, s) == Probe(h, n, t) {
      var st := Step(h, n);
      var x, y := h % n + s * st, h % n + t * st;
      ModEqual(x, y, n);
      assert y - x == (t - s) * st;
      NoZeroDivisors(n, t - s, st);
      assert false;
    }
  }

  // ---------------------------------------------------------------------- pigeonhole

  ghost function Below(n: nat): set<nat> {
    if n == 0 then {} else Below(n - 1) + {n - 1}
  }

  lemma {:induction false} BelowSize(n: nat)
    ensures |Below(n)| == n && forall j: nat :: j in Below(n) <==> j < n
  {
    if n > 0 {
      BelowSize(n - 1);
    }
  }

  ghost predicate Distinct<T>(s: seq<T>) {
    forall i, j :: 0 <= i < j < |s| ==> s[i] != s[j]
  }

  ghost function Elems<T>(s: seq<T>): set<T> {
    set x | x in s
  }

  lemma {:induction false} DistinctSize<T>(s: seq<T>)
    requires Distinct(s)
    ensures |Elems(s)| == |s|
    decreases |s|
  {
    if s != [] {
      var k := |s| - 1;
      DistinctSize(s[..k]);
      assert Elems(s) == Elems(s[..k]) + {s[k]};
      assert s[k] !in Elems(s[..k]);
    }
  }

  lemma {:induction false} SubsetSize<T>(a: set<T>, b: set<T>)
    requires a <= b
    ensures |a| <= |b|
    ensures |a| == |b| ==> a == b
  {
    if a != {} {
      var x :| x in a;
      SubsetSize(a - {x}, b - {x});
    }
  }

  lemma DistinctCovers(s: seq<nat>, j: nat)
    requires Distinct(s) && j < |s| && forall i :: 0 <= i < |s| ==> s[i] < |s|
    ensures j in s
  {
    BelowSize(|s|);
    DistinctSize(s);
    SubsetSize(Elems(s), Below(|s|));
    assert j in Elems(s);
  }

  /** Every slot is probed within the first `n` probes. */
  lemma ProbeCovers(h: nat, n: nat, j: nat) returns (t: nat)
    requires IsPrime(n) && n > 2 && j < n
    ensures t < n && Probe(h, n, t) == j
  {
    var s := seq(n, t requires t >= 0 => Probe(h, n, t));
    forall i, k | 0 <= i < k < n ensures s[i] != s[k] {
      ProbeInjective(h, n, i, k);
    }
    DistinctCovers(s, j);
    t :| t < n && s[t] == j;
  }
}
