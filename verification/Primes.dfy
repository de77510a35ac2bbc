/**
 Prime and twin-prime search by a mod-30 wheel (`gu/prime.c`).
 */
module Primes {
  import opened Arith

  predicate Divides(d: int, n: int) {
    d > 0 && n % d == 0
  }

  ghost predicate IsPrime(n: int) {
    n >= 2 && forall d :: 2 <= d < n ==> !Divides(d, n)
  }

  /** The upper member of a pair of twin primes. */
  ghost predicate IsUpperTwin(n: int) {
    IsPrime(n) && IsPrime(n - 2)
  }

  /** Residues mod 30 that are coprime to 30. */
  predicate Wheel(i: int) {
    i in {1, 7, 11, 13, 17, 19, 23, 29}
  }

  predicate SmallPrime(i: int) {
    i in {2, 3, 5, 7, 11, 13, 17, 19, 23, 29, 31}
  }

  // --------------------------------------------------------------------- arithmetic

  lemma DividesProduct(d: int, k: nat)
    requires d > 0
    ensures Divides(d, d * k)
  {
    UniqueDivMod(d * k, d, k, 0);
  }

  lemma DividesTransitive(p: int, m: int, n: int)
    requires Divides(p, m) && Divides(m, n) && n >= 0
    ensures Divides(p, n)
  {
    var j, k := m / p, n / m;
    assert m == p * j && n == m * k;
    assert j >= 0 && k >= 0;
    assert n == p * (j * k) by { assert p * j * k == p * (j * k); }
    DividesProduct(p, j * k);
  }

  lemma DividesSum(d: int, a: int, b: int)
    requires Divides(d, a) && Divides(d, a + b)
    ensures Divides(d, b)
  {
    var q, q' := a / d, (a + b) / d;
    assert b == d * (q' - q) + 0;
    UniqueDivMod(b, d, q' - q, 0);
  }

  /** A composite number has a divisor at or below its square root. */
  lemma SmallDivisor(n: int) returns (m: int)
    requires n >= 2 && !IsPrime(n)
    ensures 2 <= m < n && m * m <= n && Divides(m, n)
  {
    var a :| 2 <= a < n && Divides(a, n);
    var b := Cofactor(a, n);
    if a <= b {
      m := a;
      MulMonotone(a, a, b);
    } else {
      m := b;
      MulMonotone(b, b, a);
    }
  }

  lemma Cofactor(a: int, n: int) returns (b: int)
    requires 2 <= a < n && Divides(a, n)
    ensures 2 <= b < n && a * b == n && b * a == n && Divides(b, n)
  {
    b := n / a;
    assert n == a * b;
    if b <= 1 {
      MulMonotone(a, b, 1);
    }
    MulMonotone(b, 2, a);
    DividesProduct(b, a);
  }

  /** Reducing mod 30 first does not change the residue mod a factor of 30. */
  lemma ResidueMod(n: int, p: int, m: int)
    requires p > 0 && p * m == 30
    ensures n % p == n % 30 % p
  {
    var q, r := n / 30, n % 30;
    assert p * (m * q) == 30 * q;
    assert n == p * (m * q + r / p) + r % p;
    UniqueDivMod(n, p, m * q + r / p, r % p);
  }

  lemma WheelCoprime(n: int)
    ensures Wheel(n % 30) <==> n % 2 != 0 && n % 3 != 0 && n % 5 != 0
  {
    ResidueMod(n, 2, 15);
    ResidueMod(n, 3, 10);
    ResidueMod(n, 5, 6);
    WheelTable(n % 30);
  }

  lemma WheelTable(r: int)
    requires 0 <= r < 30
    ensures Wheel(r) <==> r % 2 != 0 && r % 3 != 0 && r % 5 != 0
  {}

  lemma SameResidue(d: int, i: int)
    requires d % 30 == 0 && 0 <= i < 30
    ensures (d + i) % 30 == i && (d + 30) % 30 == 0
  {}

  /** Divisors of a number coprime to 30 are themselves on the wheel. */
  lemma DivisorOnWheel(m: int, n: int)
    requires n > 0 && Wheel(n % 30) && Divides(m, n)
    ensures Wheel(m % 30) && (m >= 2 ==> m >= 7)
  {
    WheelCoprime(n);
    WheelCoprime(m);
    forall p | p in {2, 3, 5} ensures m % p != 0 {
      if m % p == 0 {
        DividesTransitive(p, m, n);
      }
    }
  }

  lemma OffWheelComposite(n: int)
    requires n > 5 && !Wheel(n % 30)
    ensures !IsPrime(n)
  {
    WheelCoprime(n);
    assert Divides(2, n) || Divides(3, n) || Divides(5, n);
  }

  // -------------------------------------------------------------------- small primes

  lemma SmallPrimeIsPrime(n: int)
    requires 0 <= n < 32
    ensures SmallPrime(n) <==> IsPrime(n)
  {
    if SmallPrime(n) && !IsPrime(n) {
      var m := SmallDivisor(n);
      if m >= 6 {
        MulMonotone(m, 6, m);
      }
      assert false;
    }
    if !SmallPrime(n) && n >= 2 {
      assert Divides(2, n) || Divides(3, n) || Divides(5, n);
    }
  }

  // ------------------------------------------------------------ there is always a prime

  function Factorial(n: nat): nat {
    if n == 0 then 1 else n * Factorial(n - 1)
  }

  lemma {:induction false} FactorialDivides(k: int, n: nat)
    requires 1 <= k <= n
    ensures Divides(k, Factorial(n)) && Factorial(n) > 0
  {
    FactorialPositive(n);
    if k == n {
      DividesProduct(n, Factorial(n - 1));
    } else {
      FactorialDivides(k, n - 1);
      assert n * Factorial(n - 1) == Factorial(n - 1) * n;
      DividesProduct(Factorial(n - 1), n);
      DividesTransitive(k, Factorial(n - 1), Factorial(n));
    }
  }

  lemma {:induction false} FactorialPositive(n: nat)
    ensures Factorial(n) > 0
  {
    if n > 0 {
      FactorialPositive(n - 1);
      assert n * Factorial(n - 1) >= 1;
    }
  }

  lemma {:induction false} PrimeDivisor(n: int) returns (p: int)
    requires n >= 2
    ensures IsPrime(p) && Divides(p, n)
    decreases n
  {
    if IsPrime(n) {
      return n;
    }
    var m := SmallDivisor(n);
    p := PrimeDivisor(m);
    DividesTransitive(p, m, n);
  }

  /** Euclid: there is a prime at or above every number. */
  lemma PrimeAbove(n: nat) returns (p: int)
    ensures p >= n && IsPrime(p)
  {
    FactorialPositive(n);
    p := PrimeDivisor(Factorial(n) + 1);
    if p < n {
      FactorialDivides(p, n);
      DividesSum(p, Factorial(n), 1);
      assert false;
    }
  }

  // ------------------------------------------------------------------------ the tests

  /** Largest intermediate value so far. */
  ghost function Peak(a: int, b: int): int {
    if a < b then b else a
  }

  /** Every number from 7 up to `n` that could divide a number coprime to 30
      fails to divide `u`. */
  ghost predicate Tried(u: int, n: int) {
    forall c :: 7 <= c < n && Wheel(c % 30) ==> !Divides(c, u)
  }

  const LIMIT := 46320
  /** 46320 squared. */
  const LIMIT_SQUARED := 2145542400
  const INT_LIMIT := 0x8000_0000

  lemma TriedEnough(u: int, d: int)
    requires u > 30 && Wheel(u % 30) && d >= 0 && d * d > u && Tried(u, d)
    ensures IsPrime(u)
  {
    if !IsPrime(u) {
      var m := SmallDivisor(u);
      DivisorOnWheel(m, u);
      if m >= d {
        MulMonotone(d, d, m);
        MulMonotone(m, d, m);
      }
      assert false;
    }
  }

  lemma SquareBelow(d: int, u: int)
    requires d >= 0 && d % 30 == 0 && d * d <= u && u > 30
    ensures d + 29 < u
    ensures u < LIMIT_SQUARED ==> d + 30 <= LIMIT
    ensures u < INT_LIMIT ==> d <= LIMIT
  {
    if d >= 30 {
      MulMonotone(d, 30, d);
    }
    if d >= LIMIT {
      SquareAtLeast(d, LIMIT);
    }
    if d > LIMIT {
      SquareAtLeast(d, LIMIT + 30);
    }
  }

  lemma SquareAtLeast(d: int, e: int)
    requires 0 <= e <= d
    ensures d * d >= e * e
  {
    MulMonotone(e, e, d);
    MulMonotone(d, e, d);
  }

  /** Above 46320 squared the square that ends the search is no 32-bit int. */
  lemma SquareBeyond(d: int, u: int)
    requires d >= 0 && d % 30 == 0 && d * d > u >= LIMIT_SQUARED
    ensures d * d >= INT_LIMIT
  {
    if d <= LIMIT {
      SquareAtLeast(LIMIT, d);
    }
    SquareAtLeast(d, LIMIT + 30);
  }

  lemma TriedStep(u: int, d: int, i: int)
    requires d >= 0 && d % 30 == 0 && 1 <= i <= 29 && i % 2 == 1 && Tried(u, d + i)
    requires Wheel(i) ==> !Divides(d + i, u)
    ensures Tried(u, d + i + 2)
  {
    SameResidue(d, i);
    if i < 29 {
      SameResidue(d, i + 1);
      WheelTable(i + 1);
    } else {
      assert (d + i + 1) % 30 == 0;
    }
    forall c | 7 <= c < d + i + 2 && Wheel(c % 30) ensures !Divides(c, u) {
      if c == d + i {
        assert Wheel(i);
      } else if c == d + i + 1 {
        assert false;
      }
    }
  }

  /** One round of trial division, from `i` to 29 above `d`. */
  method TryRound(u: int, d: int, first: int, ghost top: int) returns (found: bool, ghost peak: int)
    requires u > 30 && d >= 0 && d % 30 == 0 && d + 29 < u
    requires first == (if d == 0 then 7 else 1) && Tried(u, d + first)
    requires 0 <= top
    ensures found ==> !IsPrime(u)
    ensures !found ==> Tried(u, d + 31)
    ensures top <= peak && (top <= LIMIT_SQUARED && d <= LIMIT ==> peak <= LIMIT_SQUARED)
  {
    var i := first;
    peak := top;
    while i <= 29
      invariant first <= i <= 31 && i % 2 == 1 && Tried(u, d + i)
      invariant top <= peak && (top <= LIMIT_SQUARED && d <= LIMIT ==> peak <= LIMIT_SQUARED)
    {
      peak := Peak(peak, d + i);
      // the number is never tested against itself
      assert 7 <= d + i < u;
      if Wheel(i) && Divides(d + i, u) {
        return true, peak;
      }
      TriedStep(u, d, i);
      i := i + 2;
    }
    found := false;
  }

  /** Everything computed so far is small, and the next divisor base is for the
      smaller arguments. */
  ghost predicate Fits(u: int, d: int, peak: int) {
    && 0 <= peak && (u < INT_LIMIT ==> peak <= LIMIT_SQUARED)
    && (u < LIMIT_SQUARED ==> d <= LIMIT)
  }

  lemma SmallSquare(d: int, peak: int)
    requires 0 <= d <= LIMIT && peak <= LIMIT_SQUARED
    ensures Peak(peak, d * d) <= LIMIT_SQUARED
  {
    SquareAtLeast(LIMIT, d);
  }

  /** Trial division by the numbers on the wheel; the first round starts at 7.
      `peak` is the largest number computed on the way: for 32-bit arguments it
      is itself one, except for the primes from 46320 squared on. */
  method IsWheelPrime(u: int) returns (prime: bool, ghost peak: int)
    requires u > 30 && u % 2 != 0 && u % 3 != 0 && u % 5 != 0
    ensures prime <==> IsPrime(u)
    ensures u < INT_LIMIT ==> (peak < INT_LIMIT <==> u < LIMIT_SQUARED || !prime)
  {
    var d := 0;
    peak := 0;
    while d * d <= u
      invariant d >= 0 && d % 30 == 0 && Tried(u, d + 1) && Tried(u, 7)
      invariant Fits(u, d, peak)
      decreases u - d
    {
      SquareBelow(d, u);
      SameResidue(d, 0);
      if u < INT_LIMIT {
        SmallSquare(d, peak);
      }
      peak := Peak(peak, d * d);
      var found;
      found, peak := TryRound(u, d, if d == 0 then 7 else 1, peak);
      if found {
        return false, peak;
      }
      d := d + 30;
    }
    if u < LIMIT_SQUARED {
      SmallSquare(d, peak);
    } else {
      SquareBeyond(d, u);
    }
    peak := Peak(peak, d * d);
    WheelCoprime(u);
    TriedEnough(u, d);
    prime := true;
  }

  method IsPrimeTest(i: int) returns (prime: bool, ghost peak: int)
    ensures prime <==> IsPrime(i)
    ensures i < INT_LIMIT ==> (peak < INT_LIMIT <==> i < LIMIT_SQUARED || !prime)
  {
    if i < 2 {
      return false, 0;
    } else if i < 30 {
      SmallPrimeIsPrime(i);
      return SmallPrime(i), 0;
    } else if !Wheel(i % 30) {
      OffWheelComposite(i);
      return false, 0;
    }
    WheelCoprime(i);
    prime, peak := IsWheelPrime(i);
  }

  method IsTwinPrime(i: int) returns (twin: bool)
    ensures twin <==> IsUpperTwin(i)
  {
    var upper, _ := IsPrimeTest(i);
    if !upper {
      return false;
    }
    var lower, _ := IsPrimeTest(i - 2);
    twin := lower;
  }

  // --------------------------------------------------------------------- the searches

  /** `x | 1` */
  function OrOne(x: nat): nat {
    if x % 2 == 0 then x + 1 else x
  }

  /** A candidate `d` whose residue mod 30 is `r` is tested only on the wheel. */
  method TestCandidate(d: int, r: int) returns (prime: bool)
    requires d >= 31 && d % 2 == 1 && r == d % 30
    ensures prime <==> IsPrime(d)
  {
    if Wheel(r) {
      WheelCoprime(d);
      var yes, _ := IsWheelPrime(d);
      prime := yes;
    } else {
      OffWheelComposite(d);
      prime := false;
    }
  }

  lemma EvenComposite(n: int)
    requires n > 2 && n % 2 == 0
    ensures !IsPrime(n)
  {
    assert Divides(2, n);
  }

  ghost predicate NoPrimeBetween(lo: int, hi: int) {
    forall q :: lo < q < hi ==> !IsPrime(q)
  }

  /** The greatest prime at or below `i`, or 0. */
  method PrimeInf(i: int) returns (p: int)
    ensures i < 2 ==> p == 0
    ensures i >= 2 ==> IsPrime(p) && p <= i
    ensures forall q :: p < q <= i ==> !IsPrime(q)
  {
    if i < 2 {
      return 0;
    } else if i < 32 {
      p := SmallPrimeInf(i);
    } else {
      p := WheelPrimeInf(i);
    }
  }

  method SmallPrimeInf(i: int) returns (p: int)
    requires 2 <= i < 32
    ensures IsPrime(p) && p <= i && NoPrimeBetween(p, i + 1)
  {
    p := i;
    while !SmallPrime(p)
      invariant 2 <= p <= i && NoPrimeBetween(p, i + 1)
      decreases p
    {
      SmallPrimeIsPrime(p);
      p := p - 1;
    }
    SmallPrimeIsPrime(p);
  }

  method WheelPrimeInf(i: int) returns (d: int)
    requires i >= 32
    ensures IsPrime(d) && d <= i && NoPrimeBetween(d, i + 1)
  {
    d := OrOne(i - 1);
    var r := d % 30;
    if d < i {
      EvenComposite(i);
    }
    var found := TestCandidate(d, r);
    while !found
      invariant 31 <= d <= i && d % 2 == 1 && r == d % 30
      invariant found <==> IsPrime(d)
      invariant NoPrimeBetween(d, i + 1)
      decreases d
    {
      StepDown(d, i, r);
      d := d - 2;
      r := r - 2;
      if r < 0 {
        r := r + 30;
      }
      found := TestCandidate(d, r);
    }
  }

  lemma StepDown(d: int, i: int, r: int)
    requires 31 <= d <= i && d % 2 == 1 && r == d % 30 && !IsPrime(d) && NoPrimeBetween(d, i + 1)
    ensures d - 2 >= 31 && (d - 2) % 2 == 1 && NoPrimeBetween(d - 2, i + 1)
    ensures (d - 2) % 30 == if r - 2 < 0 then r + 28 else r - 2
  {
    SmallPrimeIsPrime(31);
    EvenComposite(d - 1);
  }

  /** The least prime at or above `i`. */
  method PrimeSup(i: int) returns (p: int)
    ensures IsPrime(p) && p >= i
    ensures forall q :: i <= q < p ==> !IsPrime(q)
  {
    if i <= 2 {
      SmallPrimeIsPrime(2);
      return 2;
    } else if i < 32 {
      p := SmallPrimeSup(i);
    } else {
      p := WheelPrimeSup(i);
    }
  }

  method SmallPrimeSup(i: int) returns (p: int)
    requires 2 < i < 32
    ensures IsPrime(p) && p >= i && NoPrimeBetween(i - 1, p)
  {
    p := i;
    while !SmallPrime(p)
      invariant i <= p < 32 && NoPrimeBetween(i - 1, p)
      decreases 32 - p
    {
      SmallPrimeIsPrime(p);
      p := p + 1;
    }
    SmallPrimeIsPrime(p);
  }

  method WheelPrimeSup(i: int) returns (d: int)
    requires i >= 32
    ensures IsPrime(d) && d >= i && NoPrimeBetween(i - 1, d)
  {
    d := OrOne(i);
    var r := d % 30;
    if d > i {
      EvenComposite(i);
    }
    ghost var bound := PrimeAbove(d);
    var found := TestCandidate(d, r);
    while !found
      invariant i <= d <= bound && d % 2 == 1 && r == d % 30
      invariant found <==> IsPrime(d)
      invariant NoPrimeBetween(i - 1, d)
      decreases bound - d
    {
      StepUp(d, i, r, bound);
      d := d + 2;
      r := r + 2;
      if r > 30 {
        r := r - 30;
      }
      found := TestCandidate(d, r);
    }
  }

  lemma StepUp(d: int, i: int, r: int, bound: int)
    requires 32 <= i <= d <= bound && d % 2 == 1 && r == d % 30
    requires !IsPrime(d) && IsPrime(bound) && NoPrimeBetween(i - 1, d)
    ensures d + 2 <= bound && (d + 2) % 2 == 1 && NoPrimeBetween(i - 1, d + 2)
    ensures (d + 2) % 30 == if r + 2 > 30 then r - 28 else r + 2
  {
    EvenComposite(d + 1);
  }

  /** The greatest upper twin prime at or below `i`, or 0. */
  method TwinPrimeInf(i: int) returns (t: int)
    ensures t == 0 || (IsUpperTwin(t) && t <= i)
    ensures forall q :: t < q <= i ==> !IsUpperTwin(q)
  {
    t := i;
    while true
      invariant t <= i && forall q :: t < q <= i ==> !IsUpperTwin(q)
      decreases if t < 0 then 0 else t + 1
    {
      ghost var before := t;
      t := PrimeInf(t);
      if t == 0 {
        assert forall q :: 0 < q <= before ==> !IsUpperTwin(q);
        return;
      }
      var lower, _ := IsPrimeTest(t - 2);
      if lower {
        return;
      }
      SkipFour(t);
      t := t - 4;
    }
  }

  /** Below a prime whose lower neighbour is composite, the next three numbers
      are no upper twins either. */
  lemma SkipFour(t: int)
    requires IsPrime(t) && !IsPrime(t - 2)
    ensures forall q :: t - 4 < q <= t ==> !IsUpperTwin(q)
  {
    if t > 2 && t % 2 == 0 {
      EvenComposite(t);
    }
    forall q | t - 4 < q <= t ensures !IsUpperTwin(q) {
      if q > 2 && q % 2 == 0 {
        EvenComposite(q);
      } else if q <= 2 {
        assert !IsPrime(q - 2);
      }
    }
  }

  /** The least upper twin prime at or above `i`, provided there is one. */
  method TwinPrimeSup(i: int, ghost bound: int) returns (t: int)
    requires IsUpperTwin(bound) && i <= bound
    ensures IsUpperTwin(t) && i <= t <= bound
    ensures forall q :: i <= q < t ==> !IsUpperTwin(q)
  {
    if i <= 5 {
      SmallPrimeIsPrime(5);
      SmallPrimeIsPrime(3);
      FirstTwin(bound);
      forall q | q < 5 ensures !IsUpperTwin(q) {
        if IsUpperTwin(q) {
          FirstTwin(q);
        }
      }
      return 5;
    }
    var j := i - 2;
    while true
      invariant i - 2 <= j <= bound - 2 && forall q :: i <= q < j + 2 ==> !IsUpperTwin(q)
      decreases bound - j
    {
      ghost var before := j;
      j := PrimeSup(j);
      forall q | before + 2 <= q < j + 2 ensures !IsUpperTwin(q) {
        assert !IsPrime(q - 2);
      }
      assert j + 2 <= bound;
      var upper, _ := IsPrimeTest(j + 2);
      if upper {
        return j + 2;
      }
      SkipFourUp(j);
      j := j + 4;
    }
  }

  lemma FirstTwin(n: int)
    requires IsUpperTwin(n)
    ensures n >= 5
  {
    SmallPrimeIsPrime(4);
    assert n < 4 ==> !IsPrime(n - 2);
  }

  lemma SkipFourUp(j: int)
    requires j >= 4 && IsPrime(j) && !IsPrime(j + 2)
    ensures forall q :: j + 2 <= q < j + 6 ==> !IsUpperTwin(q)
  {
    if j % 2 == 0 {
      EvenComposite(j);
    }
    forall q | j + 2 <= q < j + 6 ensures !IsUpperTwin(q) {
      if q % 2 == 0 {
        EvenComposite(q);
      } else {
        assert q == j + 2 || q - 2 == j + 2;
      }
    }
  }
}
