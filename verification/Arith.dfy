/** Multiplication, division and remainder. */
module Arith {

  lemma AddMod(x: int, a: int)
    requires a > 0
    ensures (x + a) % a == x % a
  {
    var q := x / a;
    assert x == a * q + x % a;
    assert x + a == a * (q + 1) + x % a;
    UniqueDivMod(x + a, a, q + 1, x % a);
  }

  lemma MulAtLeast(a: int, k: int)
    requires a > 0 && k >= 1
    ensures a * k >= a
  {}

  lemma UniqueDivMod(x: int, a: int, q: int, r: int)
    requires a > 0 && x == a * q + r && 0 <= r < a
    ensures x / a == q && x % a == r
  {
    var q', r' := x / a, x % a;
    var k := q' - q;
    assert a * q' == a * q + a * k;
    if k >= 1 {
      MulAtLeast(a, k);
    } else if k <= -1 {
      MulAtLeast(a, -k);
    }
  }

  lemma MulMonotone(c: int, x: int, y: int)
    requires c >= 0 && x <= y
    ensures c * x <= c * y
  {}

  ghost function One(b: bool): nat {
    if b then 1 else 0
  }

  lemma Product(a: nat, b: nat)
    ensures a * b > 0 <==> a > 0 && b > 0
  {}

  lemma Reorder(a: nat, b: nat, c: nat)
    ensures a * (b * c) == b * (a * c) && a * b * c == a * (b * c) && a * b * c == a * c * b
  {}

  lemma Distribute(a: nat, b: nat, c: nat)
    ensures a * c + b * c == (a + b) * c && c * (a + b) == c * a + c * b
  {}
}
