/**
  Products, quotients and powers of two, one step at a time.
 */
module Arith {

  lemma NonNeg(a: int, b: int)
    requires a >= 0 && b >= 0
    ensures a * b >= 0
  {
  }

  lemma MulLe(a: int, b: int, c: int)
    requires a <= b && c >= 0
    ensures a * c <= b * c
  {
    NonNeg(b - a, c);
    assert (b - a) * c == b * c - a * c;
  }

  lemma Rotate(a: int, b: int, c: int)
    ensures a * (b * c) == b * (a * c) == c * (a * b)
  {
  }

  lemma DivMod(a: int, d: int)
    requires d > 0
    ensures a == (a / d) * d + a % d && 0 <= a % d < d && (a >= 0 ==> a / d >= 0)
  {
  }

  // A quotient and a remainder in range are the quotient and the remainder.
  lemma Exact(b: int, s: int, q: int, r: int)
    requires b == q * s + r && 0 <= r < s
    ensures b / s == q && b % s == r
  {
    DivMod(b, s);
    var k, m := b / s, b % s;
    assert (k - q) * s == r - m;
    if k > q { MulLe(1, k - q, s); }
    if k < q { MulLe(k - q, -1, s); }
  }

  function Pow2(k: nat): (r: int)
    ensures r >= 1
  {
    if k == 0 then 1 else 2 * Pow2(k - 1)
  }

  lemma {:induction false} Pow2Add(a: nat, b: nat)
    ensures Pow2(a + b) == Pow2(a) * Pow2(b)
  {
    if a > 0 {
      Pow2Add(a - 1, b);
      assert (2 * Pow2(a - 1)) * Pow2(b) == 2 * (Pow2(a - 1) * Pow2(b));
    }
  }
}
