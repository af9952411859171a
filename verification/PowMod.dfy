/**
  Exponentiation modulo the largest 64-bit prime for the Diffie-Hellman key
  exchange, computed in wrapping 64-bit arithmetic.
 */
module PowMod {

  const P: int := 0xffff_ffff_ffff_ffc5
  const W: int := 0x1_0000_0000_0000_0000
  const G: int := 5

  type Word = x: int | 0 <= x < W

  // Unsigned 64-bit addition and subtraction wrap.
  function Add64(a: Word, b: Word): Word { (a + b) % W }
  function Sub64(a: Word, b: Word): Word { (a - b) % W }

  function Pow(a: int, b: nat): int {
    if b == 0 then 1 else a * Pow(a, b - 1)
  }

  // ---------------------------------------------------------------- congruence

  lemma Quotient(x: int, m: int, k: int)
    requires x == m + P * k && 0 <= m < P
    ensures x % P == m
  {
    var q := x / P;
    assert x == P * q + x % P;
    assert P * (q - k) == m - x % P;
    assert -P < P * (q - k) < P;
    assert q == k;
  }

  ghost predicate Congruent(x: int, y: int) { x % P == y % P }

  lemma CongruentBy(x: int, y: int, k: int)
    requires x == y + P * k
    ensures Congruent(x, y)
  {
    var q := y / P;
    assert y == P * q + y % P;
    assert x == y % P + P * (q + k);
    Quotient(x, y % P, q + k);
  }

  lemma MulCongruent(a: int, b: int, c: int, d: int)
    requires Congruent(a, b) && Congruent(c, d)
    ensures Congruent(a * c, b * d)
  {
    var k, l := a / P - b / P, c / P - d / P;
    assert a == b + P * k && c == d + P * l;
    assert a * c == b * d + P * (b * l + k * d + P * k * l);
    CongruentBy(a * c, b * d, b * l + k * d + P * k * l);
  }

  lemma {:induction false} PowCongruent(a: int, b: int, n: nat)
    requires Congruent(a, b)
    ensures Congruent(Pow(a, n), Pow(b, n))
  {
    if n > 0 {
      PowCongruent(a, b, n - 1);
      MulCongruent(a, b, Pow(a, n - 1), Pow(b, n - 1));
    }
  }

  lemma {:induction false} PowAdd(a: int, m: nat, n: nat)
    ensures Pow(a, m + n) == Pow(a, m) * Pow(a, n)
  {
    if m > 0 {
      PowAdd(a, m - 1, n);
      assert Pow(a, m + n) == a * (Pow(a, m - 1) * Pow(a, n));
    }
  }

  lemma {:induction false} PowPow(a: int, m: nat, n: nat)
    ensures Pow(Pow(a, m), n) == Pow(a, m * n)
  {
    if n > 0 {
      PowPow(a, m, n - 1);
      PowAdd(a, m, m * (n - 1));
      assert m * n == m + m * (n - 1);
    }
  }

  // ---------------------------------------------------------------- the code

  // Adding modulo P without leaving 64 bits.
  function AddModP(m: Word, a: Word): (r: Word)
    requires m < P && a <= P
    ensures r < P && (r == m + a || r == m + a - P)
  {
    var t := Sub64(P, a);
    if m >= t then Sub64(m, t) else Add64(m, a)
  }

  function DoubleModP(a: Word): (r: Word)
    requires a <= P
    ensures r <= P && (r == 2 * a || r == 2 * a - P)
  {
    if a >= Sub64(P, a) then Sub64(Add64(a, a), P) else Add64(a, a)
  }

  function Product(a: int, b: int): int { (a * b) % P }

  // What is left to add: m plus a times b stands for the product.
  ghost predicate Left(total: int, m: int, a: int, b: int) { Congruent(total, m + a * b) }

  // Doubling and adding over the bits of b; a may be P itself.
  method MulModP(a0: Word, b0: Word) returns (m: Word)
    requires a0 <= P
    ensures m == Product(a0, b0) && m < P
  {
    hide AddModP, DoubleModP, Left, Product;
    var a: Word, b: Word := a0, b0;
    m := 0;
    LeftStart(a0, b0);
    while b != 0
      invariant a <= P && m < P && Left(a0 * b0, m, a, b)
      decreases b
    {
      ghost var m0, aa := m, a;
      if b % 2 == 1 {
        m := AddModP(m, a);
      }
      a := DoubleModP(a);
      LeftStep(a0 * b0, m0, m, aa, a, b);
      b := b / 2;
    }
    LeftEnd(a0, b0, m, a);
  }

  lemma LeftStart(a: int, b: int)
    ensures Left(a * b, 0, a, b)
  {
  }

  lemma LeftEnd(a0: int, b0: int, m: int, a: int)
    requires Left(a0 * b0, m, a, 0) && 0 <= m < P
    ensures m == Product(a0, b0)
  {
    assert a * 0 == 0;
    Quotient(m, m, 0);
  }

  lemma LeftStep(total: int, m0: int, m: int, a0: int, a: int, b: nat)
    requires Left(total, m0, a0, b)
    requires b % 2 == 0 ==> m == m0
    requires b % 2 == 1 ==> m == m0 + a0 || m == m0 + a0 - P
    requires a == 2 * a0 || a == 2 * a0 - P
    ensures Left(total, m, a, b / 2)
  {
    var x := if b % 2 == 1 && m != m0 + a0 then 1 else 0;
    var y := if a == 2 * a0 then 0 else 1;
    Halve(m0, m, a0, a, b, x, y);
    CongruentBy(m0 + a0 * b, m + a * (b / 2), x + y * (b / 2));
  }

  lemma Halve(m0: int, m: int, a0: int, a: int, b: nat, x: int, y: int)
    requires m == m0 + (if b % 2 == 1 then a0 else 0) - P * x && a == 2 * a0 - P * y
    ensures m0 + a0 * b == m + a * (b / 2) + P * (x + y * (b / 2))
  {
    var h := b / 2;
    if b % 2 == 1 { assert b == 2 * h + 1; Distribute(a0, h, 1); } else { assert b == 2 * h; Distribute(a0, h, 0); }
    DistributeP(a0, y, h);
  }

  lemma Distribute(a: int, h: int, r: int)
    ensures a * (2 * h + r) == 2 * (a * h) + a * r
  {
  }

  lemma DistributeP(a: int, y: int, h: int)
    ensures (2 * a - P * y) * h == 2 * (a * h) - P * (y * h)
  {
  }

  // Square and multiply; the exponent 1 returns the base as it is.
  method PowModP(a: Word, b: Word) returns (r: Word)
    requires a <= P && b >= 1
    ensures Congruent(r, Pow(a, b)) && r <= P
    ensures if b == 1 then r == a else r < P
    decreases b
  {
    hide Pow, Congruent, Product;
    PowOne(a);
    if b == 1 {
      SameCongruent(a);
      return a;
    }
    var t := PowModP(a, b / 2);
    var u := MulModP(t, t);
    Squared(t, u, a, b / 2);
    r := u;
    if b % 2 == 1 {
      r := MulModP(u, a);
      Multiplied(u, r, a, 2 * (b / 2));
    }
    assert b == 2 * (b / 2) + b % 2;
  }

  lemma PowOne(a: int)
    ensures Pow(a, 1) == a
  {
    assert Pow(a, 1) == a * Pow(a, 0);
  }

  lemma SameCongruent(a: int)
    ensures Congruent(a, a)
  {
  }

  lemma Squared(t: int, u: int, a: int, h: nat)
    requires Congruent(t, Pow(a, h)) && u == Product(t, t)
    ensures Congruent(u, Pow(a, 2 * h))
  {
    MulCongruent(t, Pow(a, h), t, Pow(a, h));
    PowAdd(a, h, h);
    Reduced(t * t);
  }

  lemma Multiplied(u: int, r: int, a: int, n: nat)
    requires Congruent(u, Pow(a, n)) && r == Product(u, a)
    ensures Congruent(r, Pow(a, n + 1))
  {
    MulCongruent(u, Pow(a, n), a, a);
    PowAdd(a, n, 1);
    PowOne(a);
    Reduced(u * a);
  }

  lemma Reduced(x: int)
    ensures Congruent(x % P, x) && 0 <= x % P < P
  {
    Quotient(x % P, x % P, 0);
  }

  // a^b mod P for every 64-bit base and nonzero exponent, with one exception:
  // the base P raised to 1 comes back as P instead of 0.
  method Powmodp(a: Word, b: Word) returns (r: Word)
    requires b >= 1
    ensures r == Pow(a, b) % P <==> !(a == P && b == 1)
    ensures Congruent(r, Pow(a, b)) && r <= P
    ensures a == P && b == 1 ==> r == P
  {
    var base := a;
    if base > P {
      base := base % P;
    }
    Reduced(a);
    PowCongruent(base, a, b);
    r := PowModP(base, b);
    if r < P {
      Quotient(r, r, 0);
    } else {
      Quotient(P, 0, 1);
    }
    if a != P && b == 1 { assert base < P; }
  }

  // ---------------------------------------------------------------- the key exchange

  datatype Result = Value(v: Word) | Error

  method DhExchange(x: Word) returns (r: Result)
    ensures if x == 0 then r == Error else r == Value(Pow(G, x) % P)
  {
    if x == 0 {
      return Error;
    }
    var v := Powmodp(G, x);
    r := Value(v);
  }

  method DhSecret(x: Word, y: Word) returns (r: Result)
    ensures (r == Error) == (x == 0 || y == 0)
    ensures x != 0 && y != 0 && !(x == P && y == 1) ==> r == Value(Pow(x, y) % P)
    ensures x == P && y == 1 ==> r == Value(P)
  {
    if x == 0 || y == 0 {
      return Error;
    }
    var v := Powmodp(x, y);
    r := Value(v);
  }

  lemma SharedSecret(x: nat, y: nat)
    ensures Pow(Pow(G, x) % P, y) % P == Pow(Pow(G, y) % P, x) % P == Pow(G, x * y) % P
  {
    SecretIs(x, y);
    SecretIs(y, x);
    assert x * y == y * x;
  }

  lemma SecretIs(x: nat, y: nat)
    ensures Pow(Pow(G, x) % P, y) % P == Pow(G, x * y) % P
  {
    Reduced(Pow(G, x));
    PowCongruent(Pow(G, x) % P, Pow(G, x), y);
    PowPow(G, x, y);
  }

  // 5 has an inverse modulo P, so no power of it vanishes.
  lemma PublicNonZero(x: nat)
    ensures Pow(G, x) % P != 0
  {
    var inv := (1 + 2 * P) / 5;
    assert G * inv == 1 + P * 2;
    CongruentBy(G * inv, 1, 2);
    PowCongruent(G * inv, 1, x);
    PowProduct(G, inv, x);
    PowUnit(x);
    ZeroProduct(Pow(G, x), Pow(inv, x));
  }

  lemma ZeroProduct(a: int, b: int)
    requires Congruent(a * b, 1)
    ensures a % P != 0
  {
    Quotient(1, 1, 0);
    Quotient(0, 0, 0);
    if Congruent(a, 0) {
      MulCongruent(a, 0, b, b);
      assert false;
    }
  }

  lemma {:induction false} PowProduct(a: int, b: int, n: nat)
    ensures Pow(a * b, n) == Pow(a, n) * Pow(b, n)
  {
    if n > 0 {
      PowProduct(a, b, n - 1);
      Exchange(a, b, Pow(a, n - 1), Pow(b, n - 1));
    }
  }

  lemma Exchange(a: int, b: int, c: int, d: int)
    ensures (a * b) * (c * d) == (a * c) * (b * d)
  {
    assert (a * b) * (c * d) == a * (b * c) * d;
    assert b * c == c * b;
  }

  lemma {:induction false} PowUnit(n: nat)
    ensures Pow(1, n) == 1
  {
    if n > 0 { PowUnit(n - 1); }
  }

  // Both sides of an exchange arrive at the same secret.
  method Agree(x: Word, y: Word) returns (mine: Result, theirs: Result)
    requires x != 0 && y != 0
    ensures mine == theirs == Value(Pow(G, x * y) % P)
  {
    hide Pow;
    var a := DhExchange(x);
    var b := DhExchange(y);
    SharedSecret(x, y);
    PublicNonZero(x);
    PublicNonZero(y);
    Reduced(Pow(G, x));
    Reduced(Pow(G, y));
    mine := DhSecret(b.v, x);
    theirs := DhSecret(a.v, y);
  }
}
