/**
  Multiple-precision natural numbers as little-endian arrays of 32-bit words:
  the arithmetic kernel of the number formatter.
 */
module Bignum {
  import opened Arith

  const B: int := 0x1_0000_0000

  type Word = x: int | 0 <= x < 0x1_0000_0000

  // B to the n.
  function BP(n: nat): (r: int)
    ensures r >= 1
  {
    if n == 0 then 1 else B * BP(n - 1)
  }

  function Val(s: seq<Word>): (r: int)
    ensures r >= 0
  {
    if s == [] then 0 else Val(s[..|s| - 1]) + s[|s| - 1] * BP(|s| - 1)
  }

  lemma ValSnoc(s: seq<Word>, d: Word)
    ensures Val(s + [d]) == Val(s) + d * BP(|s|)
  {
    assert (s + [d])[..|s|] == s;
  }

  lemma ValPrefix(s: seq<Word>, i: nat)
    requires i < |s|
    ensures Val(s[..i + 1]) == Val(s[..i]) + s[i] * BP(i)
  {
    assert s[..i + 1] == s[..i] + [s[i]];
    ValSnoc(s[..i], s[i]);
  }

  lemma {:induction false} ValBound(s: seq<Word>)
    ensures Val(s) < BP(|s|)
  {
    if s != [] {
      ValBound(s[..|s| - 1]);
      Carry(s[|s| - 1], BP(|s| - 1));
    }
  }

  lemma Carry(d: int, p: int)
    requires d < B && p >= 0
    ensures d * p + p <= B * p
  {
    MulLe(d + 1, B, p);
    assert (d + 1) * p == d * p + p;
  }

  lemma {:induction false} ValZeros(s: seq<Word>)
    requires forall i :: 0 <= i < |s| ==> s[i] == 0
    ensures Val(s) == 0
  {
    if s != [] { ValZeros(s[..|s| - 1]); }
  }

  // Zero words at the top do not count.
  lemma {:induction false} ValTrim(s: seq<Word>, n: nat)
    requires n <= |s| && forall i :: n <= i < |s| ==> s[i] == 0
    ensures Val(s) == Val(s[..n])
    decreases |s|
  {
    if n < |s| {
      ValTrim(s[..|s| - 1], n);
      assert s[..|s| - 1][..n] == s[..n];
    } else {
      assert s[..n] == s;
    }
  }

  // A nonzero word gives at least its place value.
  lemma {:induction false} ValAtLeast(s: seq<Word>, i: nat)
    requires i < |s| && s[i] > 0
    ensures Val(s) >= BP(i)
    decreases |s|
  {
    var n := |s| - 1;
    if i == n {
      MulLe(1, s[n], BP(n));
    } else {
      ValAtLeast(s[..n], i);
      NonNeg(s[n], BP(n));
    }
  }

  lemma {:induction false} BPMono(m: nat, n: nat)
    requires m <= n
    ensures BP(m) <= BP(n)
  {
    if m < n {
      BPMono(m, n - 1);
    }
  }

  // ---------------------------------------------------------------- the class

  class Bigint {
    var x: array<Word>
    var wds: nat

    // The top word counts unless the number has one word; no words at all
    // stand for zero, and then the first word is zero too.
    ghost predicate Valid()
      reads this, x
    {
      && wds <= x.Length && x.Length >= 1
      && (wds >= 2 ==> x[wds - 1] != 0)
      && (wds == 0 ==> x[0] == 0)
    }

    ghost function Value(): (v: int)
      reads this, x
      requires wds <= x.Length
    {
      Val(x[..wds])
    }

    constructor (i: Word)
      ensures Valid() && fresh(x) && Value() == i && wds == 1
    {
      x := new Word[2](_ => 0);
      wds := 1;
      new;
      x[0] := i;
      assert x[..1] == [] + [i];
      ValSnoc([], i);
    }

    // Multiplies by m and adds a, growing by one word when it must. A number
    // without words has no room for a.
    method MultAdd(m: Word, a: Word)
      requires Valid()
      modifies this, x
      ensures wds <= x.Length && x.Length >= 1 && (x == old(x) || fresh(x)) && old(wds) <= wds <= old(wds) + 1
      ensures Value() == m * old(Value()) + a <==> old(wds) > 0 || a == 0
      ensures (m > 0 || old(wds) <= 1) && (old(wds) > 0 || a == 0) ==> Valid()
    {
      hide Val, BP;
      var n := if wds == 0 then 1 else wds;
      ZeroWord(x[..1]);
      var carry := MulWords(x, n, m, a);
      if wds == 0 { ZeroKept(x[..1], carry, m, a); }
      if carry != 0 {
        ghost var w := x[..wds];
        if wds >= x.Length {
          Grow();
        }
        x[wds] := carry;
        assert x[..wds + 1] == w + [carry];
        ValSnoc(w, carry);
        wds := wds + 1;
      } else {
        MulZero(BP(n));
      }
    }

    method Grow()
      requires wds <= x.Length && x.Length >= 1
      modifies this`x
      ensures fresh(x) && x.Length == 2 * old(x.Length) && x[..wds] == old(x[..wds])
    {
      var bigger := new Word[2 * x.Length](_ => 0);
      for i := 0 to wds
        invariant bigger[..i] == x[..i]
        modifies bigger
      {
        bigger[i] := x[i];
      }
      x := bigger;
    }
  }

  lemma MulZero(p: int)
    ensures 0 * p == 0
  {
  }

  // A number without words has the value of its first word, zero.
  lemma ZeroWord(s: seq<Word>)
    requires |s| == 1
    ensures Val([]) == 0 && (s[0] == 0 ==> Val(s) == 0)
  {
    if s[0] == 0 { ValZeros(s); }
  }

  lemma ZeroKept(s: seq<Word>, carry: Word, m: Word, a: Word)
    requires |s| == 1 && Val(s) + carry * BP(1) == m * 0 + a
    ensures s[0] == a && carry == 0
  {
    NonNeg(carry, BP(1));
    assert s == [] + [s[0]];
    ValSnoc([], s[0]);
    if carry > 0 { MulLe(1, carry, BP(1)); }
  }

  // ---------------------------------------------------------------- one word at a time

  lemma MulBound(x: Word, m: Word, c: Word)
    ensures 0 <= x * m + c < B * B
  {
    NonNeg(x, m);
    MulLe(x, B - 1, m);
    MulLe(m, B - 1, B - 1);
    assert (B - 1) * m == m * (B - 1);
  }

  // One word of a product with carry.
  lemma MulStep(vo: int, vi: int, o: int, c': int, xi: int, m: int, c: int, p: int, a: int)
    requires vo + c * p == m * vi + a && o + B * c' == xi * m + c
    ensures (vo + o * p) + c' * (B * p) == m * (vi + xi * p) + a
  {
    assert (o + B * c') * p == o * p + c' * (B * p);
    assert (xi * m + c) * p == m * (xi * p) + c * p;
    assert m * (vi + xi * p) == m * vi + m * (xi * p);
  }

  // x[..n] := m * x[..n] + a, with the word that does not fit returned.
  method MulWords(x: array<Word>, n: nat, m: Word, a: Word) returns (carry: Word)
    requires 1 <= n <= x.Length
    modifies x
    ensures Val(x[..n]) + carry * BP(n) == m * old(Val(x[..n])) + a
    ensures x[n..] == old(x[n..])
    ensures m > 0 && old(x[n - 1]) != 0 && carry == 0 ==> x[n - 1] != 0
  {
    hide Val, BP;
    ghost var s := x[..];
    carry := a;
    var i := 0;
    MulStart(m, a);
    while i < n
      invariant 0 <= i <= n && |s| == x.Length && x[i..] == s[i..]
      invariant Val(x[..i]) + carry * BP(i) == m * Val(s[..i]) + a
      invariant m > 0 && i > 0 && s[i - 1] != 0 && carry == 0 ==> x[i - 1] != 0
    {
      ghost var c, t := carry, x[..];
      assert x[i] == t[i] == s[i];
      MulBound(x[i], m, carry);
      var y := x[i] * m + carry;
      carry := y / B;
      x[i] := y % B;
      assert x[..i] == t[..i] && x[i + 1..] == s[i + 1..];
      MulNext(x[..], s, i, carry, m, c, a);
      if m > 0 && s[i] != 0 && carry == 0 { MulLe(1, s[i], m); }
      i := i + 1;
    }
    assert s[..n] == old(x[..n]);
  }

  lemma MulStart(m: int, a: int)
    ensures Val([]) + a * BP(0) == m * Val([]) + a
  {
  }

  lemma MulNext(t: seq<Word>, s: seq<Word>, i: nat, carry: Word, m: Word, c: Word, a: Word)
    requires i < |s| == |t| && t[i] + B * carry == s[i] * m + c
    requires Val(t[..i]) + c * BP(i) == m * Val(s[..i]) + a
    ensures Val(t[..i + 1]) + carry * BP(i + 1) == m * Val(s[..i + 1]) + a
  {
    ValPrefix(t, i);
    ValPrefix(s, i);
    MulStep(Val(t[..i]), Val(s[..i]), t[i], carry, s[i], m, c, BP(i), a);
  }

  // ---------------------------------------------------------------- comparison

  lemma {:induction false} Above(s: seq<Word>, t: seq<Word>, i: nat)
    requires i < |s| == |t| && s[i] < t[i] && forall j :: i < j < |s| ==> s[j] == t[j]
    ensures Val(s) < Val(t)
    decreases |s|
  {
    var n := |s| - 1;
    if i == n {
      ValBound(s[..n]);
      MulLe(s[n] + 1, t[n], BP(n));
      assert (s[n] + 1) * BP(n) == s[n] * BP(n) + BP(n);
    } else {
      Above(s[..n], t[..n], i);
    }
  }

  // A number with fewer words is smaller than one whose top word counts.
  lemma Shorter(s: seq<Word>, t: seq<Word>)
    requires |s| < |t| && t[|t| - 1] != 0
    ensures Val(s) < Val(t)
  {
    ValBound(s);
    ValAtLeast(t, |t| - 1);
    BPMono(|s|, |t| - 1);
  }

  // Negative, zero or positive as a is below, equal to or above b. Only zero
  // with a word and zero without one are told apart.
  method Cmp(a: Bigint, b: Bigint) returns (r: int)
    requires a.Valid() && b.Valid()
    ensures a.Value() > 0 || b.Value() > 0 || a.wds == b.wds ==> (r < 0 <==> a.Value() < b.Value()) && (r == 0 <==> a.Value() == b.Value())
    ensures a.wds != b.wds ==> r == a.wds - b.wds
  {
    hide Val, BP;
    ghost var s, t := a.x[..a.wds], b.x[..b.wds];
    r := a.wds - b.wds;
    if r != 0 {
      if r < 0 { Fewer(s, t); } else { Fewer(t, s); }
      return;
    }
    var i := a.wds;
    while i > 0
      invariant 0 <= i <= |s| && forall j :: i <= j < |s| ==> s[j] == t[j]
    {
      i := i - 1;
      if a.x[i] != b.x[i] {
        if a.x[i] < b.x[i] { Above(s, t, i); } else { Above(t, s, i); }
        return if a.x[i] < b.x[i] then -1 else 1;
      }
    }
    assert s == t;
    r := 0;
  }

  lemma Fewer(s: seq<Word>, t: seq<Word>)
    requires |s| < |t| && (|t| >= 2 ==> t[|t| - 1] != 0)
    ensures Val(s) < Val(t) || (Val(s) == 0 && Val(t) == 0)
  {
    if t[|t| - 1] != 0 { Shorter(s, t); } else { ZeroWord(t); }
  }

  // ---------------------------------------------------------------- subtraction

  // A word of a 64-bit difference and the borrow read off its bit 32.
  function Difference(x: int): (r: (Word, int))
    requires -B <= x < B
    ensures r.0 == x + B * r.1 && (r.1 == 0 || r.1 == 1)
  {
    var y := x % 0x1_0000_0000_0000_0000;
    (y % B, (y / B) % 2)
  }

  lemma SubStep(vo: int, vb: int, vs: int, o: int, bi: int, si: int, q: int, c: int, c': int, d: int, d': int, p: int)
    requires vo == vb - q * vs + (c + d) * p
    requires o == bi - (si * q + c - B * c') - d + B * d'
    ensures vo + o * p == (vb + bi * p) - q * (vs + si * p) + (c' + d') * (B * p)
  {
    assert o == bi - si * q - c - d + B * (c' + d');
    Spread(bi, si * q, c + d, c' + d', p);
    assert (si * q) * p == q * (si * p);
    assert q * (vs + si * p) == q * vs + q * (si * p);
  }

  lemma Spread(a: int, b: int, c: int, d: int, p: int)
    ensures (a - b - c + B * d) * p == a * p - b * p - c * p + d * (B * p)
  {
  }

  lemma SubNext(t: seq<Word>, b: seq<Word>, s: seq<Word>, i: nat, q: int, c: int, c': int, d: int, d': int)
    requires i < |s| && i < |t| == |b|
    requires Val(t[..i]) == Val(b[..i]) - q * Val(s[..i]) + (c + d) * BP(i)
    requires t[i] == b[i] - (s[i] * q + c - B * c') - d + B * d'
    ensures Val(t[..i + 1]) == Val(b[..i + 1]) - q * Val(s[..i + 1]) + (c' + d') * BP(i + 1)
  {
    ValPrefix(t, i);
    ValPrefix(b, i);
    ValPrefix(s, i);
    SubStep(Val(t[..i]), Val(b[..i]), Val(s[..i]), t[i], b[i], s[i], q, c, c', d, d', BP(i));
  }

  lemma SubEnd(v: int, w: int, k: int, p: int)
    requires v == w + k * p && 0 <= v < p && 0 <= w < p
    ensures k == 0
  {
    if k > 0 { MulLe(1, k, p); }
    if k < 0 { MulLe(k, -1, p); }
  }

  // b[..n] := b[..n] - q * s[..n], which does not go below zero.
  method SubMulWords(b: array<Word>, s: array<Word>, n: nat, q: Word)
    requires b != s && n <= b.Length && n <= s.Length && q * Val(s[..n]) <= Val(b[..n])
    modifies b
    ensures Val(b[..n]) == old(Val(b[..n])) - q * Val(s[..n]) && b[n..] == old(b[n..])
  {
    hide Val, BP;
    ghost var b0 := b[..];
    var carry: Word, borrow := 0, 0;
    var i := 0;
    SubStart(q);
    while i < n
      invariant 0 <= i <= n && (borrow == 0 || borrow == 1) && |b0| == b.Length && b[i..] == b0[i..]
      invariant Val(b[..i]) == Val(b0[..i]) - q * Val(s[..i]) + (carry + borrow) * BP(i)
    {
      ghost var c, d, t := carry, borrow, b[..];
      assert b[i] == t[i] == b0[i];
      MulBound(s[i], q, carry);
      var ys := s[i] * q + carry;
      carry := ys / B;
      var y := Difference(b[i] - ys % B - borrow);
      borrow := y.1;
      b[i] := y.0;
      assert b[..i] == t[..i] && b[i + 1..] == b0[i + 1..];
      assert b[..][..i] == b[..i] && b[..][..i + 1] == b[..i + 1] && s[..][..i] == s[..i] && s[..][..i + 1] == s[..i + 1];
      SubNext(b[..], b0, s[..], i, q, c, carry, d, borrow);
      i := i + 1;
    }
    assert b0[..n] == old(b[..n]);
    ValBound(b[..n]);
    ValBound(b0[..n]);
    NonNeg(q, Val(s[..n]));
    SubEnd(Val(b[..n]), Val(b0[..n]) - q * Val(s[..n]), carry + borrow, BP(n));
    MulZero(BP(n));
  }

  lemma SubStart(q: int)
    ensures Val([]) == Val([]) - q * Val([]) + (0 + 0) * BP(0)
  {
  }

  // ---------------------------------------------------------------- one-correction division

  lemma ValTop(s: seq<Word>)
    requires s != []
    ensures var n := |s| - 1; s[n] * BP(n) <= Val(s) < (s[n] + 1) * BP(n)
  {
    var n := |s| - 1;
    ValBound(s[..n]);
    assert (s[n] + 1) * BP(n) == s[n] * BP(n) + BP(n);
  }

  // The quotient of the top words is the quotient or one less, when the
  // divisor's top word has four leading zero bits and the quotient is a digit.
  lemma Estimate(b: int, s: int, bt: int, st: int, p: int)
    requires 0 <= bt && 10 <= st && p > 0 && bt * p <= b < (bt + 1) * p && st * p <= s < (st + 1) * p && b < 10 * s
    ensures var q := bt / (st + 1); 0 <= q <= 9 && q * s <= b < (q + 2) * s
  {
    var q := bt / (st + 1);
    var r := bt % (st + 1);
    DivMod(bt, st + 1);
    NotAbove(b, s, bt, st, p, q, r);
    if q >= 10 { MulLe(10, q, s); }
    NotTwoBelow(b, s, bt, st, p, q, r);
  }

  lemma NotAbove(b: int, s: int, bt: int, st: int, p: int, q: int, r: int)
    requires bt == q * (st + 1) + r && 0 <= r && q >= 0 && p > 0 && bt * p <= b && s < (st + 1) * p
    ensures q * s <= b
  {
    MulLe(s, (st + 1) * p, q);
    Rotate(q, st + 1, p);
    Rotate(p, q, st + 1);
    MulLe(q * (st + 1), bt, p);
  }

  lemma NotTwoBelow(b: int, s: int, bt: int, st: int, p: int, q: int, r: int)
    requires bt == q * (st + 1) + r && r <= st && 0 <= q <= 9 && 10 <= st && p > 0 && b < (bt + 1) * p && st * p <= s
    ensures b < (q + 2) * s
  {
    MulLe(st * p, s, q + 2);
    Rotate(q + 2, st, p);
    Rotate(p, q + 2, st);
    assert (q + 2) * st == q * st + 2 * st && q * (st + 1) == q * st + q;
    MulLe(bt + 1, (q + 2) * st, p);
  }

  // Sets the word count after a subtraction that left the top words zero.
  method Trim(b: Bigint, top: nat)
    requires top < b.x.Length && b.wds == top + 1
    modifies b`wds
    ensures b.Valid() && b.Value() == old(b.Value()) && b.wds <= top + 1
  {
    hide Val, BP;
    if b.x[top] == 0 {
      var n, e := top, top - 1;
      while e > 0 && b.x[e] == 0
        invariant e < n <= top && (top == 0 ==> n == 0 && e == -1) && (top > 0 ==> n == e + 1 && e >= 0)
        invariant forall i :: n <= i <= top ==> b.x[i] == 0
        decreases e
      {
        n := n - 1;
        e := e - 1;
      }
      ValTrim(b.x[..top + 1], n);
      assert b.x[..top + 1][..n] == b.x[..n];
      b.wds := n;
    }
  }

  // Divides b by a divisor whose top word has exactly four leading zero bits,
  // when the quotient is below 10; the remainder stays in b.
  method QuoRem(b: Bigint, s: Bigint) returns (q: Word)
    requires b.Valid() && s.Valid() && b != s && b.x != s.x
    requires s.wds >= 1 && 0x800_0000 <= s.x[s.wds - 1] < 0x1000_0000
    requires b.Value() < 10 * s.Value()
    modifies b`wds, b.x
    ensures b.Valid() && s.Value() > 0
    ensures q == old(b.Value()) / s.Value() && b.Value() == old(b.Value()) % s.Value()
  {
    hide Val, BP;
    var n := s.wds;
    ghost var v, w := b.Value(), s.Value();
    Fits(b.x[..b.wds], s.x[..n]);
    if b.wds < n {
      Shorter(b.x[..b.wds], s.x[..n]);
      Exact(v, w, 0, v);
      return 0;
    }
    var top := n - 1;
    ValTop(b.x[..n]);
    ValTop(s.x[..n]);
    Estimate(v, w, b.x[top], s.x[top], BP(top));
    q := b.x[top] / (s.x[top] + 1);
    ghost var q0 := q;
    if q != 0 {
      SubMulWords(b.x, s.x, n, q);
      Trim(b, top);
    }
    Twice(v, w, q0, b.Value());
    var c := Cmp(b, s);
    if c >= 0 {
      q := q + 1;
      Unit(w);
      LongEnough(b, s);
      SubMulWords(b.x, s.x, n, 1);
      Trim(b, top);
    }
    Exact(v, w, q, b.Value());
  }

  lemma Fits(b: seq<Word>, s: seq<Word>)
    requires s != [] && 0 < s[|s| - 1] < 0x1000_0000 && Val(b) < 10 * Val(s) && (|b| >= 2 ==> b[|b| - 1] != 0)
    ensures |b| <= |s| && Val(s) > 0
  {
    ValTop(s);
    ValAtLeast(s, |s| - 1);
    var p := BP(|s| - 1);
    MulLe(s[|s| - 1] + 1, 0x1000_0000, p);
    assert BP(|s|) == B * p;
    if |b| > |s| {
      ValAtLeast(b, |b| - 1);
      BPMono(|s|, |b| - 1);
    }
  }

  lemma Twice(v: int, w: int, q: int, r: int)
    requires r == v - q * w && v < (q + 2) * w
    ensures v == q * w + r && r < 2 * w && v == (q + 1) * w + (r - w)
  {
    assert (q + 2) * w == q * w + 2 * w && (q + 1) * w == q * w + w;
  }

  lemma Unit(w: int)
    ensures 1 * w == w
  {
  }

  // Only a number as long as the divisor can reach it.
  lemma LongEnough(b: Bigint, s: Bigint)
    requires b.Valid() && s.Valid() && s.wds >= 1 && s.x[s.wds - 1] != 0 && b.Value() >= s.Value()
    ensures b.wds >= s.wds
  {
    if b.wds < s.wds { Shorter(b.x[..b.wds], s.x[..s.wds]); }
  }

  // ---------------------------------------------------------------- shifting

  lemma Pow2Word()
    ensures Pow2(32) == B
  {
    assert Pow2(8) == 0x100;
    Pow2Add(8, 8);
    Pow2Add(16, 16);
  }

  lemma {:induction false} Pow2Words(n: nat)
    ensures Pow2(32 * n) == BP(n)
  {
    if n > 0 {
      Pow2Words(n - 1);
      Pow2Add(32, 32 * (n - 1));
      Pow2Word();
    }
  }

  lemma {:induction false} ValLow(z: seq<Word>, s: seq<Word>)
    requires forall i :: 0 <= i < |z| ==> z[i] == 0
    ensures Val(z + s) == BP(|z|) * Val(s)
  {
    if s == [] {
      assert z + s == z;
      ValZeros(z);
    } else {
      var n := |s| - 1;
      ValLow(z, s[..n]);
      assert (z + s)[..|z| + n] == z + s[..n];
      BPAdd(|z|, n);
      Distribute(BP(|z|), Val(s[..n]), s[n], BP(n));
    }
  }

  lemma Distribute(p: int, v: int, d: int, q: int)
    ensures p * (v + d * q) == p * v + d * (p * q)
  {
    assert p * (v + d * q) == p * v + p * (d * q);
    Rotate(p, d, q);
  }

  lemma {:induction false} BPAdd(a: nat, b: nat)
    ensures BP(a + b) == BP(a) * BP(b)
  {
    if a > 0 {
      BPAdd(a - 1, b);
      assert (B * BP(a - 1)) * BP(b) == B * (BP(a - 1) * BP(b));
    }
  }

  // The bits a word keeps and the bits it passes on when shifted.
  lemma ShiftWord(x: Word, m: int, h: int, z: int)
    requires m > 0 && h > 0 && m * h == B && 0 <= z < m
    ensures var lo := (x * m) % B; lo + z < B && lo + B * (x / h) == x * m && 0 <= x / h < m
  {
    DivMod(x, h);
    var q, l := x / h, x % h;
    assert x * m == (q * h) * m + l * m;
    assert (q * h) * m == q * (m * h);
    MulLe(l + 1, h, m);
    assert (l + 1) * m == l * m + m && h * m == m * h;
    NonNeg(l, m);
    Exact(x * m, B, q, l * m);
    if q >= m { MulLe(m, q, h); }
  }

  // dst[n..n + wds] := m * src[..wds], with the bits that do not fit returned.
  method ShiftWords(dst: array<Word>, n: nat, src: array<Word>, wds: nat, m: int) returns (z: Word)
    requires dst != src && n + wds <= dst.Length && 1 <= wds <= src.Length && m > 0 && B / m * m == B && B / m > 0
    modifies dst
    ensures dst[..n] == old(dst[..n]) && dst[n + wds..] == old(dst[n + wds..])
    ensures Val(dst[n..n + wds]) + z * BP(wds) == m * Val(src[..wds]) + 0
    ensures src[wds - 1] != 0 && z == 0 ==> dst[n + wds - 1] != 0
  {
    hide Val, BP;
    z := 0;
    MulStart(m, 0);
    assert dst[n..n] == [] && src[..0] == [];
    var i := 0;
    while i < wds
      invariant 0 <= i <= wds && z < m
      invariant dst[..n] == old(dst[..n]) && dst[n + wds..] == old(dst[n + wds..])
      invariant Val(dst[n..n + i]) + z * BP(i) == m * Val(src[..i]) + 0
      invariant i > 0 && src[i - 1] != 0 && z == 0 ==> dst[n + i - 1] != 0
    {
      ghost var t, c := dst[n..n + i], z;
      ShiftWord(src[i], m, B / m, z);
      dst[n + i] := (src[i] * m) % B + z;
      z := src[i] / (B / m);
      assert dst[n..n + i] == t && dst[n..n + i + 1] == t + [dst[n + i]];
      assert src[..][..i] == src[..i] && src[..][..i + 1] == src[..i + 1];
      ShiftNext(t, dst[n + i], src[..], i, z, m, c);
      if src[i] != 0 && z == 0 { MulLe(1, src[i], m); }
      i := i + 1;
    }
  }

  // A new number, k bits to the left of b.
  method Lshift(b: Bigint, k: nat) returns (r: Bigint)
    requires b.Valid() && b.Value() > 0
    ensures fresh(r) && fresh(r.x) && r.Valid() && r.Value() == b.Value() * Pow2(k)
  {
    hide Val, BP, Pow2;
    var n := k / 32;
    NoWords();
    r := new Bigint(0);
    r.x := new Word[n + b.wds + 1](_ => 0);
    var m := Pow2(k % 32);
    Pow2Divides(k % 32);
    var z := ShiftWords(r.x, n, b.x, b.wds, m);
    r.wds := n + b.wds;
    ghost var full := r.x[..r.wds];
    assert full[..n] == r.x[..n] && full[n..] == r.x[n..n + b.wds];
    Shifted(full, n, z, b.x[..b.wds], m, k);
    if z != 0 {
      r.x[r.wds] := z;
      r.wds := r.wds + 1;
      assert r.x[..r.wds] == full + [z];
    }
  }

  lemma Shifted(full: seq<Word>, n: nat, z: Word, s: seq<Word>, m: int, k: nat)
    requires s != [] && |full| == n + |s| && (forall i :: 0 <= i < n ==> full[i] == 0) && Val(s) > 0
    requires Val(full[n..]) + z * BP(|s|) == m * Val(s) + 0 && n == k / 32 && m == Pow2(k % 32)
    ensures Val(full + [z]) == Val(s) * Pow2(k)
    ensures z == 0 ==> Val(full) == Val(s) * Pow2(k)
    ensures z == 0 && |s| == 1 ==> full[n] != 0
  {
    hide BP, Pow2;
    var low, high := full[..n], full[n..];
    assert full + [z] == low + (high + [z]) && full == low + high;
    ValSnoc(high, z);
    ValLow(low, high + [z]);
    ValLow(low, high);
    MulZero(BP(|s|));
    ShiftTotal(Val(s), m, k, n);
    if z == 0 && |s| == 1 {
      MulLe(1, m, Val(s));
      if full[n] == 0 { ValZeros(high); }
    }
  }

  lemma NoWords()
    ensures Val([]) == 0 && BP(0) == 1
  {
  }

  lemma ShiftNext(t: seq<Word>, o: Word, s: seq<Word>, i: nat, z: int, m: int, c: int)
    requires i < |s| && |t| == i && o + B * z == s[i] * m + c
    requires Val(t) + c * BP(i) == m * Val(s[..i]) + 0
    ensures Val(t + [o]) + z * BP(i + 1) == m * Val(s[..i + 1]) + 0
  {
    ValSnoc(t, o);
    ValPrefix(s, i);
    MulStep(Val(t), Val(s[..i]), o, z, s[i], m, c, BP(i), 0);
  }

  lemma ShiftTotal(v: int, m: int, k: nat, n: nat)
    requires n == k / 32 && m == Pow2(k % 32)
    ensures BP(n) * (m * v) == v * Pow2(k)
  {
    assert k == 32 * n + k % 32;
    Pow2Words(n);
    Pow2Add(32 * n, k % 32);
    hide Pow2, BP;
    Rotate(BP(n), m, v);
    Rotate(v, BP(n), m);
  }

  lemma Pow2Divides(k: nat)
    requires k < 32
    ensures B / Pow2(k) * Pow2(k) == B && B / Pow2(k) > 0
  {
    hide Pow2;
    Pow2Add(k, 32 - k);
    Pow2Word();
    Rotate(Pow2(k), Pow2(32 - k), 1);
    Exact(B, Pow2(k), Pow2(32 - k), 0);
  }
}
