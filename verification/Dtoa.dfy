/**
  The fixed-digit conversion of the number formatter: from exact integers b and
  S with 1 <= b / S < 10, the decimal of at most n digits nearest to b / S.
 */
module Dtoa {
  import opened Arith
  import opened Bignum
  import opened BigProduct

  function Pow10(n: nat): (r: int)
    ensures r >= 1
  {
    if n == 0 then 1 else 10 * Pow10(n - 1)
  }

  lemma {:induction false} Pow10Add(a: nat, b: nat)
    ensures Pow10(a + b) == Pow10(a) * Pow10(b)
  {
    if a > 0 {
      Pow10Add(a - 1, b);
      Rotate(10, Pow10(a - 1), Pow10(b));
    }
  }

  // ---------------------------------------------------------------- digit strings

  ghost predicate IsDigits(s: string) {
    forall i :: 0 <= i < |s| ==> '0' <= s[i] <= '9'
  }

  // The number a digit string denotes.
  ghost function Num(s: string): (r: int) {
    if s == [] then 0 else 10 * Num(s[..|s| - 1]) + (s[|s| - 1] as int - '0' as int)
  }

  lemma NumSnoc(s: string, c: char)
    ensures Num(s + [c]) == 10 * Num(s) + (c as int - '0' as int)
  {
    assert (s + [c])[..|s|] == s;
  }

  lemma {:induction false} NumBound(s: string)
    requires IsDigits(s)
    ensures 0 <= Num(s) < Pow10(|s|)
  {
    if s != [] { NumBound(s[..|s| - 1]); }
  }

  // Zeros at the end only scale the number.
  lemma {:induction false} TrailingZeros(s: string, n: nat)
    requires n <= |s| && forall i :: n <= i < |s| ==> s[i] == '0'
    ensures Num(s) == Num(s[..n]) * Pow10(|s| - n)
    decreases |s|
  {
    if n < |s| {
      var t := s[..|s| - 1];
      TrailingZeros(t, n);
      assert t[..n] == s[..n];
      Rotate(10, Num(t[..n]), Pow10(|t| - n));
    } else {
      assert s[..n] == s;
    }
  }

  // Nines at the end carry into the digit before them.
  lemma {:induction false} TrailingNines(s: string, n: nat)
    requires n <= |s| && forall i :: n <= i < |s| ==> s[i] == '9'
    ensures Num(s) + 1 == (Num(s[..n]) + 1) * Pow10(|s| - n)
    decreases |s|
  {
    if n < |s| {
      var t := s[..|s| - 1];
      TrailingNines(t, n);
      assert t[..n] == s[..n];
      Rotate(10, Num(t[..n]) + 1, Pow10(|t| - n));
    } else {
      assert s[..n] == s;
    }
  }

  // ---------------------------------------------------------------- rounding

  // The integer nearest to m / d, the even one of two equally near.
  ghost function RoundHalfEven(m: int, d: int): (r: int)
    requires d > 0
  {
    var q, r := m / d, m % d;
    if 2 * r > d || (2 * r == d && q % 2 == 1) then q + 1 else q
  }

  ghost function Distance(a: int, b: int): (r: int) {
    if a <= b then b - a else a - b
  }

  lemma Multiples(k: int, d: int)
    requires d > 0
    ensures k >= 1 ==> k * d >= d
    ensures k <= -1 ==> k * d <= -d
    ensures k >= 2 ==> k * d >= 2 * d
    ensures 0 * d == 0
  {
    if k >= 2 { MulLe(2, k, d); }
    else if k >= 1 { MulLe(1, k, d); }
    else if k <= -1 { MulLe(k, -1, d); }
  }

  // No integer is nearer to m / d, and a tie goes to the even one.
  lemma RoundHalfEvenNearest(m: int, d: int, z: int)
    requires d > 0
    ensures var v := RoundHalfEven(m, d);
      && Distance(m, v * d) <= Distance(m, z * d)
      && (z != v && Distance(m, v * d) == Distance(m, z * d) ==> v % 2 == 0)
  {
    var q, r, v := m / d, m % d, RoundHalfEven(m, d);
    DivMod(m, d);
    assert (q + 1) * d == q * d + d;
    assert (z - q) * d == z * d - q * d;
    Multiples(z - q, d);
    Parity(q);
  }

  lemma Parity(q: int)
    ensures q % 2 == 1 ==> (q + 1) % 2 == 0
    ensures q % 2 == 0 || q % 2 == 1
  {
  }

  // ---------------------------------------------------------------- the conversion

  // s is the decimal of a value v below 10 to the n, or equal to it when the
  // exponent was raised: no zero at either end, scaled by the digits left off.
  ghost predicate Denotes(s: string, raised: bool, n: nat, v: int) {
    && 1 <= |s| <= n && IsDigits(s) && s[0] != '0' && s[|s| - 1] != '0'
    && Num(s) * Pow10(n - |s| + if raised then 1 else 0) == v
    && (raised <==> v == Pow10(n))
  }

  // A value has one such decimal.
  lemma DenotesUnique(s: string, r: bool, t: string, q: bool, n: nat, v: int)
    requires Denotes(s, r, n, v) && Denotes(t, q, n, v)
    ensures s == t && r == q
  {
    hide Num, Pow10;
    if |s| <= |t| { Aligned(s, t, n, v, if r then 1 else 0); } else { Aligned(t, s, n, v, if r then 1 else 0); }
  }

  lemma Aligned(s: string, t: string, n: nat, v: int, e: nat)
    requires 1 <= |s| <= |t| <= n && IsDigits(s) && IsDigits(t) && t[|t| - 1] != '0'
    requires Num(s) * Pow10(n - |s| + e) == v == Num(t) * Pow10(n - |t| + e)
    ensures s == t
  {
    hide Num, Pow10;
    var d := |t| - |s|;
    var p := Pow10(n - |t| + e);
    assert n - |s| + e == d + (n - |t| + e);
    Pow10Add(d, n - |t| + e);
    Associate(Num(s), Pow10(d), p);
    Cancel(Num(s) * Pow10(d), Num(t), p);
    if d > 0 {
      TensEnd(Num(s), d);
      LastDigit(t);
      assert false;
    }
    Pow10Zero(Num(s));
    SameLength(s, t);
  }

  lemma Associate(a: int, b: int, c: int)
    ensures a * (b * c) == (a * b) * c
  {
  }

  lemma Cancel(a: int, b: int, p: int)
    requires a * p == b * p && p >= 1
    ensures a == b
  {
    assert (a - b) * p == 0;
    Multiples(a - b, p);
  }

  lemma TensEnd(a: int, d: nat)
    requires d > 0
    ensures (a * Pow10(d)) % 10 == 0
  {
    Rotate(a, 10, Pow10(d - 1));
    Exact(a * Pow10(d), 10, a * Pow10(d - 1), 0);
  }

  lemma LastDigit(t: string)
    requires IsDigits(t) && t != [] && t[|t| - 1] != '0'
    ensures Num(t) % 10 != 0
  {
  }

  lemma Pow10Zero(a: int)
    ensures a * Pow10(0) == a
  {
  }

  lemma {:induction false} SameLength(s: string, t: string)
    requires |s| == |t| && IsDigits(s) && IsDigits(t) && Num(s) == Num(t)
    ensures s == t
  {
    if s != [] {
      var n := |s| - 1;
      SameLength(s[..n], t[..n]);
      assert s == s[..n] + [s[n]] && t == t[..n] + [t[n]];
    }
  }

  // One more digit of the quotient.
  lemma NextDigit(m: int, k: int, d: int, cur: int, q: int, r: int)
    requires m == (10 * k) * d + cur && cur == q * d + r
    ensures m == (10 * k + q) * d + r && 10 * m == (10 * (10 * k + q)) * d + 10 * r
  {
    assert (10 * k + q) * d == (10 * k) * d + q * d;
    assert (10 * (10 * k + q)) * d == 10 * ((10 * k + q) * d);
  }

  // The digits buf[..n] after the decimal's last place was rounded up.
  method RoundUp(buf: array<char>, n: nat) returns (len: nat, raised: bool)
    requires 1 <= n <= buf.Length && IsDigits(buf[..n]) && buf[0] != '0'
    modifies buf
    ensures 1 <= len <= n && Denotes(buf[..len], raised, n, old(Num(buf[..n])) + 1)
  {
    hide Num, Pow10;
    ghost var w := buf[..n];
    var s := n - 1;
    while buf[s] == '9'
      invariant 0 <= s < n && buf[..n] == w && forall i :: s < i < n ==> w[i] == '9'
      decreases s
    {
      if s == 0 {
        buf[0] := '1';
        AllNines(w, buf[..1]);
        return 1, true;
      }
      s := s - 1;
    }
    assert buf[s] == w[s];
    buf[s] := (buf[s] as int + 1) as char;
    CarryStops(w, s, buf[..s + 1]);
    return s + 1, false;
  }

  lemma AllNines(w: string, t: string)
    requires w != [] && t == "1" && forall i :: 0 <= i < |w| ==> w[i] == '9'
    ensures Denotes(t, true, |w|, Num(w) + 1)
  {
    TrailingNines(w, 0);
    assert w[..0] == [] && t[..0] == [];
    assert Num(t) == 1;
  }

  lemma CarryStops(w: string, s: nat, t: string)
    requires s < |w| && IsDigits(w) && w[0] != '0' && w[s] != '9' && forall i :: s < i < |w| ==> w[i] == '9'
    requires |t| == s + 1 && t[..s] == w[..s] && t[s] as int == w[s] as int + 1
    ensures Denotes(t, false, |w|, Num(w) + 1)
  {
    TrailingNines(w, s + 1);
    assert w[..s + 1][..s] == w[..s] && w[..s + 1][s] == w[s];
    assert Num(t) == Num(w[..s + 1]) + 1;
    assert IsDigits(t) by {
      forall i | 0 <= i < |t| ensures '0' <= t[i] <= '9' {
        if i < s { assert t[i] == t[..s][i] == w[i]; }
      }
    }
    assert t[0] != '0' by { if s > 0 { assert t[0] == t[..s][0] == w[0]; } }
    BelowPower(t, |w|);
  }

  // A number of n digits or fewer stays below 10 to the n when scaled.
  lemma BelowPower(t: string, n: nat)
    requires IsDigits(t) && |t| <= n
    ensures Num(t) * Pow10(n - |t|) < Pow10(n)
  {
    hide Num, Pow10;
    NumBound(t);
    Pow10Add(|t|, n - |t|);
    MulLe(Num(t) + 1, Pow10(|t|), Pow10(n - |t|));
    assert (Num(t) + 1) * Pow10(n - |t|) == Num(t) * Pow10(n - |t|) + Pow10(n - |t|);
  }

  // The digits buf[..n] without the zeros at their end.
  method TrimZeros(buf: array<char>, n: nat) returns (len: nat)
    requires 1 <= n <= buf.Length && IsDigits(buf[..n]) && buf[0] != '0'
    ensures 1 <= len <= n && Denotes(buf[..len], false, n, Num(buf[..n]))
  {
    hide Num, Pow10;
    var s := n - 1;
    while buf[s] == '0'
      invariant 0 <= s < n && forall i :: s < i < n ==> buf[i] == '0'
      decreases s
    {
      s := s - 1;
    }
    len := s + 1;
    TrailingZeros(buf[..n], len);
    assert buf[..n][..len] == buf[..len];
    BelowPower(buf[..len], n);
  }

  // Emits the decimal of b / s with at most n digits into buf.
  method FixedDigits(b: Bigint, s: Bigint, n: nat, buf: array<char>) returns (len: nat, raised: bool)
    requires b.Valid() && s.Valid() && b != s && b.x != s.x && 1 <= n <= buf.Length
    requires s.wds >= 1 && 0x800_0000 <= s.x[s.wds - 1] < 0x1000_0000
    requires s.Value() <= b.Value() < 10 * s.Value()
    modifies b, b.x, buf
    ensures s.Value() == old(s.Value()) > 0 && 1 <= len <= n
    ensures Denotes(buf[..len], raised, n, RoundHalfEven(old(b.Value()) * Pow10(n - 1), s.Value()))
  {
    hide Num, Pow10, Val, BP, Pow2, RoundHalfEven, Denotes;
    ghost var v, d := b.Value(), s.Value();
    var i := 1;
    FirstStep(v, d, buf[..0]);
    while true
      invariant 1 <= i <= n && b.Valid() && s.Valid() && b.x != s.x && s.Value() == d > 0
      invariant (b.x == old(b.x) || fresh(b.x)) && s.x == old(s.x) && s.wds == old(s.wds) && s.wds >= 1 && s.x[..] == old(s.x[..])
      invariant IsDigits(buf[..i - 1]) && (i > 1 ==> buf[0] != '0') && (i == 1 ==> b.Value() >= d)
      invariant 0 < b.Value() < 10 * d
      invariant v * Pow10(i - 1) == (10 * Num(buf[..i - 1])) * d + b.Value()
      decreases n - i
    {
      ghost var cur, ds := b.Value(), buf[..i - 1];
      var q := QuoRem(b, s);
      ghost var r := b.Value();
      DigitRange(cur, d, q, r);
      buf[i - 1] := (q + '0' as int) as char;
      assert buf[..i] == ds + [buf[i - 1]];
      NumSnoc(ds, buf[i - 1]);
      NextDigit(v * Pow10(i - 1), Num(ds), d, cur, q, r);
      IsZero(b);
      if b.x[0] == 0 && b.wds <= 1 {
        Finished(buf[..i], n, v, d);
        return i, false;
      }
      if i >= n { break; }
      b.MultAdd(10, 0);
      PowNext(v, i);
      i := i + 1;
    }
    len, raised := RoundLast(b, s, n, buf, v * Pow10(n - 1));
  }

  // Rounds the n digits of m / s, with the remainder in b, to the nearest.
  method RoundLast(b: Bigint, s: Bigint, n: nat, buf: array<char>, ghost m: int) returns (len: nat, raised: bool)
    requires b.Valid() && s.Valid() && s.wds >= 1 && s.x[s.wds - 1] != 0 && 1 <= n <= buf.Length
    requires IsDigits(buf[..n]) && buf[0] != '0'
    requires m == Num(buf[..n]) * s.Value() + b.Value() && 0 < b.Value() < s.Value()
    modifies buf
    ensures 1 <= len <= n && Denotes(buf[..len], raised, n, RoundHalfEven(m, s.Value()))
  {
    hide Num, Pow10, Val, BP, Pow2, RoundHalfEven, Denotes;
    ghost var d := s.Value();
    Exact(m, d, Num(buf[..n]), b.Value());
    var twice := Lshift(b, 1);
    Doubled(b.Value());
    var j := Cmp(twice, s);
    LastParity(buf[..n]);
    RoundCases(m, d);
    if j > 0 || (j == 0 && buf[n - 1] as int % 2 == 1) {
      len, raised := RoundUp(buf, n);
    } else {
      len := TrimZeros(buf, n);
      raised := false;
    }
  }

  lemma FirstStep(v: int, d: int, s: string)
    requires s == []
    ensures v * Pow10(1 - 1) == (10 * Num(s)) * d + v
  {
  }

  lemma DigitRange(cur: int, d: int, q: int, r: int)
    requires d > 0 && 0 <= cur < 10 * d && q == cur / d && r == cur % d
    ensures cur == q * d + r && 0 <= q <= 9 && 0 <= r < d && (cur >= d ==> q >= 1) && (cur > 0 && r == 0 ==> q >= 1)
  {
    DivMod(cur, d);
    Multiples(q, d);
    if q >= 10 { MulLe(10, q, d); }
  }

  lemma IsZero(b: Bigint)
    requires b.Valid()
    ensures b.x[0] == 0 && b.wds <= 1 <==> b.Value() == 0
  {
    if b.wds >= 1 {
      if b.x[0] == 0 && b.wds <= 1 {
        ValZeros(b.x[..b.wds]);
      } else {
        ValAtLeast(b.x[..b.wds], b.wds - 1);
      }
    }
  }

  lemma PowNext(v: int, i: nat)
    requires i >= 1
    ensures v * Pow10(i) == 10 * (v * Pow10(i - 1))
  {
    Rotate(v, 10, Pow10(i - 1));
  }

  // An exact quotient needs no rounding.
  lemma Finished(s: string, n: nat, v: int, d: int)
    requires d > 0 && 1 <= |s| <= n && IsDigits(s) && s[0] != '0' && s[|s| - 1] != '0'
    requires v * Pow10(|s| - 1) == Num(s) * d + 0
    ensures Denotes(s, false, n, RoundHalfEven(v * Pow10(n - 1), d))
  {
    hide Num, Pow10;
    var e := n - |s|;
    assert n - 1 == e + (|s| - 1);
    Pow10Add(e, |s| - 1);
    Rotate(v, Pow10(e), Pow10(|s| - 1));
    Rotate(Pow10(e), Num(s), d);
    Rotate(d, Pow10(e), Num(s));
    Exact(v * Pow10(n - 1), d, Num(s) * Pow10(e), 0);
    BelowPower(s, n);
  }

  lemma Doubled(v: int)
    ensures v * Pow2(1) == 2 * v
  {
    assert Pow2(1) == 2 * Pow2(0);
  }

  lemma LastParity(s: string)
    requires IsDigits(s) && s != []
    ensures Num(s) % 2 == s[|s| - 1] as int % 2
  {
  }

  lemma RoundCases(m: int, d: int)
    requires d > 0
    ensures var q, r := m / d, m % d;
      RoundHalfEven(m, d) == if 2 * r > d || (2 * r == d && q % 2 == 1) then q + 1 else q
  {
  }

  // ---------------------------------------------------------------- setting up the division

  // The number of zero bits above the highest one of a word.
  method Hi0Bits(w: Word) returns (k: nat)
    ensures w == 0 ==> k == 32
    ensures w > 0 ==> k < 32 && 0x8000_0000 <= w * Pow2(k) < 0x1_0000_0000
  {
    hide Pow2;
    SmallShifts(w);
    var x: int := w;
    k := 0;
    if x < 0x1_0000 {
      k := 16;
      x := x * 0x1_0000;
    }
    if x < 0x100_0000 {
      ShiftOn(w, x, k, 8);
      k := k + 8;
      x := x * 0x100;
    }
    if x < 0x1000_0000 {
      ShiftOn(w, x, k, 4);
      k := k + 4;
      x := x * 0x10;
    }
    if x < 0x4000_0000 {
      ShiftOn(w, x, k, 2);
      k := k + 2;
      x := x * 4;
    }
    if x < 0x8000_0000 {
      ShiftOn(w, x, k, 1);
      k := k + 1;
      if x < 0x4000_0000 {
        return 32;
      }
    }
  }

  lemma SmallShifts(w: int)
    ensures Pow2(0) == 1 && Pow2(1) == 2 && Pow2(2) == 4 && Pow2(4) == 16 && Pow2(8) == 0x100 && Pow2(16) == 0x1_0000
    ensures w * Pow2(0) == w && w * Pow2(16) == w * 0x1_0000
  {
    assert Pow2(4) == 16 && Pow2(8) == 0x100;
    Pow2Add(8, 8);
  }

  lemma ShiftOn(w: int, x: int, k: nat, j: nat)
    requires x == w * Pow2(k)
    ensures x * Pow2(j) == w * Pow2(k + j)
  {
    Pow2Add(k, j);
    hide Pow2;
    Rotate(w, Pow2(k), Pow2(j));
    assert (w * Pow2(k)) * Pow2(j) == w * (Pow2(k) * Pow2(j));
  }

  // A value between these bounds has a top word with exactly four leading zeros.
  lemma TopWord(s: seq<Word>, m: nat)
    requires s != [] && (|s| >= 2 ==> s[|s| - 1] != 0)
    requires 0x800_0000 * BP(m) <= Val(s) < 0x1000_0000 * BP(m)
    ensures |s| == m + 1 && 0x800_0000 <= s[m] < 0x1000_0000
  {
    hide Val, BP;
    var n := |s| - 1;
    ValBound(s);
    BPStep(m);
    BPStep(n);
    if n < m { BPMono(n + 1, m); }
    if n > m {
      ValAtLeast(s, n);
      BPMono(m + 1, n);
    }
    ValTop(s);
    if s[n] < 0x800_0000 { MulLe(s[n] + 1, 0x800_0000, BP(m)); }
    if s[n] >= 0x1000_0000 { MulLe(0x1000_0000, s[n], BP(m)); }
  }

  lemma BPStep(n: nat)
    ensures BP(n + 1) == B * BP(n)
  {
  }

  // Shifting by a count that is four less than the leading zeros, up to whole
  // words, leaves four leading zeros.
  lemma Normalized(s: seq<Word>, h: nat, t: nat)
    requires s != [] && h < 32 && 0x8000_0000 <= s[|s| - 1] * Pow2(h) < 0x1_0000_0000 && t % 32 == (h + 28) % 32
    ensures exists m: nat :: 0x800_0000 * BP(m) <= Val(s) * Pow2(t) < 0x1000_0000 * BP(m)
  {
    hide Val, BP, Pow2;
    var w := |s| - 1;
    ValTop(s);
    var j := WholeWords(h, t);
    BPAdd(w, j);
    RoomForNext(s[w], h);
    Scaled(Val(s), s[w], Pow2(h), BP(w), BP(j), Pow2(t));
    assert 0x800_0000 * BP(w + j) <= Val(s) * Pow2(t) < 0x1000_0000 * BP(w + j);
  }

  // t + 4 is h and whole words.
  lemma WholeWords(h: nat, t: nat) returns (j: nat)
    requires h < 32 && t % 32 == (h + 28) % 32
    ensures Pow2(t) * 16 == Pow2(h) * BP(j)
  {
    hide Pow2, BP;
    j := (t + 4 - h) / 32;
    assert t + 4 == h + 32 * j;
    Pow2Words(j);
    Pow2Add(h, 32 * j);
    Pow2Add(t, 4);
    SmallShifts(0);
  }

  lemma RoomForNext(x: int, h: nat)
    requires h < 32 && x * Pow2(h) < 0x1_0000_0000
    ensures WholeWord(x, Pow2(h))
  {
    hide Pow2;
    Pow2Divides(h);
    var q := B / Pow2(h);
    if x >= q { MulLe(q, x, Pow2(h)); }
    MulLe(x + 1, q, Pow2(h));
  }

  lemma Scaled(v: int, x: int, h: int, p: int, q: int, t: int)
    requires x * p <= v < (x + 1) * p && 0x8000_0000 <= x * h < 0x1_0000_0000 && p > 0 && q > 0 && h > 0
    requires t * 16 == h * q && WholeWord(x, h)
    ensures 0x800_0000 * (p * q) <= v * t < 0x1000_0000 * (p * q)
  {
    var hq := h * q;
    NonNeg(h, q);
    if hq <= 0 { MulLe(1, q, h); }
    assert 16 * (v * t) == v * hq;
    MulLe(x * p, v, hq);
    Strict(v, (x + 1) * p, hq);
    assert (x * p) * hq == (x * h) * (p * q) by { Shuffle(x, p, h, q); }
    assert ((x + 1) * p) * hq == ((x + 1) * h) * (p * q) by { Shuffle(x + 1, p, h, q); }
    NonNeg(p, q);
    MulLe(0x8000_0000, x * h, p * q);
    MulLe((x + 1) * h, 0x1_0000_0000, p * q);
  }

  // A word whose highest bit is shifted to the top leaves room for its successor.
  ghost predicate WholeWord(x: int, h: int) { (x + 1) * h <= 0x1_0000_0000 }

  lemma Strict(a: int, b: int, c: int)
    requires a < b && c > 0
    ensures a * c < b * c
  {
    MulLe(a + 1, b, c);
    assert (a + 1) * c == a * c + c;
  }

  lemma Shuffle(x: int, p: int, h: int, q: int)
    ensures (x * p) * (h * q) == (x * h) * (p * q)
  {
    Rotate(x * p, h, q);
    assert (x * p) * (h * q) == x * (p * (h * q));
    Rotate(p, h, q);
    assert x * (h * (p * q)) == (x * h) * (p * q);
  }

  // The shift, below 32, that together with a shift by p2 gives the divisor four
  // leading zero bits.
  method Dshift(b: Bigint, p2: nat) returns (i: nat)
    requires b.Valid() && b.wds >= 1 && b.x[b.wds - 1] != 0
    ensures i < 32 && exists m: nat :: 0x800_0000 * BP(m) <= b.Value() * Pow2(p2 + i) < 0x1000_0000 * BP(m)
  {
    hide Val, BP, Pow2;
    var h := Hi0Bits(b.x[b.wds - 1]);
    i := (h - 4 - p2) % 32;
    assert (p2 + i) % 32 == (h + 28) % 32;
    Normalized(b.x[..b.wds], h, p2 + i);
  }

  // b shifted left, when there is anything to shift.
  method Shift(b: Bigint, k: nat) returns (r: Bigint)
    requires b.Valid() && b.Value() > 0
    ensures r.Valid() && r.Value() == b.Value() * Pow2(k) && (r == b || (fresh(r) && fresh(r.x)))
  {
    hide Val, BP, Pow2;
    SmallShifts(b.Value());
    if k > 0 {
      r := Lshift(b, k);
    } else {
      r := b;
    }
  }

  // Scaling both sides does not change the rounding.
  lemma RoundScaled(m: int, d: int, c: int)
    requires d > 0 && c > 0
    ensures d * c > 0 && RoundHalfEven(m * c, d * c) == RoundHalfEven(m, d)
  {
    MulLe(1, d, c);
    var q, r := m / d, m % d;
    DivMod(m, d);
    assert m * c == (q * d + r) * c == q * (d * c) + r * c;
    NonNeg(r, c);
    Strict(r, d, c);
    Exact(m * c, d * c, q, r * c);
    assert 2 * (r * c) == (2 * r) * c;
    if 2 * r > d { Strict(d, 2 * r, c); }
    if 2 * r < d { Strict(2 * r, d, c); }
  }

  // The exact conversion: b times 2 to the b2 and 5 to the b5, over 2 to the s2
  // and 5 to the s5, with an estimate of the decimal exponent that is right or
  // one too large (check tells that it may be).
  method Convert(b0: Bigint, b2: nat, b5: nat, s2: nat, s5: nat, check: bool, n: nat, buf: array<char>, p5s: PowerCache)
    returns (len: nat, raised: bool, lowered: bool)
    requires b0.Valid() && b0.Value() > 0 && p5s.Valid() && p5s.Apart(b0) && 1 <= n <= buf.Length
    requires Denominator(s2, s5) <= 10 * Numerator(b0.Value(), b2, b5) && Numerator(b0.Value(), b2, b5) < 10 * Denominator(s2, s5)
    requires !check ==> Denominator(s2, s5) <= Numerator(b0.Value(), b2, b5)
    modifies b0, b0.x, p5s, buf
    ensures p5s.Valid() && 1 <= len <= n
    ensures var v := old(Numerator(b0.Value(), b2, b5)); var d := Denominator(s2, s5);
      && (lowered <==> v < d)
      && Denotes(buf[..len], raised, n, RoundHalfEven((if lowered then 10 * v else v) * Pow10(n - 1), d))
  {
    hide Val, BP, Pow2, Pow5, Num, Pow10, Denotes, RoundHalfEven, Node;
    ghost var v := b0.Value();
    var b := b0;
    FivesNone(v);
    if b5 > 0 {
      b := p5s.Pow5Mult(b, b5);
    }
    ProductPositive(v, Pow5(b5));
    var s := new Bigint(1);
    FivesNone(1);
    if s5 > 0 {
      s := p5s.Pow5Mult(s, s5);
    }
    OneTimes(Pow5(s5));
    len, raised, lowered := Divide(b, s, b2, s2, check, n, buf, v, b5, s5);
  }

  // The rest of the conversion, from the powers of five on.
  method Divide(b0: Bigint, s0: Bigint, b2: nat, s2: nat, check: bool, n: nat, buf: array<char>, ghost v: int, ghost b5: nat, ghost s5: nat)
    returns (len: nat, raised: bool, lowered: bool)
    requires b0.Valid() && s0.Valid() && b0 != s0 && b0.x != s0.x && 1 <= n <= buf.Length && v > 0
    requires b0.Value() == v * Pow5(b5) > 0 && s0.Value() == Pow5(s5)
    requires Denominator(s2, s5) <= 10 * Numerator(v, b2, b5) && Numerator(v, b2, b5) < 10 * Denominator(s2, s5)
    requires !check ==> Denominator(s2, s5) <= Numerator(v, b2, b5)
    modifies b0, b0.x, buf
    ensures 1 <= len <= n
    ensures var w, d := Numerator(v, b2, b5), Denominator(s2, s5);
      && (lowered <==> w < d)
      && Denotes(buf[..len], raised, n, RoundHalfEven((if lowered then 10 * w else w) * Pow10(n - 1), d))
  {
    hide Val, BP, Pow2, Pow5, Num, Pow10, Denotes, RoundHalfEven;
    TopNonzero(s0);
    var i := Dshift(s0, s2);
    var b := Shift(b0, b2 + i);
    var s := Shift(s0, s2 + i);
    FourZeros(s, s0.Value() * Pow2(s2 + i));
    ghost var w, d, c := Numerator(v, b2, b5), Denominator(s2, s5), Pow2(i);
    Common(v * Pow5(b5), b2, i);
    Common(Pow5(s5), s2, i);
    Ordered(w, d, c);
    lowered := Correct(b, s, check);
    RoundScaledDigits(if lowered then 10 * w else w, d, c, n);
    Rotate(10, w, c);
    len, raised := FixedDigits(b, s, n, buf);
  }

  // Ten times b, when the estimate was one too large.
  method Correct(b: Bigint, s: Bigint, check: bool) returns (lowered: bool)
    requires b.Valid() && s.Valid() && b != s && b.x != s.x && b.Value() > 0
    modifies b, b.x
    ensures b.Valid() && (b.x == old(b.x) || fresh(b.x))
    ensures lowered <==> check && old(b.Value()) < s.Value()
    ensures b.Value() == if lowered then 10 * old(b.Value()) else old(b.Value())
  {
    hide Val, BP;
    lowered := false;
    if check {
      var j := Cmp(b, s);
      if j < 0 {
        lowered := true;
        b.MultAdd(10, 0);
      }
    }
  }

  ghost function Numerator(v: int, b2: nat, b5: nat): (r: int) { (v * Pow5(b5)) * Pow2(b2) }

  ghost function Denominator(s2: nat, s5: nat): (r: int)
    ensures r >= 1
  {
    ProductPositive(Pow5(s5), Pow2(s2));
    Pow5(s5) * Pow2(s2)
  }

  lemma ProductPositive(a: int, b: int)
    requires a >= 1 && b >= 1
    ensures a * b >= 1
  {
    MulLe(1, a, b);
  }

  lemma FivesNone(v: int)
    ensures v * Pow5(0) == v
  {
  }

  lemma OneTimes(p: int)
    ensures 1 * p == p
  {
  }

  lemma TopNonzero(s: Bigint)
    requires s.Valid() && s.Value() > 0
    ensures s.wds >= 1 && s.x[s.wds - 1] != 0
  {
    NoWords();
    ZeroWord(s.x[..1]);
  }

  lemma FourZeros(s: Bigint, v: int)
    requires s.Valid() && s.Value() == v > 0
    requires exists m: nat :: 0x800_0000 * BP(m) <= v < 0x1000_0000 * BP(m)
    ensures s.wds >= 1 && 0x800_0000 <= s.x[s.wds - 1] < 0x1000_0000
  {
    hide Val, BP;
    TopNonzero(s);
    var m: nat :| 0x800_0000 * BP(m) <= v < 0x1000_0000 * BP(m);
    TopWord(s.x[..s.wds], m);
  }

  // The shift of the divisor is common to both sides.
  lemma Common(a: int, k: nat, i: nat)
    ensures a * Pow2(k + i) == (a * Pow2(k)) * Pow2(i)
  {
    Pow2Add(k, i);
    hide Pow2;
    assert (a * Pow2(k)) * Pow2(i) == a * (Pow2(k) * Pow2(i));
  }

  lemma Ordered(w: int, d: int, c: int)
    requires c > 0
    ensures w * c < d * c <==> w < d
    ensures d <= 10 * w ==> d * c <= 10 * (w * c)
    ensures w < 10 * d ==> w * c < 10 * (d * c)
    ensures w > 0 ==> w * c > 0
  {
    if w < d { Strict(w, d, c); } else { MulLe(d, w, c); }
    if d <= 10 * w { MulLe(d, 10 * w, c); }
    if w < 10 * d { Strict(w, 10 * d, c); }
    assert (10 * w) * c == 10 * (w * c) && (10 * d) * c == 10 * (d * c);
    if w > 0 { Strict(0, w, c); }
  }

  lemma RoundScaledDigits(w: int, d: int, c: int, n: nat)
    requires d > 0 && c > 0 && n >= 1
    ensures d * c > 0 && RoundHalfEven((w * c) * Pow10(n - 1), d * c) == RoundHalfEven(w * Pow10(n - 1), d)
  {
    hide RoundHalfEven, Pow10;
    RoundScaled(w * Pow10(n - 1), d, c);
    Rotate(w, c, Pow10(n - 1));
    assert (w * c) * Pow10(n - 1) == (w * Pow10(n - 1)) * c;
  }

  // ---------------------------------------------------------------- the whole conversion

  function Plus(i: int): (r: nat) { if i >= 0 then i else 0 }

  // The number b over 2 to the j, divided by 10 to the k, as a fraction.
  ghost function Above(v: int, j: int, k: int): (r: int) { (v * Pow10(Plus(-k))) * Pow2(Plus(-j)) }

  ghost function Below(j: int, k: int): (r: int)
    ensures r >= 1
  {
    ProductPositive(Pow10(Plus(k)), Pow2(Plus(j)));
    Pow10(Plus(k)) * Pow2(Plus(j))
  }

  lemma {:induction false} TwoFive(k: nat)
    ensures Pow5(k) * Pow2(k) == Pow10(k)
  {
    if k > 0 {
      TwoFive(k - 1);
      var p, q := Pow5(k - 1), Pow2(k - 1);
      assert (5 * p) * (2 * q) == 10 * (p * q);
    }
  }

  // The exponents that the program derives from j and k.
  lemma SetUp(v: int, j: int, k: int)
    ensures Numerator(v, Plus(-j) + Plus(-k), Plus(-k)) == Above(v, j, k)
    ensures Denominator(Plus(j) + Plus(k), Plus(k)) == Below(j, k)
  {
    TenSplit(v, Plus(-k), Plus(-j));
    TenSplit(1, Plus(k), Plus(j));
    OneTimes(Pow5(Plus(k)));
    OneTimes(Pow10(Plus(k)));
  }

  lemma TenSplit(v: int, k: nat, j: nat)
    ensures (v * Pow5(k)) * Pow2(j + k) == (v * Pow10(k)) * Pow2(j)
  {
    Pow2Add(j, k);
    TwoFive(k);
    hide Pow5, Pow2, Pow10;
    var p, q, r := Pow5(k), Pow2(j), Pow2(k);
    assert (v * p) * (q * r) == (v * (p * r)) * q by { Shuffle(v, p, r, q); Rotate(1, q, r); }
  }

  // A common power of two of numerator and denominator is dropped.
  lemma Cancelled(v: int, b2: nat, b5: nat, s2: nat, s5: nat, i: nat)
    requires i <= b2 && i <= s2
    ensures Numerator(v, b2, b5) == Numerator(v, b2 - i, b5) * Pow2(i)
    ensures Denominator(s2, s5) == Denominator(s2 - i, s5) * Pow2(i)
  {
    Common(v * Pow5(b5), b2 - i, i);
    Common(Pow5(s5), s2 - i, i);
  }

  // Prints b over 2 to the j with at most n digits, given an estimate k of its
  // decimal exponent that is right or, when check is set, right or one too large.
  // The decimal point is decpt places after the start of the digits.
  method FormatFixed(b: Bigint, j: int, k: int, check: bool, n: nat, buf: array<char>, p5s: PowerCache) returns (len: nat, decpt: int)
    requires b.Valid() && b.Value() > 0 && p5s.Valid() && p5s.Apart(b) && 1 <= n <= buf.Length
    requires Below(j, k) <= 10 * Above(b.Value(), j, k) && Above(b.Value(), j, k) < 10 * Below(j, k)
    requires !check ==> Below(j, k) <= Above(b.Value(), j, k)
    modifies b, b.x, p5s, buf
    ensures p5s.Valid() && 1 <= len <= n
    ensures Printed(buf[..len], decpt - 1 - k, n, old(Above(b.Value(), j, k)), Below(j, k))
    ensures Near(buf[..len], decpt, n, old(b.Value()), j)
  {
    hide Near, Val, BP, Pow2, Pow5, Num, Pow10, Denotes, RoundHalfEven, Node, Numerator, Denominator, Above, Below;
    ghost var v := b.Value();
    var b2, s2 := if j >= 0 then 0 else -j, if j >= 0 then j else 0;
    var b5, s5 := 0, 0;
    if k >= 0 {
      s5, s2 := k, s2 + k;
    } else {
      b2, b5 := b2 - k, -k;
    }
    SetUp(v, j, k);
    var i := 0;
    if b2 > 0 && s2 > 0 {
      i := if b2 < s2 then b2 else s2;
    }
    Cancelled(v, b2, b5, s2, s5, i);
    ghost var w, d, c := Numerator(v, b2 - i, b5), Denominator(s2 - i, s5), Pow2(i);
    Ordered(w, d, c);
    Tenfold(w, d, c);
    RoundScaledDigits(w, d, c, n);
    RoundScaledDigits(10 * w, d, c, n);
    Rotate(10, w, c);
    var raised, lowered;
    len, raised, lowered := Convert(b, b2 - i, b5, s2 - i, s5, check, n, buf, p5s);
    decpt := k + 1 - (if lowered then 1 else 0) + (if raised then 1 else 0);
    PrintedNear(buf[..len], decpt, n, v, j, k);
  }

  // The digits of a / b at a decimal exponent that is e off the estimate.
  ghost predicate Printed(s: string, e: int, n: nat, a: int, b: int)
    requires n >= 1 && b > 0
  {
    var up := if a < b then e + 1 else e;
    && (up == 0 || up == 1)
    && Denotes(s, up == 1, n, RoundHalfEven((if a < b then 10 * a else a) * Pow10(n - 1), b))
  }

  lemma Tenfold(w: int, d: int, c: int)
    requires c > 0
    ensures d * c <= 10 * (w * c) ==> d <= 10 * w
    ensures w * c < 10 * (d * c) ==> w < 10 * d
    ensures d * c <= w * c ==> d <= w
  {
    if d > 10 * w { Strict(10 * w, d, c); }
    if w >= 10 * d { MulLe(10 * d, w, c); }
    if d > w { Strict(w, d, c); }
    assert (10 * w) * c == 10 * (w * c) && (10 * d) * c == 10 * (d * c);
  }

  // ---------------------------------------------------------------- the number printed

  // 10 to the e and 2 to the e, as real numbers.
  ghost function Ten(e: int): (r: real)
    ensures r > 0.0
    decreases if e < 0 then -e else e
  {
    if e == 0 then 1.0 else if e > 0 then 10.0 * Ten(e - 1) else Ten(e + 1) / 10.0
  }

  ghost function Two(e: int): (r: real)
    ensures r > 0.0
    decreases if e < 0 then -e else e
  {
    if e == 0 then 1.0 else if e > 0 then 2.0 * Two(e - 1) else Two(e + 1) / 2.0
  }

  // The digits s with the point after decpt places differ from v over 2 to the j
  // by at most half a unit of the n-th place.
  ghost predicate Near(s: string, decpt: int, n: nat, v: int, j: int) {
    var printed, exact := Num(s) as real * Ten(decpt - |s|), v as real * Two(-j);
    var off := if printed < exact then exact - printed else printed - exact;
    2.0 * off <= Ten(decpt - n)
  }

  lemma TenStep(e: int)
    ensures Ten(e + 1) == 10.0 * Ten(e)
  {
  }

  lemma TwoStep(e: int)
    ensures Two(e + 1) == 2.0 * Two(e)
  {
  }

  lemma {:induction false} TenAdd(a: int, b: int)
    ensures Ten(a + b) == Ten(a) * Ten(b)
    decreases if b < 0 then -b else b
  {
    TenZero();
    hide Ten;
    if b > 0 {
      TenAdd(a, b - 1);
      TenStep(a + b - 1);
      TenStep(b - 1);
      Scale(10.0, Ten(a), Ten(b - 1));
    } else if b < 0 {
      TenAdd(a, b + 1);
      TenStep(a + b);
      TenStep(b);
      Scale(10.0, Ten(a), Ten(b));
    }
  }

  lemma {:induction false} TwoAdd(a: int, b: int)
    ensures Two(a + b) == Two(a) * Two(b)
    decreases if b < 0 then -b else b
  {
    TwoZero();
    hide Two;
    if b > 0 {
      TwoAdd(a, b - 1);
      TwoStep(a + b - 1);
      TwoStep(b - 1);
      Scale(2.0, Two(a), Two(b - 1));
    } else if b < 0 {
      TwoAdd(a, b + 1);
      TwoStep(a + b);
      TwoStep(b);
      Scale(2.0, Two(a), Two(b));
    }
  }

  lemma TenZero()
    ensures Ten(0) == 1.0
  {
  }

  lemma TwoZero()
    ensures Two(0) == 1.0
  {
  }

  lemma Scale(c: real, x: real, y: real)
    ensures c * (x * y) == x * (c * y)
  {
  }

  lemma {:induction false} TenIs(n: nat)
    ensures Ten(n) == Pow10(n) as real
  {
    if n > 0 { TenIs(n - 1); }
  }

  lemma {:induction false} TwoIs(n: nat)
    ensures Two(n) == Pow2(n) as real
  {
    if n > 0 { TwoIs(n - 1); }
  }

  // The rounded value is at most half a unit off.
  lemma HalfUnit(m: int, d: int)
    requires d > 0
    ensures var v := RoundHalfEven(m, d); -d <= 2 * (v * d - m) <= d
  {
    var q, r := m / d, m % d;
    DivMod(m, d);
    assert (q + 1) * d == q * d + d;
  }

  // The fraction that is rounded is the number over 10 to the k.
  lemma Fraction(v: int, j: int, k: int)
    ensures Above(v, j, k) as real == ((v as real * Two(-j)) * Ten(-k)) * Below(j, k) as real
  {
    hide Pow10, Pow2, Ten, Two;
    var a, b, c, d := Plus(k), Plus(-k), Plus(j), Plus(-j);
    assert -k + a == b && -j + c == d;
    TenAdd(-k, a);
    TwoAdd(-j, c);
    TenIs(a);
    TenIs(b);
    TwoIs(c);
    TwoIs(d);
    AsReal(v, Pow10(b), Pow2(d));
    ProductAsReal(Pow10(a), Pow2(c));
    Mixed(v as real, Two(-j), Ten(-k), Ten(a), Two(c));
  }

  lemma ProductAsReal(p: int, q: int)
    ensures (p * q) as real == p as real * q as real
  {
  }

  lemma AsReal(v: int, p: int, q: int)
    ensures ((v * p) * q) as real == (v as real * p as real) * q as real
  {
    ProductAsReal(v * p, q);
    ProductAsReal(v, p);
  }

  lemma Mixed(v: real, x: real, y: real, a: real, c: real)
    ensures ((v * x) * y) * (a * c) == (v * (y * a)) * (x * c)
  {
  }

  // What is rounded to an integer, a times p over b, lies within half a unit.
  lemma Within(a: int, b: int, p: int, m: int, f: real)
    requires b > 0 && m == RoundHalfEven(a * p, b) && a as real * p as real == f * b as real
    ensures -1.0 <= 2.0 * (m as real - f) <= 1.0
  {
    hide RoundHalfEven;
    HalfUnit(a * p, b);
    ProductAsReal(m, b);
    ProductAsReal(a, p);
    SameBounds(m * b, a * p, b);
    Halved(m as real, f, b as real, (m * b) as real, (a * p) as real);
  }

  lemma Halved(m: real, f: real, b: real, x: real, y: real)
    requires b > 0.0 && x == m * b && y == f * b && -b <= 2.0 * (x - y) <= b
    ensures -1.0 <= 2.0 * (m - f) <= 1.0
  {
    var d := 2.0 * (m - f);
    Factored(m, f, b);
    Cancels(d, b, 2.0 * (x - y));
  }

  lemma SameBounds(x: int, y: int, b: int)
    requires -b <= 2 * (x - y) <= b
    ensures -(b as real) <= 2.0 * (x as real - y as real) <= b as real
  {
  }

  lemma Factored(m: real, f: real, b: real)
    ensures (2.0 * (m - f)) * b == 2.0 * (m * b - f * b)
  {
  }

  lemma Cancels(x: real, b: real, t: real)
    requires b > 0.0 && t == x * b && -b <= t <= b
    ensures -1.0 <= x <= 1.0
  {
    Spread(x, b);
    if x > 1.0 { Grows(x - 1.0, b); }
    if x < -1.0 { Grows(-1.0 - x, b); }
  }

  lemma Grows(x: real, b: real)
    requires x >= 0.0 && b > 0.0
    ensures x * b >= 0.0 && (x > 0.0 ==> x * b > 0.0)
  {
  }

  lemma PrintedNear(s: string, decpt: int, n: nat, v: int, j: int, k: int)
    requires n >= 1 && Printed(s, decpt - 1 - k, n, Above(v, j, k), Below(j, k))
    ensures Near(s, decpt, n, v, j)
  {
    hide Above, Below, Denotes, Ten, Two, Pow10, Num, RoundHalfEven;
    var a, b := Above(v, j, k), Below(j, k);
    var low := if a < b then 1 else 0;
    var r := decpt - 1 - k + low;
    var c := if a < b then 10 * a else a;
    var m := RoundHalfEven(c * Pow10(n - 1), b);
    var q := k - low + 1 - n;
    assert Denotes(s, r == 1, n, m) && (r == 0 || r == 1);
    var x := v as real * Two(-j);
    var f := x * Ten(-q);
    Fraction(v, j, k);
    Rescaled(x, k, low, n, q, a, c, b);
    Within(c, b, Pow10(n - 1), m, f);
    Digits(s, r, n, m, decpt, q);
    Unscaled(x, q, f);
    Bounded(m as real, f, Ten(q), Num(s) as real * Ten(decpt - |s|), x);
    assert q == decpt - n - r;
    TenStep(q);
  }

  lemma Rescaled(x: real, k: int, low: int, n: nat, q: int, a: int, c: int, b: int)
    requires (low == 0 && c == a) || (low == 1 && c == 10 * a)
    requires n >= 1 && q == k - low + 1 - n && a as real == (x * Ten(-k)) * b as real
    ensures c as real * Pow10(n - 1) as real == (x * Ten(-q)) * b as real
  {
    hide Ten, Pow10;
    TenIs(n - 1);
    TenAdd(-k, low);
    TenAdd(-k + low, n - 1);
    assert -q == -k + low + (n - 1);
    TenZero();
    TenStep(0);
    assert c as real == a as real * Ten(low);
    Shifted(x, Ten(-k), Ten(low), Ten(n - 1), b as real);
  }

  lemma Shifted(x: real, y: real, l: real, p: real, z: real)
    ensures (((x * y) * z) * l) * p == (x * ((y * l) * p)) * z
  {
  }

  lemma Unscaled(x: real, q: int, f: real)
    requires f == x * Ten(-q)
    ensures f * Ten(q) == x
  {
    hide Ten;
    TenZero();
    TenAdd(-q, q);
    assert -q + q == 0;
    Swap(x, Ten(-q), Ten(q));
  }

  lemma Swap(a: real, b: real, c: real)
    ensures a * (b * c) == (a * b) * c
  {
  }

  // The digits with their point are the rounded value at its place.
  lemma Digits(s: string, r: int, n: nat, m: int, decpt: int, q: int)
    requires Denotes(s, r == 1, n, m) && (r == 0 || r == 1) && q == decpt - n - r
    ensures Num(s) as real * Ten(decpt - |s|) == m as real * Ten(q)
  {
    hide Num, Pow10, Ten;
    var e := n - |s| + r;
    TenIs(e);
    TenAdd(e, q);
    assert e + q == decpt - |s|;
    ProductAsReal(Num(s), Pow10(e));
    Swap(Num(s) as real, Ten(e), Ten(q));
  }

  lemma Bounded(m: real, f: real, u: real, printed: real, exact: real)
    requires u > 0.0 && -1.0 <= 2.0 * (m - f) <= 1.0 && printed == m * u && exact == f * u
    ensures -u <= 2.0 * (printed - exact) <= u
  {
    var d := 2.0 * (m - f);
    Factored(m, f, u);
    Grows(1.0 - d, u);
    Grows(d + 1.0, u);
    Spread(d, u);
  }

  lemma Spread(d: real, u: real)
    ensures (1.0 - d) * u == u - d * u && (d + 1.0) * u == d * u + u
    ensures (d - 1.0) * u == d * u - u && (-1.0 - d) * u == -(d * u) - u
  {
  }
}
