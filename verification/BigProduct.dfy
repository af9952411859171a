/**
  Long multiplication of word arrays, and multiplication by powers of five
  through a cache of repeated squares that grows when first needed.
 */
module BigProduct {
  import opened Arith
  import opened Bignum

  // ---------------------------------------------------------------- one row

  // A product of two words fits two words with two more words added.
  lemma RowWord(x: Word, y: Word, c: Word, d: Word)
    ensures 0 <= x * y + c + d < B * B
  {
    NonNeg(x, y);
    MulLe(x, B - 1, y);
    MulLe(y, B - 1, B - 1);
    assert (B - 1) * y == y * (B - 1);
  }

  lemma RowStep(vc: int, v0: int, va: int, o: int, z: int, z': int, c: int, x: int, y: int, p: int, pi: int, pj: int)
    requires vc + z * p == v0 + y * va * pj && o + B * z' == x * y + c + z && p == pj * pi
    ensures (vc + o * p) + z' * (B * p) == (v0 + c * p) + y * (va + x * pi) * pj
  {
    assert (o + B * z') * p == o * p + z' * (B * p);
    assert (x * y + c + z) * p == (x * y) * p + c * p + z * p;
    RowPlace(x, y, p, pi, pj, va);
  }

  lemma RowPlace(x: int, y: int, p: int, pi: int, pj: int, va: int)
    requires p == pj * pi
    ensures y * (va + x * pi) * pj == y * va * pj + (x * y) * p
  {
    assert y * (va + x * pi) == y * va + y * (x * pi);
    assert (y * va + y * (x * pi)) * pj == y * va * pj + (y * (x * pi)) * pj;
    Rotate(y, x, pi);
    assert (y * (x * pi)) * pj == ((x * y) * pi) * pj by { Regroup(x, y, pi); }
    RegroupTwo(x * y, pi, pj);
  }

  lemma Regroup(x: int, y: int, p: int)
    ensures y * (x * p) == (x * y) * p
  {
  }

  lemma RegroupTwo(a: int, b: int, c: int)
    ensures (a * b) * c == a * (c * b)
  {
  }

  lemma RowNext(t: seq<Word>, c: seq<Word>, a: seq<Word>, j: nat, i: nat, y: Word, z: int, z': int)
    requires i < |a| && j + i < |c| == |t|
    requires Val(t[..j + i]) + z * BP(j + i) == Val(c[..j + i]) + y * Val(a[..i]) * BP(j)
    requires t[j + i] + B * z' == a[i] * y + c[j + i] + z
    ensures Val(t[..j + (i + 1)]) + z' * BP(j + (i + 1)) == Val(c[..j + (i + 1)]) + y * Val(a[..i + 1]) * BP(j)
  {
    hide Val;
    assert j + (i + 1) == (j + i) + 1;
    ValPrefix(t, j + i);
    ValPrefix(c, j + i);
    ValPrefix(a, i);
    BPAdd(j, i);
    assert BP(j + i + 1) == B * BP(j + i);
    hide BP;
    RowStep(Val(t[..j + i]), Val(c[..j + i]), Val(a[..i]), t[j + i], z, z', c[j + i], a[i], y, BP(j + i), BP(i), BP(j));
  }

  // Adds y * a[..wa], shifted by j words, to c; c[j + wa] takes the carry.
  method AddRow(c: array<Word>, a: array<Word>, wa: nat, j: nat, y: Word)
    requires c != a && 1 <= wa <= a.Length && j + wa < c.Length
    modifies c
    ensures Val(c[..j + wa + 1]) == old(Val(c[..j + wa])) + y * Val(a[..wa]) * BP(j)
    ensures c[j + wa + 1..] == old(c[j + wa + 1..])
  {
    hide Val, BP;
    ghost var c0 := c[..];
    var carry: Word := 0;
    var i := 0;
    RowStart(c0, j, y);
    while i < wa
      invariant 0 <= i <= wa && |c0| == c.Length && c[j + i..] == c0[j + i..]
      invariant Val(c[..j + i]) + carry * BP(j + i) == Val(c0[..j + i]) + y * Val(a[..i]) * BP(j)
    {
      ghost var z, t := carry, c[..];
      assert c[j + i] == t[j + i] == c0[j + i];
      RowWord(a[i], y, c[j + i], carry);
      var p := a[i] * y + c[j + i] + carry;
      carry := p / B;
      c[j + i] := p % B;
      assert c[..j + i] == t[..j + i] && c[j + i + 1..] == c0[j + i + 1..];
      assert c[..][..j + i] == c[..j + i] && a[..][..i] == a[..i] && a[..][..i + 1] == a[..i + 1];
      RowNext(c[..], c0, a[..], j, i, y, z, carry);
      i := i + 1;
      assert c[..][..j + i] == c[..j + i];
    }
    ghost var w := c[..j + wa];
    c[j + wa] := carry;
    assert c[..j + wa + 1] == w + [carry];
    ValSnoc(w, carry);
    assert c0[..j + wa] == old(c[..j + wa]);
  }

  lemma RowStart(c: seq<Word>, j: nat, y: int)
    requires j <= |c|
    ensures Val(c[..j]) + 0 * BP(j) == Val(c[..j]) + y * Val([]) * BP(j)
  {
  }

  // ---------------------------------------------------------------- the product

  lemma ProductNext(va: int, vb: int, y: int, p: int)
    ensures va * vb + y * va * p == va * (vb + y * p)
  {
    Rotate(va, y, p);
    assert va * (vb + y * p) == va * vb + va * (y * p);
    assert y * va * p == y * (va * p);
  }

  // One row more: c now holds a times one word more of b.
  lemma RowDone(c: seq<Word>, c': seq<Word>, b: seq<Word>, j: nat, va: int)
    requires j < |b| && Val(c) == va * Val(b[..j]) && Val(c') == Val(c) + b[j] * va * BP(j)
    ensures Val(c') == va * Val(b[..j + 1])
  {
    hide Val, BP;
    ValPrefix(b, j);
    ProductNext(va, Val(b[..j]), b[j], BP(j));
  }

  lemma ZeroRow(c: seq<Word>, c': seq<Word>, b: seq<Word>, j: nat, va: int)
    requires j < |b| && b[j] == 0 && c' == c + [0] && Val(c) == va * Val(b[..j])
    ensures Val(c') == va * Val(b[..j + 1])
  {
    hide Val, BP;
    ValSnoc(c, 0);
    MulZero(BP(|c|));
    ValPrefix(b, j);
    MulZero(BP(j));
  }

  // c[..n] with zero words, in an array that was just allocated.
  method ClearWords(c: array<Word>, n: nat)
    requires n <= c.Length
    modifies c
    ensures forall i :: 0 <= i < n ==> c[i] == 0
  {
    for i := 0 to n
      invariant forall k :: 0 <= k < i ==> c[k] == 0
    {
      c[i] := 0;
    }
  }

  // The rows of a product; zero words of b are skipped.
  method Rows(c: array<Word>, a: array<Word>, wa: nat, b: array<Word>, wb: nat)
    requires c != a && c != b && wa <= a.Length && wb <= b.Length && wa + wb <= c.Length && (wb > 0 ==> wa > 0)
    requires forall i :: 0 <= i < wa + wb ==> c[i] == 0
    modifies c
    ensures Val(c[..wa + wb]) == Val(a[..wa]) * Val(b[..wb])
  {
    hide Val, BP;
    ghost var va := Val(a[..wa]);
    var j := 0;
    RowsStart(c[..wa], va, b[..0]);
    while j < wb
      invariant 0 <= j <= wb
      invariant forall i :: wa + j <= i < wa + wb ==> c[i] == 0
      invariant Val(c[..wa + j]) == va * Val(b[..j])
    {
      ghost var t, rest := c[..wa + j], c[j + wa + 1..];
      assert forall i :: wa + j + 1 <= i < wa + wb ==> c[i] == rest[i - (j + wa + 1)] == 0;
      assert b[..][..j] == b[..j] && b[..][..j + 1] == b[..j + 1];
      assert c[..wa + j + 1] == t + [0];
      if b[j] != 0 {
        assert t == c[..j + wa];
        AddRow(c, a, wa, j, b[j]);
        RowDone(t, c[..j + wa + 1], b[..], j, va);
        assert forall i :: wa + j + 1 <= i < wa + wb ==> c[i] == rest[i - (j + wa + 1)];
      } else {
        ZeroRow(t, c[..wa + j + 1], b[..], j, va);
      }
      j := j + 1;
      assert c[..j + wa] == c[..wa + j];
    }
  }

  lemma RowsStart(c: seq<Word>, va: int, b: seq<Word>)
    requires b == [] && forall i :: 0 <= i < |c| ==> c[i] == 0
    ensures Val(c) == va * Val(b)
  {
    ValZeros(c);
  }

  // A new number, the product of a and b, without zero words at the top.
  method Mult(a: Bigint, b: Bigint) returns (c: Bigint)
    requires a.Valid() && b.Valid()
    ensures fresh(c) && fresh(c.x) && c.wds <= c.x.Length && c.Value() == a.Value() * b.Value()
    ensures a.wds >= 1 || b.wds >= 1 ==> c.Valid()
    ensures c.wds <= a.wds + b.wds && (c.wds >= 1 ==> c.x[c.wds - 1] != 0)
  {
    hide Val, BP;
    var p, q := a, b;
    if p.wds < q.wds {
      p, q := q, p;
    }
    var wc := p.wds + q.wds;
    c := new Bigint(0);
    c.x := new Word[if wc > p.x.Length then 2 * p.x.Length else p.x.Length];
    ClearWords(c.x, wc);
    Rows(c.x, p.x, p.wds, q.x, q.wds);
    Rotate(p.Value(), q.Value(), 1);
    c.wds := wc;
    DropZeros(c);
  }

  method DropZeros(c: Bigint)
    requires c.wds <= c.x.Length && c.x.Length >= 1
    modifies c`wds
    ensures c.wds <= old(c.wds) && c.Value() == old(c.Value()) && (old(c.wds) >= 1 ==> c.Valid())
    ensures c.wds >= 1 ==> c.x[c.wds - 1] != 0
  {
    hide Val, BP;
    var wc := c.wds;
    while wc > 0 && c.x[wc - 1] == 0
      invariant 0 <= wc <= c.wds == old(c.wds) && Val(c.x[..wc]) == old(c.Value())
      invariant wc < c.wds ==> c.x[wc] == 0
    {
      ValTrim(c.x[..wc], wc - 1);
      assert c.x[..wc][..wc - 1] == c.x[..wc - 1];
      wc := wc - 1;
    }
    c.wds := wc;
  }

  // ---------------------------------------------------------------- powers of five

  function Pow5(k: nat): (r: int)
    ensures r >= 1
  {
    if k == 0 then 1 else 5 * Pow5(k - 1)
  }

  lemma {:induction false} Pow5Add(a: nat, b: nat)
    ensures Pow5(a + b) == Pow5(a) * Pow5(b)
  {
    if a > 0 {
      Pow5Add(a - 1, b);
      assert (5 * Pow5(a - 1)) * Pow5(b) == 5 * (Pow5(a - 1) * Pow5(b));
    }
  }

  lemma SmallPowers()
    ensures Pow5(0) == 1 && Pow5(1) == 5 && Pow5(2) == 25 && Pow5(3) == 125 && Pow5(4) == 625
  {
    assert Pow5(1) == 5 * Pow5(0);
    assert Pow5(2) == 5 * Pow5(1);
    assert Pow5(3) == 5 * Pow5(2);
    assert Pow5(4) == 5 * Pow5(3);
  }

  // The exponent that node i of the cache stands for.
  function Node(i: nat): (e: nat) { 4 * Pow2(i) }

  lemma NodeDouble(i: nat)
    ensures Node(i + 1) == Node(i) + Node(i) && Pow5(Node(i + 1)) == Pow5(Node(i)) * Pow5(Node(i))
  {
    Pow5Add(Node(i), Node(i));
  }

  // What is left of the exponent after bit i.
  lemma Halve(i: nat, k: nat)
    ensures Node(i) * k == Node(i + 1) * (k / 2) + (if k % 2 == 1 then Node(i) else 0)
  {
    var h := k / 2;
    assert k == 2 * h + k % 2;
    NodeDouble(i);
    hide Node;
    assert Node(i) * (2 * h) == (Node(i) + Node(i)) * h;
    assert Node(i) * k == Node(i) * (2 * h) + Node(i) * (k % 2);
  }

  lemma TakeBit(v: int, v': int, i: nat, k: nat, target: int)
    requires v * Pow5(Node(i) * k) == target && v' == if k % 2 == 1 then v * Pow5(Node(i)) else v
    ensures v' * Pow5(Node(i + 1) * (k / 2)) == target
  {
    Halve(i, k);
    hide Pow5, Node;
    NonNeg(Node(i + 1), k / 2);
    if k % 2 == 1 {
      Pow5Add(Node(i), Node(i + 1) * (k / 2));
      var p, q := Pow5(Node(i)), Pow5(Node(i + 1) * (k / 2));
      assert (v * p) * q == v * (p * q);
    }
  }

  // The low two bits of the exponent come first.
  lemma LowBits(v: int, k: nat)
    ensures (v * Pow5(k % 4)) * Pow5(Node(0) * (k / 4)) == v * Pow5(k)
    ensures k / 4 == 0 ==> v * Pow5(k % 4) == v * Pow5(k)
  {
    assert Node(0) == 4;
    Pow5Add(k % 4, 4 * (k / 4));
    assert k == k % 4 + 4 * (k / 4);
    hide Pow5;
    var p, q := Pow5(k % 4), Pow5(4 * (k / 4));
    assert (v * p) * q == v * (p * q);
  }

  class PowerCache {
    var p5s: seq<Bigint>

    constructor ()
      ensures p5s == [] && Valid()
    {
      p5s := [];
    }

    // Node i holds 5 to the 4 times 2 to the i.
    ghost predicate Valid()
      reads this, p5s, set n <- p5s :: n.x
    {
      forall i :: 0 <= i < |p5s| ==> Holds(p5s[i], i)
    }

    ghost predicate Apart(b: Bigint)
      reads this, p5s, b
    {
      forall i :: 0 <= i < |p5s| ==> p5s[i] != b && p5s[i].x != b.x
    }

    // b times 5 to the k. The argument is used up.
    method Pow5Mult(b: Bigint, k: nat) returns (r: Bigint)
      requires Valid() && b.Valid() && Apart(b)
      modifies this, b, b.x
      ensures Valid() && r.Valid() && Apart(r) && (r == b || fresh(r)) && (r.x == old(b.x) || fresh(r.x))
      ensures r.Value() == old(b.Value()) * Pow5(k)
      ensures old(p5s) <= p5s
      ensures forall n <- p5s[|old(p5s)|..] :: fresh(n) && fresh(n.x)
    {
      hide Val, BP, Pow2, Pow5, Node;
      SmallPowers();
      ghost var v := b.Value();
      r := b;
      if k % 4 != 0 {
        b.MultAdd(if k % 4 == 1 then 5 else if k % 4 == 2 then 25 else 125, 0);
      }
      Rotate(v, Pow5(k % 4), 1);
      LowBits(v, k);
      var e := k / 4;
      if e == 0 { return; }
      if p5s == [] {
        FirstNode();
        var n := new Bigint(625);
        p5s := [n];
      }
      r := Squares(r, e, v * Pow5(k));
    }

    method Squares(b: Bigint, k: nat, ghost target: int) returns (r: Bigint)
      requires Valid() && b.Valid() && Apart(b) && p5s != [] && k > 0
      requires b.Value() * Pow5(Node(0) * k) == target
      modifies this
      ensures Valid() && r.Valid() && Apart(r) && (r == b || (fresh(r) && fresh(r.x)))
      ensures r.Value() == target
      ensures old(p5s) <= p5s
      ensures forall n <- p5s[|old(p5s)|..] :: fresh(n) && fresh(n.x)
    {
      hide Val, BP, Pow2, Pow5, Node;
      r := b;
      var e, i := k, 0;
      while true
        invariant Valid() && r.Valid() && Apart(r) && (r == b || (fresh(r) && fresh(r.x)))
        invariant i < |p5s| && e > 0 && r.Value() * Pow5(Node(i) * e) == target
        invariant old(p5s) <= p5s && forall n <- p5s[|old(p5s)|..] :: fresh(n) && fresh(n.x)
        decreases e
      {
        ghost var w := r.Value();
        if e % 2 == 1 {
          r := Multiply(r, i);
        }
        TakeBit(w, r.Value(), i, e, target);
        e := e / 2;
        if e == 0 {
          LastBit(r.Value(), i);
          break;
        }
        if i + 1 == |p5s| {
          Extend(r);
        }
        i := i + 1;
      }
    }

    method Multiply(b: Bigint, i: nat) returns (r: Bigint)
      requires Valid() && b.Valid() && Apart(b) && i < |p5s|
      ensures fresh(r) && fresh(r.x) && r.Valid() && Apart(r)
      ensures r.Value() == b.Value() * Pow5(Node(i))
    {
      hide Val, BP, Pow2, Pow5, Node;
      r := Mult(b, p5s[i]);
    }

    // The square of the last node becomes the next one.
    method Extend(ghost r: Bigint)
      requires Valid() && p5s != [] && Apart(r)
      modifies this
      ensures Valid() && Apart(r) && |p5s| == |old(p5s)| + 1 && old(p5s) <= p5s
      ensures fresh(p5s[|p5s| - 1]) && fresh(p5s[|p5s| - 1].x)
    {
      hide Val, BP, Pow2, Pow5, Node;
      var last := p5s[|p5s| - 1];
      var n := Mult(last, last);
      NodeDouble(|p5s| - 1);
      NoWords();
      p5s := p5s + [n];
    }
  }

  ghost predicate Holds(n: Bigint, i: nat)
    reads n, n.x
  {
    n.Valid() && n.wds >= 1 && n.Value() == Pow5(Node(i))
  }

  lemma FirstNode()
    ensures Pow5(Node(0)) == 625
  {
    SmallPowers();
  }

  lemma LastBit(v: int, i: nat)
    ensures v * Pow5(Node(i + 1) * 0) == v
  {
  }
}
