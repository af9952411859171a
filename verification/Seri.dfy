/**
  Serialization of Lua values: the byte format, the chained block writer and
  the reader. A table is its array part and its other pairs in the order of
  traversal; reals and pointers are their eight bytes.
 */
module Seri {
  import opened Common

  const MAX_COOKIE := 32
  const MAX_DEPTH := 32
  const BLOCK_SIZE := 128

  datatype Value =
    | Nil
    | Boolean(b: bool)
    | Integer(i: int)
    | Real(bits: seq<byte>)
    | Pointer(bits: seq<byte>)
    | Str(s: seq<byte>)
    | Table(arr: seq<Value>, pairs: seq<Pair>)
    | Unsupported

  datatype Pair = Pair(key: Value, val: Value)

  // What reading a stream yields: a value and the rest, or an invalid stream.
  datatype Read<T> = Invalid | Got(value: T, rest: seq<byte>)

  // A value that Lua can hold: 64-bit integers, no nil as a key, and lengths
  // that fit the int in which the program keeps them.
  ghost predicate Proper(v: Value) {
    match v
    case Integer(i) => -0x8000_0000_0000_0000 <= i < 0x8000_0000_0000_0000
    case Real(bits) => |bits| == 8
    case Pointer(bits) => |bits| == 8
    case Str(s) => |s| < 0x8000_0000
    case Table(arr, pairs) =>
      && |arr| < 0x8000_0000
      && (forall i :: 0 <= i < |arr| ==> Proper(arr[i]))
      && forall i :: 0 <= i < |pairs| ==> pairs[i].key != Nil && Proper(pairs[i].key) && Proper(pairs[i].val)
    case _ => true
  }

  // ---------------------------------------------------------------- numbers as bytes

  function Pow256(n: nat): (r: int)
    ensures r >= 1
  {
    if n == 0 then 1 else 256 * Pow256(n - 1)
  }

  // n bytes, the low one first.
  function Le(v: int, n: nat): (r: seq<byte>)
    ensures |r| == n
    decreases n
  {
    if n == 0 then [] else [v % 256] + Le(v / 256, n - 1)
  }

  function FromLe(s: seq<byte>): (r: int)
    ensures r >= 0
  {
    if s == [] then 0 else s[0] + 256 * FromLe(s[1..])
  }

  lemma {:induction false} LeRoundTrip(v: int, n: nat)
    requires 0 <= v < Pow256(n)
    ensures FromLe(Le(v, n)) == v
  {
    if n > 0 {
      LeRoundTrip(v / 256, n - 1);
      assert Le(v, n)[1..] == Le(v / 256, n - 1);
    }
  }

  lemma Powers()
    ensures Pow256(1) == 0x100 && Pow256(2) == 0x1_0000 && Pow256(4) == 0x1_0000_0000
    ensures Pow256(8) == 0x1_0000_0000_0000_0000
  {
    assert Pow256(1) == 256 * Pow256(0);
    assert Pow256(2) == 256 * Pow256(1);
    assert Pow256(3) == 256 * Pow256(2);
    assert Pow256(4) == 256 * Pow256(3);
    assert Pow256(5) == 256 * Pow256(4);
    assert Pow256(6) == 256 * Pow256(5);
    assert Pow256(7) == 256 * Pow256(6);
    assert Pow256(8) == 256 * Pow256(7);
  }

  // A two's complement number of n bits from its unsigned reading.
  function Signed(u: int, m: int): (r: int)
    requires m > 0
  {
    if u < m / 2 then u else u - m
  }

  // ---------------------------------------------------------------- writing

  function Combine(t: nat, c: nat): (r: byte)
    requires t < 8 && c < 32
    ensures r % 8 == t && r / 8 == c
  {
    t + 8 * c
  }

  function PackInteger(v: int): (r: seq<byte>)
    ensures |r| >= 1
  {
    if v == 0 then [Combine(2, 0)]
    else if !(-0x8000_0000 <= v < 0x8000_0000) then [Combine(2, 6)] + Le(v % 0x1_0000_0000_0000_0000, 8)
    else if v < 0 then [Combine(2, 4)] + Le(v + 0x1_0000_0000, 4)
    else if v < 0x100 then [Combine(2, 1)] + Le(v, 1)
    else if v < 0x10000 then [Combine(2, 2)] + Le(v, 2)
    else [Combine(2, 4)] + Le(v, 4)
  }

  function PackString(s: seq<byte>): (r: seq<byte>)
    ensures |r| >= 1
  {
    if |s| < MAX_COOKIE then [Combine(4, |s|)] + s
    else if |s| < 0x10000 then [Combine(5, 2)] + Le(|s|, 2) + s
    else [Combine(5, 4)] + Le(|s|, 4) + s
  }

  function PackHeader(n: nat): (r: seq<byte>)
    ensures |r| >= 1
  {
    if n >= MAX_COOKIE - 1 then [Combine(6, MAX_COOKIE - 1)] + PackInteger(n) else [Combine(6, n)]
  }

  // The bytes of a value, or None when it is too deep or has no format.
  function PackOne(v: Value, depth: nat): (r: Option<seq<byte>>)
    decreases v, 1, 0
  {
    if depth > MAX_DEPTH then None
    else match v
      case Nil => Some([Combine(0, 0)])
      case Boolean(b) => Some([Combine(1, if b then 1 else 0)])
      case Integer(i) => Some(PackInteger(i))
      case Real(bits) => Some([Combine(2, 8)] + bits)
      case Pointer(bits) => Some([Combine(3, 0)] + bits)
      case Str(s) => Some(PackString(s))
      case Table(arr, pairs) =>
        var a := PackArray(v, 0, depth + 1);
        var h := PackPairs(v, 0, depth + 1);
        if a.None? || h.None? then None else Some(PackHeader(|arr|) + a.value + h.value)
      case Unsupported => None
  }

  // The array part of t from position i on.
  function PackArray(t: Value, i: nat, depth: nat): (r: Option<seq<byte>>)
    requires t.Table? && i <= |t.arr|
    decreases t, 0, |t.arr| - i
  {
    if i == |t.arr| then Some([])
    else
      var a := PackOne(t.arr[i], depth);
      var b := PackArray(t, i + 1, depth);
      if a.None? || b.None? then None else Some(a.value + b.value)
  }

  // The pairs of t from position i on, closed by a nil.
  function PackPairs(t: Value, i: nat, depth: nat): (r: Option<seq<byte>>)
    requires t.Table? && i <= |t.pairs|
    decreases t, 0, |t.pairs| - i
  {
    if i == |t.pairs| then Some([Combine(0, 0)])
    else
      var k := PackOne(t.pairs[i].key, depth);
      var v := PackOne(t.pairs[i].val, depth);
      var b := PackPairs(t, i + 1, depth);
      if k.None? || v.None? || b.None? then None else Some(k.value + v.value + b.value)
  }

  // Several values, one after the other.
  function Pack(vs: seq<Value>): (r: Option<seq<byte>>) {
    if vs == [] then Some([])
    else
      var a := Pack(vs[..|vs| - 1]);
      var b := PackOne(vs[|vs| - 1], 0);
      if a.None? || b.None? then None else Some(a.value + b.value)
  }

  // ---------------------------------------------------------------- reading

  function Take(s: seq<byte>, n: int): (r: Read<seq<byte>>)
    ensures r.Got? <==> 0 <= n <= |s|
    ensures r.Got? ==> r.value + r.rest == s && |r.value| == n
  {
    if 0 <= n <= |s| then Got(s[..n], s[n..]) else Invalid
  }

  function GetInteger(cookie: nat, s: seq<byte>): (r: Read<int>)
    ensures r.Got? ==> |r.rest| <= |s|
  {
    if cookie == 0 then Got(0, s)
    else if cookie == 1 || cookie == 2 then
      var t := Take(s, cookie);
      if t.Invalid? then Invalid else Got(FromLe(t.value), t.rest)
    else if cookie == 4 then
      var t := Take(s, 4);
      if t.Invalid? then Invalid else Got(Signed(FromLe(t.value), 0x1_0000_0000), t.rest)
    else if cookie == 6 then
      var t := Take(s, 8);
      if t.Invalid? then Invalid else Got(Signed(FromLe(t.value), 0x1_0000_0000_0000_0000), t.rest)
    else Invalid
  }

  function GetLong(n: nat, s: seq<byte>): (r: Read<Value>)
    ensures r.Got? ==> |r.rest| <= |s|
  {
    var t := Take(s, n);
    if t.Invalid? then Invalid
    else
      var u := Take(t.rest, FromLe(t.value));
      if u.Invalid? then Invalid else Got(Str(u.value), u.rest)
  }

  function GetBits(s: seq<byte>): (r: Read<seq<byte>>)
    ensures r.Got? ==> |r.rest| <= |s|
  {
    Take(s, 8)
  }

  // The size of a table's array part.
  function GetSize(cookie: nat, s: seq<byte>): (r: Read<int>)
    ensures r.Got? ==> |r.rest| <= |s|
  {
    if cookie != MAX_COOKIE - 1 then Got(cookie, s)
    else if s == [] || s[0] % 8 != 2 || s[0] / 8 == 8 then Invalid
    else
      var r := GetInteger(s[0] / 8, s[1..]);
      if r.Invalid? then Invalid else Got(Int32(r.value), r.rest)
  }

  // A 64-bit integer kept in an int.
  function Int32(v: int): (r: int) { (v + 0x8000_0000) % 0x1_0000_0000 - 0x8000_0000 }

  function UnpackOne(s: seq<byte>): (r: Read<Value>)
    ensures r.Got? ==> |r.rest| < |s|
    decreases |s|, 0
  {
    if s == [] then Invalid else PushValue(s[0] % 8, s[0] / 8, s[1..])
  }

  function PushValue(ty: nat, cookie: nat, s: seq<byte>): (r: Read<Value>)
    ensures r.Got? ==> |r.rest| <= |s|
    decreases |s|, 3
  {
    match ty
    case 0 => Got(Nil, s)
    case 1 => Got(Boolean(cookie != 0), s)
    case 2 =>
      if cookie == 8 then
        var t := GetBits(s);
        if t.Invalid? then Invalid else Got(Real(t.value), t.rest)
      else
        var t := GetInteger(cookie, s);
        if t.Invalid? then Invalid else Got(Integer(t.value), t.rest)
    case 3 =>
      var t := GetBits(s);
      if t.Invalid? then Invalid else Got(Pointer(t.value), t.rest)
    case 4 =>
      var t := Take(s, cookie);
      if t.Invalid? then Invalid else Got(Str(t.value), t.rest)
    case 5 => if cookie == 2 || cookie == 4 then GetLong(cookie, s) else Invalid
    case 6 => UnpackTable(cookie, s)
    case _ => Invalid
  }

  function UnpackTable(cookie: nat, s: seq<byte>): (r: Read<Value>)
    ensures r.Got? ==> |r.rest| <= |s|
    decreases |s|, 2
  {
    var n := GetSize(cookie, s);
    if n.Invalid? then Invalid
    else
      var a := UnpackArray(n.rest, n.value);
      if a.Invalid? then Invalid
      else
        var h := UnpackPairs(a.rest);
        if h.Invalid? then Invalid else Got(Table(a.value, h.value), h.rest)
  }

  function UnpackArray(s: seq<byte>, n: int): (r: Read<seq<Value>>)
    ensures r.Got? ==> |r.rest| <= |s|
    decreases |s|, 1
  {
    if n <= 0 then Got([], s)
    else
      var v := UnpackOne(s);
      if v.Invalid? then Invalid
      else
        var t := UnpackArray(v.rest, n - 1);
        if t.Invalid? then Invalid else Got([v.value] + t.value, t.rest)
  }

  // Pairs up to the nil that closes them.
  function UnpackPairs(s: seq<byte>): (r: Read<seq<Pair>>)
    ensures r.Got? ==> |r.rest| <= |s|
    decreases |s|, 1
  {
    var k := UnpackOne(s);
    if k.Invalid? then Invalid
    else if k.value == Nil then Got([], k.rest)
    else
      var v := UnpackOne(k.rest);
      if v.Invalid? then Invalid
      else
        var t := UnpackPairs(v.rest);
        if t.Invalid? then Invalid else Got([Pair(k.value, v.value)] + t.value, t.rest)
  }

  function Unpack(s: seq<byte>): (r: Option<seq<Value>>)
    decreases |s|
  {
    if s == [] then Some([])
    else
      var v := UnpackOne(s);
      if v.Invalid? then None
      else
        var t := Unpack(v.rest);
        if t.None? then None else Some([v.value] + t.value)
  }

  // ---------------------------------------------------------------- the round trip

  lemma TakeBack(a: seq<byte>, rest: seq<byte>)
    ensures Take(a + rest, |a|) == Got(a, rest)
  {
  }

  lemma IntegerBack(v: int, rest: seq<byte>)
    requires -0x8000_0000_0000_0000 <= v < 0x8000_0000_0000_0000
    ensures var p := PackInteger(v);
      p[0] % 8 == 2 && p[0] / 8 != 8 && GetInteger(p[0] / 8, p[1..] + rest) == Got(v, rest)
  {
    var p := PackInteger(v);
    hide Pow256, Le, FromLe;
    Powers();
    var n := |p| - 1;
    var u := if v == 0 then 0 else if !(-0x8000_0000 <= v < 0x8000_0000) then v % 0x1_0000_0000_0000_0000
             else if v < 0 then v + 0x1_0000_0000 else v;
    if v == 0 {
      assert p[1..] + rest == rest;
    } else {
      assert p[1..] == Le(u, n);
      LeRoundTrip(u, n);
      TakeBack(Le(u, n), rest);
    }
  }

  lemma StringBack(s: seq<byte>, rest: seq<byte>)
    requires |s| < 0x8000_0000
    ensures UnpackOne(PackString(s) + rest) == Got(Str(s), rest)
  {
    hide Pow256, Le, FromLe, Combine, Take;
    Powers();
    var p := PackString(s);
    TakeBack(s, rest);
    if |s| < MAX_COOKIE {
      assert (p + rest)[1..] == s + rest;
    } else {
      var n := if |s| < 0x10000 then 2 else 4;
      LeRoundTrip(|s|, n);
      TakeBack(Le(|s|, n), s + rest);
      assert (p + rest)[1..] == Le(|s|, n) + (s + rest);
    }
  }

  lemma SizeBack(n: nat, rest: seq<byte>)
    requires n < 0x8000_0000
    ensures var p := PackHeader(n); p[0] % 8 == 6 && GetSize(p[0] / 8, p[1..] + rest) == Got(n, rest)
  {
    hide PackInteger, GetInteger, Combine;
    var p := PackHeader(n);
    if n >= MAX_COOKIE - 1 {
      IntegerBack(n, rest);
      var q := PackInteger(n);
      assert p[1..] + rest == q + rest && (q + rest)[1..] == q[1..] + rest;
    } else {
      assert p[1..] + rest == rest;
    }
  }

  // A tag byte in front of what the tag announces.
  lemma Tagged(t: byte, body: seq<byte>, rest: seq<byte>)
    ensures UnpackOne([t] + body + rest) == PushValue(t % 8, t / 8, body + rest)
  {
    assert ([t] + body + rest)[1..] == body + rest;
  }

  // Reading a packed value gives it back and leaves what follows.
  lemma {:induction false} OneBack(v: Value, depth: nat, rest: seq<byte>)
    requires Proper(v) && PackOne(v, depth).Some?
    ensures UnpackOne(PackOne(v, depth).value + rest) == Got(v, rest)
    decreases v, 1, 0
  {
    hide PackInteger, PackString, PackHeader, PackArray, PackPairs, UnpackTable, GetInteger, Take;
    match v
    case Nil => Tagged(Combine(0, 0), [], rest); Same(Combine(0, 0), rest);
    case Boolean(b) => Tagged(Combine(1, if b then 1 else 0), [], rest); Same(Combine(1, if b then 1 else 0), rest);
    case Integer(i) => IntegerBack(i, rest); Split(PackInteger(i), rest);
    case Real(bits) => Tagged(Combine(2, 8), bits, rest); TakeBack(bits, rest);
    case Pointer(bits) => Tagged(Combine(3, 0), bits, rest); TakeBack(bits, rest);
    case Str(s) => StringBack(s, rest);
    case Table(_, _) => TableBack(v, depth, rest);
  }

  lemma Same(t: byte, rest: seq<byte>)
    ensures [t] + [] + rest == [t] + rest && [] + rest == rest
  {
  }

  lemma Split(p: seq<byte>, rest: seq<byte>)
    requires |p| >= 1
    ensures UnpackOne(p + rest) == PushValue(p[0] % 8, p[0] / 8, p[1..] + rest)
  {
    assert (p + rest)[1..] == p[1..] + rest;
  }

  lemma {:induction false} TableBack(v: Value, depth: nat, rest: seq<byte>)
    requires v.Table? && Proper(v) && PackOne(v, depth).Some?
    ensures UnpackOne(PackOne(v, depth).value + rest) == Got(v, rest)
    decreases v, 0, |v.arr| + |v.pairs| + 1
  {
    hide PackInteger, PackString, PackHeader, PackArray, PackPairs, GetInteger, Take, UnpackArray, UnpackPairs, Proper, GetSize;
    var p := PackHeader(|v.arr|);
    var a, h := PackArray(v, 0, depth + 1).value, PackPairs(v, 0, depth + 1).value;
    assert |v.arr| < 0x8000_0000 by { ProperSize(v); }
    SizeBack(|v.arr|, a + (h + rest));
    ArrayBack(v, 0, depth + 1, h + rest);
    PairsBack(v, 0, depth + 1, rest);
    assert p + a + h + rest == p + (a + (h + rest));
    Split(p, a + (h + rest));
    assert v.arr[0..] == v.arr && v.pairs[0..] == v.pairs;
  }

  lemma ProperSize(v: Value)
    requires v.Table? && Proper(v)
    ensures |v.arr| < 0x8000_0000
  {
  }

  lemma {:induction false} ArrayBack(t: Value, i: nat, depth: nat, rest: seq<byte>)
    requires t.Table? && Proper(t) && i <= |t.arr| && PackArray(t, i, depth).Some?
    ensures UnpackArray(PackArray(t, i, depth).value + rest, |t.arr| - i) == Got(t.arr[i..], rest)
    decreases t, 0, |t.arr| - i
  {
    hide PackOne, UnpackOne, PackPairs, UnpackPairs;
    if i < |t.arr| {
      var a, b := PackOne(t.arr[i], depth).value, PackArray(t, i + 1, depth).value;
      OneBack(t.arr[i], depth, b + rest);
      ArrayBack(t, i + 1, depth, rest);
      assert a + b + rest == a + (b + rest);
      assert t.arr[i..] == [t.arr[i]] + t.arr[i + 1..];
    } else {
      assert PackArray(t, i, depth).value + rest == rest && t.arr[i..] == [];
    }
  }

  lemma {:induction false} PairsBack(t: Value, i: nat, depth: nat, rest: seq<byte>)
    requires t.Table? && Proper(t) && i <= |t.pairs| && PackPairs(t, i, depth).Some?
    ensures UnpackPairs(PackPairs(t, i, depth).value + rest) == Got(t.pairs[i..], rest)
    decreases t, 0, |t.pairs| - i
  {
    hide PackOne, UnpackOne, PackArray, UnpackArray;
    if i < |t.pairs| {
      var p := t.pairs[i];
      var k, v, b := PackOne(p.key, depth).value, PackOne(p.val, depth).value, PackPairs(t, i + 1, depth).value;
      OneBack(p.key, depth, v + (b + rest));
      OneBack(p.val, depth, b + rest);
      PairsBack(t, i + 1, depth, rest);
      assert k + v + b + rest == k + (v + (b + rest));
      assert t.pairs[i..] == [p] + t.pairs[i + 1..];
    } else {
      NilBack(rest);
      assert t.pairs[i..] == [];
    }
  }

  lemma NilBack(rest: seq<byte>)
    ensures UnpackOne([Combine(0, 0)] + rest) == Got(Nil, rest)
  {
    Tagged(Combine(0, 0), [], rest);
    Same(Combine(0, 0), rest);
  }

  // Whatever pack accepts, unpack gives back.
  lemma {:induction false} RoundTrip(vs: seq<Value>)
    requires (forall i :: 0 <= i < |vs| ==> Proper(vs[i])) && Pack(vs).Some?
    ensures Unpack(Pack(vs).value) == Some(vs)
  {
    PackedBack(vs, []);
    assert Pack(vs).value + [] == Pack(vs).value && vs + [] == vs;
  }

  lemma {:induction false} PackedBack(vs: seq<Value>, rest: seq<byte>)
    requires (forall i :: 0 <= i < |vs| ==> Proper(vs[i])) && Pack(vs).Some? && Unpack(rest).Some?
    ensures Unpack(Pack(vs).value + rest) == Some(vs + Unpack(rest).value)
  {
    hide PackOne, UnpackOne;
    if vs == [] {
      assert [] + rest == rest && vs + Unpack(rest).value == Unpack(rest).value;
    } else {
      var n := |vs| - 1;
      var a, b := Pack(vs[..n]).value, PackOne(vs[n], 0).value;
      OneBack(vs[n], 0, rest);
      OneMore(b, vs[n], rest);
      PackedBack(vs[..n], b + rest);
      assert a + b + rest == a + (b + rest);
      assert vs[..n] + ([vs[n]] + Unpack(rest).value) == vs + Unpack(rest).value;
    }
  }

  lemma OneMore(b: seq<byte>, v: Value, rest: seq<byte>)
    requires UnpackOne(b + rest) == Got(v, rest) && Unpack(rest).Some?
    ensures Unpack(b + rest) == Some([v] + Unpack(rest).value)
  {
    assert UnpackOne([]) == Invalid;
  }

  // ---------------------------------------------------------------- what pack accepts

  // Every value inside v, v at the given depth, has a format and is not deeper
  // than the limit.
  ghost predicate Within(v: Value, depth: nat) {
    && depth <= MAX_DEPTH && v != Unsupported
    && (v.Table? ==>
      && (forall i :: 0 <= i < |v.arr| ==> Within(v.arr[i], depth + 1))
      && forall i :: 0 <= i < |v.pairs| ==> Within(v.pairs[i].key, depth + 1) && Within(v.pairs[i].val, depth + 1))
  }

  lemma {:induction false} AcceptsOne(v: Value, depth: nat)
    ensures PackOne(v, depth).Some? <==> Within(v, depth)
    decreases v, 1, 0
  {
    hide PackArray, PackPairs, PackInteger, PackString, PackHeader;
    if v.Table? {
      AcceptsArray(v, 0, depth + 1);
      AcceptsPairs(v, 0, depth + 1);
    }
  }

  lemma {:induction false} AcceptsArray(t: Value, i: nat, depth: nat)
    requires t.Table? && i <= |t.arr|
    ensures PackArray(t, i, depth).Some? <==> forall j :: i <= j < |t.arr| ==> Within(t.arr[j], depth)
    decreases t, 0, |t.arr| - i
  {
    hide PackOne, PackPairs, Within;
    if i < |t.arr| {
      AcceptsOne(t.arr[i], depth);
      AcceptsArray(t, i + 1, depth);
    }
  }

  lemma {:induction false} AcceptsPairs(t: Value, i: nat, depth: nat)
    requires t.Table? && i <= |t.pairs|
    ensures PackPairs(t, i, depth).Some? <==>
      forall j :: i <= j < |t.pairs| ==> Within(t.pairs[j].key, depth) && Within(t.pairs[j].val, depth)
    decreases t, 0, |t.pairs| - i
  {
    hide PackOne, PackArray, Within;
    if i < |t.pairs| {
      AcceptsOne(t.pairs[i].key, depth);
      AcceptsOne(t.pairs[i].val, depth);
      AcceptsPairs(t, i + 1, depth);
    }
  }

  // ---------------------------------------------------------------- the bytes

  // The tag byte and the width of every 64-bit integer; 5 gives the bytes 10 and 5.
  lemma IntegerBytes(v: int)
    requires -0x8000_0000_0000_0000 <= v < 0x8000_0000_0000_0000
    ensures PackInteger(0) == [2]
    ensures 0 < v < 0x100 ==> PackInteger(v) == [10, v]
    ensures 0x100 <= v < 0x10000 ==> PackInteger(v) == [18, v % 256, v / 256]
    ensures 0x10000 <= v < 0x8000_0000 ==> Laid(PackInteger(v), 34, 4, v)
    ensures -0x8000_0000 <= v < 0 ==> Laid(PackInteger(v), 34, 4, v + 0x1_0000_0000)
    ensures v >= 0x8000_0000 ==> Laid(PackInteger(v), 50, 8, v)
    ensures v < -0x8000_0000 ==> Laid(PackInteger(v), 50, 8, v + 0x1_0000_0000_0000_0000)
  {
    hide PackInteger, Laid;
    ShortBytes(v);
    if -0x8000_0000 <= v < 0 || 0x10000 <= v < 0x8000_0000 {
      WideBytes(v, 34, 4, 0x1_0000_0000);
    } else if v != 0 && !(0 < v < 0x10000) {
      WideBytes(v, 50, 8, 0x1_0000_0000_0000_0000);
    }
  }

  lemma ShortBytes(v: int)
    ensures PackInteger(0) == [2]
    ensures 0 < v < 0x100 ==> PackInteger(v) == [10, v]
    ensures 0x100 <= v < 0x10000 ==> PackInteger(v) == [18, v % 256, v / 256]
  {
    LowBytes(v);
    hide Le;
  }

  lemma WideBytes(v: int, tag: byte, n: nat, m: int)
    requires -m / 2 <= v < m / 2 && !(0 <= v < 0x10000)
    requires if -0x8000_0000 <= v < 0x8000_0000 then tag == 34 && n == 4 && m == 0x1_0000_0000
      else tag == 50 && n == 8 && m == 0x1_0000_0000_0000_0000
    ensures Laid(PackInteger(v), tag, n, if v < 0 then v + m else v)
  {
    hide Pow256, Le, FromLe;
    var u := if v < 0 then v + m else v;
    Powers();
    LeRoundTrip(u, n);
    WideForm(v, tag, n, m, u);
    assert ([tag] + Le(u, n))[1..] == Le(u, n);
  }

  lemma WideForm(v: int, tag: byte, n: nat, m: int, u: int)
    requires !(0 <= v < 0x10000) && u == if v < 0 then v + m else v
    requires if -0x8000_0000 <= v < 0x8000_0000 then tag == 34 && n == 4 && m == 0x1_0000_0000
      else tag == 50 && n == 8 && m == 0x1_0000_0000_0000_0000 && -m / 2 <= v < m / 2
    ensures PackInteger(v) == [tag] + Le(u, n)
  {
    hide Le;
    assert n == 8 ==> u == v % m;
  }

  // A tag byte before n bytes whose number is u, the low one first.
  ghost predicate Laid(s: seq<byte>, tag: byte, n: nat, u: int) {
    |s| == 1 + n && s[0] == tag && FromLe(s[1..]) == u
  }

  lemma LowBytes(v: int)
    ensures 0 <= v < 0x100 ==> Le(v, 1) == [v]
    ensures 0 <= v < 0x10000 ==> Le(v, 2) == [v % 256, v / 256]
  {
    LastByte(v);
    LastByte(v / 256);
    hide Le;
    assert 0 <= v < 0x10000 ==> 0 <= v / 256 < 256;
  }

  lemma LastByte(v: int)
    ensures Le(v, 1) == [v % 256] && Le(v, 2) == [v % 256] + Le(v / 256, 1)
  {
    assert Le(v / 256, 0) == [];
  }

  // No form in which an integer can be read is shorter than the one written.
  lemma Shortest(s: seq<byte>, v: int)
    requires UnpackOne(s) == Got(Integer(v), [])
    ensures |PackInteger(v)| <= |s|
  {
    hide UnpackOne, GetInteger, PackInteger;
    ReadsInteger(s, v);
    WidthNeeded(s[0] / 8, s[1..], v);
  }

  lemma ReadsInteger(s: seq<byte>, v: int)
    requires UnpackOne(s) == Got(Integer(v), [])
    ensures s != [] && GetInteger(s[0] / 8, s[1..]) == Got(v, [])
  {
    hide GetInteger, GetBits, GetLong, Take, UnpackTable;
    assert s != [] && PushValue(s[0] % 8, s[0] / 8, s[1..]) == Got(Integer(v), []);
    TableOnly(s[0] / 8, s[1..]);
    LongOnly(s[0] / 8, s[1..]);
  }

  lemma TableOnly(c: nat, w: seq<byte>)
    ensures var r := UnpackTable(c, w); r.Got? ==> r.value.Table?
  {
    hide GetSize, UnpackArray, UnpackPairs;
  }

  lemma LongOnly(c: nat, w: seq<byte>)
    ensures var r := GetLong(c, w); r.Got? ==> r.value.Str?
  {
    hide Take, FromLe;
  }

  lemma WidthNeeded(c: nat, w: seq<byte>, v: int)
    requires GetInteger(c, w) == Got(v, [])
    ensures |PackInteger(v)| <= 1 + |w|
  {
    hide PackInteger, FromLe, Pow256, Take;
    IntegerLength(v);
    TakeAll(w, c);
    TakeAll(w, 4);
    TakeAll(w, 8);
    FromLeBound(w);
    Powers();
  }

  lemma TakeAll(w: seq<byte>, n: nat)
    ensures Take(w, n).Got? && Take(w, n).rest == [] ==> n == |w| && Take(w, n).value == w
  {
  }

  lemma IntegerLength(v: int)
    ensures 0 <= v < 0x100 ==> |PackInteger(v)| <= 2
    ensures 0 <= v < 0x10000 ==> |PackInteger(v)| <= 3
    ensures -0x8000_0000 <= v < 0x8000_0000 ==> |PackInteger(v)| <= 5
    ensures |PackInteger(v)| <= 9
    ensures |PackInteger(0)| == 1
  {
  }

  lemma {:induction false} FromLeBound(s: seq<byte>)
    ensures FromLe(s) < Pow256(|s|)
  {
    if s != [] { FromLeBound(s[1..]); }
  }

  // Strings below 32 bytes carry their length in the tag, others in a word or a dword.
  lemma StringBytes(s: seq<byte>)
    requires |s| < 0x8000_0000
    ensures |s| < 32 ==> PackString(s) == [4 + 8 * |s|] + s
    ensures 32 <= |s| < 0x10000 ==> PackString(s) == [21, |s| % 256, |s| / 256] + s
    ensures 0x10000 <= |s| ==> Laid(PackString(s)[..|PackString(s)| - |s|], 37, 4, |s|)
    ensures PackString(s)[|PackString(s)| - |s|..] == s
  {
    Powers();
    LowBytes(|s|);
    if |s| >= 0x10000 {
      LeRoundTrip(|s|, 4);
      var h := [37] + Le(|s|, 4);
      assert PackString(s) == h + s && h[1..] == Le(|s|, 4);
    }
  }

  // The bytes of a value that is no table.
  ghost predicate Plain(v: Value, r: seq<byte>) {
    match v
    case Nil => r == [0]
    case Boolean(b) => r == [if b then 9 else 1]
    case Integer(i) => r == PackInteger(i)
    case Real(bits) => r == [66] + bits
    case Pointer(bits) => r == [3] + bits
    case Str(s) => r == PackString(s)
    case _ => true
  }

  lemma PlainBytes(v: Value, depth: nat)
    requires depth <= 32 && !v.Table? && !v.Unsupported?
    ensures PackOne(v, depth).Some? && Plain(v, PackOne(v, depth).value)
  {
    hide PackInteger, PackString, PackHeader, PackArray, PackPairs;
  }

  // A table of up to 30 array elements carries their number in its tag.
  lemma TableBytes(n: nat)
    requires n < 0x8000_0000
    ensures n <= 30 ==> PackHeader(n) == [6 + 8 * n]
    ensures 31 <= n < 0x100 ==> PackHeader(n) == [254, 10, n]
    ensures 0x100 <= n < 0x10000 ==> PackHeader(n) == [254, 18, n % 256, n / 256]
    ensures 0x10000 <= n ==> PackHeader(n)[0] == 254 && Laid(PackHeader(n)[1..], 34, 4, n)
  {
    hide PackInteger;
    IntegerBytes(n);
    if n >= 31 { assert PackHeader(n)[1..] == PackInteger(n); }
  }

  // n tables, one in the other.
  function Nest(n: nat): (r: Value) {
    if n == 0 then Nil else Table([Nest(n - 1)], [])
  }

  // 32 tables one in the other are accepted, 33 are not.
  lemma {:induction false} DepthExactly(n: nat, depth: nat)
    ensures PackOne(Nest(n), depth).Some? <==> n + depth <= 32
  {
    if n > 0 && depth <= 32 {
      var t := Nest(n);
      DepthExactly(n - 1, depth + 1);
      assert PackArray(t, 1, depth + 1) == Some([]);
      assert PackPairs(t, 0, depth + 1) == Some([0]);
      assert PackArray(t, 0, depth + 1).Some? <==> PackOne(t.arr[0], depth + 1).Some?;
    }
  }

  // ---------------------------------------------------------------- the block writer

  ghost function Flat(bs: seq<seq<byte>>): (r: seq<byte>) {
    if bs == [] then [] else Flat(bs[..|bs| - 1]) + bs[|bs| - 1]
  }

  lemma FlatSnoc(bs: seq<seq<byte>>, b: seq<byte>)
    ensures Flat(bs + [b]) == Flat(bs) + b
  {
    assert (bs + [b])[..|bs|] == bs;
  }

  // A chain of blocks; those before the last are full.
  class WriteBlock {
    var blocks: seq<seq<byte>>
    var len: int
    var ptr: int

    // What a block holds before it is written.
    const junk: seq<byte>

    ghost predicate Valid()
      reads this
    {
      && |junk| == BLOCK_SIZE
      && blocks != [] && (forall b <- blocks :: |b| == BLOCK_SIZE)
      && 0 <= ptr <= BLOCK_SIZE && len == BLOCK_SIZE * (|blocks| - 1) + ptr
    }

    ghost function Contents(): (r: seq<byte>)
      reads this
      requires Valid()
    {
      Flat(blocks[..|blocks| - 1]) + blocks[|blocks| - 1][..ptr]
    }

    constructor (junk: seq<byte>)
      requires |junk| == BLOCK_SIZE
      ensures Valid() && Contents() == []
    {
      this.junk := junk;
      blocks, len, ptr := [junk], 0, 0;
    }

    // The next block of the chain, with whatever it holds.
    method NextBlock()
      requires Valid() && ptr == BLOCK_SIZE
      modifies this`blocks, this`ptr
      ensures Valid() && ptr == 0 && Contents() == old(Contents())
    {
      var n := |blocks| - 1;
      assert blocks == blocks[..n] + [blocks[n]];
      FlatSnoc(blocks[..n], blocks[n]);
      assert (blocks + [junk])[..n + 1] == blocks;
      blocks, ptr := blocks + [junk], 0;
    }

    // Copies bytes that fit into the current block.
    method Copy(data: seq<byte>)
      requires Valid() && ptr + |data| <= BLOCK_SIZE
      modifies this
      ensures Valid() && ptr == old(ptr) + |data| && Contents() == old(Contents()) + data
    {
      var n := |blocks| - 1;
      var b := blocks[n];
      var c := b[..ptr] + data + b[ptr + |data|..];
      assert c[..ptr + |data|] == b[..ptr] + data;
      blocks := blocks[..n] + [c];
      ptr, len := ptr + |data|, len + |data|;
      assert blocks[..n] == old(blocks)[..n];
    }

    method Push(data: seq<byte>)
      requires Valid()
      modifies this
      ensures Valid() && Contents() == old(Contents()) + data
    {
      var rest := data;
      if ptr == BLOCK_SIZE {
        NextBlock();
      }
      while ptr > BLOCK_SIZE - |rest|
        invariant Valid() && Contents() + rest == old(Contents()) + data
        decreases |rest|, ptr
      {
        var copy := BLOCK_SIZE - ptr;
        assert rest == rest[..copy] + rest[copy..];
        Copy(rest[..copy]);
        rest := rest[copy..];
        NextBlock();
      }
      Copy(rest);
    }

    // The chain as one buffer.
    method Flatten() returns (out: seq<byte>)
      requires Valid()
      ensures out == Contents()
    {
      hide Flat;
      out := [];
      var left, i := len, 0;
      FlatNone(blocks);
      while left > 0
        invariant 0 <= i <= |blocks| && left == len - BLOCK_SIZE * i && left >= 0
        invariant out == Flat(blocks[..i])
        decreases left
      {
        assert i < |blocks|;
        if left >= BLOCK_SIZE {
          assert blocks[..i + 1] == blocks[..i] + [blocks[i]];
          FlatSnoc(blocks[..i], blocks[i]);
          out := out + blocks[i];
          left, i := left - BLOCK_SIZE, i + 1;
        } else {
          assert i == |blocks| - 1 && left == ptr;
          out := out + blocks[i][..left];
          return;
        }
      }
      WholeChain(blocks, ptr, i);
    }

    // A tag byte and what it announces.
    method PushTagged(tag: byte, data: seq<byte>)
      requires Valid()
      modifies this
      ensures Valid() && Contents() == old(Contents()) + ([tag] + data)
    {
      hide Flat, Contents, Valid;
      Regroup(Contents(), [tag], data);
      Push([tag]);
      Push(data);
    }

    method WriteInteger(v: int)
      requires Valid()
      modifies this
      ensures Valid() && Contents() == old(Contents()) + PackInteger(v)
    {
      hide Flat, Le, Combine, Contents, Valid;
      if v == 0 {
        Push([Combine(2, 0)]);
      } else if !(-0x8000_0000 <= v < 0x8000_0000) {
        PushTagged(Combine(2, 6), Le(v % 0x1_0000_0000_0000_0000, 8));
      } else if v < 0 {
        PushTagged(Combine(2, 4), Le(v + 0x1_0000_0000, 4));
      } else if v < 0x100 {
        PushTagged(Combine(2, 1), Le(v, 1));
      } else if v < 0x10000 {
        PushTagged(Combine(2, 2), Le(v, 2));
      } else {
        PushTagged(Combine(2, 4), Le(v, 4));
      }
    }

    method WriteString(s: seq<byte>)
      requires Valid()
      modifies this
      ensures Valid() && Contents() == old(Contents()) + PackString(s)
    {
      hide Flat, Le, Combine, Contents, Valid;
      if |s| < MAX_COOKIE {
        if |s| > 0 {
          PushTagged(Combine(4, |s|), s);
        } else {
          assert [Combine(4, 0)] + s == [Combine(4, 0)];
          Push([Combine(4, |s|)]);
        }
      } else {
        var n := if |s| < 0x10000 then 2 else 4;
        var tag := Combine(5, n);
        PushTagged(tag, Le(|s|, n));
        Regroup(old(Contents()), [tag] + Le(|s|, n), s);
        Push(s);
      }
    }

    // Appends a value; false when it is too deep or has no format.
    method WriteOne(v: Value, depth: nat) returns (ok: bool)
      requires Valid()
      modifies this
      ensures Valid() && ok == PackOne(v, depth).Some?
      ensures ok ==> Contents() == old(Contents()) + PackOne(v, depth).value
      decreases v, 1
    {
      hide Flat, Combine, Contents, Valid, PackInteger, PackString, PackHeader, PackArray, PackPairs;
      if depth > MAX_DEPTH { return false; }
      ok := true;
      match v
      case Nil => Push([Combine(0, 0)]);
      case Boolean(b) => Push([Combine(1, if b then 1 else 0)]);
      case Integer(i) => WriteInteger(i);
      case Real(bits) => Push([Combine(2, 8)]); Push(bits);
      case Pointer(bits) => Push([Combine(3, 0)]); Push(bits);
      case Str(s) => WriteString(s);
      case Table(_, _) => ok := WriteTable(v, depth);
      case Unsupported => ok := false;
    }

    method WriteTable(t: Value, depth: nat) returns (ok: bool)
      requires Valid() && t.Table? && depth <= MAX_DEPTH
      modifies this
      ensures Valid() && ok == PackOne(t, depth).Some?
      ensures ok ==> Contents() == old(Contents()) + PackOne(t, depth).value
      decreases t, 0
    {
      hide Flat, Combine, Contents, Valid, PackInteger, PackArray, PackPairs;
      var n := |t.arr|;
      if n >= MAX_COOKIE - 1 {
        Push([Combine(6, MAX_COOKIE - 1)]);
        WriteInteger(n);
      } else {
        Push([Combine(6, n)]);
      }
      ghost var c := Contents();
      assert c == old(Contents()) + PackHeader(n);
      hide PackHeader;
      ok := WriteArray(t, depth + 1);
      if ok {
        ok := WritePairs(t, depth + 1);
      }
    }

    method WriteArray(t: Value, depth: nat) returns (ok: bool)
      requires Valid() && t.Table?
      modifies this
      ensures Valid() && ok == PackArray(t, 0, depth).Some?
      ensures ok ==> Contents() == old(Contents()) + PackArray(t, 0, depth).value
      decreases t, 0, 0
    {
      hide Flat, Contents, Valid, PackOne;
      ghost var all := PackArray(t, 0, depth);
      var i := 0;
      while i < |t.arr|
        invariant Valid() && 0 <= i <= |t.arr| && (all.Some? <==> PackArray(t, i, depth).Some?)
        invariant all.Some? ==> Contents() + PackArray(t, i, depth).value == old(Contents()) + all.value
      {
        ghost var c := Contents();
        ok := WriteOne(t.arr[i], depth);
        if !ok { return; }
        i := i + 1;
        if all.Some? { Regroup(c, PackOne(t.arr[i - 1], depth).value, PackArray(t, i, depth).value); }
      }
      ok := true;
      assert Contents() + [] == Contents();
    }

    method WritePairs(t: Value, depth: nat) returns (ok: bool)
      requires Valid() && t.Table?
      modifies this
      ensures Valid() && ok == PackPairs(t, 0, depth).Some?
      ensures ok ==> Contents() == old(Contents()) + PackPairs(t, 0, depth).value
      decreases t, 0, 0
    {
      hide Flat, Contents, Valid, PackOne, Combine;
      ghost var all := PackPairs(t, 0, depth);
      var i := 0;
      while i < |t.pairs|
        invariant Valid() && 0 <= i <= |t.pairs| && (all.Some? <==> PackPairs(t, i, depth).Some?)
        invariant all.Some? ==> Contents() + PackPairs(t, i, depth).value == old(Contents()) + all.value
      {
        ghost var c := Contents();
        ok := WriteOne(t.pairs[i].key, depth);
        if !ok { return; }
        ok := WriteOne(t.pairs[i].val, depth);
        if !ok { return; }
        i := i + 1;
        if all.Some? {
          RegroupTwo(c, PackOne(t.pairs[i - 1].key, depth).value, PackOne(t.pairs[i - 1].val, depth).value, PackPairs(t, i, depth).value);
        }
      }
      Push([Combine(0, 0)]);
      ok := true;
    }
  }

  lemma Regroup(a: seq<byte>, b: seq<byte>, c: seq<byte>)
    ensures a + b + c == a + (b + c)
  {
  }

  lemma RegroupTwo(a: seq<byte>, b: seq<byte>, c: seq<byte>, d: seq<byte>)
    ensures (a + b) + c + d == a + (b + c + d)
  {
  }

  // The values as one buffer.
  method PackValues(vs: seq<Value>, junk: seq<byte>) returns (r: Option<seq<byte>>)
    requires |junk| == BLOCK_SIZE
    ensures r == Pack(vs)
  {
    hide Flat, PackOne, Pack;
    var wb := new WriteBlock(junk);
    PackNone(vs);
    for i := 0 to |vs|
      invariant wb.Valid() && fresh(wb) && Pack(vs[..i]) == Some(wb.Contents())
    {
      PackMore(vs, i);
      var ok := wb.WriteOne(vs[i], 0);
      if !ok {
        PackFails(vs, i + 1);
        return None;
      }
    }
    assert vs[..|vs|] == vs;
    var out := wb.Flatten();
    r := Some(out);
  }

  lemma PackNone(vs: seq<Value>)
    ensures Pack(vs[..0]) == Some([])
  {
  }

  lemma PackMore(vs: seq<Value>, i: nat)
    requires i < |vs|
    ensures var a, b := Pack(vs[..i]), PackOne(vs[i], 0);
      Pack(vs[..i + 1]) == if a.None? || b.None? then None else Some(a.value + b.value)
  {
    hide PackOne;
    assert vs[..i + 1][..i] == vs[..i];
  }

  lemma {:induction false} PackFails(vs: seq<Value>, i: nat)
    requires i <= |vs| && Pack(vs[..i]) == None
    ensures Pack(vs) == None
    decreases |vs| - i
  {
    hide Pack, PackOne;
    if i < |vs| {
      PackMore(vs, i);
      PackFails(vs, i + 1);
    } else {
      assert vs[..i] == vs;
    }
  }

  lemma FlatNone(bs: seq<seq<byte>>)
    ensures Flat(bs[..0]) == []
  {
  }

  // The chain ends with a full block or with an untouched one.
  lemma WholeChain(bs: seq<seq<byte>>, ptr: int, i: nat)
    requires bs != [] && (forall b <- bs :: |b| == BLOCK_SIZE) && 0 <= ptr <= BLOCK_SIZE && i <= |bs|
    requires BLOCK_SIZE * i == BLOCK_SIZE * (|bs| - 1) + ptr
    ensures Flat(bs[..i]) == Flat(bs[..|bs| - 1]) + bs[|bs| - 1][..ptr]
  {
    var n := |bs| - 1;
    assert bs[n] in bs;
    if i == n {
      assert ptr == 0;
    } else {
      assert i == n + 1 && ptr == BLOCK_SIZE;
      assert bs[..i] == bs[..n] + [bs[n]];
      FlatSnoc(bs[..n], bs[n]);
    }
  }

  // ---------------------------------------------------------------- the reader

  class ReadBlock {
    const buffer: seq<byte>
    var ptr: int
    var len: int

    ghost predicate Valid()
      reads this
    {
      0 <= ptr && 0 <= len && ptr + len == |buffer|
    }

    ghost function Rest(): (r: seq<byte>)
      reads this
      requires Valid()
    {
      buffer[ptr..]
    }

    constructor (s: seq<byte>)
      ensures Valid() && Rest() == s
    {
      buffer, ptr, len := s, 0, |s|;
    }

    method ReadBytes(n: nat) returns (r: Option<seq<byte>>)
      requires Valid()
      modifies this
      ensures Valid() && Matches(Take(old(Rest()), n), r, Rest())
    {
      if len < n { return None; }
      assert Rest()[..n] == buffer[ptr..ptr + n];
      r := Some(buffer[ptr..ptr + n]);
      ptr, len := ptr + n, len - n;
    }

    method ReadInteger(cookie: nat) returns (r: Option<int>)
      requires Valid()
      modifies this
      ensures Valid() && Matches(GetInteger(cookie, old(Rest())), r, Rest())
    {
      hide Rest, Valid, FromLe, Take;
      if cookie == 0 { return Some(0); }
      if cookie !in {1, 2, 4, 6} { return None; }
      var n := if cookie == 6 then 8 else cookie;
      var t := ReadBytes(n);
      if t.None? { return None; }
      var u := FromLe(t.value);
      r := Some(if cookie == 4 then Signed(u, 0x1_0000_0000) else if cookie == 6 then Signed(u, 0x1_0000_0000_0000_0000) else u);
    }

    method ReadOne() returns (r: Option<Value>)
      requires Valid()
      modifies this
      ensures Valid() && Matches(UnpackOne(old(Rest())), r, Rest())
      decreases |Rest()|, 0
    {
      hide PushValue, Valid;
      ghost var s := Rest();
      var t := ReadBytes(1);
      if t.None? { return None; }
      assert s[..1] == t.value && Rest() == s[1..];
      r := ReadValue(t.value[0] % 8, t.value[0] / 8);
    }

    method ReadString(len: int) returns (r: Option<Value>)
      requires Valid() && len >= 0
      modifies this
      ensures Valid()
      ensures var t := Take(old(Rest()), len); Matches(if t.Invalid? then Invalid else Got(Str(t.value), t.rest), r, Rest())
    {
      hide Rest, Valid, Take;
      var t := ReadBytes(len);
      r := if t.None? then None else Some(Str(t.value));
    }

    method ReadLong(n: nat) returns (r: Option<Value>)
      requires Valid()
      modifies this
      ensures Valid() && Matches(GetLong(n, old(Rest())), r, Rest())
    {
      hide Rest, Valid, FromLe, Take;
      var t := ReadBytes(n);
      if t.None? { return None; }
      r := ReadString(FromLe(t.value));
    }

    method ReadValue(ty: nat, cookie: nat) returns (r: Option<Value>)
      requires Valid()
      modifies this
      ensures Valid() && Matches(PushValue(ty, cookie, old(Rest())), r, Rest())
      decreases |Rest()|, 3
    {
      hide Rest, Valid, FromLe, Take, GetInteger, GetLong, UnpackTable;
      match ty
      case 0 => r := Some(Nil);
      case 1 => r := Some(Boolean(cookie != 0));
      case 2 =>
        if cookie == 8 {
          var t := ReadBytes(8);
          r := if t.None? then None else Some(Real(t.value));
        } else {
          var t := ReadInteger(cookie);
          r := if t.None? then None else Some(Integer(t.value));
        }
      case 3 =>
        var t := ReadBytes(8);
        r := if t.None? then None else Some(Pointer(t.value));
      case 4 => r := ReadString(cookie);
      case 5 =>
        if cookie == 2 || cookie == 4 {
          r := ReadLong(cookie);
        } else {
          r := None;
        }
      case 6 => r := ReadTable(cookie);
      case _ => r := None;
    }

    method ReadSize(cookie: nat) returns (r: Option<int>)
      requires Valid()
      modifies this
      ensures Valid() && Matches(GetSize(cookie, old(Rest())), r, Rest())
    {
      hide Valid, GetInteger;
      if cookie != MAX_COOKIE - 1 { return Some(cookie); }
      ghost var s := Rest();
      var t := ReadBytes(1);
      if t.None? { return None; }
      assert s[..1] == t.value && Rest() == s[1..];
      var ty := t.value[0];
      if ty % 8 != 2 || ty / 8 == 8 { return None; }
      var v := ReadInteger(ty / 8);
      r := if v.None? then None else Some(Int32(v.value));
    }

    method ReadTable(cookie: nat) returns (r: Option<Value>)
      requires Valid()
      modifies this
      ensures Valid() && Matches(UnpackTable(cookie, old(Rest())), r, Rest())
      decreases |Rest()|, 2
    {
      hide Rest, Valid, GetSize, UnpackArray, UnpackPairs;
      var n := ReadSize(cookie);
      if n.None? { return None; }
      var a := ReadArray(n.value);
      if a.None? { return None; }
      var h := ReadPairs();
      if h.None? { return None; }
      r := Some(Table(a.value, h.value));
    }

    method ReadArray(n: int) returns (r: Option<seq<Value>>)
      requires Valid()
      modifies this
      ensures Valid() && Matches(UnpackArray(old(Rest()), n), r, Rest())
      decreases |Rest()|, 1
    {
      hide Rest, Valid, UnpackOne;
      var out, i := [], 0;
      ghost var all := UnpackArray(Rest(), n);
      while i < n
        invariant Valid() && 0 <= i && (i <= n || i == 0) && |Rest()| <= |old(Rest())|
        invariant ArrayLeft(all, out, UnpackArray(Rest(), n - i))
      {
        ghost var s := Rest();
        var v := ReadOne();
        if v.None? { return None; }
        ArrayRead(all, out, s, n - i);
        out, i := out + [v.value], i + 1;
      }
      assert out + [] == out;
      r := Some(out);
    }

    method ReadPairs() returns (r: Option<seq<Pair>>)
      requires Valid()
      modifies this
      ensures Valid() && Matches(UnpackPairs(old(Rest())), r, Rest())
      decreases |Rest()|, 1
    {
      hide Rest, Valid, UnpackOne;
      var out := [];
      ghost var all := UnpackPairs(Rest());
      while true
        invariant Valid() && |Rest()| <= |old(Rest())|
        invariant ArrayLeft(all, out, UnpackPairs(Rest()))
        decreases |Rest()|
      {
        ghost var s := Rest();
        var k := ReadOne();
        if k.None? { return None; }
        if k.value == Nil {
          assert out + [] == out;
          return Some(out);
        }
        var v := ReadOne();
        if v.None? { return None; }
        PairRead(all, out, s);
        out := out + [Pair(k.value, v.value)];
      }
    }
  }

  // What a read returns and leaves is what the format says.
  ghost predicate Matches<T>(spec: Read<T>, r: Option<T>, rest: seq<byte>) {
    match spec
    case Invalid => r.None?
    case Got(v, s) => r == Some(v) && rest == s
  }

  // The elements read so far and those still to come are all of them.
  ghost predicate ArrayLeft<T>(all: Read<seq<T>>, out: seq<T>, more: Read<seq<T>>) {
    && (all.Invalid? <==> more.Invalid?)
    && (more.Got? ==> all.value == out + more.value && all.rest == more.rest)
  }

  lemma ArrayRead(all: Read<seq<Value>>, out: seq<Value>, s: seq<byte>, n: int)
    requires ArrayLeft(all, out, UnpackArray(s, n)) && n > 0 && UnpackOne(s).Got?
    ensures ArrayLeft(all, out + [UnpackOne(s).value], UnpackArray(UnpackOne(s).rest, n - 1))
  {
    hide UnpackOne;
  }

  lemma PairRead(all: Read<seq<Pair>>, out: seq<Pair>, s: seq<byte>)
    requires ArrayLeft(all, out, UnpackPairs(s)) && UnpackOne(s).Got? && UnpackOne(s).value != Nil
    requires UnpackOne(UnpackOne(s).rest).Got?
    ensures var k := UnpackOne(s); var v := UnpackOne(k.rest);
      ArrayLeft(all, out + [Pair(k.value, v.value)], UnpackPairs(v.rest))
  {
    hide UnpackOne;
  }

  // All the values of a buffer.
  method UnpackValues(s: seq<byte>) returns (r: Option<seq<Value>>)
    ensures r == Unpack(s)
  {
    hide UnpackOne;
    var rb := new ReadBlock(s);
    var out := [];
    while rb.len > 0
      invariant rb.Valid() && fresh(rb)
      invariant var t := Unpack(rb.Rest()); (Unpack(s).None? <==> t.None?) && (t.Some? ==> Unpack(s).value == out + t.value)
      decreases |rb.Rest()|
    {
      ghost var w := rb.Rest();
      var v := rb.ReadOne();
      if v.None? { return None; }
      assert Unpack(w).Some? ==> out + ([v.value] + Unpack(rb.Rest()).value) == (out + [v.value]) + Unpack(rb.Rest()).value;
      out := out + [v.value];
    }
    assert out + [] == out;
    r := Some(out);
  }
}
