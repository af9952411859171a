/**
  The registry of services: a table of handles indexed by their low bits, which
  doubles when it is full, and the sorted array of local names.
 */
module HandleStorage {
  import opened Common
  import opened Arith

  const DEFAULT_SLOT_SIZE := 4
  const HANDLE_MASK := 0xff_ffff
  const LIMIT := 0x100_0000
  const MAX_SLOT_SIZE := 0x4000_0000

  datatype Entry<T> = Entry(ctx: T, handle: nat)

  // ---------------------------------------------------------------- residues

  function Mod(x: int, m: int): (r: int)
    requires m > 0
    ensures 0 <= r < m
  {
    x % m
  }

  lemma ModIs(x: int, m: int, q: int, r: int)
    requires m > 0 && x == q * m + r && 0 <= r < m
    ensures Mod(x, m) == r
  {
    Exact(x, m, q, r);
  }

  lemma ModDef(x: int, m: int) returns (q: int)
    requires m > 0
    ensures x == q * m + Mod(x, m)
  {
    q := x / m;
    DivMod(x, m);
  }

  // Masking to a multiple of m first changes nothing.
  lemma ModMod(x: int, m: int, k: int)
    requires m > 0 && k > 0 && k * m > 0
    ensures Mod(Mod(x, k * m), m) == Mod(x, m)
  {
    hide Mod;
    var q := ModDef(x, k * m);
    var p := ModDef(Mod(x, k * m), m);
    Rotate(q, k, m);
    assert q * (k * m) == (q * k) * m;
    assert (q * k + p) * m == (q * k) * m + p * m;
    ModIs(x, m, q * k + p, Mod(Mod(x, k * m), m));
  }

  // Bits above those of the table do not count.
  lemma ModHigh(x: int, m: int, k: int, h: int)
    requires m > 0
    ensures Mod(x + h * (k * m), m) == Mod(x, m)
  {
    hide Mod;
    var q := ModDef(x, m);
    assert h * (k * m) == (h * k) * m;
    assert (q + h * k) * m == q * m + (h * k) * m;
    ModIs(x + h * (k * m), m, q + h * k, Mod(x, m));
  }

  // In a table of twice the size a handle stays or moves up by the old size.
  lemma ModTwice(x: int, m: int)
    requires m > 0
    ensures Mod(x, 2 * m) == Mod(x, m) || Mod(x, 2 * m) == Mod(x, m) + m
  {
    hide Mod;
    var q := ModDef(x, 2 * m);
    var r := Mod(x, 2 * m);
    if r < m {
      assert q * (2 * m) == (2 * q) * m;
      ModIs(x, m, 2 * q, r);
    } else {
      assert q * (2 * m) + m == (2 * q + 1) * m;
      ModIs(x, m, 2 * q + 1, r - m);
    }
  }

  // The slot tried at step i of a search.
  function Nth(i: int, start: int, m: int): (r: int)
    requires m > 0
    ensures 0 <= r < m
  {
    Mod(i + start, m)
  }

  // Counting size steps from any start meets every slot.
  lemma Reach(start: int, m: int, r: int) returns (i: int)
    requires m > 0 && 0 <= r < m
    ensures 0 <= i < m && Nth(i, start, m) == r
  {
    hide Mod;
    i := Mod(r - start, m);
    var q := ModDef(r - start, m);
    assert i + start == (-q) * m + r;
    ModIs(i + start, m, -q, r);
  }

  // A table size: a power of two that the low 24 bits can index.
  ghost predicate IsSize(m: int) {
    exists k: nat :: k <= 24 && m == Pow2(k)
  }

  lemma SizeDivides(m: int) returns (k: int)
    requires IsSize(m)
    ensures m > 0 && k > 0 && k * m == LIMIT
  {
    var j: nat :| j <= 24 && m == Pow2(j);
    Pow2Add(24 - j, j);
    k := Pow2(24 - j);
    TwentyFour();
  }

  lemma TwentyFour()
    ensures Pow2(24) == LIMIT
  {
    assert Pow2(8) == 0x100;
    Pow2Add(8, 8);
    Pow2Add(16, 8);
  }

  lemma SizeDoubles(m: int)
    requires IsSize(m) && 2 * m - 1 <= HANDLE_MASK
    ensures IsSize(2 * m)
  {
    var j: nat :| j <= 24 && m == Pow2(j);
    TwentyFour();
    assert 2 * m == Pow2(j + 1);
  }

  // The slot of a handle with its machine number in the top byte.
  lemma SlotOf(x: int, m: int, h: int)
    requires IsSize(m)
    ensures Mod(Mod(x, LIMIT) + h * LIMIT, m) == Mod(x, m)
  {
    hide Mod;
    var k := SizeDivides(m);
    ModMod(x, m, k);
    ModHigh(Mod(x, LIMIT), m, k, h);
  }

  // ---------------------------------------------------------------- the table

  // Every handle sits in the slot of its low bits and carries the machine number.
  ghost predicate Placed<T>(s: seq<Option<Entry<T>>>, harbor: nat) {
    forall i :: 0 <= i < |s| && s[i].Some? ==>
      Mod(s[i].value.handle, |s|) == i && harbor * LIMIT <= s[i].value.handle < (harbor + 1) * LIMIT
  }

  ghost predicate Registered<T>(s: seq<Option<Entry<T>>>, h: nat, c: T)
    requires |s| > 0
  {
    s[Mod(h, |s|)] == Some(Entry(c, h))
  }

  // The entries of a table moved to one of twice the size.
  ghost predicate Moved<T>(s: seq<Option<Entry<T>>>, t: seq<Option<Entry<T>>>, n: nat)
    requires n <= |s| && |s| > 0
  {
    && |t| == 2 * |s|
    && (forall i :: 0 <= i < n && s[i].Some? ==> t[Mod(s[i].value.handle, |t|)] == s[i])
    && (forall j :: 0 <= j < |t| && t[j].Some? ==>
      Mod(t[j].value.handle, |t|) == j && Mod(t[j].value.handle, |s|) < n && t[j] == s[Mod(t[j].value.handle, |s|)])
  }

  // Two entries of a full table never meet in the bigger one.
  lemma NoClash<T>(s: seq<Option<Entry<T>>>, t: seq<Option<Entry<T>>>, n: nat, harbor: nat)
    requires |s| > 0 && Placed(s, harbor) && n < |s| && s[n].Some? && Moved(s, t, n)
    ensures var j := Mod(s[n].value.handle, |t|); t[j].None? && Moved(s, t[j := s[n]], n + 1)
  {
    hide Mod;
    var j := Mod(s[n].value.handle, |t|);
    ModTwice(s[n].value.handle, |s|);
    if t[j].Some? { ModTwice(t[j].value.handle, |s|); }
  }

  lemma SameRegistered<T>(s: seq<Option<Entry<T>>>, t: seq<Option<Entry<T>>>, harbor: nat)
    requires |s| > 0 && Placed(s, harbor) && Moved(s, t, |s|)
    ensures Placed(t, harbor) && forall h: nat, c :: Registered(t, h, c) <==> Registered(s, h, c)
  {
    hide Mod;
    forall h: nat, c ensures Registered(t, h, c) <==> Registered(s, h, c) {
      var i, j := Mod(h, |s|), Mod(h, |t|);
    }
  }

  // The bigger table has room.
  lemma HalfFree<T>(s: seq<Option<Entry<T>>>, t: seq<Option<Entry<T>>>, harbor: nat) returns (j: nat)
    requires |s| > 0 && Placed(s, harbor) && s[0].Some? && Moved(s, t, |s|)
    ensures j < |t| && t[j].None?
  {
    hide Mod;
    ModTwice(s[0].value.handle, |s|);
    j := if Mod(s[0].value.handle, |t|) == 0 then |s| else 0;
    if t[j].Some? { ModTwice(t[j].value.handle, |s|); }
  }

  // The table that a full one grows into.
  ghost function Doubled<T>(s: seq<Option<Entry<T>>>): (r: seq<Option<Entry<T>>>)
    requires |s| > 0
    ensures |r| == 2 * |s|
  {
    seq(2 * |s|, j requires 0 <= j < 2 * |s| =>
      var e := s[Mod(j, |s|)];
      if e.Some? && Mod(e.value.handle, 2 * |s|) == j then e else None)
  }

  lemma MovedAll<T>(s: seq<Option<Entry<T>>>, t: seq<Option<Entry<T>>>, harbor: nat)
    requires |s| > 0 && Placed(s, harbor) && Moved(s, t, |s|)
    ensures t == Doubled(s)
  {
    hide Mod;
    forall j | 0 <= j < |t| ensures t[j] == Doubled(s)[j] {
      SlotBelow(j, |s|);
      if t[j].Some? { ModTwice(t[j].value.handle, |s|); }
    }
  }

  lemma SlotBelow(j: int, m: int)
    requires m > 0 && 0 <= j < 2 * m
    ensures Mod(j, m) == if j < m then j else j - m
  {
    ModIs(j, m, if j < m then 0 else 1, if j < m then j else j - m);
  }

  ghost predicate Full<T>(s: seq<Option<Entry<T>>>) {
    forall i :: 0 <= i < |s| ==> s[i].Some?
  }

  // The table in which a handle is found: a full one has grown.
  ghost function Probed<T>(s: seq<Option<Entry<T>>>): (r: seq<Option<Entry<T>>>)
    requires |s| > 0
    ensures |r| > 0
  {
    if Full(s) then Doubled(s) else s
  }

  // ---------------------------------------------------------------- names

  datatype Name = Name(name: string, handle: nat)

  // Byte-wise comparison of two strings.
  function StrCmp(a: string, b: string): (r: int)
    ensures r == 0 <==> a == b
  {
    if a == [] && b == [] then 0
    else if a == [] then -1
    else if b == [] then 1
    else if a[0] != b[0] then a[0] as int - b[0] as int
    else
      assert a == [a[0]] + a[1..] && b == [b[0]] + b[1..];
      StrCmp(a[1..], b[1..])
  }

  lemma {:induction false} Antisymmetric(a: string, b: string)
    ensures StrCmp(a, b) < 0 <==> StrCmp(b, a) > 0
  {
    if a != [] && b != [] && a[0] == b[0] { Antisymmetric(a[1..], b[1..]); }
  }

  lemma {:induction false} Transitive(a: string, b: string, c: string)
    requires StrCmp(a, b) < 0 && StrCmp(b, c) < 0
    ensures StrCmp(a, c) < 0
  {
    if a != [] && b != [] && c != [] && a[0] == b[0] == c[0] { Transitive(a[1..], b[1..], c[1..]); }
  }

  ghost predicate Sorted(ns: seq<Name>) {
    forall i, j :: 0 <= i < j < |ns| ==> StrCmp(ns[i].name, ns[j].name) < 0
  }

  // Everything up to mid is below a name that is above the one at mid, and dually.
  lemma Halve(ns: seq<Name>, mid: nat, name: string)
    requires Sorted(ns) && mid < |ns|
    ensures StrCmp(ns[mid].name, name) < 0 ==> forall i :: 0 <= i <= mid ==> StrCmp(ns[i].name, name) < 0
    ensures StrCmp(ns[mid].name, name) > 0 ==> forall i :: mid <= i < |ns| ==> StrCmp(name, ns[i].name) < 0
  {
    hide StrCmp;
    if StrCmp(ns[mid].name, name) < 0 {
      forall i | 0 <= i < mid ensures StrCmp(ns[i].name, name) < 0 { Transitive(ns[i].name, ns[mid].name, name); }
    }
    if StrCmp(ns[mid].name, name) > 0 {
      Antisymmetric(name, ns[mid].name);
      forall i | mid < i < |ns| ensures StrCmp(name, ns[i].name) < 0 { Transitive(name, ns[mid].name, ns[i].name); }
    }
  }

  // Where a name belongs: all before it are below, all from there on above.
  ghost predicate Between(ns: seq<Name>, p: nat, name: string)
    requires p <= |ns|
  {
    && (forall i :: 0 <= i < p ==> StrCmp(ns[i].name, name) < 0)
    && forall i :: p <= i < |ns| ==> StrCmp(name, ns[i].name) < 0
  }

  lemma Inserted(ns: seq<Name>, p: nat, n: Name)
    requires Sorted(ns) && p <= |ns| && Between(ns, p, n.name)
    ensures Sorted(ns[..p] + [n] + ns[p..])
    ensures forall i :: 0 <= i < |ns| ==> ns[i].name != n.name
  {
    hide StrCmp;
    forall i | 0 <= i < |ns| ensures ns[i].name != n.name {
      assert StrCmp(n.name, n.name) == 0;
    }
  }

  // The names of other handles.
  ghost function Without(ns: seq<Name>, h: nat): (r: seq<Name>)
    ensures |r| <= |ns|
  {
    if ns == [] then []
    else Without(ns[..|ns| - 1], h) + if ns[|ns| - 1].handle == h then [] else [ns[|ns| - 1]]
  }

  lemma {:induction false} WithoutSorted(ns: seq<Name>, h: nat)
    requires Sorted(ns)
    ensures Sorted(Without(ns, h))
    ensures forall n :: n in Without(ns, h) <==> n in ns && n.handle != h
  {
    hide StrCmp;
    if ns != [] {
      var m, l := ns[..|ns| - 1], ns[|ns| - 1];
      WithoutSorted(m, h);
      assert ns == m + [l];
      var w := Without(m, h);
      forall i | 0 <= i < |w| ensures StrCmp(w[i].name, l.name) < 0 {
        assert w[i] in m;
      }
    }
  }

  // ---------------------------------------------------------------- the registry

  class Storage<T(!new)> {
    var slot: array<Option<Entry<T>>>
    var handleIndex: nat
    const harbor: nat
    var name: array<Name>
    var nameCount: nat

    ghost predicate Valid()
      reads this, slot, name
    {
      && IsSize(slot.Length) && slot.Length > 0 && Placed(slot[..], harbor) && harbor < 256
      && 1 <= handleIndex <= LIMIT
      && nameCount <= name.Length && name.Length >= 2 && Sorted(name[..nameCount])
    }

    ghost predicate Has(h: nat, c: T)
      reads this, slot
      requires slot.Length > 0
    {
      Registered(slot[..], h, c)
    }

    ghost function Names(): (r: seq<Name>)
      reads this, name
      requires nameCount <= name.Length
    {
      name[..nameCount]
    }

    constructor (h: nat)
      ensures Valid() && harbor == h % 256 && Names() == [] && (forall g: nat, c :: !Has(g, c)) && handleIndex == 1
      ensures slot.Length == DEFAULT_SLOT_SIZE && Empty(slot[..])
      ensures fresh(slot) && fresh(name)
    {
      slot := new Option<Entry<T>>[DEFAULT_SLOT_SIZE](_ => None);
      harbor := h % 256;
      handleIndex := 1;
      name := new Name[2](_ => Name("", 0));
      nameCount := 0;
      new;
      FourIsSize();
    }

    // Twice the slots, every entry where its handle belongs.
    method Rehash()
      requires Valid() && 2 * slot.Length - 1 <= HANDLE_MASK && Full(slot[..])
      modifies this`slot
      ensures Valid() && fresh(slot) && slot.Length == 2 * old(slot.Length)
      ensures forall g: nat, c :: Has(g, c) <==> old(Has(g, c))
      ensures !Full(slot[..]) && slot[..] == Doubled(old(slot[..]))
    {
      hide Mod, IsSize, Sorted, Doubled;
      var bigger := new Option<Entry<T>>[2 * slot.Length](_ => None);
      for i := 0 to slot.Length
        invariant Moved(slot[..], bigger[..], i)
        modifies bigger
      {
        NoClash(slot[..], bigger[..], i, harbor);
        var j := Mod(slot[i].value.handle, 2 * slot.Length);
        assert bigger[j].None?;
        ghost var b := bigger[..];
        bigger[j] := slot[i];
        assert bigger[..] == b[j := slot[i]];
      }
      SameRegistered(slot[..], bigger[..], harbor);
      ghost var free := HalfFree(slot[..], bigger[..], harbor);
      assert bigger[..][free].None?;
      MovedAll(slot[..], bigger[..], harbor);
      SizeDoubles(slot.Length);
      slot := bigger;
    }

    // A handle for a new context: the first free one from the index on, in a
    // table that grows when it is full.
    method Register(ctx: T) returns (h: nat)
      requires Valid() && (2 * slot.Length - 1 <= HANDLE_MASK || !Full(slot[..]))
      modifies this`slot, this`handleIndex, slot
      ensures Valid() && (slot == old(slot) || fresh(slot)) && harbor * LIMIT <= h < (harbor + 1) * LIMIT
      ensures forall c :: !old(Has(h, c))
      ensures forall g: nat, c :: Has(g, c) <==> old(Has(g, c)) || (g == h && c == ctx)
      ensures handleIndex == h - harbor * LIMIT + 1
      // the first free slot from the index on, in the table that may have grown
      ensures FirstFree(Probed(old(slot[..])), old(handleIndex), h - harbor * LIMIT)
      ensures slot[..] == var s := Probed(old(slot[..])); s[Mod(h, |s|) := Some(Entry(ctx, h))]
      // number 0, which is meant to be reserved, is issued exactly then
      ensures h == harbor * LIMIT <==> ZeroNext(Probed(old(slot[..])), old(handleIndex))
    {
      hide Mod, IsSize, Sorted, FirstFree, ZeroNext, Doubled;
      var found;
      found, h := Probe(ctx);
      if !found {
        assert slot[..] == old(slot[..]) && Full(slot[..]);
        assert forall g: nat, c :: Has(g, c) <==> old(Has(g, c));
        Rehash();
        assert forall g: nat, c :: Has(g, c) <==> old(Has(g, c));
        assert slot[..] == Probed(old(slot[..]));
        found, h := Probe(ctx);
      }
    }

    method Probe(ctx: T) returns (found: bool, h: nat)
      requires Valid()
      modifies this`handleIndex, slot
      ensures Valid()
      ensures found <==> !Full(old(slot[..]))
      ensures !found ==> slot[..] == old(slot[..]) && handleIndex == old(handleIndex)
      ensures found ==> harbor * LIMIT <= h < (harbor + 1) * LIMIT && handleIndex == h - harbor * LIMIT + 1
      ensures found ==> FirstFree(old(slot[..]), old(handleIndex), h - harbor * LIMIT)
      ensures found ==> slot[..] == old(slot[..])[Mod(h, slot.Length) := Some(Entry(ctx, h))]
      ensures found ==> (h == harbor * LIMIT <==> ZeroNext(old(slot[..]), old(handleIndex)))
      ensures found ==> (forall c :: !old(Has(h, c))) && forall g: nat, c :: Has(g, c) <==> old(Has(g, c)) || (g == h && c == ctx)
    {
      hide Mod, IsSize, Sorted, ZeroNext;
      h := 0;
      for i := 0 to slot.Length
        invariant forall j :: 0 <= j < i ==> slot[Nth(j, handleIndex, slot.Length)].Some?
        invariant slot[..] == old(slot[..]) && handleIndex == old(handleIndex)
      {
        var handle := Mod(i + handleIndex, LIMIT);
        SlotOf(i + handleIndex, slot.Length, 0);
        SlotOf(i + handleIndex, slot.Length, harbor);
        var hash := Mod(handle, slot.Length);
        if slot[hash].None? {
          h := handle + harbor * LIMIT;
          assert FirstFree(slot[..], handleIndex, handle) by { assert slot[..][Nth(i, handleIndex, slot.Length)].None?; }
          assert !Full(slot[..]) by { assert slot[..][hash].None?; }
          ZeroExactly(slot[..], handleIndex, handle);
          Taken(slot[..], hash, Entry(ctx, h), harbor);
          ghost var s := slot[..];
          slot[hash] := Some(Entry(ctx, h));
          assert slot[..] == s[hash := Some(Entry(ctx, h))];
          handleIndex := handle + 1;
          return true, h;
        }
      }
      forall r | 0 <= r < slot.Length ensures slot[r].Some? {
        var i := Reach(handleIndex, slot.Length, r);
      }
      found := false;
    }

    // The context of a handle, when it is registered.
    method Grab(h: nat) returns (r: Option<T>)
      requires Valid()
      ensures forall c :: r == Some(c) <==> Has(h, c)
    {
      hide IsSize, Sorted;
      var e := slot[Mod(h, slot.Length)];
      r := if e.Some? && e.value.handle == h then Some(e.value.ctx) else None;
    }

    // Unregisters a handle and drops its names.
    method Retire(h: nat) returns (r: Option<T>)
      requires Valid()
      modifies this`nameCount, slot, name
      ensures Valid()
      ensures forall c :: r == Some(c) <==> old(Has(h, c))
      ensures forall g: nat, c :: Has(g, c) <==> old(Has(g, c)) && g != h
      ensures Names() == if r.Some? then Without(old(Names()), h) else old(Names())
      ensures slot[..] == if r.Some? then old(slot[..])[Mod(h, slot.Length) := None] else old(slot[..])
    {
      hide IsSize, Sorted, Mod;
      var hash := Mod(h, slot.Length);
      var e := slot[hash];
      if e.Some? && e.value.handle == h {
        ghost var s := slot[..];
        slot[hash] := None;
        assert slot[..] == s[hash := None];
        r := Some(e.value.ctx);
        DropNames(h);
      } else {
        r := None;
      }
    }

    method DropNames(h: nat)
      requires nameCount <= name.Length && Sorted(name[..nameCount])
      modifies this`nameCount, name
      ensures nameCount <= name.Length && Names() == Without(old(Names()), h) && Sorted(Names())
    {
      hide Sorted;
      ghost var ns := name[..nameCount];
      var j := 0;
      for i := 0 to nameCount
        invariant 0 <= j <= i && nameCount == old(nameCount) && name[..j] == Without(ns[..i], h) && name[i..nameCount] == ns[i..]
      {
        assert name[i] == name[i..nameCount][0] == ns[i] && ns[..i + 1][..i] == ns[..i];
        ghost var was := name[..];
        assert was[i + 1..nameCount] == name[i..nameCount][1..] == ns[i..][1..] == ns[i + 1..];
        if name[i].handle != h {
          if i != j {
            name[j] := name[i];
          }
          assert name[..j] == was[..j] && name[..j + 1] == name[..j] + [ns[i]];
          j := j + 1;
        }
        assert name[i + 1..nameCount] == was[i + 1..nameCount];
      }
      assert ns[..nameCount] == ns;
      nameCount := j;
      WithoutSorted(ns, h);
    }

    // The place of a name in the sorted array, or where it would go.
    method Search(s: string) returns (found: bool, p: nat)
      requires Valid()
      ensures found ==> p < nameCount && name[p].name == s
      ensures !found ==> p <= nameCount && Between(Names(), p, s)
    {
      hide IsSize, StrCmp;
      ghost var ns := Names();
      var begin, end := 0, nameCount - 1;
      while begin <= end
        invariant 0 <= begin <= end + 1 <= nameCount
        invariant forall i :: 0 <= i < begin ==> StrCmp(ns[i].name, s) < 0
        invariant forall i :: end < i < nameCount ==> StrCmp(s, ns[i].name) < 0
      {
        var mid := (begin + end) / 2;
        assert ns[mid] == name[mid];
        var c := StrCmp(name[mid].name, s);
        if c == 0 { return true, mid; }
        Halve(ns, mid, s);
        if c < 0 {
          begin := mid + 1;
        } else {
          end := mid - 1;
        }
      }
      found, p := false, begin;
    }

    // The handle of a name, or 0.
    method FindName(s: string) returns (h: nat)
      requires Valid()
      ensures (exists i :: 0 <= i < nameCount && name[i] == Name(s, h)) || (h == 0 && forall i :: 0 <= i < nameCount ==> name[i].name != s)
    {
      hide IsSize, StrCmp;
      var found, p := Search(s);
      if !found { Inserted(Names(), p, Name(s, 0)); assert forall i :: 0 <= i < nameCount ==> name[i] == Names()[i]; }
      h := if found then name[p].handle else 0;
      assert found ==> name[p] == Name(s, h);
    }

    // Gives a handle a name; a name that is taken stays as it is.
    method InsertName(s: string, h: nat) returns (ok: bool)
      requires Valid() && (nameCount < name.Length || 2 * name.Length <= MAX_SLOT_SIZE)
      modifies this`name, this`nameCount, name
      ensures Valid() && (name == old(name) || fresh(name))
      ensures ok <==> forall i :: 0 <= i < |old(Names())| ==> old(Names())[i].name != s
      ensures ok ==> exists p :: 0 <= p <= |old(Names())| && Names() == old(Names())[..p] + [Name(s, h)] + old(Names())[p..]
      ensures !ok ==> Names() == old(Names())
    {
      hide IsSize, StrCmp, Sorted;
      var found, p := Search(s);
      if found {
        assert Names()[p].name == s;
        return false;
      }
      Inserted(Names(), p, Name(s, h));
      InsertBefore(Name(s, h), p);
      ok := true;
    }

    method InsertBefore(n: Name, before: nat)
      requires before <= nameCount <= name.Length && name.Length >= 2 && (nameCount < name.Length || 2 * name.Length <= MAX_SLOT_SIZE)
      modifies this`name, this`nameCount, name
      ensures name == old(name) || fresh(name)
      ensures nameCount <= name.Length && name.Length >= 2 && Names() == old(Names())[..before] + [n] + old(Names())[before..]
    {
      ghost var ns := name[..nameCount];
      if nameCount >= name.Length {
        GrowNames(before);
      } else {
        ShiftNames(before);
      }
      name[before] := n;
      nameCount := nameCount + 1;
      assert name[..nameCount] == name[..before] + [n] + name[before + 1..nameCount];
    }

    // A bigger array with a gap at before.
    method GrowNames(before: nat)
      requires before <= nameCount == name.Length && name.Length >= 2
      modifies this`name
      ensures fresh(name) && name.Length == 2 * nameCount
      ensures name[..before] == old(name[..before]) && name[before + 1..nameCount + 1] == old(name[before..nameCount])
    {
      var bigger := new Name[2 * name.Length](_ => Name("", 0));
      for i := 0 to before
        invariant bigger[..i] == name[..i]
        modifies bigger
      {
        bigger[i] := name[i];
      }
      for i := before to nameCount
        invariant bigger[..before] == name[..before] && bigger[before + 1..i + 1] == name[before..i]
        modifies bigger
      {
        bigger[i + 1] := name[i];
      }
      name := bigger;
    }

    // A gap at before, by moving the names from there on up by one.
    method ShiftNames(before: nat)
      requires before <= nameCount < name.Length
      modifies name
      ensures name[..before] == old(name[..before]) && name[before + 1..nameCount + 1] == old(name[before..nameCount])
    {
      ghost var ns := name[..nameCount];
      for i := nameCount downto before
        invariant name[..i] == ns[..i] && name[i + 1..nameCount + 1] == ns[i..]
      {
        name[i + 1] := name[i];
      }
      assert ns[..before] == old(name[..before]) && ns[before..] == old(name[before..nameCount]);
    }
  }

  // number is that of the first free slot, counting from start.
  ghost predicate FirstFree<T>(s: seq<Option<Entry<T>>>, start: nat, number: nat)
    requires |s| > 0
  {
    exists i :: 0 <= i < |s| && number == Mod(i + start, LIMIT) && s[Nth(i, start, |s|)].None?
      && forall j :: 0 <= j < i ==> s[Nth(j, start, |s|)].Some?
  }

  // Number 0 comes next: the search runs past the last number, everything on the
  // way there is taken, and the first slot is free.
  ghost predicate ZeroNext<T>(s: seq<Option<Entry<T>>>, start: nat)
    requires |s| > 0
  {
    && start + |s| > LIMIT && s[0].None?
    && forall n :: start <= n < LIMIT ==> s[Mod(n, |s|)].Some?
  }

  lemma ZeroExactly<T>(s: seq<Option<Entry<T>>>, start: nat, number: nat)
    requires |s| > 0 && IsSize(|s|) && 1 <= start <= LIMIT && FirstFree(s, start, number)
    ensures number == 0 <==> ZeroNext(s, start)
  {
    hide Mod, IsSize;
    var i :| 0 <= i < |s| && number == Mod(i + start, LIMIT) && s[Nth(i, start, |s|)].None?
      && forall j :: 0 <= j < i ==> s[Nth(j, start, |s|)].Some?;
    var k := SizeDivides(|s|);
    ModIs(LIMIT, |s|, k, 0);
    Wrapped(i + start, |s|);
    if number == 0 {
      forall n | start <= n < LIMIT ensures s[Mod(n, |s|)].Some? {
        assert s[Nth(n - start, start, |s|)].Some?;
      }
    }
    if ZeroNext(s, start) {
      var j := LIMIT - start;
      assert Nth(j, start, |s|) == 0;
    }
  }

  lemma Wrapped(x: int, m: int)
    requires 1 <= x < LIMIT + m && m <= LIMIT
    ensures Mod(x, LIMIT) == 0 <==> x == LIMIT
  {
  }

  ghost predicate Empty<T>(s: seq<Option<Entry<T>>>) {
    forall i :: 0 <= i < |s| ==> s[i].None?
  }

  // Registering and retiring one service again and again runs through the
  // numbers, and after the last one number 0 is issued.
  method RunOut(ctx: int) returns (h: nat)
    ensures h == 0
  {
    hide Mod, IsSize, Sorted, Doubled, Without;
    var s := new Storage<int>(0);
    for i := 1 to LIMIT
      invariant s.Valid() && fresh(s) && fresh(s.slot) && fresh(s.name) && s.harbor == 0 && s.slot.Length == 4
      invariant s.handleIndex == i && Empty(s.slot[..])
    {
      FirstOfEmpty(s.slot[..], i, ctx);
      h := s.Register(ctx);
      assert s.Has(h, ctx);
      var c := s.Retire(h);
    }
    NotFull(s.slot[..]);
    assert ZeroNext(s.slot[..], LIMIT);
    h := s.Register(ctx);
  }

  lemma NotFull<T>(s: seq<Option<Entry<T>>>)
    requires |s| > 0 && Empty(s)
    ensures !Full(s)
  {
    assert s[0].None?;
  }

  lemma FirstOfEmpty<T>(s: seq<Option<Entry<T>>>, start: nat, c: T)
    requires |s| > 0 && Empty(s) && 1 <= start < LIMIT
    ensures !Full(s) && forall n: nat :: FirstFree(s, start, n) ==> n == start
  {
    NotFull(s);
    hide Mod;
    forall n: nat | FirstFree(s, start, n) ensures n == start {
      var i :| 0 <= i < |s| && n == Mod(i + start, LIMIT) && s[Nth(i, start, |s|)].None?
        && forall j :: 0 <= j < i ==> s[Nth(j, start, |s|)].Some?;
      assert s[Nth(0, start, |s|)].None?;
      ModIs(start, LIMIT, 0, start);
    }
  }

  lemma FourIsSize()
    ensures IsSize(4)
  {
    assert Pow2(2) == 4;
  }

  // A free slot takes an entry whose handle belongs there.
  lemma Taken<T>(s: seq<Option<Entry<T>>>, i: nat, e: Entry<T>, harbor: nat)
    requires |s| > 0 && Placed(s, harbor) && i < |s| && s[i].None? && Mod(e.handle, |s|) == i
    requires harbor * LIMIT <= e.handle < (harbor + 1) * LIMIT
    ensures Placed(s[i := Some(e)], harbor)
    ensures forall c :: !Registered(s, e.handle, c)
    ensures forall g: nat, c :: Registered(s[i := Some(e)], g, c) <==> Registered(s, g, c) || (g == e.handle && c == e.ctx)
  {
    hide Mod;
    var t := s[i := Some(e)];
    forall g: nat, c ensures Registered(t, g, c) <==> Registered(s, g, c) || (g == e.handle && c == e.ctx) {
      if Mod(g, |s|) == i { assert t[i] == Some(e) && s[i] == None; }
    }
  }
}
