/**
  The immutable shared table: a Lua table copied into an array part and a hash
  part whose collisions are chained through the free slots of the hash itself.
 */
module ShareTable {
  import opened Common

  datatype Key = Int(i: int) | Str(s: seq<byte>)

  // ---------------------------------------------------------------- hashing

  function Mix(h: bv32, b: byte): (r: bv32) {
    h ^ ((h << 5) + (h >> 2) + b as bv32)
  }

  // The string hash, folded over the characters at l, l - step, and so on.
  function HashFrom(s: seq<byte>, l: nat, step: nat, h: bv32): (r: bv32)
    requires l <= |s| && step >= 1
    decreases l
  {
    if l < step then h else HashFrom(s, l - step, step, Mix(h, s[l - 1]))
  }

  function Step(l: nat): (r: nat)
    ensures r >= 1
  {
    l / 32 + 1
  }

  // The low 32 bits of a length.
  function Length32(l: nat): (r: bv32) { (l % 0x1_0000_0000) as bv32 }

  method CalcHash(s: seq<byte>) returns (h: bv32)
    ensures h == HashFrom(s, |s|, Step(|s|), Length32(|s|))
  {
    h := Length32(|s|);
    var step, l := Step(|s|), |s|;
    while l >= step
      invariant 0 <= l <= |s|
      invariant HashFrom(s, l, step, h) == HashFrom(s, |s|, step, Length32(|s|))
    {
      h := Mix(h, s[l - 1]);
      l := l - step;
    }
  }

  function Hash(k: Key): (r: nat) {
    match k
    case Int(i) => i % 0x1_0000_0000
    case Str(s) => HashFrom(s, |s|, Step(|s|), Length32(|s|)) as nat
  }

  // The hashes of "", "a", "ab" and of some integers.
  lemma HashValues()
    ensures Hash(Str([])) == 0 && Hash(Str([97])) == 128 && Hash(Str([97, 98])) == 5161
    ensures Hash(Int(5)) == 5 && Hash(Int(-1)) == 0xffff_ffff && Hash(Int(0x1_0000_0005)) == 5
    ensures Step(31) == 1 && Step(32) == 2 && Step(96) == 4
  {
    Mixed();
    hide Mix;
    assert HashFrom([97], 1, 1, 1) == HashFrom([97], 0, 1, 128);
    var s := [97, 98];
    assert HashFrom(s, 2, 1, 2) == HashFrom(s, 1, 1, 160) == HashFrom(s, 0, 1, 5161);
  }

  lemma Mixed()
    ensures Mix(1, 97) == 128 && Mix(2, 98) == 160 && Mix(160, 97) == 5161
    ensures Length32(0) == 0 && Length32(1) == 1 && Length32(2) == 2
  {
  }

  function Main(k: Key, m: nat): (r: nat)
    requires m > 0
    ensures r < m
  {
    Hash(k) % m
  }

  // ---------------------------------------------------------------- the source table

  // The entries of a Lua table in the order in which it is traversed.
  type Entries<V> = seq<(Key, V)>

  ghost predicate Distinct<V>(es: Entries<V>) {
    forall i, j :: 0 <= i < j < |es| ==> es[i].0 != es[j].0
  }

  function Get<V>(es: Entries<V>, k: Key): (r: Option<V>) {
    if es == [] then None
    else if es[|es| - 1].0 == k then Some(es[|es| - 1].1)
    else Get(es[..|es| - 1], k)
  }

  lemma {:induction false} GetAt<V>(es: Entries<V>, j: nat)
    requires Distinct(es) && j < |es|
    ensures Get(es, es[j].0) == Some(es[j].1)
  {
    if j < |es| - 1 { GetAt(es[..|es| - 1], j); }
  }

  lemma {:induction false} GetFrom<V>(es: Entries<V>, k: Key) returns (j: nat)
    ensures Get(es, k).None? ==> forall i :: 0 <= i < |es| ==> es[i].0 != k
    ensures Get(es, k).Some? ==> j < |es| && es[j].0 == k && Get(es, k) == Some(es[j].1)
  {
    j := 0;
    if es != [] {
      if es[|es| - 1].0 == k { j := |es| - 1; } else { j := GetFrom(es[..|es| - 1], k); }
    }
  }

  predicate InArray(k: Key, n: nat) { k.Int? && 0 < k.i <= n }

  // The positions of the entries that belong to the hash part.
  ghost function Hashed<V>(es: Entries<V>, n: nat): (r: set<int>)
    ensures forall j :: j in r <==> 0 <= j < |es| && !InArray(es[j].0, n)
  {
    set j | 0 <= j < |es| && !InArray(es[j].0, n)
  }

  // The number of entries for the hash part.
  method CountSize<V>(es: Entries<V>, n: nat) returns (c: nat)
    ensures c == |Hashed(es, n)|
  {
    c := 0;
    ghost var seen: set<int> := {};
    for i := 0 to |es|
      invariant forall j :: j in seen <==> 0 <= j < i && !InArray(es[j].0, n)
      invariant c == |seen|
    {
      if !InArray(es[i].0, n) {
        c := c + 1;
        seen := seen + {i};
      }
    }
    assert seen == Hashed(es, n);
  }

  // ---------------------------------------------------------------- the hash part

  datatype Node<V> = Node(value: Option<V>, key: Key, next: int, keyhash: nat, nocolliding: bool)

  // Which entry each slot holds; -1 for a slot that is still free.
  ghost predicate Owned<V>(h: seq<Node<V>>, es: Entries<V>, n: nat, owner: seq<int>) {
    && |owner| == |h|
    && forall s :: 0 <= s < |h| ==> SlotOk(h[s], es, n, owner[s])
  }

  ghost predicate SlotOk<V>(x: Node<V>, es: Entries<V>, n: nat, o: int) {
    if x.value.None? then o == -1
    else && 0 <= o < |es| && !InArray(es[o].0, n) && x.key == es[o].0 && x.value == Some(es[o].1)
         && x.keyhash == Hash(x.key)
  }

  // No entry has two slots.
  ghost predicate Once(owner: seq<int>) {
    forall s, t :: 0 <= s < t < |owner| && owner[s] != -1 ==> owner[s] != owner[t]
  }

  ghost predicate Placed(owner: seq<int>, j: int) {
    exists s :: 0 <= s < |owner| && owner[s] == j
  }

  // c is the chain of the keys with main position p: it starts there, follows
  // the next fields and ends.
  ghost predicate Linked<V>(h: seq<Node<V>>, c: seq<int>, p: int) {
    && (c != [] ==> c[0] == p)
    && forall i :: 0 <= i < |c| ==> LinkOk(h, c, p, i)
  }

  ghost predicate LinkOk<V>(h: seq<Node<V>>, c: seq<int>, p: int, i: nat)
    requires i < |c|
  {
    && 0 <= c[i] < |h| && h[c[i]].value.Some? && Main(h[c[i]].key, |h|) == p
    && h[c[i]].next == if i + 1 < |c| then c[i + 1] else -1
  }

  ghost predicate Chains<V>(h: seq<Node<V>>, chain: seq<seq<int>>) {
    && |chain| == |h|
    && forall p :: 0 <= p < |h| ==> Linked(h, chain[p], p)
  }

  // Every filled slot is on the chain of its key.
  ghost predicate Covered<V>(h: seq<Node<V>>, chain: seq<seq<int>>)
    requires |chain| == |h|
  {
    forall s :: 0 <= s < |h| && h[s].value.Some? ==>
      s in chain[Main(h[s].key, |h|)] && (h[s].nocolliding ==> chain[s] == [s])
  }

  // Every entry among the first i has a filled main position.
  ghost predicate Homes<V>(h: seq<Node<V>>, es: Entries<V>, n: nat, i: nat)
    requires i <= |es|
  {
    forall j :: 0 <= j < i && !InArray(es[j].0, n) ==> |h| > 0 && At(h, es[j].0)
  }

  // A key with main position p is at p, when any such key is filled.
  ghost predicate At<V>(h: seq<Node<V>>, k: Key)
    requires |h| > 0
  {
    var p := Main(k, |h|);
    h[p].value.Some? && Main(h[p].key, |h|) == p
  }

  // The hash part holds the right thing in each slot and its chains are right.
  ghost predicate Built<V>(h: seq<Node<V>>, es: Entries<V>, n: nat, owner: seq<int>, chain: seq<seq<int>>) {
    Owned(h, es, n, owner) && Once(owner) && Chains(h, chain) && Covered(h, chain)
  }

  // The first pass: only main positions are filled, one chain link each.
  ghost predicate Sparse<V>(h: seq<Node<V>>, owner: seq<int>, chain: seq<seq<int>>) {
    && |h| == |owner| == |chain|
    && (forall s :: 0 <= s < |h| ==> chain[s] == if h[s].value.None? then [] else [s])
    && (forall s :: 0 <= s < |h| && h[s].value.Some? ==> Main(h[s].key, |h|) == s)
  }

  lemma SparseStart<V>(h: seq<Node<V>>, es: Entries<V>, n: nat)
    requires forall s :: 0 <= s < |h| ==> h[s].value.None?
    ensures var owner, chain := seq(|h|, _ => -1), seq(|h|, _ => []);
      Built(h, es, n, owner, chain) && Sparse(h, owner, chain) && Homes(h, es, n, 0)
  {
  }

  // A free main position takes the entry.
  lemma Settle<V>(h: seq<Node<V>>, es: Entries<V>, n: nat, owner: seq<int>, chain: seq<seq<int>>, i: nat, x: Node<V>)
    requires Built(h, es, n, owner, chain) && Sparse(h, owner, chain) && i < |es| && Homes(h, es, n, i) && |h| > 0
    requires forall s :: 0 <= s < |owner| ==> owner[s] < i
    requires var k := es[i].0; !InArray(k, n) && h[Main(k, |h|)].value.None? && x == Node(Some(es[i].1), k, -1, Hash(k), true)
    ensures var p := Main(es[i].0, |h|);
      && Built(h[p := x], es, n, owner[p := i], chain[p := [p]])
      && Sparse(h[p := x], owner[p := i], chain[p := [p]])
      && Homes(h[p := x], es, n, i + 1)
  {
    hide Hash, Main;
    var p := Main(es[i].0, |h|);
    var h', owner', chain' := h[p := x], owner[p := i], chain[p := [p]];
    forall q | 0 <= q < |h| ensures Linked(h', chain'[q], q) {
      if q == p {
        assert LinkOk(h', [p], p, 0);
      } else {
        forall l | 0 <= l < |chain[q]| ensures LinkOk(h', chain[q], q, l) { assert LinkOk(h, chain[q], q, l); }
      }
    }
    forall s | 0 <= s < |h'| && h'[s].value.Some?
      ensures s in chain'[Main(h'[s].key, |h'|)] && (h'[s].nocolliding ==> chain'[s] == [s])
    {
    }
  }

  // A main position that is taken stays as it is.
  lemma Skip<V>(h: seq<Node<V>>, es: Entries<V>, n: nat, owner: seq<int>, chain: seq<seq<int>>, i: nat)
    requires Sparse(h, owner, chain) && i < |es| && Homes(h, es, n, i)
    requires InArray(es[i].0, n) || (|h| > 0 && h[Main(es[i].0, |h|)].value.Some?)
    ensures Homes(h, es, n, i + 1)
  {
    hide Main;
  }

  // ---------------------------------------------------------------- the second pass

  // A slot off its main position belongs to an entry already visited.
  ghost predicate Late<V>(h: seq<Node<V>>, owner: seq<int>, i: nat)
    requires |owner| == |h|
  {
    forall s :: 0 <= s < |h| && h[s].value.Some? ==> Main(h[s].key, |h|) == s || owner[s] < i
  }

  ghost predicate Visited<V>(es: Entries<V>, n: nat, owner: seq<int>, i: nat)
    requires i <= |es|
  {
    forall j :: 0 <= j < i && !InArray(es[j].0, n) ==> Placed(owner, j)
  }

  // The node and its main position after a colliding entry is linked in.
  function Link<V>(h: seq<Node<V>>, p: nat, s: nat, k: Key, v: V): (r: seq<Node<V>>)
    requires p < |h| && s < |h|
  {
    var h1 := h[s := Node(Some(v), k, h[p].next, Hash(k), false)];
    h1[p := h1[p].(next := s, nocolliding := false)]
  }

  ghost function Linking(chain: seq<seq<int>>, p: nat, s: nat): (r: seq<seq<int>>)
    requires p < |chain| && chain[p] != []
  {
    chain[p := [p, s] + chain[p][1..]]
  }

  lemma LinkOwned<V>(h: seq<Node<V>>, es: Entries<V>, n: nat, owner: seq<int>, i: nat, s: nat)
    requires Owned(h, es, n, owner) && Once(owner) && i < |es| && |h| > 0 && s < |h| && h[s].value.None?
    requires !InArray(es[i].0, n) && At(h, es[i].0) && !Placed(owner, i)
    ensures Owned(Link(h, Main(es[i].0, |h|), s, es[i].0, es[i].1), es, n, owner[s := i]) && Once(owner[s := i])
  {
    hide Main, Hash;
    var p := Main(es[i].0, |h|);
    assert p != s;
    assert forall t :: 0 <= t < |owner| ==> owner[t] != i;
  }

  // The chain of p gets s behind its head; other chains do not change.
  lemma LinkChains<V>(h: seq<Node<V>>, chain: seq<seq<int>>, k: Key, v: V, s: nat)
    requires Chains(h, chain) && Covered(h, chain) && |h| > 0 && s < |h| && h[s].value.None? && At(h, k)
    ensures var p := Main(k, |h|);
      && chain[p] != [] && Chains(Link(h, p, s, k, v), Linking(chain, p, s))
  {
    hide Main, Hash;
    var p := Main(k, |h|);
    var h' := Link(h, p, s, k, v);
    assert p in chain[p] && Linked(h, chain[p], p);
    var c, c' := chain[p], [p, s] + chain[p][1..];
    forall q | 0 <= q < |h| ensures Linked(h', Linking(chain, p, s)[q], q) {
      assert Linked(h, chain[q], q);
      if q != p {
        forall l | 0 <= l < |chain[q]| ensures LinkOk(h', chain[q], q, l) { assert LinkOk(h, chain[q], q, l); }
      } else {
        assert LinkOk(h, c, p, 0);
        NewChain(h, h', c, c', p, s);
      }
    }
  }

  lemma NewChain<V>(h: seq<Node<V>>, h': seq<Node<V>>, c: seq<int>, c': seq<int>, p: nat, s: nat)
    requires |h| == |h'| && p < |h| && s < |h| && p != s && h[s].value.None? && Linked(h, c, p) && c != []
    requires forall t :: 0 <= t < |h| && t != p && t != s ==> h'[t] == h[t]
    requires h'[s].value.Some? && Main(h'[s].key, |h|) == p && h'[s].next == h[p].next
    requires h'[p].value.Some? && Main(h'[p].key, |h|) == p && h'[p].next == s
    requires c' == [p, s] + c[1..]
    ensures Linked(h', c', p)
  {
    hide Main;
    assert LinkOk(h, c, p, 0);
    forall l | 0 <= l < |c'| ensures LinkOk(h', c', p, l) {
      if l >= 2 {
        assert c'[l] == c[l - 1] && LinkOk(h, c, p, l - 1);
        NoRepeat(h, c, p, 0, l - 1);
      }
    }
  }

  // A chain does not come back to a slot.
  lemma {:induction false} NoRepeat<V>(h: seq<Node<V>>, c: seq<int>, p: int, a: nat, b: nat)
    requires Linked(h, c, p) && a < b < |c|
    ensures c[a] != c[b]
    decreases |c| - b
  {
    hide Main;
    assert LinkOk(h, c, p, a) && LinkOk(h, c, p, b) && LinkOk(h, c, p, a + 1);
    if b + 1 < |c| { NoRepeat(h, c, p, a + 1, b + 1); }
  }

  lemma LinkCovered<V>(h: seq<Node<V>>, chain: seq<seq<int>>, k: Key, v: V, s: nat)
    requires Chains(h, chain) && Covered(h, chain) && |h| > 0 && s < |h| && h[s].value.None? && At(h, k)
    ensures var p := Main(k, |h|);
      && chain[p] != [] && Covered(Link(h, p, s, k, v), Linking(chain, p, s))
  {
    hide Main, Hash;
    var p := Main(k, |h|);
    var h' := Link(h, p, s, k, v);
    assert p in chain[p] && Linked(h, chain[p], p);
    var c' := [p, s] + chain[p][1..];
    assert c'[0] == p && c'[1] == s;
    forall t | 0 <= t < |h| && h'[t].value.Some?
      ensures t in Linking(chain, p, s)[Main(h'[t].key, |h|)] && (h'[t].nocolliding ==> Linking(chain, p, s)[t] == [t])
    {
      if t != s && t != p && Main(h[t].key, |h|) == p {
        var l :| 0 <= l < |chain[p]| && chain[p][l] == t;
        assert c'[l + 1] == t;
      }
    }
  }

  lemma LinkHomes<V>(h: seq<Node<V>>, es: Entries<V>, n: nat, owner: seq<int>, i: nat, s: nat)
    requires |owner| == |h| && i < |es| && |h| > 0 && s < |h| && h[s].value.None? && !InArray(es[i].0, n)
    requires Homes(h, es, n, |es|) && Late(h, owner, i) && Visited(es, n, owner, i) && owner[s] == -1
    ensures var h' := Link(h, Main(es[i].0, |h|), s, es[i].0, es[i].1);
      Homes(h', es, n, |es|) && Late(h', owner[s := i], i + 1) && Visited(es, n, owner[s := i], i + 1)
  {
    hide Main, Hash;
    var p, owner' := Main(es[i].0, |h|), owner[s := i];
    var h' := Link(h, p, s, es[i].0, es[i].1);
    forall j | 0 <= j < |es| && !InArray(es[j].0, n) ensures At(h', es[j].0) {
      assert At(h, es[j].0);
    }
    forall j | 0 <= j < i + 1 && !InArray(es[j].0, n) ensures Placed(owner', j) {
      if j < i {
        assert Placed(owner, j);
        var t :| 0 <= t < |owner| && owner[t] == j;
        assert owner'[t] == j;
      } else {
        assert owner'[s] == i;
      }
    }
  }

  // ---------------------------------------------------------------- counting slots

  ghost function Owners(owner: seq<int>): (r: set<int>) {
    if owner == [] then {}
    else Owners(owner[..|owner| - 1]) + if owner[|owner| - 1] == -1 then {} else {owner[|owner| - 1]}
  }

  lemma {:induction false} OwnersAre(owner: seq<int>)
    ensures forall j :: j in Owners(owner) <==> j != -1 && Placed(owner, j)
  {
    if owner != [] {
      var o := owner[..|owner| - 1];
      OwnersAre(o);
      forall j ensures j in Owners(owner) <==> j != -1 && Placed(owner, j) {
        if Placed(owner, j) {
          var s :| 0 <= s < |owner| && owner[s] == j;
          if s < |o| { assert o[s] == j; }
        }
        if Placed(o, j) {
          var s :| 0 <= s < |o| && o[s] == j;
          assert owner[s] == j;
        }
        assert owner[|owner| - 1] == j ==> Placed(owner, j);
      }
    }
  }

  // A free slot costs one owner; otherwise there are as many owners as slots.
  lemma {:induction false} OwnersCount(owner: seq<int>)
    requires Once(owner)
    ensures |Owners(owner)| <= |owner|
    ensures |Owners(owner)| == |owner| <==> -1 !in owner
  {
    if owner != [] {
      var o, l := owner[..|owner| - 1], owner[|owner| - 1];
      OwnersCount(o);
      OwnersAre(o);
      assert owner == o + [l];
      if l != -1 { assert l !in Owners(o); }
    }
  }

  // While an entry has no slot, a slot is free.
  lemma SomeFree<V>(h: seq<Node<V>>, es: Entries<V>, n: nat, owner: seq<int>, i: nat)
    requires Owned(h, es, n, owner) && Once(owner) && |h| == |Hashed(es, n)|
    requires i < |es| && !InArray(es[i].0, n) && !Placed(owner, i)
    ensures exists s :: 0 <= s < |h| && h[s].value.None?
  {
    hide Hash;
    if forall s :: 0 <= s < |h| ==> h[s].value.Some? {
      OwnersAre(owner);
      OwnersCount(owner);
      var free := Hashed(es, n) - {i};
      forall j | j in Owners(owner) ensures j in free {
        assert Placed(owner, j);
        var s :| 0 <= s < |owner| && owner[s] == j;
        assert SlotOk(h[s], es, n, owner[s]);
      }
      assert Owners(owner) <= free;
      Smaller(Owners(owner), free);
      assert false;
    }
  }

  lemma Smaller(a: set<int>, b: set<int>)
    requires a <= b
    ensures |a| <= |b|
  {
    assert b == a + (b - a);
  }

  // When every entry has a slot, no slot is free.
  lemma NoneFree<V>(h: seq<Node<V>>, es: Entries<V>, n: nat, owner: seq<int>)
    requires Owned(h, es, n, owner) && Once(owner) && |h| == |Hashed(es, n)| && Visited(es, n, owner, |es|)
    ensures forall s :: 0 <= s < |h| ==> h[s].value.Some?
  {
    hide Hash;
    OwnersAre(owner);
    OwnersCount(owner);
    forall j | j in Hashed(es, n) ensures j in Owners(owner) { assert Placed(owner, j); }
    Smaller(Hashed(es, n), Owners(owner));
    forall s | 0 <= s < |h| ensures h[s].value.Some? { assert owner[s] in owner; }
  }

  // ---------------------------------------------------------------- the finished table

  ghost predicate Ready<V>(h: seq<Node<V>>, es: Entries<V>, n: nat, owner: seq<int>, chain: seq<seq<int>>) {
    && Distinct(es) && |h| == |Hashed(es, n)| && Built(h, es, n, owner, chain)
    && Homes(h, es, n, |es|) && Visited(es, n, owner, |es|)
    && forall s :: 0 <= s < |h| ==> h[s].value.Some?
  }

  // A hash key of the source is in exactly one slot, with its value.
  lemma SlotOf<V>(h: seq<Node<V>>, es: Entries<V>, n: nat, owner: seq<int>, chain: seq<seq<int>>, k: Key)
    requires Ready(h, es, n, owner, chain) && !InArray(k, n)
    ensures Get(es, k).None? <==> forall s :: 0 <= s < |h| ==> h[s].key != k
    ensures forall s :: 0 <= s < |h| && h[s].key == k ==> h[s].value == Get(es, k)
    ensures forall s, t :: 0 <= s < t < |h| ==> h[s].key != h[t].key
  {
    hide Hash, Main, Homes, Chains, Covered;
    var j := GetFrom(es, k);
    if Get(es, k).Some? {
      assert Placed(owner, j);
      var s :| 0 <= s < |owner| && owner[s] == j;
      assert SlotOk(h[s], es, n, owner[s]);
    }
    forall s | 0 <= s < |h| ensures h[s].value == Get(es, h[s].key) {
      assert SlotOk(h[s], es, n, owner[s]);
      GetAt(es, owner[s]);
    }
    forall s, t | 0 <= s < t < |h| ensures h[s].key != h[t].key {
      assert SlotOk(h[s], es, n, owner[s]) && SlotOk(h[t], es, n, owner[t]);
    }
  }

  // Nothing beyond the end of the chain that the search follows.
  lemma ChainEnds<V>(h: seq<Node<V>>, es: Entries<V>, n: nat, owner: seq<int>, chain: seq<seq<int>>, k: Key, q: nat)
    requires Ready(h, es, n, owner, chain) && |h| > 0 && q < |h|
    requires q == Main(h[Main(k, |h|)].key, |h|)
    requires q == Main(k, |h|) ==> forall l :: 0 <= l < |chain[q]| ==> 0 <= chain[q][l] < |h| && h[chain[q][l]].key != k
    ensures forall s :: 0 <= s < |h| ==> h[s].key != k
  {
    hide Hash, Main;
    forall s | 0 <= s < |h| ensures h[s].key != k {
      assert SlotOk(h[s], es, n, owner[s]);
      assert At(h, es[owner[s]].0);
      assert s in chain[Main(h[s].key, |h|)];
    }
  }

  // A main position without collisions holds the only key of its chain.
  lemma LoneKey<V>(h: seq<Node<V>>, es: Entries<V>, n: nat, owner: seq<int>, chain: seq<seq<int>>, k: Key)
    requires Ready(h, es, n, owner, chain) && |h| > 0
    requires var x := h[Main(k, |h|)]; x.nocolliding && x.keyhash != Hash(k)
    ensures forall s :: 0 <= s < |h| ==> h[s].key != k
  {
    hide Hash, Main;
    var p := Main(k, |h|);
    assert SlotOk(h[p], es, n, owner[p]) && chain[p] == [p];
    forall s | 0 <= s < |h| ensures h[s].key != k {
      assert s in chain[Main(h[s].key, |h|)];
    }
  }

  // Where the search starts: somewhere on a chain, at its head when the chain
  // is that of the key.
  lemma Start<V>(h: seq<Node<V>>, es: Entries<V>, n: nat, owner: seq<int>, chain: seq<seq<int>>, k: Key) returns (l: nat)
    requires Ready(h, es, n, owner, chain) && |h| > 0
    ensures var p := Main(k, |h|); var q := Main(h[p].key, |h|);
      && l < |chain[q]| && chain[q][l] == p && (q == p ==> l == 0)
  {
    hide Hash, Main;
    var p := Main(k, |h|);
    var q := Main(h[p].key, |h|);
    assert p in chain[q];
    l :| 0 <= l < |chain[q]| && chain[q][l] == p;
    if q == p {
      assert Linked(h, chain[q], q);
      l := 0;
    }
  }

  // An integer key as the 32-bit integer the table stores.
  function Narrow(k: Key): (r: Key)
    ensures r.Int? ==> -0x8000_0000 <= r.i < 0x8000_0000
    ensures r.Int? <==> k.Int?
  {
    match k
    case Int(i) => Int((i + 0x8000_0000) % 0x1_0000_0000 - 0x8000_0000)
    case Str(_) => k
  }

  predicate Fits(k: Key) { k.Int? ==> -0x8000_0000 <= k.i < 0x8000_0000 }

  ghost predicate AllFit<V>(es: Entries<V>) {
    forall j :: 0 <= j < |es| ==> Fits(es[j].0)
  }

  lemma NarrowFits(k: Key)
    ensures Narrow(k) == k <==> Fits(k)
    ensures Fits(Narrow(k))
  {
  }

  // The entries under the keys that the table stores.
  ghost function Narrowed<V>(es: Entries<V>): (r: Entries<V>)
    ensures |r| == |es|
  {
    seq(|es|, i requires 0 <= i < |es| => (Narrow(es[i].0), es[i].1))
  }

  // Cutting the keys to 32 bits moves none of them into or out of the array part.
  ghost predicate SameParts<V>(es: Entries<V>, n: nat) {
    forall j :: 0 <= j < |es| ==> (InArray(es[j].0, n) <==> InArray(Narrow(es[j].0), n))
  }

  lemma NarrowedFits<V>(es: Entries<V>)
    ensures AllFit(Narrowed(es)) && (AllFit(es) ==> Narrowed(es) == es)
    ensures forall n: nat :: AllFit(es) ==> SameParts(es, n)
  {
    forall j | 0 <= j < |es| ensures Fits(Narrowed(es)[j].0) { NarrowFits(es[j].0); }
  }

  // Indexing agrees with the source exactly for the keys that are there and for
  // those whose low 32 bits are not those of a key either.
  lemma AgreesExactly<V>(es: Entries<V>, k: Key)
    requires Distinct(Narrowed(es))
    ensures Get(Narrowed(es), Narrow(k)) == Get(es, k) <==> Get(es, k).Some? || Get(Narrowed(es), Narrow(k)).None?
  {
    var j := GetFrom(es, k);
    if Get(es, k).Some? { GetAt(Narrowed(es), j); }
  }

  // For keys of 32 bits this is all there is to say about wider ones.
  lemma WideKeysExactly<V>(es: Entries<V>, k: Key)
    requires AllFit(es)
    ensures Get(es, Narrow(k)) == Get(es, k) <==> Fits(k) || Get(es, Narrow(k)).None?
  {
    NarrowFits(k);
    var j := GetFrom(es, k);
  }

  // A key of 33 bits finds the entry of its low 32 bits.
  lemma WideKeyExample<V>(v: V)
    ensures var es := [(Int(5), v)]; AllFit(es) && Get(es, Int(0x1_0000_0005)) == None && Get(es, Narrow(Int(0x1_0000_0005))) == Some(v)
  {
    var es := [(Int(5), v)];
    assert es[..0] == [];
    assert Narrow(Int(0x1_0000_0005)) == Int(5);
  }

  ghost predicate ArrayUpTo<V>(a: seq<Option<V>>, es: Entries<V>, i: nat)
    requires i <= |es|
  {
    forall p :: 0 <= p < |a| ==> a[p] == Get(es[..i], Int(p + 1))
  }

  lemma ArrayStep<V>(a: seq<Option<V>>, es: Entries<V>, i: nat)
    requires i < |es| && ArrayUpTo(a, es, i)
    ensures var k := es[i].0;
      ArrayUpTo(if InArray(k, |a|) then a[k.i - 1 := Some(es[i].1)] else a, es, i + 1)
  {
    assert es[..i + 1][..i] == es[..i];
  }

  class Table<V> {
    const sizearray: nat
    const arr: array<Option<V>>
    const hash: array<Node<V>>
    ghost const es: Entries<V>
    ghost var owner: seq<int>
    ghost var chain: seq<seq<int>>

    ghost predicate Valid()
      reads this, arr, hash
    {
      && arr.Length == sizearray < 0x8000_0000 && AllFit(es)
      && ArrayUpTo(arr[..], es, |es|)
      && Ready(hash[..], es, sizearray, owner, chain)
    }

    // Copies a Lua table whose entries are traversed in the same order twice.
    constructor (entries: Entries<V>, n: nat, junk: Node<V>)
      requires Distinct(Narrowed(entries)) && SameParts(entries, n) && n < 0x8000_0000
      ensures Valid() && es == Narrowed(entries)
    {
      var c := CountSize(entries, n);
      assert Hashed(entries, n) == Hashed(Narrowed(entries), n);
      sizearray := n;
      es := Narrowed(entries);
      arr := new Option<V>[n](_ => None);
      hash := new Node<V>[c](_ => junk.(value := None, nocolliding := false));
      new;
      NarrowedFits(entries);
      if c > 0 {
        FillNoColliding(entries);
        FillColliding(entries);
      } else {
        FillArray(entries);
      }
    }

    method FillArray(entries: Entries<V>)
      requires es == Narrowed(entries) && Distinct(es) && AllFit(es) && SameParts(entries, sizearray) && arr.Length == sizearray < 0x8000_0000
      requires hash.Length == 0 == |Hashed(es, sizearray)|
      modifies this, arr
      ensures Valid()
    {
      NoHash(es, sizearray);
      AllInArray(entries, sizearray);
      for i := 0 to sizearray
        invariant forall p :: 0 <= p < i ==> arr[p] == Get(es, Int(p + 1))
      {
        arr[i] := Get(entries, Int(i + 1));
      }
      assert es[..|es|] == es;
      owner, chain := [], [];
      SparseStart(hash[..], es, sizearray);
    }

    // The state between the two passes, after i entries of the first.
    ghost predicate First(i: nat)
      reads this, arr, hash
    {
      && i <= |es| && arr.Length == sizearray && 0 < hash.Length == |owner| == |chain|
      && ArrayUpTo(arr[..], es, i)
      && Built(hash[..], es, sizearray, owner, chain) && Sparse(hash[..], owner, chain)
      && Homes(hash[..], es, sizearray, i)
      && forall s :: 0 <= s < |owner| ==> owner[s] < i
    }

    method FillNoColliding(entries: Entries<V>)
      requires es == Narrowed(entries) && arr.Length == sizearray && 0 < hash.Length
      requires (forall s :: 0 <= s < hash.Length ==> hash[s].value.None?) && forall p :: 0 <= p < sizearray ==> arr[p].None?
      modifies this, arr, hash
      ensures First(|es|)
    {
      hide Hash, Main, Built, Sparse, Homes, Narrow;
      SparseStart(hash[..], es, sizearray);
      owner, chain := seq(hash.Length, _ => -1), seq(hash.Length, _ => []);
      for i := 0 to |entries|
        invariant First(i)
      {
        var k := Narrow(entries[i].0);
        assert es[i] == (k, entries[i].1);
        ArrayStep(arr[..], es, i);
        if InArray(k, sizearray) {
          Skip(hash[..], es, sizearray, owner, chain, i);
          arr[k.i - 1] := Some(entries[i].1);
        } else {
          var p := Main(k, hash.Length);
          if hash[p].value.None? {
            var x := Node(Some(entries[i].1), k, -1, Hash(k), true);
            Settle(hash[..], es, sizearray, owner, chain, i, x);
            ghost var h := hash[..];
            hash[p] := x;
            assert hash[..] == h[p := x];
            owner, chain := owner[p := i], chain[p := [p]];
          } else {
            Skip(hash[..], es, sizearray, owner, chain, i);
          }
        }
      }
    }

    // The state of the second pass after i entries.
    ghost predicate Second(i: nat)
      reads this, hash
    {
      var h := hash[..];
      && i <= |es| && |h| > 0 && |h| == |Hashed(es, sizearray)| && Distinct(es)
      && Built(h, es, sizearray, owner, chain) && Homes(h, es, sizearray, |es|)
      && |owner| == |h| == |chain| && Late(h, owner, i) && Visited(es, sizearray, owner, i)
    }

    method FillColliding(entries: Entries<V>)
      requires es == Narrowed(entries) && AllFit(es) && Distinct(es) && First(|es|) && sizearray < 0x8000_0000 && hash.Length == |Hashed(es, sizearray)|
      modifies this, hash
      ensures Valid()
    {
      hide Hash, Main, Built, Homes, Narrow, Late, Visited;
      assert Second(0) by { SecondStart(hash[..], es, sizearray, owner, chain); }
      for i := 0 to |entries|
        invariant Second(i)
      {
        assert es[i] == (Narrow(entries[i].0), entries[i].1);
        if !InArray(Narrow(entries[i].0), sizearray) {
          Collide(Narrow(entries[i].0), entries[i].1, i);
        } else {
          Pass(hash[..], es, sizearray, owner, i);
        }
      }
      Complete(hash[..], es, sizearray, owner, chain);
    }

    method Collide(k: Key, v: V, ghost i: nat)
      requires Second(i) && i < |es| && es[i] == (k, v) && !InArray(k, sizearray)
      modifies this, hash
      ensures Second(i + 1)
    {
      hide Hash, Main, Built, Homes, Late, Visited;
      ghost var h := hash[..];
      var p := Main(k, hash.Length);
      Homed(h, es, sizearray, owner, i);
      if hash[p].key == k {
        Settled(h, es, sizearray, owner, chain, i);
      } else {
        Unplaced(h, es, sizearray, owner, chain, i);
        var s := 0;
        while s < hash.Length && hash[s].value.Some?
          invariant 0 <= s <= hash.Length && forall t :: 0 <= t < s ==> hash[t].value.Some?
        {
          s := s + 1;
        }
        assert s < hash.Length;
        LinkedIn(h, es, sizearray, owner, chain, i, s);
        hash[s] := Node(Some(v), k, hash[p].next, Hash(k), false);
        hash[p] := hash[p].(next := s, nocolliding := false);
        assert hash[..] == Link(h, p, s, k, v);
        owner, chain := owner[s := i], Linking(chain, p, s);
      }
    }

    // The slot of a key in the hash part, or -1.
    method LookupKey(k: Key) returns (r: int)
      requires Valid()
      ensures -1 <= r < hash.Length
      ensures r >= 0 ==> hash[r].key == k
      ensures r == -1 ==> forall s :: 0 <= s < hash.Length ==> hash[s].key != k
    {
      hide Hash, Main, Built, Homes, Visited, ArrayUpTo;
      if hash.Length == 0 { return -1; }
      ghost var h := hash[..];
      var n := Main(k, hash.Length);
      if Hash(k) != hash[n].keyhash && hash[n].nocolliding {
        LoneKey(h, es, sizearray, owner, chain, k);
        return -1;
      }
      ghost var q := Main(h[n].key, |h|);
      Sizes(h, es, sizearray, owner, chain);
      ghost var l := Start(h, es, sizearray, owner, chain, k);
      ghost var c := chain[q];
      while true
        invariant 0 <= n < hash.Length && l < |c| && c[l] == n
        invariant q == Main(k, |h|) ==> forall i :: 0 <= i < l ==> 0 <= c[i] < |h| && h[c[i]].key != k
        decreases |c| - l
      {
        Sizes(h, es, sizearray, owner, chain);
        assert h[n] == hash[n] && LinkOk(h, c, q, l);
        if Hash(k) == hash[n].keyhash && hash[n].key == k { return n; }
        if hash[n].next < 0 {
          ChainStops(h, c, q, l);
          ChainEnds(h, es, sizearray, owner, chain, k, q);
          return -1;
        }
        n := hash[n].next;
        ChainGoesOn(h, c, q, l);
        l := l + 1;
      }
    }

    // The value under a key. Integer keys are taken as 32-bit integers.
    method Index(k: Key) returns (v: Option<V>)
      requires Valid()
      ensures v == Get(es, Narrow(k))
      ensures Fits(k) ==> v == Get(es, k)
    {
      hide Hash, Main, Built, Homes, Visited, ArrayUpTo, Narrow, Get;
      var key := Narrow(k);
      NarrowFits(k);
      if InArray(key, sizearray) {
        ArrayHas(arr[..], es, key);
        return arr[key.i - 1];
      }
      SlotOf(hash[..], es, sizearray, owner, chain, key);
      var s := LookupKey(key);
      if s >= 0 {
        assert hash[..][s] == hash[s];
        v := hash[s].value;
      } else {
        assert forall t :: 0 <= t < |hash[..]| ==> hash[..][t] == hash[t];
        v := None;
      }
    }

    // The keys in the order of the iteration: array part, then hash slots.
    ghost function Order(): (r: seq<Key>)
      reads this, arr, hash
    {
      ArrayKeys(arr[..], 0) + HashKeys(hash[..])
    }

    method FirstHash() returns (r: Option<Key>)
      requires Valid()
      ensures r == Head(HashKeys(hash[..]))
    {
      r := if hash.Length > 0 then Some(hash[0].key) else None;
    }

    // The first array key from a position on, or else the first hash key.
    method NextFrom(from: nat) returns (r: Option<Key>)
      requires Valid() && from <= sizearray
      ensures r == Head(ArrayKeys(arr[..], from) + HashKeys(hash[..]))
    {
      hide Ready, ArrayUpTo;
      var i := from;
      while i < sizearray
        invariant from <= i <= sizearray && ArrayKeys(arr[..], from) == ArrayKeys(arr[..], i)
      {
        if arr[i].Some? {
          HeadFirst(arr[..], i, HashKeys(hash[..]));
          return Some(Int(i + 1));
        }
        i := i + 1;
      }
      assert ArrayKeys(arr[..], i) + HashKeys(hash[..]) == HashKeys(hash[..]);
      r := FirstHash();
    }

    // The key after k in the iteration; None asks for the first one.
    method NextKey(k: Option<Key>) returns (r: Option<Key>)
      requires Valid()
      ensures k.None? ==> r == Head(Order())
      ensures k.Some? && InArray(Narrow(k.value), sizearray) ==>
        r == Head(ArrayKeys(arr[..], Narrow(k.value).i) + HashKeys(hash[..]))
      ensures k.Some? && !InArray(Narrow(k.value), sizearray) ==>
        forall s :: 0 <= s < hash.Length && hash[s].key == Narrow(k.value) ==> r == Head(HashKeys(hash[..])[s + 1..])
      ensures k.Some? && !InArray(Narrow(k.value), sizearray) ==>
        (forall s :: 0 <= s < hash.Length ==> hash[s].key != Narrow(k.value)) ==> r == None
    {
      hide Hash, Main, Built, Homes, Visited, ArrayUpTo, Narrow, Get, ArrayKeys;
      if k.None? {
        r := NextFrom(0);
        return;
      }
      var key := Narrow(k.value);
      if InArray(key, sizearray) {
        r := NextFrom(key.i);
        return;
      }
      SlotOf(hash[..], es, sizearray, owner, chain, key);
      assert forall t :: 0 <= t < |hash[..]| ==> hash[..][t] == hash[t];
      var s := LookupKey(key);
      if s >= 0 && s + 1 < hash.Length {
        r := Some(hash[s + 1].key);
      } else {
        r := None;
      }
    }

    // Following NextKey from the start visits every key of the source once.
    method Traverse() returns (keys: seq<Key>)
      requires Valid()
      ensures forall i, j :: 0 <= i < j < |keys| ==> keys[i] != keys[j]
      ensures forall k :: k in keys <==> Get(es, k).Some?
    {
      hide Hash, Main, Built, Homes, Visited, ArrayUpTo, Narrow, Get, ArrayKeys, HashKeys, Head;
      keys := [];
      ghost var all := Order();
      var k := NextKey(None);
      HeadIs(all);
      while k.Some?
        invariant |keys| <= |all| && keys == all[..|keys|]
        invariant k == Head(all[|keys|..])
        decreases |all| - |keys|
      {
        ghost var i := |keys|;
        HeadIs(all[i..]);
        keys := keys + [k.value];
        Successor(arr[..], hash[..], es, sizearray, owner, chain, i);
        assert forall t :: 0 <= t < |hash[..]| ==> hash[..][t] == hash[t];
        k := NextKey(k);
      }
      HeadIs(all[|keys|..]);
      assert keys == all == ArrayKeys(arr[..], 0) + HashKeys(hash[..]);
      OrderKeys(arr[..], hash[..], es, sizearray, owner, chain);
    }
  }

  lemma Sizes<V>(h: seq<Node<V>>, es: Entries<V>, n: nat, owner: seq<int>, chain: seq<seq<int>>)
    requires Ready(h, es, n, owner, chain)
    ensures |owner| == |h| == |chain| && forall p :: 0 <= p < |h| ==> Linked(h, chain[p], p)
    ensures forall s :: 0 <= s < |h| ==> h[s].keyhash == Hash(h[s].key)
  {
    hide Hash, Main;
    forall s | 0 <= s < |h| ensures h[s].keyhash == Hash(h[s].key) { assert SlotOk(h[s], es, n, owner[s]); }
  }

  lemma ChainStops<V>(h: seq<Node<V>>, c: seq<int>, p: int, l: nat)
    requires Linked(h, c, p) && l < |c| && 0 <= c[l] < |h| && h[c[l]].next < 0
    ensures l + 1 == |c|
  {
    hide Main;
    assert LinkOk(h, c, p, l);
    forall i | 0 <= i < |c| ensures c[i] >= 0 { assert LinkOk(h, c, p, i); }
  }

  lemma ChainGoesOn<V>(h: seq<Node<V>>, c: seq<int>, p: int, l: nat)
    requires Linked(h, c, p) && l < |c| && 0 <= c[l] < |h| && h[c[l]].next >= 0
    ensures l + 1 < |c| && c[l + 1] == h[c[l]].next < |h|
  {
    hide Main;
    assert LinkOk(h, c, p, l);
    if l + 1 < |c| { assert LinkOk(h, c, p, l + 1); }
  }

  lemma ArrayHas<V>(a: seq<Option<V>>, es: Entries<V>, k: Key)
    requires ArrayUpTo(a, es, |es|) && InArray(k, |a|)
    ensures a[k.i - 1] == Get(es, k)
  {
    assert es[..|es|] == es;
    assert a[k.i - 1] == Get(es[..|es|], Int(k.i - 1 + 1));
  }

  // ---------------------------------------------------------------- iteration

  ghost function Head(s: seq<Key>): (r: Option<Key>) { if s == [] then None else Some(s[0]) }

  lemma HeadIs(s: seq<Key>)
    ensures Head(s).Some? <==> s != []
    ensures s != [] ==> Head(s) == Some(s[0])
  {
  }

  ghost function ArrayKeys<V>(a: seq<Option<V>>, from: nat): (r: seq<Key>)
    decreases |a| - from
  {
    if from >= |a| then []
    else (if a[from].Some? then [Int(from + 1)] else []) + ArrayKeys(a, from + 1)
  }

  ghost function HashKeys<V>(h: seq<Node<V>>): (r: seq<Key>)
    ensures |r| == |h|
  {
    seq(|h|, i requires 0 <= i < |h| => h[i].key)
  }

  lemma HeadFirst<V>(a: seq<Option<V>>, i: nat, rest: seq<Key>)
    requires i < |a| && a[i].Some?
    ensures Head(ArrayKeys(a, i) + rest) == Some(Int(i + 1))
  {
  }

  // The array keys rise, and are the positions that hold something.
  lemma {:induction false} ArrayKeysAre<V>(a: seq<Option<V>>, from: nat)
    ensures var ks := ArrayKeys(a, from);
      && (forall i :: 0 <= i < |ks| ==> ks[i].Int? && from < ks[i].i <= |a|)
      && (forall i, j :: 0 <= i < j < |ks| ==> ks[i].i < ks[j].i)
      && (forall p :: from <= p < |a| ==> (a[p].Some? <==> Int(p + 1) in ks))
    decreases |a| - from
  {
    if from < |a| {
      ArrayKeysAre(a, from + 1);
      var ks := ArrayKeys(a, from + 1);
      var first := if a[from].Some? then [Int(from + 1)] else [];
      assert ArrayKeys(a, from) == first + ks;
      assert a[from].Some? ==> first[0] == Int(from + 1) && Int(from + 1) in first;
      hide ArrayKeys;
      forall p | from <= p < |a| ensures a[p].Some? <==> Int(p + 1) in first + ks {
        if p == from { assert Int(p + 1) !in ks; } else { assert Int(p + 1) !in first; }
      }
    }
  }

  // What follows an array key is what the search from it on finds.
  lemma {:induction false} ArrayKeysAfter<V>(a: seq<Option<V>>, from: nat, i: nat)
    requires i < |ArrayKeys(a, from)|
    ensures var k := ArrayKeys(a, from)[i]; InArray(k, |a|) && ArrayKeys(a, k.i) == ArrayKeys(a, from)[i + 1..]
    decreases |a| - from
  {
    if from < |a| {
      if a[from].None? {
        ArrayKeysAfter(a, from + 1, i);
      } else if i > 0 {
        ArrayKeysAfter(a, from + 1, i - 1);
      }
    }
  }

  lemma Successor<V>(a: seq<Option<V>>, h: seq<Node<V>>, es: Entries<V>, n: nat, owner: seq<int>, chain: seq<seq<int>>, i: nat)
    requires |a| == n < 0x8000_0000 && AllFit(es) && Ready(h, es, n, owner, chain)
    requires i < |ArrayKeys(a, 0) + HashKeys(h)|
    ensures var all := ArrayKeys(a, 0) + HashKeys(h); var k := all[i];
      && Narrow(k) == k
      && (InArray(k, n) ==> ArrayKeys(a, k.i) + HashKeys(h) == all[i + 1..])
      && (!InArray(k, n) ==> exists s :: 0 <= s < |h| && h[s].key == k && HashKeys(h)[s + 1..] == all[i + 1..])
  {
    hide Hash, Main, Chains, Covered, Homes, Visited, Once, Narrow, ArrayKeys;
    var ks := ArrayKeys(a, 0);
    var all := ks + HashKeys(h);
    if i < |ks| {
      ArrayKeysAfter(a, 0, i);
      assert all[i + 1..] == ks[i + 1..] + HashKeys(h);
    } else {
      var s := i - |ks|;
      assert SlotOk(h[s], es, n, owner[s]);
      assert h[s].key == all[i] && HashKeys(h)[s + 1..] == all[i + 1..];
    }
    NarrowFits(all[i]);
  }

  lemma OrderKeys<V>(a: seq<Option<V>>, h: seq<Node<V>>, es: Entries<V>, n: nat, owner: seq<int>, chain: seq<seq<int>>)
    requires |a| == n && ArrayUpTo(a, es, |es|) && Ready(h, es, n, owner, chain)
    ensures var all := ArrayKeys(a, 0) + HashKeys(h);
      && (forall i, j :: 0 <= i < j < |all| ==> all[i] != all[j])
      && (forall k :: k in all <==> Get(es, k).Some?)
  {
    hide Hash, Main, Chains, Covered, Homes, Visited, Once, ArrayUpTo, Get;
    var ks := ArrayKeys(a, 0);
    var all := ks + HashKeys(h);
    ArrayKeysAre(a, 0);
    SlotOf(h, es, n, owner, chain, Int(0));
    forall s | 0 <= s < |h| ensures !InArray(h[s].key, n) { assert SlotOk(h[s], es, n, owner[s]); }
    forall i | 0 <= i < |ks| ensures InArray(ks[i], n) {
      assert ks[i].Int? && 0 < ks[i].i <= |a|;
    }
    assert forall i :: |ks| <= i < |all| ==> all[i] == h[i - |ks|].key;
    forall k ensures k in all <==> Get(es, k).Some? {
      assert k in all <==> k in ks || k in HashKeys(h);
      if InArray(k, n) {
        ArrayHas(a, es, k);
      } else {
        SlotOf(h, es, n, owner, chain, k);
        assert forall s :: 0 <= s < |h| ==> HashKeys(h)[s] == h[s].key;
      }
    }
  }

  lemma AllInArray<V>(es: Entries<V>, n: nat)
    requires SameParts(es, n) && n < 0x8000_0000 && forall j :: 0 <= j < |es| ==> InArray(Narrowed(es)[j].0, n)
    ensures Narrowed(es) == es
  {
    forall j | 0 <= j < |es| ensures Narrow(es[j].0) == es[j].0 {
      assert InArray(Narrowed(es)[j].0, n);
      NarrowFits(es[j].0);
    }
  }

  lemma NoHash<V>(es: Entries<V>, n: nat)
    requires |Hashed(es, n)| == 0
    ensures forall j :: 0 <= j < |es| ==> InArray(es[j].0, n)
  {
    forall j | 0 <= j < |es| ensures InArray(es[j].0, n) {
      assert j !in Hashed(es, n);
    }
  }

  lemma SecondStart<V>(h: seq<Node<V>>, es: Entries<V>, n: nat, owner: seq<int>, chain: seq<seq<int>>)
    requires Sparse(h, owner, chain) && |h| > 0
    ensures Late(h, owner, 0) && Visited(es, n, owner, 0)
  {
    hide Main;
  }

  // An entry of the array part is not a matter of this pass.
  lemma Pass<V>(h: seq<Node<V>>, es: Entries<V>, n: nat, owner: seq<int>, i: nat)
    requires i < |es| && InArray(es[i].0, n) && |owner| == |h| && Late(h, owner, i) && Visited(es, n, owner, i)
    ensures Late(h, owner, i + 1) && Visited(es, n, owner, i + 1)
  {
    hide Main;
  }

  lemma Homed<V>(h: seq<Node<V>>, es: Entries<V>, n: nat, owner: seq<int>, i: nat)
    requires Homes(h, es, n, |es|) && i < |es| && !InArray(es[i].0, n) && |h| > 0
    ensures At(h, es[i].0)
  {
    hide Main;
  }

  // An entry found at its main position was placed in the first pass.
  lemma Settled<V>(h: seq<Node<V>>, es: Entries<V>, n: nat, owner: seq<int>, chain: seq<seq<int>>, i: nat)
    requires Built(h, es, n, owner, chain) && Distinct(es) && i < |es| && !InArray(es[i].0, n) && |h| > 0
    requires At(h, es[i].0) && h[Main(es[i].0, |h|)].key == es[i].0
    requires Late(h, owner, i) && Visited(es, n, owner, i)
    ensures Late(h, owner, i + 1) && Visited(es, n, owner, i + 1)
  {
    hide Main, Hash, Chains, Covered;
    var p := Main(es[i].0, |h|);
    assert SlotOk(h[p], es, n, owner[p]);
    assert owner[p] == i;
  }

  lemma Unplaced<V>(h: seq<Node<V>>, es: Entries<V>, n: nat, owner: seq<int>, chain: seq<seq<int>>, i: nat)
    requires Built(h, es, n, owner, chain) && |h| == |Hashed(es, n)| && i < |es| && !InArray(es[i].0, n) && |h| > 0
    requires h[Main(es[i].0, |h|)].key != es[i].0 && Late(h, owner, i)
    ensures !Placed(owner, i) && exists s :: 0 <= s < |h| && h[s].value.None?
  {
    hide Main, Hash, Chains, Covered;
    forall s | 0 <= s < |owner| ensures owner[s] != i {
      assert SlotOk(h[s], es, n, owner[s]);
    }
    SomeFree(h, es, n, owner, i);
  }

  lemma LinkedIn<V>(h: seq<Node<V>>, es: Entries<V>, n: nat, owner: seq<int>, chain: seq<seq<int>>, i: nat, s: nat)
    requires Built(h, es, n, owner, chain) && i < |es| && !InArray(es[i].0, n) && |h| > 0 && !Placed(owner, i)
    requires s < |h| && h[s].value.None? && At(h, es[i].0)
    requires Homes(h, es, n, |es|) && Late(h, owner, i) && Visited(es, n, owner, i)
    ensures var p := Main(es[i].0, |h|); var h' := Link(h, p, s, es[i].0, es[i].1);
      && chain[p] != [] && Built(h', es, n, owner[s := i], Linking(chain, p, s))
      && Homes(h', es, n, |es|) && Late(h', owner[s := i], i + 1) && Visited(es, n, owner[s := i], i + 1)
  {
    hide Main, Hash, Homes, Late, Visited, Chains, Covered, Once, At, Placed;
    assert SlotOk(h[s], es, n, owner[s]);
    LinkOwned(h, es, n, owner, i, s);
    LinkChains(h, chain, es[i].0, es[i].1, s);
    LinkCovered(h, chain, es[i].0, es[i].1, s);
    LinkHomes(h, es, n, owner, i, s);
  }

  lemma Complete<V>(h: seq<Node<V>>, es: Entries<V>, n: nat, owner: seq<int>, chain: seq<seq<int>>)
    requires Built(h, es, n, owner, chain) && |h| == |Hashed(es, n)| && Visited(es, n, owner, |es|)
    ensures forall s :: 0 <= s < |h| ==> h[s].value.Some?
  {
    hide Main, Hash, Visited, Chains, Covered;
    NoneFree(h, es, n, owner);
  }
}
