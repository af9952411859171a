/**
  The object graph the Lua collector works on, the two notions of "still in
  use" its correctness is stated with, and the tri-colour invariant.

  References are live-tagged pointers; DeadKey is the tag a traversal leaves
  on the key of an empty entry.  Ephemeron tables are tables with weak keys.
 */
module GcHeap {
  import opened Common

  type Obj = nat

  datatype Value = Nil | Prim | DeadKey | Ref(o: Obj)

  datatype Entry = Entry(key: Value, val: Value)

  datatype Object =
    | Str
    | Udata(meta: Value, uv: Value)
    | Table(meta: Value, weakKeys: bool, arr: seq<Value>, hash: seq<Entry>)
    | Thread(stack: seq<Value>)

  type Heap = map<Obj, Object>

  // The two whites are told apart by a flag that flips once per cycle.
  datatype Mark = White(w: bool) | Gray | Black

  datatype Phase =
    | Propagate | Atomic | SwpAllGc | SwpFinObj | SwpToBeFnz | SwpEnd | CallFin | Pause | InsideAtomic

  // 'sweep' is the place in 'allgc' where sweeping goes on; position 0 is the
  // list header itself, so an object created meanwhile is still in front of it.
  datatype Sweep = Done | At(pos: nat)

  datatype State = State(
    heap: Heap, mark: map<Obj, Mark>, cw: bool, phase: Phase,
    allgc: seq<Obj>, sweep: Sweep,
    gray: seq<Obj>, grayagain: seq<Obj>, ephemeron: seq<Obj>, allweak: seq<Obj>,
    mainthread: Obj, running: Obj, registry: Value, mt: seq<Value>)

  ghost function Elems(s: seq<Obj>): set<Obj> { set o | o in s }

  // ---------------------------------------------------------------- references

  ghost predicate In(v: Value, S: set<Obj>) { v.Ref? ==> v.o in S }

  ghost predicate AllIn(vs: seq<Value>, S: set<Obj>) {
    forall i :: 0 <= i < |vs| ==> In(vs[i], S)
  }

  ghost predicate EntriesIn(es: seq<Entry>, n: int, S: set<Obj>)
    requires n <= |es|
  {
    forall i :: 0 <= i < n ==> In(es[i].key, S) && In(es[i].val, S)
  }

  // Every live-tagged pointer of the object leads into S.
  ghost predicate RefsIn(ob: Object, S: set<Obj>) {
    match ob
    case Str => true
    case Udata(m, u) => In(m, S) && In(u, S)
    case Table(m, _, a, h) => In(m, S) && AllIn(a, S) && EntriesIn(h, |h|, S)
    case Thread(st) => AllIn(st, S)
  }

  ghost predicate IsStr(h: Heap, v: Value) { v.Ref? && v.o in h && h[v.o].Str? }

  // What keeping the object alive keeps alive in turn: an entry with a nil
  // value keeps nothing, and an ephemeron entry keeps its value only once its
  // key is kept (strings count as plain values, never as weak keys).
  ghost predicate KeepsEntry(h: Heap, weak: bool, e: Entry, S: set<Obj>) {
    e.val != Nil ==>
      if weak
      then (IsStr(h, e.key) ==> In(e.key, S)) && (In(e.key, S) ==> In(e.val, S))
      else In(e.key, S) && In(e.val, S)
  }

  ghost predicate KeepsIn(h: Heap, ob: Object, S: set<Obj>) {
    match ob
    case Str => true
    case Udata(m, u) => In(m, S) && In(u, S)
    case Table(m, w, a, es) =>
      In(m, S) && AllIn(a, S) && forall i :: 0 <= i < |es| ==> KeepsEntry(h, w, es[i], S)
    case Thread(st) => AllIn(st, S)
  }

  ghost predicate Closed(h: Heap, S: set<Obj>) {
    forall o :: o in S ==> o in h && KeepsIn(h, h[o], S)
  }

  ghost predicate RefClosed(h: Heap, S: set<Obj>) {
    forall o :: o in S ==> o in h && RefsIn(h[o], S)
  }

  ghost predicate RootsIn(s: State, S: set<Obj>) {
    s.mainthread in S && s.running in S && In(s.registry, S) && AllIn(s.mt, S)
  }

  // What the program must find again later: the least set that holds the
  // roots and is closed under keeping.
  ghost predicate Reachable(s: State, o: Obj) {
    forall S :: Closed(s.heap, S) && RootsIn(s, S) ==> o in S
  }

  // What the program can get hold of: the same through every live-tagged
  // pointer, including the weak keys it can read by iterating a table.
  ghost predicate Accessible(s: State, o: Obj) {
    forall S :: RefClosed(s.heap, S) && RootsIn(s, S) ==> o in S
  }

  ghost function ReachSet(s: State): set<Obj> { set o | o in s.heap && Reachable(s, o) }

  // ---------------------------------------------------------------- colours

  ghost function Marked(s: State): set<Obj> { set o | o in s.mark && !s.mark[o].White? }

  ghost function Whites(s: State): set<Obj> { set o | o in s.mark && s.mark[o].White? }

  // Not carrying the other white, which is what sweeping frees.
  ghost function Live(s: State): set<Obj> { set o | o in s.mark && s.mark[o] != White(!s.cw) }

  // A gray object the atomic phase need not visit again: a thread whose stack
  // is marked, or an ephemeron table that is listed for what is still open.
  ghost predicate Settled(s: State, o: Obj)
    requires o in s.heap
  {
    var M := Marked(s);
    match s.heap[o]
    case Thread(st) => AllIn(st, M)
    case Table(m, true, a, es) =>
      && In(m, M) && AllIn(a, M)
      && (forall i :: 0 <= i < |es| && (es[i].val == Nil || IsStr(s.heap, es[i].key)) ==> In(es[i].key, M))
      && (o in s.ephemeron ||
          ((forall i :: 0 <= i < |es| ==> In(es[i].val, M)) &&
           (o in s.allweak || forall i :: 0 <= i < |es| ==> In(es[i].key, M))))
    case _ => false
  }

  ghost predicate WellFormed(s: State) {
    && s.mark.Keys == s.heap.Keys
    && (forall o :: o in s.heap ==> RefsIn(s.heap[o], s.heap.Keys))
    && (forall o :: o in s.mark ==> s.mark[o] != White(!s.cw))
  }

  ghost predicate Visitable(ob: Object) { ob.Table? || ob.Thread? }

  ghost predicate GrayList(s: State, ex: set<Obj>, wait: set<Obj>) {
    && NoDup(s.gray)
    && (forall o :: o in s.gray ==>
          o in s.mark && s.mark[o] == Gray && o !in ex && o !in wait && o in s.heap && Visitable(s.heap[o]))
  }

  // The tri-colour invariant, apart from the objects in 'ex' that are being
  // visited right now.  'wait' are gray objects listed elsewhere; outside
  // 'strict' mode a gray object may also be settled.
  ghost predicate Tri(s: State, ex: set<Obj>, wait: set<Obj>, strict: bool) {
    && WellFormed(s)
    && GrayList(s, ex, wait)
    && (forall o :: o in wait ==> o in s.mark && s.mark[o] == Gray)
    && (forall o :: o in s.heap && s.mark[o] == Black && o !in ex ==>
          !s.heap[o].Thread? && RefsIn(s.heap[o], Marked(s)))
    && (forall o :: o in s.heap && s.mark[o] == Gray && o !in ex ==>
          o in s.gray || o in wait || (!strict && Settled(s, o)))
  }

  // Everything marked lies in 'keep', a set closed under keeping.
  ghost predicate Tight(s: State, keep: set<Obj>) {
    Closed(s.heap, keep) && Marked(s) <= keep
  }

  ghost predicate GrayAgainOk(s: State) {
    && NoDup(s.grayagain)
    && (forall o :: o in s.grayagain ==>
          && o in s.mark && s.mark[o] == Gray && o in s.heap && Visitable(s.heap[o])
          && o !in s.gray && o !in s.ephemeron && o !in s.allweak)
  }

  ghost predicate WeakGray(s: State, o: Obj) {
    && o in s.heap && o in s.mark && s.mark[o] == Gray
    && s.heap[o].Table? && s.heap[o].weakKeys && In(s.heap[o].meta, Marked(s))
  }

  ghost predicate Listed(s: State, l: seq<Obj>) {
    NoDup(l) && forall o :: o in l ==> WeakGray(s, o) && o !in s.gray
  }

  // No object is on two of the lists, so linking one never breaks another.
  ghost predicate Lists(s: State) {
    && Listed(s, s.ephemeron) && Listed(s, s.allweak)
    && forall o :: o in s.ephemeron ==> o !in s.allweak
  }

  // ---------------------------------------------------------------- pruning and clearing

  // A traversal may retag the key of an empty entry as dead, nothing else.
  ghost predicate Pruned(a: Object, b: Object) {
    a == b ||
    (&& a.Table? && b.Table? && a.meta == b.meta && a.weakKeys == b.weakKeys && a.arr == b.arr
     && |a.hash| == |b.hash|
     && forall i :: 0 <= i < |a.hash| ==>
          b.hash[i] == a.hash[i] || (a.hash[i].val == Nil && b.hash[i] == Entry(DeadKey, Nil)))
  }

  ghost predicate PrunedHeap(h: Heap, k: Heap) {
    h.Keys == k.Keys && forall o :: o in h ==> Pruned(h[o], k[o])
  }

  // The atomic phase also empties the entries of ephemeron tables whose key
  // is outside M.
  ghost predicate ClearedObject(a: Object, b: Object, M: set<Obj>) {
    a == b ||
    (&& a.Table? && b.Table? && a.meta == b.meta && a.weakKeys == b.weakKeys && a.arr == b.arr
     && |a.hash| == |b.hash|
     && forall i :: 0 <= i < |a.hash| ==>
          || b.hash[i] == a.hash[i]
          || (a.hash[i].val == Nil && b.hash[i] == Entry(DeadKey, Nil))
          || (a.weakKeys && !In(a.hash[i].key, M) && b.hash[i] == Entry(DeadKey, Nil)))
  }

  ghost predicate ClearedHeap(h: Heap, k: Heap, M: set<Obj>) {
    h.Keys == k.Keys && forall o :: o in h ==> ClearedObject(h[o], k[o], M)
  }

  lemma PrunedTrans(h: Heap, k: Heap, l: Heap)
    requires PrunedHeap(h, k) && PrunedHeap(k, l)
    ensures PrunedHeap(h, l)
  {
    forall o | o in h ensures Pruned(h[o], l[o]) {
      assert Pruned(h[o], k[o]) && Pruned(k[o], l[o]);
    }
  }

  lemma PrunedClosed(h: Heap, k: Heap, S: set<Obj>)
    requires PrunedHeap(h, k)
    ensures Closed(h, S) <==> Closed(k, S)
  {
    forall o | o in S && o in h ensures KeepsIn(h, h[o], S) <==> KeepsIn(k, k[o], S) {
      assert Pruned(h[o], k[o]);
      forall v: Value ensures IsStr(h, v) <==> IsStr(k, v) {
        if v.Ref? && v.o in h { assert Pruned(h[v.o], k[v.o]); }
      }
      if h[o].Table? && h[o] != k[o] {
        forall i | 0 <= i < |h[o].hash|
          ensures KeepsEntry(h, h[o].weakKeys, h[o].hash[i], S) <==> KeepsEntry(k, k[o].weakKeys, k[o].hash[i], S)
        {
        }
      }
    }
  }

  // The least closed set is itself closed.
  lemma ReachSetClosed(s: State, K: set<Obj>)
    requires Closed(s.heap, K) && RootsIn(s, K)
    ensures Closed(s.heap, ReachSet(s)) && RootsIn(s, ReachSet(s))
  {
    var R := ReachSet(s);
    forall S | Closed(s.heap, S) && RootsIn(s, S) ensures R <= S {}
    forall v: Value | forall S :: Closed(s.heap, S) && RootsIn(s, S) ==> In(v, S) ensures In(v, R) {
      assert In(v, K);
    }
    forall o | o in R ensures KeepsIn(s.heap, s.heap[o], R) {
      forall S | Closed(s.heap, S) && RootsIn(s, S) ensures KeepsIn(s.heap, s.heap[o], S) { assert o in S; }
      KeepsMeet(s, s.heap[o], K);
    }
  }

  lemma KeepsMeet(s: State, ob: Object, K: set<Obj>)
    requires Closed(s.heap, K) && RootsIn(s, K)
    requires forall S :: Closed(s.heap, S) && RootsIn(s, S) ==> KeepsIn(s.heap, ob, S)
    ensures KeepsIn(s.heap, ob, ReachSet(s))
  {
    var R := ReachSet(s);
    forall v: Value | forall S :: Closed(s.heap, S) && RootsIn(s, S) ==> In(v, S) ensures In(v, R) {
      assert In(v, K);
    }
    match ob
    case Table(m, w, a, es) =>
      forall i | 0 <= i < |es| ensures KeepsEntry(s.heap, w, es[i], R) {
        forall S | Closed(s.heap, S) && RootsIn(s, S) ensures KeepsEntry(s.heap, w, es[i], S) {
          assert KeepsIn(s.heap, ob, S);
        }
        var e := es[i];
        if e.val != Nil && In(e.key, R) {
          forall S | Closed(s.heap, S) && RootsIn(s, S) ensures In(e.key, S) && In(e.val, S) {
            assert KeepsEntry(s.heap, w, e, S);
          }
        }
      }
      forall i | 0 <= i < |a| ensures In(a[i], R) {
        forall S | Closed(s.heap, S) && RootsIn(s, S) ensures In(a[i], S) { assert KeepsIn(s.heap, ob, S); }
      }
    case _ =>
  }

  // ---------------------------------------------------------------- painting one object

  // Marks of objects that are not white do not change.
  ghost predicate Stays(a: map<Obj, Mark>, b: map<Obj, Mark>) {
    a.Keys == b.Keys && forall o :: o in a && !a[o].White? ==> b[o] == a[o]
  }

  // The ghost arguments of the marker: what it is visiting, what waits on
  // another list, whether settled objects are allowed, and what to stay within.
  datatype Frame = Frame(ex: set<Obj>, wait: set<Obj>, strict: bool, keep: set<Obj>) {
    ghost function With(o: Obj): Frame { this.(ex := ex + {o}) }

    // Once o has been put on the grayagain list while propagating.
    ghost function Again(o: Obj): Frame { if strict then this.(wait := wait + {o}) else this }
  }

  ghost predicate Marking(s: State, f: Frame) {
    Tri(s, f.ex, f.wait, f.strict) && Tight(s, f.keep) && f.ex <= Marked(s)
  }

  // What marking may do to a state: white objects turn gray or black, and
  // only those are put in front of the gray list.
  ghost predicate Grew(a: State, b: State) {
    && b == a.(mark := b.mark, gray := b.gray)
    && Stays(a.mark, b.mark)
    && |a.gray| <= |b.gray| && b.gray[|b.gray| - |a.gray|..] == a.gray
    && (forall i :: 0 <= i < |b.gray| - |a.gray| ==> b.gray[i] in Whites(a))
    && (Whites(b) == Whites(a) ==> b == a)
  }

  lemma GrewFacts(a: State, b: State)
    requires Grew(a, b)
    ensures b == a.(mark := b.mark, gray := b.gray) && a.mark.Keys == b.mark.Keys
    ensures Marked(a) <= Marked(b) && Whites(b) <= Whites(a)
    ensures Whites(b) == Whites(a) ==> b == a
    ensures forall o :: o in a.mark && !a.mark[o].White? ==> b.mark[o] == a.mark[o]
  {
  }

  lemma GrewTrans(a: State, b: State, c: State)
    requires Grew(a, b) && Grew(b, c)
    ensures Grew(a, c)
  {
    var n, m := |c.gray| - |b.gray|, |b.gray| - |a.gray|;
    assert c.gray[n + m..] == c.gray[n..][m..];
    GrewFacts(a, b);
    GrewFacts(b, c);
    forall i | 0 <= i < n + m ensures c.gray[i] in Whites(a) {
      if i >= n { assert c.gray[i] == c.gray[n..][i - n]; }
    }
  }

  lemma SettledMono(s: State, t: State)
    requires t.heap == s.heap && t.ephemeron == s.ephemeron && t.allweak == s.allweak && Marked(s) <= Marked(t)
    ensures forall o :: o in s.heap && Settled(s, o) ==> Settled(t, o)
    ensures forall o :: o in s.heap && RefsIn(s.heap[o], Marked(s)) ==> RefsIn(t.heap[o], Marked(t))
  {
  }

  lemma Enter(s: State, o: Obj, f: Frame)
    requires Marking(s, f)
    requires o in Whites(s) && o in f.keep
    ensures var t := s.(mark := s.mark[o := Gray]);
            Marking(t, f.With(o)) && Grew(s, t) && Marked(t) == Marked(s) + {o}
    ensures o !in s.gray && o !in f.wait && o !in f.ex
  {
    var t := s.(mark := s.mark[o := Gray]);
    assert Marked(t) == Marked(s) + {o};
    SettledMono(s, t);
    assert Grew(s, t) by { assert o !in Whites(t); }
  }

  // An object being visited may be recoloured freely.
  lemma Recolor(s: State, o: Obj, m: Mark, f: Frame)
    requires Marking(s, f)
    requires o in Marked(s) && o in f.ex && !m.White? && (m == Black ==> o !in f.wait)
    ensures var t := s.(mark := s.mark[o := m]);
            Marking(t, f) && Marked(t) == Marked(s) && Whites(t) == Whites(s)
  {
    var t := s.(mark := s.mark[o := m]);
    assert Marked(t) == Marked(s);
    SettledMono(s, t);
  }

  lemma Leave(s: State, o: Obj, f: Frame)
    requires Marking(s, f.With(o))
    requires o in s.heap && o in s.mark
    requires s.mark[o] == Black ==> !s.heap[o].Thread? && RefsIn(s.heap[o], Marked(s))
    requires s.mark[o] == Gray ==> o in f.wait || (!f.strict && Settled(s, o))
    ensures Marking(s, f)
  {
  }

  lemma LeaveToGray(s: State, o: Obj, f: Frame)
    requires Marking(s, f.With(o))
    requires o in s.heap && o in s.mark && s.mark[o] == Gray && o !in s.gray && o !in f.wait && o !in f.ex
    requires Visitable(s.heap[o])
    ensures var t := s.(gray := [o] + s.gray);
            Marking(t, f) && Marked(t) == Marked(s) && Whites(t) == Whites(s)
  {
    var t := s.(gray := [o] + s.gray);
    hide Settled, RefsIn, Closed;
    assert Marked(t) == Marked(s);
    SettledMono(s, t);
  }

  lemma RecolorGrew(a: State, s: State, t: State, o: Obj)
    requires Grew(a, s) && o in Whites(a) && o in Marked(s)
    requires t == s.(mark := t.mark) && Whites(t) == Whites(s)
    requires t.mark.Keys == s.mark.Keys && forall p :: p in s.mark && p != o ==> t.mark[p] == s.mark[p]
    ensures Grew(a, t)
  {
  }

  lemma PushGrew(a: State, s: State, o: Obj)
    requires Grew(a, s) && o in Whites(a) && o in Marked(s)
    ensures Grew(a, s.(gray := [o] + s.gray))
  {
    var t := s.(gray := [o] + s.gray);
    assert t.gray[|t.gray| - |a.gray|..] == s.gray[|s.gray| - |a.gray|..];
  }

  // What the marker may follow from an object it has marked.
  lemma Followed(s: State, o: Obj, f: Frame)
    requires Marking(s, f) && (o in Marked(s) || o in f.ex)
    ensures s.mark.Keys == s.heap.Keys && o in s.heap && o in f.keep && o in Marked(s)
    ensures RefsIn(s.heap[o], s.heap.Keys) && KeepsIn(s.heap, s.heap[o], f.keep)
  {
  }

  // ---------------------------------------------------------------- visiting one object

  // Marking from one object, whose empty entries may be pruned on the way.
  ghost predicate Traced(a: State, b: State, o: Obj) {
    && o in a.heap && o in b.heap && b.heap == a.heap[o := b.heap[o]] && Pruned(a.heap[o], b.heap[o])
    && Grew(a.(heap := b.heap), b)
  }

  lemma TracedFacts(a: State, b: State, o: Obj)
    requires Traced(a, b, o)
    ensures b == a.(heap := b.heap, mark := b.mark, gray := b.gray) && a.mark.Keys == b.mark.Keys
    ensures b.heap.Keys == a.heap.Keys && PrunedHeap(a.heap, b.heap)
    ensures Marked(a) <= Marked(b) && Whites(b) <= Whites(a)
    ensures Whites(b) == Whites(a) ==> b.mark == a.mark && b.gray == a.gray
    ensures forall p :: p in a.mark && !a.mark[p].White? ==> b.mark[p] == a.mark[p]
  {
    GrewFacts(a.(heap := b.heap), b);
  }

  lemma TracedGrew(a: State, b: State, c: State, o: Obj)
    requires Traced(a, b, o) && Grew(b, c)
    ensures Traced(a, c, o)
  {
    assert c.heap == b.heap;
    GrewTrans(a.(heap := b.heap), b, c);
  }

  lemma PruneEntry(a: State, s: State, o: Obj, i: nat, f: Frame)
    requires Marking(s, f) && Traced(a, s, o)
    requires o in f.ex && o in s.heap && s.heap[o].Table? && i < |s.heap[o].hash| && s.heap[o].hash[i].val == Nil
    ensures var t := s.(heap := s.heap[o := s.heap[o].(hash := s.heap[o].hash[i := Entry(DeadKey, Nil)])]);
            Marking(t, f) && Traced(a, t, o) && Marked(t) == Marked(s)
  {
    var t := s.(heap := s.heap[o := s.heap[o].(hash := s.heap[o].hash[i := Entry(DeadKey, Nil)])]);
    assert Pruned(s.heap[o], t.heap[o]) && PrunedHeap(s.heap, t.heap);
    PrunedClosed(s.heap, t.heap, f.keep);
    assert Marked(t) == Marked(s);
    PruneTri(s, t, o, f.ex, f.wait, f.strict);
    assert Traced(a, t, o) by { PruneTraced(a, s, t, o); }
  }

  lemma PruneTraced(a: State, s: State, t: State, o: Obj)
    requires Traced(a, s, o) && o in t.heap
    requires t == s.(heap := s.heap[o := t.heap[o]]) && Pruned(s.heap[o], t.heap[o])
    ensures Traced(a, t, o)
  {
    assert t.heap == a.heap[o := t.heap[o]];
    var b, c := a.(heap := s.heap), a.(heap := t.heap);
    assert Whites(b) == Whites(c) && Whites(s) == Whites(t);
  }

  lemma PruneTri(s: State, t: State, o: Obj, ex: set<Obj>, wait: set<Obj>, strict: bool)
    requires Tri(s, ex, wait, strict) && o in ex && o in s.heap && o in t.heap
    requires t == s.(heap := s.heap[o := t.heap[o]]) && Pruned(s.heap[o], t.heap[o])
    ensures Tri(t, ex, wait, strict)
  {
    assert Marked(t) == Marked(s);
    forall p | p in s.heap && p != o && Settled(s, p) ensures Settled(t, p) {}
    assert RefsIn(t.heap[o], t.heap.Keys);
  }

  lemma GrewRefl(s: State)
    ensures Grew(s, s)
  {
  }

  lemma TracedRefl(a: State, b: State, o: Obj)
    requires Grew(a, b) && o in a.heap
    ensures Traced(a, b, o)
  {
    assert b.heap == a.heap;
    assert a.(heap := b.heap) == a;
    assert a.heap[o := a.heap[o]] == a.heap;
  }

  // ---------------------------------------------------------------- ephemeron tables

  // What a traversal knows about the first n entries: 'marked' when it marked
  // a value, 'ww' when an entry was white on both sides, 'clears' when some
  // key was white.
  ghost predicate Scanned(s: State, es: seq<Entry>, n: nat, marked: bool, ww: bool, clears: bool)
    requires n <= |es|
  {
    var M := Marked(s);
    forall j :: 0 <= j < n ==>
      && (es[j].val == Nil || IsStr(s.heap, es[j].key) ==> In(es[j].key, M))
      && (ww || In(es[j].val, M))
      && (clears || In(es[j].key, M))
      && (marked || KeepsEntry(s.heap, true, es[j], M))
  }

  // Nothing but strings was marked.
  ghost predicate OnlyStr(a: State, b: State) {
    forall o :: o in b.heap && o in Marked(b) && o !in Marked(a) ==> b.heap[o].Str?
  }

  lemma ScannedGrew(a: State, b: State, es: seq<Entry>, n: nat, marked: bool, ww: bool, clears: bool)
    requires n <= |es| && Scanned(a, es, n, marked, ww, clears)
    requires Grew(a, b) && a.mark.Keys == a.heap.Keys
    requires EntriesIn(es, |es|, a.heap.Keys)
    ensures Scanned(b, es, n, true, ww, clears)
    ensures OnlyStr(a, b) ==> Scanned(b, es, n, marked, ww, clears)
  {
    GrewFacts(a, b);
  }

  lemma EntryFollowed(s: State, o: Obj, e: Entry, f: Frame)
    requires Marking(s, f) && o in f.ex && o in s.heap
    requires s.heap[o].Table? && e in s.heap[o].hash && e.val != Nil && s.heap[o].weakKeys
    ensures s.mark.Keys == s.heap.Keys && In(e.key, s.mark.Keys) && In(e.val, s.mark.Keys)
    ensures IsStr(s.heap, e.key) ==> In(e.key, f.keep)
    ensures In(e.key, Marked(s)) ==> In(e.val, f.keep)
  {
    Followed(s, o, f);
    var i :| 0 <= i < |s.heap[o].hash| && s.heap[o].hash[i] == e;
    assert KeepsEntry(s.heap, true, s.heap[o].hash[i], f.keep);
  }

  lemma ScannedNil(a: State, b: State, o: Obj, i: nat, marked: bool, ww: bool, clears: bool)
    requires o in a.heap && a.heap[o].Table? && i < |a.heap[o].hash| && a.heap[o].hash[i].val == Nil
    requires o in b.heap && b == a.(heap := a.heap[o := b.heap[o]])
    requires b.heap[o] == a.heap[o] || b.heap[o] == a.heap[o].(hash := a.heap[o].hash[i := Entry(DeadKey, Nil)])
    requires Scanned(a, a.heap[o].hash, i, marked, ww, clears) && In(b.heap[o].hash[i].key, Marked(b))
    ensures Scanned(b, b.heap[o].hash, i + 1, marked, ww, clears)
  {
    assert Marked(a) == Marked(b);
    forall v: Value ensures IsStr(a.heap, v) <==> IsStr(b.heap, v) {}
  }

  lemma ScannedNext(a: State, b: State, es: seq<Entry>, i: nat, marked: bool, ww: bool, clears: bool, mk: bool, w: bool, c: bool)
    requires i < |es| && Scanned(a, es, i, marked, ww, clears) && Scanned(b, [es[i]], 1, mk, w, c)
    requires Grew(a, b) && a.mark.Keys == a.heap.Keys && EntriesIn(es, |es|, a.heap.Keys)
    requires !mk ==> OnlyStr(a, b)
    ensures Scanned(b, es, i + 1, marked || mk, ww || w, clears || c)
  {
    ScannedGrew(a, b, es, i, marked, ww, clears);
    assert [es[i]][0] == es[i];
  }

  lemma OnlyStrSame(a: State, b: State, c: State)
    requires OnlyStr(a, b) && c.mark == b.mark && c.heap.Keys == b.heap.Keys
    requires forall o :: o in b.heap && b.heap[o].Str? ==> c.heap[o].Str?
    ensures OnlyStr(a, c)
  {
    assert Marked(c) == Marked(b);
  }

  lemma OnlyStrTrans(a: State, b: State, c: State)
    requires OnlyStr(a, b) && OnlyStr(b, c) && b.heap.Keys == c.heap.Keys && b.mark.Keys == b.heap.Keys
    requires forall o :: o in b.heap && b.heap[o].Str? ==> c.heap[o].Str?
    ensures OnlyStr(a, c)
  {
  }

  ghost predicate ScanInv(s0: State, s: State, o: Obj, n: nat, marked: bool, ww: bool, clears: bool) {
    && Traced(s0, s, o)
    && s.heap[o].Table? && s.heap[o].weakKeys && n <= |s.heap[o].hash|
    && In(s.heap[o].meta, Marked(s)) && AllIn(s.heap[o].arr, Marked(s))
    && Scanned(s, s.heap[o].hash, n, marked, ww, clears)
    && (!marked ==> OnlyStr(s0, s))
    && (marked ==> Whites(s) < Whites(s0))
  }

  lemma ScanFacts(s0: State, s: State, o: Obj, n: nat, marked: bool, ww: bool, clears: bool)
    requires ScanInv(s0, s, o, n, marked, ww, clears)
    ensures o in s.heap && s.heap[o].Table? && s.heap[o].weakKeys && n <= |s.heap[o].hash|
    ensures o in s0.heap && s0.heap[o].Table? && |s.heap[o].hash| == |s0.heap[o].hash|
    ensures Traced(s0, s, o) && In(s.heap[o].meta, Marked(s))
  {
  }

  lemma ScanStart(s0: State, s: State, o: Obj, marked: bool)
    requires Grew(s0, s) && o in s0.heap && s0.heap[o].Table? && s0.heap[o].weakKeys
    requires In(s0.heap[o].meta, Marked(s0)) && AllIn(s.heap[o].arr, Marked(s))
    requires !marked ==> s == s0
    requires marked ==> Whites(s) < Whites(s0)
    ensures ScanInv(s0, s, o, 0, marked, false, false)
  {
    GrewFacts(s0, s);
    TracedRefl(s0, s, o);
  }

  // ---------------------------------------------------------------- lists

  // The object lists only gain elements; colours and graph stay.
  ghost predicate Relisted(a: State, b: State) {
    && b == a.(grayagain := b.grayagain, ephemeron := b.ephemeron, allweak := b.allweak)
    && Elems(a.ephemeron) <= Elems(b.ephemeron) && Elems(a.allweak) <= Elems(b.allweak)
  }

  lemma RelistedSettled(s: State, t: State, o: Obj)
    requires Relisted(s, t) && o in s.heap && Settled(s, o)
    ensures Settled(t, o)
  {
    assert Marked(s) == Marked(t);
    assert o in s.ephemeron ==> o in Elems(s.ephemeron);
    assert o in s.allweak ==> o in Elems(s.allweak);
  }

  lemma RelistedMarking(s: State, t: State, f: Frame)
    requires Marking(s, f) && Relisted(s, t)
    ensures Marking(t, f) && Marked(s) == Marked(t) && Whites(s) == Whites(t)
  {
    assert Marked(s) == Marked(t);
    forall o | o in s.heap && Settled(s, o) ensures Settled(t, o) { RelistedSettled(s, t, o); }
  }

  // Ends the visit of a gray object while propagating.
  lemma LeaveToWait(s: State, o: Obj, f: Frame)
    requires Marking(s, f.With(o)) && f.strict
    requires o in s.heap && o in s.mark && s.mark[o] == Gray && o !in s.gray
    ensures Marking(s, f.Again(o))
  {
  }

  // Takes the first gray object off the list and paints it black.
  lemma Pop(s: State, f: Frame)
    requires Marking(s, f) && s.gray != []
    ensures var o := s.gray[0]; var t := s.(gray := s.gray[1..], mark := s.mark[o := Black]);
            && o in s.heap && o in s.mark && s.mark[o] == Gray && Visitable(s.heap[o]) && o !in f.wait && o !in f.ex
            && o !in t.gray
            && Marking(t, f.With(o)) && Marked(t) == Marked(s) && Whites(t) == Whites(s)
  {
    var o := s.gray[0];
    var t := s.(gray := s.gray[1..], mark := s.mark[o := Black]);
    var u := s.(gray := s.gray[1..]);
    PopList(s, f);
    assert Marked(u) == Marked(s) && Whites(u) == Whites(s);
    assert Marking(u, f.With(o)) by {
      hide GrayList;
      SettledMono(s, u);
    }
    hide Marking;
    Recolor(u, o, Black, f.With(o));
  }

  lemma PopList(s: State, f: Frame)
    requires GrayList(s, f.ex, f.wait) && s.gray != []
    ensures var o := s.gray[0]; var t := s.(gray := s.gray[1..], mark := s.mark[o := Black]);
            && o in s.heap && o in s.mark && s.mark[o] == Gray && Visitable(s.heap[o]) && o !in f.wait && o !in f.ex
            && o !in t.gray && GrayList(s.(gray := s.gray[1..]), f.ex + {o}, f.wait)
            && forall p :: p in s.gray ==> p == o || p in t.gray
  {
    assert s.gray[0] in s.gray;
  }

  lemma SettledEphemeron(s: State, o: Obj, ww: bool, clears: bool, marked: bool)
    requires o in s.heap && s.heap[o].Table? && s.heap[o].weakKeys
    requires In(s.heap[o].meta, Marked(s)) && AllIn(s.heap[o].arr, Marked(s))
    requires Scanned(s, s.heap[o].hash, |s.heap[o].hash|, marked, ww, clears)
    requires ww ==> o in s.ephemeron
    requires clears && !ww ==> o in s.allweak
    ensures Settled(s, o)
  {
  }

  lemma RelistedScan(s: State, t: State, es: seq<Entry>, marked: bool, ww: bool, clears: bool)
    requires Relisted(s, t) && Scanned(s, es, |es|, marked, ww, clears)
    ensures Scanned(t, es, |es|, marked, ww, clears)
  {
    assert Marked(s) == Marked(t);
  }

  lemma TracedGray(a: State, b: State, o: Obj)
    requires Traced(a, b, o) && o in Marked(a) && o !in a.gray
    ensures o !in b.gray
  {
    var n := |b.gray| - |a.gray|;
    forall i | 0 <= i < |b.gray| ensures b.gray[i] != o {
      if i >= n { assert b.gray[i] == b.gray[n..][i - n]; }
    }
  }

  lemma KeptByScan(s0: State, s: State, t: State, o: Obj, ww: bool, clears: bool)
    requires o in s.heap && s.heap[o].Table? && ScanInv(s0, s, o, |s.heap[o].hash|, false, ww, clears) && Relisted(s, t)
    ensures OnlyStr(s0, t) && KeepsIn(t.heap, t.heap[o], Marked(t))
  {
    assert Marked(s) == Marked(t);
  }

  lemma ElemsNone(s: seq<Obj>)
    ensures s == [] <==> Elems(s) == {}
  {
    if s != [] { assert s[0] in Elems(s); }
  }

  lemma ElemsCons(o: Obj, s: seq<Obj>)
    ensures Elems([o] + s) == Elems(s) + {o}
  {
  }

  // ---------------------------------------------------------------- propagation

  // Where a visit leaves its object: nowhere, or in front of one list.
  ghost predicate Linked(a: State, b: State, o: Obj) {
    || (b.grayagain == a.grayagain && b.ephemeron == a.ephemeron && b.allweak == a.allweak)
    || (b.grayagain == [o] + a.grayagain && b.ephemeron == a.ephemeron && b.allweak == a.allweak &&
        o in b.mark && b.mark[o] == Gray)
    || (b.grayagain == a.grayagain && WeakGray(b, o) && a.phase != Propagate &&
        ((b.ephemeron == [o] + a.ephemeron && b.allweak == a.allweak) ||
         (b.ephemeron == a.ephemeron && b.allweak == [o] + a.allweak)))
  }

  // The effect of visiting one gray object that was painted black.
  ghost predicate Visited(a: State, b: State, o: Obj) {
    && b == a.(heap := b.heap, mark := b.mark, gray := b.gray, grayagain := b.grayagain,
               ephemeron := b.ephemeron, allweak := b.allweak)
    && PrunedHeap(a.heap, b.heap) && a.mark.Keys == b.mark.Keys
    && Whites(b) <= Whites(a) && Marked(a) <= Marked(b)
    && (forall p :: p in a.mark && !a.mark[p].White? && p != o ==> b.mark[p] == a.mark[p])
    && (forall p :: p in b.gray ==> p in a.gray || p in Whites(a))
    && (Whites(b) == Whites(a) ==> b.gray == a.gray)
    && Linked(a, b, o)
  }

  lemma TracedVisited(a: State, s: State, b: State, o: Obj)
    requires Traced(a, s, o) && o in Marked(a)
    requires b == s.(mark := b.mark, grayagain := b.grayagain, ephemeron := b.ephemeron, allweak := b.allweak)
    requires b.mark == s.mark || (o in s.mark && b.mark == s.mark[o := Gray])
    requires Linked(a, b, o)
    ensures Visited(a, b, o)
  {
    hide Linked;
    hide Traced, PrunedHeap, Grew;
    TracedFacts(a, s, o);
    TracedGrayFrom(a, s, o);
    assert Whites(b) == Whites(s) && Marked(b) == Marked(s);
  }

  lemma TracedGrayFrom(a: State, b: State, o: Obj)
    requires Traced(a, b, o)
    ensures forall p :: p in b.gray ==> p in a.gray || p in Whites(a)
  {
    GrewGray(a.(heap := b.heap), b);
    assert Whites(a.(heap := b.heap)) == Whites(a);
  }

  // The effect of a whole run of the propagation loop.
  ghost predicate Advanced(a: State, b: State) {
    && b == a.(heap := b.heap, mark := b.mark, gray := b.gray, grayagain := b.grayagain,
               ephemeron := b.ephemeron, allweak := b.allweak)
    && PrunedHeap(a.heap, b.heap) && a.mark.Keys == b.mark.Keys
    && Whites(b) <= Whites(a) && Marked(a) <= Marked(b)
    && (forall p :: p in a.mark && !a.mark[p].White? && p !in a.gray ==> b.mark[p] == a.mark[p])
    && (forall p :: p in b.gray ==> p in a.gray || p in Whites(a))
    && ListsGrew(a, b)
  }

  ghost predicate ListsGrew(a: State, b: State) {
    && Elems(a.grayagain) <= Elems(b.grayagain)
    && (forall p :: p in b.ephemeron || p in b.allweak ==>
          p in a.ephemeron || p in a.allweak || p in a.gray || p in Whites(a))
    && (Lists(a) ==> Lists(b)) && (Lists(a) && GrayAgainOk(a) ==> GrayAgainOk(b))
    && (a.phase == Propagate ==> b.ephemeron == a.ephemeron && b.allweak == a.allweak)
  }

  lemma AdvancedRefl(a: State)
    ensures Advanced(a, a)
  {
  }

  lemma AdvancedTrans(a: State, b: State, c: State)
    requires Advanced(a, b) && Advanced(b, c)
    ensures Advanced(a, c)
  {
    hide Lists, GrayAgainOk;
    PrunedTrans(a.heap, b.heap, c.heap);
  }

  lemma VisitedAdvanced(s: State, b: State, f: Frame)
    requires Marking(s, f) && s.gray != []
    requires var o := s.gray[0]; Visited(s.(gray := s.gray[1..], mark := s.mark[o := Black]), b, o)
    ensures Advanced(s, b) && (Whites(b) == Whites(s) ==> |b.gray| < |s.gray|)
  {
    hide Linked, PrunedHeap, ListsGrew;
    var o := s.gray[0];
    var a := s.(gray := s.gray[1..], mark := s.mark[o := Black]);
    Pop(s, f);
    hide Marking;
    assert forall p :: p in a.gray ==> p in s.gray;
    VisitedLists(s, a, b, o);
  }

  lemma VisitedLists(s: State, a: State, b: State, o: Obj)
    requires Visited(a, b, o) && o in s.mark && s.mark[o] == Gray && o in s.gray && o in s.heap && Visitable(s.heap[o])
    requires a == s.(gray := a.gray, mark := s.mark[o := Black]) && o !in a.gray
    requires forall p :: p in a.gray ==> p in s.gray
    ensures ListsGrew(s, b)
  {
    assert Whites(a) == Whites(s) && Marked(a) == Marked(s);
    if Lists(s) {
      assert Listed(b, s.ephemeron) by { ListedStays(s, a, b, o, s.ephemeron); }
      assert Listed(b, s.allweak) by { ListedStays(s, a, b, o, s.allweak); }
      assert o !in s.ephemeron && o !in s.allweak;
      hide WeakGray;
      assert Lists(b);
      if GrayAgainOk(s) { AgainStays(s, a, b, o); }
    }
  }

  lemma ListedStays(s: State, a: State, b: State, o: Obj, l: seq<Obj>)
    requires Visited(a, b, o) && o in s.gray && a == s.(gray := a.gray, mark := s.mark[o := Black])
    requires forall p :: p in a.gray ==> p in s.gray
    requires Listed(s, l) && Whites(a) == Whites(s) && Marked(a) == Marked(s)
    ensures Listed(b, l)
  {
    hide Linked;
    forall p | p in l ensures WeakGray(b, p) && p !in b.gray {
      assert WeakGray(s, p) && p !in s.gray;
      assert Pruned(a.heap[p], b.heap[p]);
    }
  }

  lemma AgainStays(s: State, a: State, b: State, o: Obj)
    requires Visited(a, b, o) && o in s.gray && a == s.(gray := a.gray, mark := s.mark[o := Black]) && o !in a.gray
    requires forall p :: p in a.gray ==> p in s.gray
    requires o in s.mark && s.mark[o] == Gray && o in s.heap && Visitable(s.heap[o])
    requires GrayAgainOk(s) && Lists(s) && Whites(a) == Whites(s)
    ensures GrayAgainOk(b)
  {
    hide WeakGray;
    assert o !in s.grayagain && o !in s.ephemeron && o !in s.allweak;
    forall p | p in s.grayagain || p == o ensures p in b.heap && Visitable(b.heap[p]) && p !in b.gray {
      assert Pruned(a.heap[p], b.heap[p]);
    }
  }

  lemma TracedTrans(a: State, b: State, c: State, o: Obj)
    requires Traced(a, b, o) && Traced(b, c, o)
    ensures Traced(a, c, o)
  {
    assert Pruned(a.heap[o], c.heap[o]);
    assert c.heap == a.heap[o := c.heap[o]];
    var a1, b1 := a.(heap := b.heap), b.(heap := c.heap);
    var a2 := a.(heap := c.heap);
    assert Grew(a2, b1) by {
      assert Whites(a2) == Whites(a1) && Whites(b1) == Whites(b);
    }
    GrewTrans(a2, b1, c);
  }

  lemma WeakVisited(a: State, b: State, c: State, d: State, o: Obj)
    requires Grew(a, b) && o in b.heap && o in b.mark && c == b.(mark := b.mark[o := Gray]) && o in Marked(a)
    requires Traced(c, d.(grayagain := c.grayagain, ephemeron := c.ephemeron, allweak := c.allweak), o)
    requires Linked(c, d, o)
    ensures Visited(a, d, o)
  {
    hide Grew, WeakGray, Traced, PrunedHeap;
    GrewFacts(a, b);
    GrewGray(a, b);
    var d0 := d.(grayagain := c.grayagain, ephemeron := c.ephemeron, allweak := c.allweak);
    assert Marked(c) == Marked(b) && Whites(c) == Whites(b);
    TracedFacts(c, d0, o);
    assert Whites(d) == Whites(d0) && Marked(d) == Marked(d0);
    TracedVisited(c, d0, d, o);
  }

  lemma GrewGray(a: State, b: State)
    requires Grew(a, b)
    ensures forall p :: p in b.gray ==> p in a.gray || p in Whites(a)
  {
    var n := |b.gray| - |a.gray|;
    forall p | p in b.gray ensures p in a.gray || p in Whites(a) {
      var i :| 0 <= i < |b.gray| && b.gray[i] == p;
      if i >= n { assert p == b.gray[n..][i - n]; }
    }
  }

  lemma ThreadVisited(a: State, b: State, c: State, o: Obj)
    requires o in a.heap && o in a.mark && o in Marked(a) && o !in a.gray
    requires b == a.(grayagain := [o] + a.grayagain, mark := a.mark[o := Gray]) && Grew(b, c)
    ensures Visited(a, c, o) && o !in c.gray
  {
    assert Marked(a) == Marked(b) && Whites(a) == Whites(b);
    GrewFacts(b, c);
    TracedRefl(b, c, o);
    TracedVisited(b, c, c, o);
    TracedGray(b, c, o);
  }

  lemma VisitedAgain(a: State, b: State, o: Obj)
    requires Visited(a, b, o)
    ensures b.grayagain == a.grayagain || b.grayagain == [o] + a.grayagain
  {
  }

  lemma AdvancedFacts(a: State, b: State)
    requires Advanced(a, b)
    ensures b == a.(heap := b.heap, mark := b.mark, gray := b.gray, grayagain := b.grayagain,
                    ephemeron := b.ephemeron, allweak := b.allweak)
    ensures PrunedHeap(a.heap, b.heap) && a.mark.Keys == b.mark.Keys
    ensures Whites(b) <= Whites(a) && Marked(a) <= Marked(b)
    ensures ListsGrew(a, b)
  {
  }

  // ---------------------------------------------------------------- convergence

  // The ephemeron tables of the current pass that are still to be visited.
  ghost predicate Rest(s: State, next: seq<Obj>) {
    Lists(s) && Listed(s, next) && forall o :: o in next ==> o !in s.ephemeron && o !in s.allweak
  }

  ghost predicate Kept(s: State, l: seq<Obj>) {
    forall p :: p in l ==> p in s.heap && KeepsIn(s.heap, s.heap[p], Marked(s))
  }

  ghost function Waiting(next: seq<Obj>, keep: set<Obj>): Frame { Frame({}, Elems(next), false, keep) }

  // Anything the atomic phase does to the graph and the colours.
  ghost predicate Progress(a: State, b: State) {
    && b == a.(heap := b.heap, mark := b.mark, gray := b.gray, grayagain := b.grayagain,
               ephemeron := b.ephemeron, allweak := b.allweak)
    && PrunedHeap(a.heap, b.heap) && a.mark.Keys == b.mark.Keys
    && Whites(b) <= Whites(a) && Marked(a) <= Marked(b)
  }

  lemma ProgressTrans(a: State, b: State, c: State)
    requires Progress(a, b) && Progress(b, c)
    ensures Progress(a, c)
  {
    PrunedTrans(a.heap, b.heap, c.heap);
  }

  lemma TakeList(s: State, keep: set<Obj>)
    requires Marking(s, Waiting([], keep)) && Lists(s) && s.gray == []
    ensures var t := s.(ephemeron := []);
            Marking(t, Waiting(s.ephemeron, keep)) && Rest(t, s.ephemeron) && Progress(s, t) && Marked(t) == Marked(s)
  {
    var t := s.(ephemeron := []);
    assert Marked(t) == Marked(s) && Whites(t) == Whites(s);
    assert Listed(t, s.ephemeron) && Listed(t, s.allweak) by {
      forall o | WeakGray(s, o) ensures WeakGray(t, o) {}
    }
    hide WeakGray;
    forall o | o in s.heap && Settled(s, o) ensures Settled(t, o) || o in s.ephemeron {}
  }

  lemma TakeNext(s: State, next: seq<Obj>, keep: set<Obj>)
    requires Marking(s, Waiting(next, keep)) && Rest(s, next) && next != []
    ensures var w := next[0];
            && Marking(s, Waiting(next[1..], keep).With(w))
            && WeakGray(s, w) && w !in s.gray && w !in Elems(next[1..]) && w !in next[1..]
  {
    var w := next[0];
    assert w in next;
    assert Elems(next) == Elems(next[1..]) + {w};
  }

  lemma Traversed(a: State, b: State, w: Obj, next: seq<Obj>)
    requires Rest(a, next) && next != [] && w == next[0] && a.gray == [] && a.phase != Propagate
    requires Traced(a, b.(grayagain := a.grayagain, ephemeron := a.ephemeron, allweak := a.allweak), w)
    requires Linked(a, b, w) && b.grayagain == a.grayagain
    ensures Rest(b, next[1..]) && Progress(a, b)
  {
    var c := b.(grayagain := a.grayagain, ephemeron := a.ephemeron, allweak := a.allweak);
    hide Traced, Listed, WeakGray;
    TracedFacts(a, c, w);
    TracedGrayFrom(a, c, w);
    assert Marked(b) == Marked(c) && Whites(b) == Whites(c);
    ListedTraced(a, b, next);
    ListedTraced(a, b, a.ephemeron);
    ListedTraced(a, b, a.allweak);
    assert w in next;
    ListedCons(b, w, next, a.ephemeron);
    ListedCons(b, w, next, a.allweak);
  }

  // Moving the first element of one list in front of another.
  lemma ListedCons(b: State, w: Obj, next: seq<Obj>, l: seq<Obj>)
    requires next != [] && w == next[0] && Listed(b, next) && Listed(b, l)
    ensures Listed(b, next[1..]) && w !in next[1..]
    ensures w !in l ==> Listed(b, [w] + l)
  {
    hide WeakGray;
    assert w in next;
  }

  lemma ListedTraced(a: State, b: State, l: seq<Obj>)
    requires Listed(a, l) && PrunedHeap(a.heap, b.heap) && a.mark.Keys == b.mark.Keys && Marked(a) <= Marked(b)
    requires forall p :: p in a.mark && !a.mark[p].White? ==> b.mark[p] == a.mark[p]
    requires a.gray == [] && forall p :: p in b.gray ==> p in Whites(a)
    ensures Listed(b, l)
  {
    forall p | p in l ensures WeakGray(b, p) && p !in b.gray {
      assert WeakGray(a, p);
      assert Pruned(a.heap[p], b.heap[p]);
    }
  }

  lemma RestAdvanced(a: State, b: State, next: seq<Obj>)
    requires Rest(a, next) && Advanced(a, b)
    ensures Rest(b, next)
  {
    forall p | p in next ensures WeakGray(b, p) && p !in b.gray {
      assert WeakGray(a, p) && p !in a.gray;
      assert Pruned(a.heap[p], b.heap[p]);
    }
  }

  // A visit that marked no value marked strings at most, so nothing turned gray.
  lemma NothingGray(a: State, b: State, f: Frame)
    requires a.gray == [] && OnlyStr(a, b) && Marking(b, f) && a.mark.Keys == b.mark.Keys
    requires forall p :: p in b.gray ==> p in Whites(a)
    ensures b.gray == []
  {
    ElemsNone(b.gray);
    assert Elems(b.gray) == {};
  }

  lemma KeptStays(a: State, b: State, w: Obj, f: Frame)
    requires Kept(a, a.ephemeron) && Lists(a) && Marking(a, f) && OnlyStr(a, b)
    requires w in b.heap && w !in a.ephemeron && b.heap == a.heap[w := b.heap[w]] && (w in a.heap && (a.heap[w].Str? <==> b.heap[w].Str?))
    requires Marked(a) <= Marked(b)
    requires b.ephemeron == a.ephemeron || b.ephemeron == [w] + a.ephemeron
    requires KeepsIn(b.heap, b.heap[w], Marked(b))
    ensures Kept(b, b.ephemeron)
  {
    forall p | p in b.ephemeron && p != w ensures p in b.heap && KeepsIn(b.heap, b.heap[p], Marked(b)) {
      assert p in a.ephemeron && KeepsIn(a.heap, a.heap[p], Marked(a));
      assert WeakGray(a, p) && RefsIn(a.heap[p], a.heap.Keys);
      KeepsStr(a, b, a.heap[p]);
    }
  }

  lemma KeepsStr(a: State, b: State, ob: Object)
    requires ob.Table? && ob.weakKeys && KeepsIn(a.heap, ob, Marked(a)) && RefsIn(ob, a.heap.Keys)
    requires OnlyStr(a, b) && Marked(a) <= Marked(b) && a.heap.Keys == b.heap.Keys
    requires forall o :: o in a.heap ==> (a.heap[o].Str? <==> b.heap[o].Str?)
    ensures KeepsIn(b.heap, ob, Marked(b))
  {
    forall i | 0 <= i < |ob.hash| ensures KeepsEntry(b.heap, true, ob.hash[i], Marked(b)) {
      var e := ob.hash[i];
      assert KeepsEntry(a.heap, true, e, Marked(a)) && In(e.key, a.heap.Keys);
    }
  }

  // Where the convergence loop stops, the marked objects are closed under keeping.
  lemma ConvergedClosed(s: State, keep: set<Obj>)
    requires Marking(s, Waiting([], keep)) && s.gray == [] && Kept(s, s.ephemeron)
    ensures Closed(s.heap, Marked(s))
  {
    var M := Marked(s);
    forall o | o in M ensures o in s.heap && KeepsIn(s.heap, s.heap[o], M) {
      if s.mark[o] == Gray {
        assert Settled(s, o);
        if o !in s.ephemeron { SettledKeeps(s, o); }
      } else {
        assert RefsIn(s.heap[o], M);
        RefsKeep(s.heap, s.heap[o], M);
      }
    }
  }

  lemma SettledKeeps(s: State, o: Obj)
    requires o in s.heap && Settled(s, o) && o !in s.ephemeron
    ensures KeepsIn(s.heap, s.heap[o], Marked(s))
  {
  }

  lemma RefsKeep(h: Heap, ob: Object, M: set<Obj>)
    requires RefsIn(ob, M)
    ensures KeepsIn(h, ob, M)
  {
  }

  lemma ProgressRefl(s: State)
    ensures Progress(s, s)
  {
  }

  lemma ProgressFacts(a: State, b: State)
    requires Progress(a, b)
    ensures b == a.(heap := b.heap, mark := b.mark, gray := b.gray, grayagain := b.grayagain,
                    ephemeron := b.ephemeron, allweak := b.allweak)
    ensures Whites(b) <= Whites(a) && Marked(a) <= Marked(b) && PrunedHeap(a.heap, b.heap)
    ensures a.mark.Keys == b.mark.Keys
  {
  }

  lemma AdvancedProgress(a: State, b: State)
    requires Advanced(a, b)
    ensures Progress(a, b)
  {
  }

  lemma KeptNone(s: State)
    requires s.ephemeron == []
    ensures Kept(s, s.ephemeron)
  {
  }

  lemma RestLists(s: State)
    requires Rest(s, [])
    ensures Lists(s)
  {
  }

  lemma UnmarkedVisit(a: State, b: State, next: seq<Obj>, keep: set<Obj>)
    requires next != [] && Rest(a, next) && Marking(a, Waiting(next, keep)) && a.gray == [] && a.phase != Propagate
    requires Marking(b, Waiting(next[1..], keep))
    requires Traced(a, b.(grayagain := a.grayagain, ephemeron := a.ephemeron, allweak := a.allweak), next[0])
    requires Linked(a, b, next[0]) && OnlyStr(a, b) && KeepsIn(b.heap, b.heap[next[0]], Marked(b))
    ensures b.gray == [] && (Kept(a, a.ephemeron) ==> Kept(b, b.ephemeron))
  {
    var w := next[0];
    assert w in next;
    var c := b.(grayagain := a.grayagain, ephemeron := a.ephemeron, allweak := a.allweak);
    TracedFacts(a, c, w);
    TracedGrayFrom(a, c, w);
    assert Marked(b) == Marked(c);
    NothingGray(a, b, Waiting(next[1..], keep));
    if Kept(a, a.ephemeron) {
      hide Marking, KeepsIn, Lists, OnlyStr;
      KeptStays(a, b, w, Waiting(next, keep));
    }
  }

  // ---------------------------------------------------------------- the end of the atomic phase

  ghost predicate Clean(h: Heap, ob: Object, n: nat, M: set<Obj>) {
    ob.Table? && n <= |ob.hash| &&
    forall i :: 0 <= i < n && ob.hash[i].val != Nil ==> In(ob.hash[i].key, M) || IsStr(h, ob.hash[i].key)
  }

  lemma ClearedSteps(h: Heap, k: Heap, l: Heap, o: Obj, M: set<Obj>)
    requires ClearedHeap(h, k, M) && o in k && o in l && l == k[o := l[o]] && ClearedObject(k[o], l[o], M)
    ensures ClearedHeap(h, l, M)
    ensures forall p, n :: p in k && p != o && Clean(k, k[p], n, M) ==> Clean(l, l[p], n, M)
  {
    assert ClearedObject(h[o], k[o], M);
    assert ClearedObject(h[o], l[o], M);
    forall p | p in h && p != o ensures ClearedObject(h[p], l[p], M) { assert l[p] == k[p]; }
    forall v: Value ensures IsStr(k, v) <==> IsStr(l, v) {}
  }

  // Once converged and cleared, no live-tagged pointer leads from a marked
  // object to an unmarked one.
  lemma ClearedRefClosed(s: State, h: Heap, keep: set<Obj>)
    requires Marking(s, Waiting([], keep)) && s.gray == [] && Lists(s) && Closed(s.heap, Marked(s))
    requires ClearedBy(s.heap, h, s.ephemeron + s.allweak, Marked(s))
    ensures RefClosed(h, Marked(s))
  {
    var M := Marked(s);
    forall o | o in M ensures o in h && RefsIn(h[o], M) {
      assert KeepsIn(s.heap, s.heap[o], M) && ClearedObject(s.heap[o], h[o], M);
      if o in s.ephemeron || o in s.allweak {
        assert WeakGray(s, o) && Settled(s, o);
        ClearedRefs(s, h, o);
      } else if s.mark[o] == Gray {
        assert Settled(s, o);
        SettledRefs(s, o);
      }
    }
  }

  lemma SettledRefs(s: State, o: Obj)
    requires o in s.heap && Settled(s, o) && o !in s.ephemeron && o !in s.allweak
    ensures RefsIn(s.heap[o], Marked(s))
  {
  }

  lemma ClearedRefs(s: State, h: Heap, o: Obj)
    requires o in s.heap && o in h && Settled(s, o) && s.heap[o].Table? && s.heap[o].weakKeys
    requires KeepsIn(s.heap, s.heap[o], Marked(s)) && ClearedHeap(s.heap, h, Marked(s))
    requires h[o].Table? && Clean(h, h[o], |h[o].hash|, Marked(s))
    ensures RefsIn(h[o], Marked(s))
  {
    var M := Marked(s);
    assert ClearedObject(s.heap[o], h[o], M);
    forall v: Value ensures IsStr(s.heap, v) <==> IsStr(h, v) {
      if v.Ref? && v.o in h { assert ClearedObject(s.heap[v.o], h[v.o], M); }
    }
    forall i | 0 <= i < |h[o].hash| ensures In(h[o].hash[i].key, M) && In(h[o].hash[i].val, M) {
      assert KeepsEntry(s.heap, true, s.heap[o].hash[i], M);
    }
  }

  lemma ClearedTrans(h: Heap, k: Heap, l: Heap, M: set<Obj>)
    requires (PrunedHeap(h, k) || ClearedHeap(h, k, M)) && ClearedHeap(k, l, M)
    ensures ClearedHeap(h, l, M)
    ensures forall o, n :: o in k && l[o] == k[o] && Clean(k, k[o], n, M) ==> Clean(l, l[o], n, M)
  {
    forall o | o in h ensures ClearedObject(h[o], l[o], M) {
      assert ClearedObject(k[o], l[o], M);
      assert Pruned(h[o], k[o]) || ClearedObject(h[o], k[o], M);
    }
    forall v: Value ensures IsStr(k, v) <==> IsStr(l, v) {
      if v.Ref? && v.o in k { assert ClearedObject(k[v.o], l[v.o], M); }
    }
  }

  // The saved grayagain list becomes the gray list.
  lemma SwitchLists(a: State, s: State, keep: set<Obj>)
    requires GrayAgainOk(a) && Lists(a) && Advanced(a, s) && s.gray == []
    requires Marking(s, Waiting(a.grayagain, keep))
    ensures Marking(s.(gray := a.grayagain), Waiting([], keep)) && Lists(s.(gray := a.grayagain))
    ensures Progress(s, s.(gray := a.grayagain))
  {
    hide Lists, GrayAgainOk, ListsGrew, Advanced, Tri, Tight, PrunedHeap;
    var next, t := a.grayagain, s.(gray := a.grayagain);
    assert Marked(t) == Marked(s) && Whites(t) == Whites(s);
    AreWaiting(s, next);
    SwitchDisjoint(a, s);
    SwitchTri(s, next);
    TightSame(s, t, keep);
    PrunedSame(s.heap);
    assert Elems([]) == {};
  }

  lemma AreWaiting(s: State, next: seq<Obj>)
    requires Tri(s, {}, Elems(next), false)
    ensures forall o :: o in Elems(next) ==> o in s.mark && s.mark[o] == Gray
  {
  }

  lemma TightSame(s: State, t: State, keep: set<Obj>)
    requires Tight(s, keep) && t == s.(gray := t.gray)
    ensures Tight(t, keep)
  {
    assert Marked(t) == Marked(s);
  }

  lemma PrunedSame(h: Heap)
    ensures PrunedHeap(h, h)
  {
  }

  lemma SwitchTri(s: State, next: seq<Obj>)
    requires Tri(s, {}, Elems(next), false) && s.gray == [] && NoDup(next)
    requires forall o :: o in next ==> o in s.heap && Visitable(s.heap[o])
    ensures Tri(s.(gray := next), {}, {}, false)
  {
    var t := s.(gray := next);
    assert Marked(t) == Marked(s);
    assert forall o :: o in next <==> o in Elems(next);
    SettledMono(s, t);
  }

  lemma SwitchDisjoint(a: State, s: State)
    requires GrayAgainOk(a) && Lists(a) && Advanced(a, s)
    requires forall o :: o in Elems(a.grayagain) ==> o in s.mark && s.mark[o] == Gray
    ensures Lists(s.(gray := a.grayagain)) && NoDup(a.grayagain)
    ensures forall o :: o in a.grayagain ==> o in s.heap && Visitable(s.heap[o])
  {
    var t := s.(gray := a.grayagain);
    assert Marked(t) == Marked(s);
    assert Lists(s) && GrayAgainOk(s) && Elems(a.grayagain) <= Elems(s.grayagain);
    forall o | WeakGray(s, o) ensures WeakGray(t, o) {}
    hide WeakGray;
    forall o | o in a.grayagain ensures o in s.heap && Visitable(s.heap[o]) && o in s.grayagain {
      assert o in Elems(a.grayagain) && o in Elems(s.grayagain);
      assert Pruned(a.heap[o], s.heap[o]);
    }
  }

  lemma GrewLists(a: State, b: State)
    requires Grew(a, b) && Lists(a)
    ensures Lists(b) && (GrayAgainOk(a) ==> GrayAgainOk(b))
  {
    GrewFacts(a, b);
    GrewGray(a, b);
    hide Grew;
    forall o | WeakGray(a, o) && o !in a.gray ensures WeakGray(b, o) && o !in b.gray {}
  }

  lemma PhaseOnly(s: State, t: State, f: Frame)
    requires t == s.(phase := t.phase) && Marking(s, f) && Lists(s)
    ensures Marking(t, f) && Lists(t) && Marked(t) == Marked(s) && (GrayAgainOk(s) ==> GrayAgainOk(t))
  {
    assert Marked(t) == Marked(s);
    SettledMono(s, t);
    forall o | WeakGray(s, o) ensures WeakGray(t, o) {}
    hide WeakGray;
  }

  lemma AdvancedLists(a: State, b: State)
    requires Advanced(a, b) && Lists(a)
    ensures Lists(b) && (GrayAgainOk(a) ==> GrayAgainOk(b))
  {
  }

  // What the atomic phase has established when it flips the current white.
  ghost predicate AtomicDone(a: State, b: State, keep: set<Obj>) {
    && b == a.(heap := b.heap, mark := b.mark, gray := b.gray, grayagain := b.grayagain, ephemeron := b.ephemeron,
               allweak := b.allweak, phase := InsideAtomic, cw := !a.cw)
    && b.mark.Keys == a.mark.Keys == a.heap.Keys == b.heap.Keys
    && (forall o :: o in b.mark ==> b.mark[o] != White(b.cw))
    && RootsIn(b, Marked(b)) && RefClosed(b.heap, Marked(b))
    && Closed(a.heap, Marked(b)) && Marked(b) <= keep
    && ClearedHeap(a.heap, b.heap, Marked(b))
  }

  lemma WeakTables(s: State, keep: set<Obj>)
    requires Marking(s, Waiting([], keep)) && Lists(s)
    ensures s.mark.Keys == s.heap.Keys && RefHeap(s.heap)
    ensures AllWeak(s.heap, s.ephemeron) && AllWeak(s.heap, s.allweak)
    ensures forall o :: o in s.ephemeron ==> o !in s.allweak
  {
    forall o | o in s.ephemeron || o in s.allweak ensures WeakGray(s, o) {}
  }

  lemma TightWhites(s: State, f: Frame)
    requires Marking(s, f)
    ensures Marked(s) <= f.keep && s.mark.Keys == s.heap.Keys
    ensures forall o :: o in s.mark ==> s.mark[o] != White(!s.cw)
  {
  }

  lemma GrewProgress(a: State, b: State)
    requires Grew(a, b)
    ensures Progress(a, b)
  {
    GrewFacts(a, b);
  }

  lemma ProgressRoots(a: State, b: State)
    requires Progress(a, b) && RootsIn(a, Marked(a))
    ensures RootsIn(b, Marked(b))
  {
  }

  ghost predicate RefHeap(h: Heap) { forall o :: o in h ==> RefsIn(h[o], h.Keys) }

  ghost predicate AllWeak(h: Heap, l: seq<Obj>) { forall o :: o in l ==> o in h && h[o].Table? && h[o].weakKeys }

  lemma StillWeak(h: Heap, k: Heap, e: seq<Obj>, w: seq<Obj>, M: set<Obj>)
    requires AllWeak(h, w) && ClearedBy(h, k, e, M) && forall o :: o in e ==> o !in w
    ensures AllWeak(k, w) && k.Keys == h.Keys
  {
  }

  // The tables in l have been cleared, nothing else changed.
  ghost predicate ClearedBy(h: Heap, k: Heap, l: seq<Obj>, M: set<Obj>) {
    && ClearedHeap(h, k, M)
    && (forall o :: o in h && o !in l ==> k[o] == h[o])
    && (forall o :: o in l ==> o in k && k[o].Table? && Clean(k, k[o], |k[o].hash|, M))
  }

  lemma ClearedBoth(h: Heap, k: Heap, l: Heap, e: seq<Obj>, w: seq<Obj>, M: set<Obj>)
    requires ClearedBy(h, k, e, M) && ClearedBy(k, l, w, M) && forall o :: o in e ==> o !in w
    ensures ClearedBy(h, l, e + w, M)
  {
    ClearedTrans(h, k, l, M);
    hide Clean, ClearedObject;
  }

  lemma AtomicFinish(s0: State, s: State, k: Heap, h: Heap, keep: set<Obj>)
    requires Marking(s, Waiting([], keep)) && s.gray == [] && Lists(s) && Closed(s.heap, Marked(s))
    requires Progress(s0.(phase := InsideAtomic), s) && s0.mark.Keys == s0.heap.Keys && RootsIn(s, Marked(s))
    requires ClearedBy(s.heap, k, s.ephemeron, Marked(s)) && ClearedBy(k, h, s.allweak, Marked(s))
    ensures AtomicDone(s0, s.(heap := h, cw := !s.cw), keep)
  {
    var M := Marked(s);
    var t := s.(heap := h, cw := !s.cw);
    assert Marked(t) == M;
    WeakTables(s, keep);
    TightWhites(s, Waiting([], keep));
    ProgressFacts(s0.(phase := InsideAtomic), s);
    ClearedBoth(s.heap, k, h, s.ephemeron, s.allweak, M);
    ClearedRefClosed(s, h, keep);
    hide Marking, Lists, Closed, RefClosed, ClearedHeap, PrunedHeap, Progress, RefsIn, Clean;
    ClearedTrans(s0.heap, s.heap, h, M);
    PrunedClosed(s0.heap, s.heap, M);
    ClearedKeys(s0.heap, h, M);
  }

  lemma ClearedKeys(h: Heap, k: Heap, M: set<Obj>)
    requires ClearedHeap(h, k, M)
    ensures h.Keys == k.Keys
  {
  }
}
