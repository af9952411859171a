/**
  What the operations of a program mean, read and write against each other, and
  that the collector is invisible: a program without weak tables finds the same
  objects whether or not collector steps run in between.
 */
module GcProgram {
  import opened GcHeap
  import opened GcCycle

  // ---------------------------------------------------------------- reading what was written

  // Where a stored value can be read again; past the end it is appended.
  function ReadAt(ob: Object, p: Place): (sel: Field)
    requires Applies(ob, p)
  {
    match p
    case Elem(n) => ElemAt(if n < |ob.arr| then n else |ob.arr|)
    case Field(n, _) => ValAt(if n < |ob.hash| then n else |ob.hash|)
    case Metatable => MetaOf
    case UserValue => UserValueOf
  }

  // After a store the place holds the value, an entry has its key, and every
  // other place of the object reads as before.
  lemma StoreLaw(ob: Object, p: Place, v: Value)
    requires Applies(ob, p)
    ensures var r, at := Put(ob, p, v), ReadAt(ob, p);
      && Fetch(r, at) == v
      && (p.Field? ==> Fetch(r, KeyAt(at.n)) == if v == Nil then Nil else p.key)
      && (forall sel: Field :: sel != at && !(p.Field? && sel == KeyAt(at.n)) ==> Fetch(r, sel) == Fetch(ob, sel))
      && r.Table? == ob.Table? && r.Udata? == ob.Udata? && (r.Table? ==> r.weakKeys == ob.weakKeys)
  {
    var r, at := Put(ob, p, v), ReadAt(ob, p);
    forall sel: Field | sel != at && !(p.Field? && sel == KeyAt(at.n)) ensures Fetch(r, sel) == Fetch(ob, sel) {
      match sel
      case ElemAt(n) =>
      case KeyAt(n) =>
      case ValAt(n) =>
      case MetaOf =>
      case UserValueOf =>
      case StackAt(n) =>
    }
  }

  // A new object is empty: everything it has reads as nil.
  lemma FreshLaw(kind: Kind, sel: Field)
    ensures Fetch(Fresh(kind), sel) == Nil
    ensures (kind == NewStr <==> Fresh(kind).Str?) && (kind == NewTable <==> Fresh(kind).Table?)
    ensures (kind == NewUdata <==> Fresh(kind).Udata?) && (kind == NewThread <==> Fresh(kind).Thread?)
    ensures kind == NewTable ==> !Fresh(kind).weakKeys
  {
  }

  // A thread is running.
  ghost predicate Runs(w: View) { w.running in w.heap && w.heap[w.running].Thread? }

  // Pushing leaves the slots below and puts the value on top; nothing else changes.
  lemma PushLaw(w: View, v: Value)
    requires Runs(w)
    ensures var u, n := Pushed(w, v), |StackOf(w)|;
      && Runs(u) && |StackOf(u)| == n + 1 && SlotOf(u, n) == v && (forall i :: 0 <= i < n ==> SlotOf(u, i) == SlotOf(w, i))
      && u.running == w.running && u.registry == w.registry && u.heap.Keys == w.heap.Keys
      && forall o :: o in w.heap && o != w.running ==> u.heap[o] == w.heap[o]
  {
  }

  // Where a program may store: elements and entries of tables, metatables of
  // tables and userdata, the value of a userdata. An entry is found by its key, a
  // new one needs a key that is not nil and a free place.
  ghost predicate Writable(w: View, ob: Object, sel: Target) {
    match sel
    case ToElem(_) => ob.Table?
    case ToField(n, k) =>
      && ob.Table? && (SlotOf(w, k).Ref? || SlotOf(w, k).Prim?)
      && (n < |ob.hash| ==> ob.hash[n].key == SlotOf(w, k) || ob.hash[n].val == Nil)
    case ToMeta => ob.Table? || ob.Udata?
    case ToUserValue => ob.Udata?
  }

  // The place from which a store can be read again.
  ghost function Source(ob: Object, sel: Target): (r: Field)
    requires sel.ToElem? || sel.ToField? ==> ob.Table?
  {
    match sel
    case ToElem(n) => ElemAt(if n < |ob.arr| then n else |ob.arr|)
    case ToField(n, _) => ValAt(if n < |ob.hash| then n else |ob.hash|)
    case ToMeta => MetaOf
    case ToUserValue => UserValueOf
  }

  // Storing the value of a slot in an object and loading from there gives the
  // value, wherever a program may store; elsewhere nothing is stored.
  lemma SetLoad(w: View, t: nat, sel: Target, v: nat)
    requires Runs(w)
    ensures var o, x := SlotOf(w, t), After(w, Set(t, sel, v));
      if o.Ref? && o.o in w.heap && Writable(w, w.heap[o.o], sel)
      then StackOf(After(x, Load(t, Source(w.heap[o.o], sel)))) == StackOf(w) + [SlotOf(w, v)]
      else x == w
  {
    hide Put, Fetch, ReadAt;
    var o, x, p := SlotOf(w, t), After(w, Set(t, sel, v)), PlaceOf(w, sel);
    if o.Ref? && o.o in w.heap && Writable(w, w.heap[o.o], sel) {
      assert Applies(w.heap[o.o], p) && IsObject(w, o);
      SourceIs(w.heap[o.o], w, sel);
      hide Applies, Writable;
      StoreLaw(w.heap[o.o], p, SlotOf(w, v));
      NotRunning(w, o.o, p);
      assert x.heap[o.o] == Put(w.heap[o.o], p, SlotOf(w, v)) && StackOf(x) == StackOf(w);
    }
  }

  lemma SourceIs(ob: Object, w: View, sel: Target)
    requires Applies(ob, PlaceOf(w, sel))
    ensures Source(ob, sel) == ReadAt(ob, PlaceOf(w, sel))
  {
  }

  // What was moved to another thread is on top of its stack.
  lemma MoveLoad(w: View, th: nat, v: nat)
    requires Runs(w)
    ensures var o, x := SlotOf(w, th), After(w, MoveTo(th, v));
      if o.Ref? && o.o in w.heap && w.heap[o.o].Thread? && o.o != w.running
      then StackOf(After(x, Load(th, StackAt(|w.heap[o.o].stack|)))) == StackOf(w) + [SlotOf(w, v)]
      else (o.Ref? && o.o == w.running) || x == w
  {
    var o, x := SlotOf(w, th), After(w, MoveTo(th, v));
    if o.Ref? && o.o in w.heap && w.heap[o.o].Thread? && o.o != w.running {
      assert IsObject(w, o) && StackOf(x) == StackOf(w);
    }
  }

  lemma NotRunning(w: View, o: Obj, p: Place)
    requires Runs(w) && o in w.heap && Applies(w.heap[o], p)
    ensures o != w.running
  {
  }

  // ---------------------------------------------------------------- programs without collector

  ghost function Fold(w: View, ops: seq<Op>): (r: View) {
    if ops == [] then w else After(Fold(w, ops[..|ops| - 1]), ops[|ops| - 1])
  }

  // Without collector steps a run is the fold of its operations.
  lemma {:induction false} NoCollector(trace: seq<State>, ops: seq<Op>)
    requires Steps(trace, ops) && forall i :: 0 <= i < |ops| ==> IsProgram(ops[i])
    ensures ViewOf(trace[|ops|]) == Fold(ViewOf(trace[0]), ops)
  {
    hide After;
    if ops != [] {
      var n := |ops| - 1;
      assert Stepped(trace[n], ops[n], trace[n + 1]);
      assert Steps(trace[..n + 1], ops[..n]);
      NoCollector(trace[..n + 1], ops[..n]);
    }
  }

  // ---------------------------------------------------------------- the collector is invisible

  // Equal, but for the keys of empty entries, which a program cannot read.
  ghost predicate Alike(a: Object, b: Object) {
    || a == b
    || (&& a.Table? && b.Table? && a.meta == b.meta && a.weakKeys == b.weakKeys && a.arr == b.arr && |a.hash| == |b.hash|
        && forall i :: 0 <= i < |a.hash| ==> a.hash[i] == b.hash[i] || (a.hash[i].val == Nil && b.hash[i].val == Nil))
  }

  ghost predicate Strong(h: Heap) { forall o :: o in h && h[o].Table? ==> !h[o].weakKeys }

  // w is the program's view without a collector, s the state with it: the set R
  // holds what w can reach, and there both are alike.
  ghost predicate Sim(w: View, s: State, R: set<Obj>) {
    && w.running == s.running && w.registry == s.registry && Runs(w)
    && s.heap.Keys <= w.heap.Keys && Strong(w.heap) && Strong(s.heap)
    && Closed(w.heap, R) && RootsIn(s, R)
    && forall o :: o in R ==> o in s.heap && Alike(w.heap[o], s.heap[o])
  }

  lemma AlikeKeeps(h: Heap, k: Heap, a: Object, b: Object, R: set<Obj>)
    requires Alike(a, b) && (a.Table? ==> !a.weakKeys)
    ensures KeepsIn(h, a, R) <==> KeepsIn(k, b, R)
  {
    if a.Table? {
      forall i | 0 <= i < |a.hash| ensures KeepsEntry(h, false, a.hash[i], R) <==> KeepsEntry(k, false, b.hash[i], R) {}
    }
  }

  // What is reachable with the collector is closed without it.
  lemma SimReach(w: View, s: State, R: set<Obj>)
    requires Sim(w, s, R)
    ensures ReachSet(s) <= R && Sim(w, s, ReachSet(s))
  {
    hide KeepsIn, Alike, Reachable;
    forall o | o in R ensures KeepsIn(s.heap, s.heap[o], R) { AlikeKeeps(w.heap, s.heap, w.heap[o], s.heap[o], R); }
    assert Closed(s.heap, R);
    ReachSetClosed(s, R);
    var Q := ReachSet(s);
    assert Q <= R by { ReachLeast(s, R); }
    forall o | o in Q ensures KeepsIn(w.heap, w.heap[o], Q) { AlikeKeeps(w.heap, s.heap, w.heap[o], s.heap[o], Q); }
  }

  lemma ReachLeast(s: State, R: set<Obj>)
    requires Closed(s.heap, R) && RootsIn(s, R)
    ensures ReachSet(s) <= R
  {
  }

  lemma ClearedAlike(a: Object, b: Object, c: Object, R: set<Obj>)
    requires Alike(a, b) && ClearedObject(b, c, R) && (b.Table? ==> !b.weakKeys)
    ensures Alike(a, c) && (c.Table? ==> !c.weakKeys)
  {
  }

  // A collector step or a full collection leaves both alike where it matters.
  lemma CollectSim(w: View, s: State, op: Op, t: State, R: set<Obj>)
    requires Sim(w, s, R) && Stepped(s, op, t) && !IsProgram(op)
    requires t.heap.Keys <= s.heap.Keys && forall o :: o in t.heap ==> ClearedObject(s.heap[o], t.heap[o], ReachSet(s))
    ensures Sim(w, t, ReachSet(s))
  {
    SimReach(w, s, R);
    hide Alike, ClearedObject, KeepsIn, Reachable, Evolves, Smaller;
    var Q := ReachSet(s);
    forall o | o in t.heap ensures t.heap[o].Table? ==> !t.heap[o].weakKeys { ClearedMode(s.heap[o], t.heap[o], Q); }
    assert Q <= t.heap.Keys by { Kept(s, op, t); }
    forall o | o in Q ensures Alike(w.heap[o], t.heap[o]) { ClearedAlike(w.heap[o], s.heap[o], t.heap[o], Q); }
    assert SameRoots(s, t) by { Kept(s, op, t); }
  }

  lemma ClearedMode(a: Object, b: Object, R: set<Obj>)
    requires ClearedObject(a, b, R) && (a.Table? ==> !a.weakKeys)
    ensures b.Table? ==> !b.weakKeys
  {
  }

  lemma Kept(s: State, op: Op, t: State)
    requires Stepped(s, op, t) && !IsProgram(op)
    ensures ReachSet(s) <= t.heap.Keys && SameRoots(s, t)
  {
    hide Reachable;
  }

  lemma CollectorClears(s: State, op: Op, t: State)
    requires Stepped(s, op, t) && !IsProgram(op)
    ensures t.heap.Keys <= s.heap.Keys && forall o :: o in t.heap ==> ClearedObject(s.heap[o], t.heap[o], ReachSet(s))
  {
    hide Reachable, ClearedObject, Accessible;
  }

  // ---------------------------------------------------------------- program operations on both sides

  // What both sides have in common after an operation, for a set that holds what
  // can be reached then.
  lemma SimFrom(w: View, s: State, R: set<Obj>)
    requires w.running == s.running && w.registry == s.registry && Runs(w) && s.heap.Keys <= w.heap.Keys
    requires Strong(w.heap) && Strong(s.heap) && RootsIn(s, R)
    requires forall o :: o in R ==> o in w.heap && KeepsIn(w.heap, w.heap[o], R)
    requires forall o :: o in R ==> o in s.heap && Alike(w.heap[o], s.heap[o])
    ensures Sim(w, s, R)
  {
  }

  // The running stack is the same, and what it holds is in R.
  lemma SameStack(w: View, s: State, R: set<Obj>)
    requires Sim(w, s, R)
    ensures StackOf(w) == StackOf(ViewOf(s)) && w.running in R && AllIn(StackOf(w), R) && In(w.registry, R)
    ensures forall i: nat :: SlotOf(w, i) == SlotOf(ViewOf(s), i) && In(SlotOf(w, i), R)
    ensures Runs(ViewOf(s))
  {
    assert KeepsIn(w.heap, w.heap[w.running], R);
  }

  // For strong objects, what is kept does not depend on the rest of the heap.
  lemma KeepsAnywhere(h: Heap, k: Heap, ob: Object, R: set<Obj>)
    requires KeepsIn(h, ob, R) && (ob.Table? ==> !ob.weakKeys)
    ensures KeepsIn(k, ob, R)
  {
    AlikeKeeps(h, k, ob, ob, R);
  }

  // Both sides replace object o, old or new, by objects that are alike.
  lemma SimSet(w: View, s: State, t: State, o: Obj, a: Object, b: Object, R: set<Obj>)
    requires Sim(w, s, R) && t == s.(heap := s.heap[o := b], mark := t.mark, gray := t.gray, grayagain := t.grayagain, allgc := t.allgc, sweep := t.sweep)
    requires (o in R || o !in w.heap) && Alike(a, b) && (a.Table? ==> !a.weakKeys) && KeepsIn(w.heap, a, R + {o})
    requires o == w.running ==> a.Thread?
    ensures Sim(w.(heap := w.heap[o := a]), t, R + {o})
  {
    hide KeepsIn, Alike;
    var x, Q := w.(heap := w.heap[o := a]), R + {o};
    AlikeMode(a, b);
    forall p | p in Q ensures p in x.heap && KeepsIn(x.heap, x.heap[p], Q) {
      if p == o {
        KeepsAnywhere(w.heap, x.heap, a, Q);
      } else {
        KeepsMore(w.heap, w.heap[p], R, Q);
        KeepsAnywhere(w.heap, x.heap, w.heap[p], Q);
      }
    }
    SimFrom(x, t, Q);
  }

  lemma AlikeMode(a: Object, b: Object)
    requires Alike(a, b)
    ensures a.Table? == b.Table? && a.Thread? == b.Thread? && (a.Table? ==> a.weakKeys == b.weakKeys)
  {
  }

  lemma KeepsMore(h: Heap, ob: Object, R: set<Obj>, Q: set<Obj>)
    requires KeepsIn(h, ob, R) && R <= Q && (ob.Table? ==> !ob.weakKeys)
    ensures KeepsIn(h, ob, Q)
  {
  }

  // Both sides push a value that is in R.
  lemma SimPush(w: View, s: State, t: State, v: Value, R: set<Obj>)
    requires Sim(w, s, R) && In(v, R) && ViewOf(t) == Pushed(ViewOf(s), v) && t.mainthread == s.mainthread && t.mt == s.mt
    ensures Sim(Pushed(w, v), t, R)
  {
    SameStack(w, s, R);
    var st := Thread(StackOf(w) + [v]);
    hide Alike, Sim;
    SimThread(w, s, t, w.running, st, R);
  }

  // A thread of R gets another stack of values in R.
  lemma SimThread(w: View, s: State, t: State, o: Obj, st: Object, R: set<Obj>)
    requires Sim(w, s, R) && o in R && st.Thread? && AllIn(st.stack, R)
    requires ViewOf(t) == ViewOf(s).(heap := s.heap[o := st]) && t.mainthread == s.mainthread && t.mt == s.mt
    ensures Sim(w.(heap := w.heap[o := st]), t, R)
  {
    assert R + {o} == R;
    assert KeepsIn(w.heap, st, R) && Alike(st, st);
    var u := s.(heap := s.heap[o := st]);
    hide Alike, KeepsIn;
    SimSet(w, s, u, o, st, st, R);
    hide Closed, Strong;
    assert RootsIn(t, R) by { assert RootsIn(u, R); }
  }

  lemma PutAlike(a: Object, b: Object, p: Place, v: Value)
    requires Alike(a, b)
    ensures Applies(a, p) == Applies(b, p)
    ensures Applies(a, p) ==> Alike(Put(a, p, v), Put(b, p, v))
  {
  }

  lemma PutKeeps(h: Heap, a: Object, p: Place, v: Value, R: set<Obj>)
    requires Applies(a, p) && KeepsIn(h, a, R) && (a.Table? ==> !a.weakKeys) && In(v, R) && In(PlaceKey(p), R)
    ensures KeepsIn(h, Put(a, p, v), R) && (Put(a, p, v).Table? ==> !Put(a, p, v).weakKeys)
    ensures Put(a, p, v).Thread? == a.Thread?
  {
  }

  lemma FetchAlike(h: Heap, a: Object, b: Object, sel: Field, R: set<Obj>)
    requires Alike(a, b) && KeepsIn(h, a, R) && (a.Table? ==> !a.weakKeys)
    ensures Fetch(a, sel) == Fetch(b, sel) && In(Fetch(a, sel), R)
  {
    match sel
    case KeyAt(n) => if a.Table? && n < |a.hash| { assert KeepsEntry(h, false, a.hash[n], R); }
    case ValAt(n) => if a.Table? && n < |a.hash| { assert KeepsEntry(h, false, a.hash[n], R); }
    case _ =>
  }

  // Only the view and the fixed roots of the state count.
  lemma SimSame(w: View, s: State, t: State, R: set<Obj>)
    requires Sim(w, s, R) && ViewOf(t) == ViewOf(s) && t.mainthread == s.mainthread && t.mt == s.mt
    ensures Sim(w, t, R)
  {
    hide Closed, Strong, Alike;
  }

  // An object that a slot names is there on both sides, alike.
  lemma SameObject(w: View, s: State, i: nat, R: set<Obj>)
    requires Sim(w, s, R)
    ensures var v := SlotOf(w, i); IsObject(w, v) == IsObject(ViewOf(s), v) == v.Ref?
    ensures var v := SlotOf(w, i); v.Ref? ==> v.o in R && Alike(w.heap[v.o], s.heap[v.o]) && KeepsIn(w.heap, w.heap[v.o], R)
    ensures var v := SlotOf(w, i); v.Ref? && w.heap[v.o].Table? ==> !w.heap[v.o].weakKeys && !s.heap[v.o].weakKeys
  {
    SameStack(w, s, R);
  }

  lemma SimNew(w: View, s: State, o: Obj, kind: Kind, t: State, R: set<Obj>)
    requires Sim(w, s, R) && o !in w.heap && ViewOf(t) == After(ViewOf(s), New(o, kind)) && t.mainthread == s.mainthread && t.mt == s.mt
    ensures Sim(After(w, New(o, kind)), t, R + {o})
  {
    var ob := Fresh(kind);
    assert KeepsIn(w.heap, ob, R + {o}) && Alike(ob, ob) && w.running != o && o !in s.heap;
    var u := s.(heap := s.heap[o := ob]);
    SimSet(w, s, u, o, ob, ob, R);
    hide Alike, KeepsIn;
    SimPush(w.(heap := w.heap[o := ob]), u, t, Ref(o), R + {o});
  }

  lemma SimLoad(w: View, s: State, i: nat, sel: Field, t: State, R: set<Obj>)
    requires Sim(w, s, R) && ViewOf(t) == After(ViewOf(s), Load(i, sel)) && t.mainthread == s.mainthread && t.mt == s.mt
    ensures Sim(After(w, Load(i, sel)), t, R)
  {
    SameStack(w, s, R);
    SameObject(w, s, i, R);
    hide Sim, Alike, KeepsIn, Fetch;
    var v := SlotOf(w, i);
    if v.Ref? {
      FetchAlike(w.heap, w.heap[v.o], s.heap[v.o], sel, R);
      SimPush(w, s, t, Fetch(w.heap[v.o], sel), R);
    } else {
      SimSame(w, s, t, R);
    }
  }

  lemma SimStore(w: View, s: State, i: nat, sel: Target, v: nat, t: State, R: set<Obj>)
    requires Sim(w, s, R) && ViewOf(t) == After(ViewOf(s), Set(i, sel, v)) && t.mainthread == s.mainthread && t.mt == s.mt
    ensures Sim(After(w, Set(i, sel, v)), t, R)
  {
    SameStack(w, s, R);
    SameObject(w, s, i, R);
    assert Runs(w);
    hide Sim, Alike, KeepsIn, Put, Applies;
    var x, p, y := SlotOf(w, i), PlaceOf(w, sel), SlotOf(w, v);
    assert PlaceOf(ViewOf(s), sel) == p && In(PlaceKey(p), R);
    if x.Ref? {
      PutAlike(w.heap[x.o], s.heap[x.o], p, y);
    }
    if x.Ref? && Applies(w.heap[x.o], p) {
      var a, b := Put(w.heap[x.o], p, y), Put(s.heap[x.o], p, y);
      PutKeeps(w.heap, w.heap[x.o], p, y, R);
      assert R + {x.o} == R;
      var u := s.(heap := s.heap[x.o := b]);
      SimSet(w, s, u, x.o, a, b, R);
      SimSame(w.(heap := w.heap[x.o := a]), u, t, R);
    } else {
      SimSame(w, s, t, R);
    }
  }

  lemma SimRoot(w: View, s: State, t: State, x: View, R: set<Obj>)
    requires Sim(w, s, R) && t.mainthread == s.mainthread && t.mt == s.mt && t.heap == s.heap
    requires x == w.(running := t.running, registry := t.registry) && t.running in R && In(t.registry, R) && Runs(x)
    ensures Sim(x, t, R)
  {
    hide Closed, Strong, Alike;
  }

  // Every operation of a program without weak tables keeps both sides alike.
  lemma ProgramSim(w: View, s: State, op: Op, t: State, R: set<Obj>) returns (Q: set<Obj>)
    requires Sim(w, s, R) && Stepped(s, op, t) && IsProgram(op) && !(op.SetMode? && op.weak) && (op.New? ==> op.o !in w.heap)
    ensures Sim(After(w, op), t, Q)
  {
    Q := R;
    SameStack(w, s, R);
    hide Closed, Strong, Alike, KeepsIn, Put, Applies, Fetch, Fresh;
    match op
    case New(o, kind) => SimNew(w, s, o, kind, t, R); Q := R + {o};
    case Copy(i) => SimPush(w, s, t, SlotOf(w, i), R);
    case Drop(n) =>
      if n <= |StackOf(w)| { SimThread(w, s, t, w.running, Thread(StackOf(w)[..n]), R); } else { SimSame(w, s, t, R); }
    case Load(i, sel) => SimLoad(w, s, i, sel, t, R);
    case Set(i, sel, v) => SimStore(w, s, i, sel, v, t, R);
    case SetMode(i, _) => SimMode(w, s, i, t, R);
    case MoveTo(th, v) => SimMove(w, s, th, v, t, R);
    case Resume(th) =>
      SameObject(w, s, th, R);
      var x := SlotOf(w, th);
      if x.Ref? { AlikeMode(w.heap[x.o], s.heap[x.o]); }
      if x.Ref? && w.heap[x.o].Thread? { SimRoot(w, s, t, w.(running := x.o), R); } else { SimSame(w, s, t, R); }
    case SetRegistry(v) => SimRoot(w, s, t, w.(registry := SlotOf(w, v)), R);
    case GetRegistry => SimPush(w, s, t, w.registry, R);
  }

  lemma SimMode(w: View, s: State, i: nat, t: State, R: set<Obj>)
    requires Sim(w, s, R) && ViewOf(t) == After(ViewOf(s), SetMode(i, false)) && t.mainthread == s.mainthread && t.mt == s.mt
    ensures Sim(After(w, SetMode(i, false)), t, R)
  {
    SameStack(w, s, R);
    SameObject(w, s, i, R);
    var x := SlotOf(w, i);
    if x.Ref? { AlikeMode(w.heap[x.o], s.heap[x.o]); }
    hide Sim, Alike, KeepsIn;
    if x.Ref? && w.heap[x.o].Table? {
      assert w.heap[x.o].(weakKeys := false) == w.heap[x.o] && w.heap[x.o := w.heap[x.o]] == w.heap;
      assert s.heap[x.o].(weakKeys := false) == s.heap[x.o] && s.heap[x.o := s.heap[x.o]] == s.heap;
    }
    SimSame(w, s, t, R);
  }

  lemma SimMove(w: View, s: State, th: nat, v: nat, t: State, R: set<Obj>)
    requires Sim(w, s, R) && ViewOf(t) == After(ViewOf(s), MoveTo(th, v)) && t.mainthread == s.mainthread && t.mt == s.mt
    ensures Sim(After(w, MoveTo(th, v)), t, R)
  {
    SameStack(w, s, R);
    SameObject(w, s, th, R);
    var x := SlotOf(w, th);
    if x.Ref? { AlikeMode(w.heap[x.o], s.heap[x.o]); }
    if x.Ref? && w.heap[x.o].Thread? {
      assert w.heap[x.o] == s.heap[x.o] && AllIn(w.heap[x.o].stack, R);
      SimThread(w, s, t, x.o, Thread(w.heap[x.o].stack + [SlotOf(w, v)]), R);
    } else {
      SimSame(w, s, t, R);
    }
  }

  // ---------------------------------------------------------------- whole runs

  // The program makes no table weak, and gives new objects names that were never
  // used.
  ghost predicate Plain(w: View, ops: seq<Op>) {
    forall i :: 0 <= i < |ops| ==> !(ops[i].SetMode? && ops[i].weak) && (ops[i].New? ==> ops[i].o !in Fold(w, ops[..i]).heap)
  }

  // The collector is invisible: whatever collector steps run in between, every
  // object that the program can reach in the run without them is there, with the
  // same contents but for the keys of empty entries.
  lemma {:induction false} Invisible(trace: seq<State>, ops: seq<Op>, R: set<Obj>) returns (Q: set<Obj>)
    requires Steps(trace, ops) && Plain(ViewOf(trace[0]), ops) && Sim(ViewOf(trace[0]), trace[0], R)
    ensures Sim(Fold(ViewOf(trace[0]), ops), trace[|ops|], Q)
    decreases |ops|
  {
    hide Sim, Stepped, After;
    if ops == [] {
      Q := R;
    } else {
      var n := |ops| - 1;
      var before, past := ops[..n], trace[..n + 1];
      assert Stepped(trace[n], ops[n], trace[n + 1]);
      assert Steps(past, before);
      forall i | 0 <= i < n ensures before[..i] == ops[..i] && before[i] == ops[i] {}
      assert Plain(ViewOf(trace[0]), before);
      Q := Invisible(past, before, R);
      var w := Fold(ViewOf(trace[0]), before);
      if IsProgram(ops[n]) {
        Q := ProgramSim(w, trace[n], ops[n], trace[n + 1], Q);
      } else {
        CollectorClears(trace[n], ops[n], trace[n + 1]);
        CollectSim(w, trace[n], ops[n], trace[n + 1], Q);
        Q := ReachSet(trace[n]);
        Idle(w, ops[n]);
      }
    }
  }

  lemma Idle(w: View, op: Op)
    requires !IsProgram(op)
    ensures After(w, op) == w
  {
  }

  // A state is alike to its own view.
  lemma SimStart(s: State)
    requires Inv(s) && Strong(s.heap)
    ensures Sim(ViewOf(s), s, Live(s))
  {
    forall o | o in Live(s) ensures o in s.heap && KeepsIn(s.heap, s.heap[o], Live(s)) { RefsKeep(s.heap, s.heap[o], Live(s)); }
  }

  // What the view without the collector can reach is in every such set.
  lemma WithinSim(w: View, s: State, R: set<Obj>, o: Obj)
    requires Sim(w, s, R) && Reachable(s.(heap := w.heap), o)
    ensures o in R && o in s.heap && Alike(w.heap[o], s.heap[o])
  {
  }

  // Taken together, for any run from any state without weak tables.
  lemma CollectorInvisible(trace: seq<State>, ops: seq<Op>, o: Obj)
    requires Steps(trace, ops) && Inv(trace[0]) && Strong(trace[0].heap) && Plain(ViewOf(trace[0]), ops)
    ensures var w, s := Fold(ViewOf(trace[0]), ops), trace[|ops|];
      && w.running == s.running && w.registry == s.registry && s.heap.Keys <= w.heap.Keys
      && (Reachable(s.(heap := w.heap), o) ==> o in s.heap && Alike(w.heap[o], s.heap[o]))
  {
    hide Stepped, Plain, Inv, Alike, Reachable, Closed, Strong;
    SimStart(trace[0]);
    var Q := Invisible(trace, ops, Live(trace[0]));
    var w, s := Fold(ViewOf(trace[0]), ops), trace[|ops|];
    if Reachable(s.(heap := w.heap), o) { WithinSim(w, s, Q, o); }
  }
}
