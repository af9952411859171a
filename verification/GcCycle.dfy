/**
  The invariant the collector and the program keep together in every phase, and
  what each kind of step does to it.
 */
module GcCycle {
  import opened Common
  import opened GcHeap

  ghost predicate AllSwept(s: State) { forall i :: 0 <= i < |s.allgc| ==> s.allgc[i] in s.mark && s.mark[s.allgc[i]] == White(s.cw) }

  ghost predicate SweptTo(s: State, n: nat) {
    n <= |s.allgc| && forall i :: 0 <= i < n ==> s.allgc[i] in s.mark && s.mark[s.allgc[i]] == White(s.cw)
  }

  ghost predicate AllGcOk(s: State) {
    && s.mark.Keys == s.heap.Keys && NoDup(s.allgc) && s.mainthread !in s.allgc
    && (forall o :: o in s.heap <==> o in s.allgc || o == s.mainthread)
  }

  // Independent of the phase: objects not carrying the other white are closed
  // under every live-tagged pointer and include the roots.
  ghost predicate Base(s: State) {
    && AllGcOk(s)
    && s.mainthread in s.heap && s.heap[s.mainthread].Thread? && s.running in s.heap && s.heap[s.running].Thread?
    && RootsIn(s, Live(s)) && RefClosed(s.heap, Live(s))
  }

  ghost predicate MarkPhase(p: Phase) { p == Propagate || p == Atomic }

  ghost predicate Gathered(s: State) {
    && Tri(s, {}, Elems(s.grayagain), true) && GrayAgainOk(s)
    && s.ephemeron == [] && s.allweak == [] && s.mainthread in Marked(s)
    && (s.phase == Propagate ==> s.gray != [])
  }

  ghost predicate PhaseInv(s: State) {
    match s.phase
    case Propagate => s.sweep == Done && Gathered(s)
    case Atomic => s.sweep == Done && Gathered(s)
    case SwpAllGc => if s.sweep.Done? then AllSwept(s) else SweptTo(s, s.sweep.pos)
    case SwpFinObj => s.sweep == Done && AllSwept(s)
    case SwpToBeFnz => s.sweep == Done && AllSwept(s)
    case SwpEnd => s.sweep == Done && AllSwept(s)
    case CallFin => s.sweep == Done && forall o :: o in s.mark ==> s.mark[o] == White(s.cw)
    case Pause => s.sweep == Done && forall o :: o in s.mark ==> s.mark[o] == White(s.cw)
    case InsideAtomic => false
  }

  ghost predicate Inv(s: State) { Base(s) && PhaseInv(s) }

  // What the program can reach by any pointer is allocated, in every state the
  // invariant covers.
  lemma AccessibleIsLive(s: State, o: Obj)
    requires Inv(s) && Accessible(s, o)
    ensures o in Live(s) && o in s.heap
  {
  }

  lemma ReachableIsAccessible(s: State, o: Obj)
    requires Reachable(s, o)
    ensures Accessible(s, o)
  {
    forall S | RefClosed(s.heap, S) && RootsIn(s, S) ensures o in S {
      assert Closed(s.heap, S) by {
        forall p | p in S ensures p in s.heap && KeepsIn(s.heap, s.heap[p], S) { RefsKeep(s.heap, s.heap[p], S); }
      }
    }
  }

  // ---------------------------------------------------------------- what a collector step may do

  // The program's view across a collector step: its roots are as before, what
  // is reachable stays, and the objects that stay are as before, except that
  // empty entries may lose their key and ephemeron entries with an unreachable
  // key may be emptied.  Only the atomic step may take away more than what the
  // program cannot get hold of by any pointer.
  ghost predicate Evolves(a: State, b: State) {
    && SameRoots(a, b)
    && ReachSet(a) <= b.heap.Keys <= a.heap.Keys
    && (forall o :: o in b.heap ==> ClearedObject(a.heap[o], b.heap[o], ReachSet(a)))
    && (a.phase != Atomic ==> forall o :: Accessible(a, o) ==> o in b.heap)
  }

  ghost predicate SameRoots(a: State, b: State) {
    b.mainthread == a.mainthread && b.running == a.running && b.registry == a.registry && b.mt == a.mt
  }

  lemma EvolvesPruned(a: State, b: State)
    requires Base(a) && SameRoots(a, b) && PrunedHeap(a.heap, b.heap)
    ensures Evolves(a, b)
  {
    forall o | o in a.heap ensures ClearedObject(a.heap[o], b.heap[o], ReachSet(a)) {
      assert Pruned(a.heap[o], b.heap[o]);
    }
    forall o | Accessible(a, o) ensures o in b.heap { assert o in Live(a); }
  }

  // Sweeping takes away dead objects only and repaints the rest.
  ghost predicate SweepStep(a: State, b: State) {
    && SameRoots(a, b) && b.cw == a.cw
    && Live(b) == Live(a) && Live(a) <= b.heap.Keys <= a.heap.Keys
    && forall o :: o in b.heap ==> b.heap[o] == a.heap[o]
  }

  lemma EvolvesSwept(a: State, b: State)
    requires Base(a) && SweepStep(a, b)
    ensures Evolves(a, b)
  {
    forall o | Accessible(a, o) ensures o in b.heap { assert o in Live(a); }
    forall o | o in ReachSet(a) ensures o in b.heap { ReachableIsAccessible(a, o); }
  }

  // ---------------------------------------------------------------- sweeping

  lemma FlipLive(a: State, b: State, keep: set<Obj>)
    requires AtomicDone(a, b, keep)
    ensures Live(b) == Marked(b)
  {
  }

  lemma SweepDead(s: State, i: nat)
    requires AllGcOk(s) && SweptTo(s, i) && i < |s.allgc| && s.allgc[i] in s.mark && s.mark[s.allgc[i]] == White(!s.cw)
    ensures var o := s.allgc[i];
            var t := s.(allgc := s.allgc[..i] + s.allgc[i + 1..], heap := s.heap - {o}, mark := s.mark - {o});
            AllGcOk(t) && SweptTo(t, i) && SweepStep(s, t)
  {
    var o := s.allgc[i];
    var t := s.(allgc := s.allgc[..i] + s.allgc[i + 1..], heap := s.heap - {o}, mark := s.mark - {o});
    RemoveAt(s.allgc, i);
    DeadRemoved(s, t, o);
    assert SweptTo(t, i) by {
      hide AllGcOk, SweepStep, NoDup;
      assert forall j :: 0 <= j < i ==> t.allgc[j] == s.allgc[j];
    }
    assert AllGcOk(t) by { hide NoDup, SweptTo, SweepStep; }
  }

  lemma DeadRemoved(s: State, t: State, o: Obj)
    requires s.mark.Keys == s.heap.Keys && o in s.mark && s.mark[o] == White(!s.cw)
    requires t == s.(allgc := t.allgc, heap := s.heap - {o}, mark := s.mark - {o})
    ensures SweepStep(s, t)
  {
    assert Live(t) == Live(s);
  }

  lemma RemoveAt(l: seq<Obj>, i: nat)
    requires NoDup(l) && i < |l|
    ensures NoDup(l[..i] + l[i + 1..]) && forall p :: p in l[..i] + l[i + 1..] <==> p in l && p != l[i]
  {
    var r := l[..i] + l[i + 1..];
    assert forall j :: 0 <= j < |r| ==> r[j] == if j < i then l[j] else l[j + 1];
    forall p | p in l && p != l[i] ensures p in r {
      var j :| 0 <= j < |l| && l[j] == p;
      assert r[if j < i then j else j - 1] == p;
    }
  }

  lemma SweepAlive(s: State, i: nat)
    requires AllGcOk(s) && SweptTo(s, i) && i < |s.allgc| && s.allgc[i] in s.mark && s.mark[s.allgc[i]] != White(!s.cw)
    ensures var t := s.(mark := s.mark[s.allgc[i] := White(s.cw)]);
            AllGcOk(t) && SweptTo(t, i + 1) && SweepStep(s, t)
  {
    var t := s.(mark := s.mark[s.allgc[i] := White(s.cw)]);
    assert Live(t) == Live(s);
  }

  lemma SweepRefl(s: State)
    requires AllGcOk(s)
    ensures SweepStep(s, s)
  {
  }

  lemma SweepTrans(a: State, b: State, c: State)
    requires SweepStep(a, b) && SweepStep(b, c)
    ensures SweepStep(a, c)
  {
  }

  lemma SweepBase(a: State, b: State)
    requires Base(a) && SweepStep(a, b) && AllGcOk(b)
    ensures Base(b)
  {
    assert a.mainthread in Live(a) && a.running in Live(a);
  }

  // ---------------------------------------------------------------- one undisturbed cycle

  // A cycle that began in the pause state a, with no program step since, has
  // marked nothing but what is reachable in a, and keeps exactly that.
  ghost predicate Survivors(a: State, h: Heap) {
    forall o :: o in ReachSet(a) ==> o in h && ClearedObject(a.heap[o], h[o], ReachSet(a))
  }

  ghost predicate Cycle(a: State, s: State) {
    && SameRoots(a, s)
    && match s.phase
       case Propagate => PrunedHeap(a.heap, s.heap) && Tight(s, ReachSet(a))
       case Atomic => PrunedHeap(a.heap, s.heap) && Tight(s, ReachSet(a))
       case SwpAllGc => Live(s) == ReachSet(a) && Survivors(a, s.heap)
       case SwpFinObj => Live(s) == ReachSet(a) && Survivors(a, s.heap)
       case SwpToBeFnz => Live(s) == ReachSet(a) && Survivors(a, s.heap)
       case SwpEnd => Live(s) == ReachSet(a) && Survivors(a, s.heap)
       case CallFin => s.heap.Keys == ReachSet(a) && Survivors(a, s.heap)
       case Pause => s.heap.Keys == ReachSet(a) && Survivors(a, s.heap)
       case InsideAtomic => false
  }

  lemma SweepSurvivors(a: State, s: State, t: State)
    requires Live(s) == ReachSet(a) && Survivors(a, s.heap) && SweepStep(s, t)
    ensures Live(t) == ReachSet(a) && Survivors(a, t.heap)
  {
  }

  lemma AtomicSurvivors(a: State, s: State, t: State)
    requires Base(s) && PrunedHeap(a.heap, s.heap) && SameRoots(a, s) && AtomicDone(s, t, ReachSet(a))
    ensures Live(t) == ReachSet(a) && Survivors(a, t.heap)
  {
    FlipLive(s, t, ReachSet(a));
    PrunedClosed(a.heap, s.heap, Marked(t));
    assert RootsIn(a, Marked(t));
    assert ReachSet(a) <= Marked(t);
    ClearedTrans(a.heap, s.heap, t.heap, Marked(t));
    forall o | o in ReachSet(a) ensures o in t.heap && ClearedObject(a.heap[o], t.heap[o], ReachSet(a)) {
      assert ClearedObject(a.heap[o], t.heap[o], Marked(t));
    }
  }

  lemma SweptAll(s: State)
    requires Base(s) && AllSwept(s)
    ensures Live(s) == s.heap.Keys
  {
    forall o | o in s.heap ensures o in Live(s) {
      if o in s.allgc { var i :| 0 <= i < |s.allgc| && s.allgc[i] == o; }
    }
  }

  // A started cycle: the marker has everything to do, within any closed set.
  lemma MarkerReady(s: State, keep: set<Obj>)
    requires Base(s) && (forall o :: o in s.mark ==> s.mark[o] == White(s.cw)) && Closed(s.heap, keep)
    requires s.gray == [] && s.ephemeron == [] && s.allweak == []
    ensures Marking(s, Frame({}, {}, true, keep)) && Lists(s)
  {
    assert Live(s) == s.heap.Keys;
    assert Marked(s) == {};
  }

  lemma AllClosed(s: State)
    requires RefClosed(s.heap, s.heap.Keys)
    ensures Closed(s.heap, s.heap.Keys)
  {
    forall p | p in s.heap ensures KeepsIn(s.heap, s.heap[p], s.heap.Keys) { RefsKeep(s.heap, s.heap[p], s.heap.Keys); }
  }

  // The set the marker stays within: for an undisturbed cycle what was
  // reachable when it began, otherwise everything.
  ghost function Scope(a: State, s: State, exact: bool): set<Obj> {
    if exact then ReachSet(a) else s.heap.Keys
  }

  lemma ScopeStart(s: State, exact: bool)
    requires Inv(s) && s.phase == Pause
    ensures Closed(s.heap, Scope(s, s, exact)) && RootsIn(s, Scope(s, s, exact))
  {
    assert Live(s) == s.heap.Keys;
    AllClosed(s);
    ReachSetClosed(s, s.heap.Keys);
  }

  lemma InvBase(s: State)
    requires Inv(s)
    ensures Base(s)
  {
  }

  lemma RootsKnown(s: State)
    requires Inv(s)
    ensures s.mark.Keys == s.heap.Keys && RootsIn(s, s.mark.Keys)
  {
  }

  lemma StartMarking(a: State, keep: set<Obj>)
    requires Inv(a) && a.phase == Pause && Closed(a.heap, keep)
    ensures Marking(a.(gray := [], grayagain := [], ephemeron := [], allweak := []), Frame({}, {}, true, keep))
  {
    var s := a.(gray := [], grayagain := [], ephemeron := [], allweak := []);
    assert Live(a) == Live(s);
    MarkerReady(s, keep);
  }

  lemma Restarted(a: State, s: State, exact: bool)
    requires Inv(a) && a.phase == Pause
    requires Grew(a.(gray := [], grayagain := [], ephemeron := [], allweak := []), s)
    requires Marking(s, Frame({}, {}, true, Scope(a, a, exact))) && a.mainthread in Marked(s)
    ensures var t := s.(phase := Propagate); Inv(t) && Evolves(a, t) && (exact ==> Cycle(a, t))
  {
    var t := s.(phase := Propagate);
    GrewFacts(a.(gray := [], grayagain := [], ephemeron := [], allweak := []), s);
    EvolvesPruned(a, t);
    assert Elems(s.grayagain) == {};
    ThreadGray(s, Frame({}, {}, true, Scope(a, a, exact)), a.mainthread);
    hide Grew, Marking, Evolves;
    GatherUp(s, t, Scope(a, a, exact));
    GatheredBase(a, t);
  }

  // While propagating, a marked thread with nothing waiting is on the gray list.
  lemma ThreadGray(s: State, f: Frame, o: Obj)
    requires Marking(s, f) && f.ex == {} && f.wait == {} && f.strict && o in Marked(s) && o in s.heap && s.heap[o].Thread?
    ensures s.gray != []
  {
  }

  lemma GatherUp(s: State, t: State, keep: set<Obj>)
    requires Marking(s, Frame({}, Elems(s.grayagain), true, keep)) && GrayAgainOk(s)
    requires s.ephemeron == [] && s.allweak == [] && s.mainthread in Marked(s)
    requires t == s.(phase := t.phase) && (t.phase == Propagate ==> t.gray != [])
    ensures Gathered(t) && Tight(t, keep) && WellFormed(t)
  {
    assert Marked(t) == Marked(s);
    hide Settled, RefsIn;
  }

  lemma GatheredBase(a: State, t: State)
    requires Base(a) && SameRoots(a, t) && t.allgc == a.allgc && t.heap.Keys == a.heap.Keys
    requires PrunedHeap(a.heap, t.heap) && WellFormed(t)
    ensures Base(t)
  {
    assert Live(t) == t.heap.Keys;
    assert Pruned(a.heap[a.mainthread], t.heap[a.mainthread]) && Pruned(a.heap[a.running], t.heap[a.running]);
    assert RootsIn(a, a.heap.Keys);
  }

  lemma GatheredMarking(a: State, s: State, exact: bool)
    requires Inv(s) && MarkPhase(s.phase) && (exact ==> Cycle(a, s))
    ensures Marking(s, Frame({}, Elems(s.grayagain), true, Scope(a, s, exact)))
    ensures s.phase == Propagate ==> s.gray != []
    ensures Lists(s) && GrayAgainOk(s) && s.mainthread in Marked(s)
    ensures s.ephemeron == [] && s.allweak == [] && s.sweep == Done
  {
    assert Live(s) == s.heap.Keys;
    AllClosed(s);
  }

  lemma NothingLinked(s: State)
    requires Inv(s) && MarkPhase(s.phase)
    ensures s.ephemeron == [] && s.allweak == []
  {
  }

  lemma Propagated(a: State, s0: State, s: State, t: State, exact: bool)
    requires Inv(s0) && s0.phase == Propagate && (exact ==> Cycle(a, s0)) && Advanced(s0, s)
    requires Marking(s, Frame({}, Elems(s.grayagain), true, Scope(a, s0, exact)))
    requires t == s.(phase := if s.gray == [] then Atomic else Propagate)
    ensures Inv(t) && Evolves(s0, t) && (exact ==> Cycle(a, t)) && Whites(t) == Whites(s)
    ensures s.phase == Propagate && Whites(s) <= Whites(s0)
  {
    hide Marking, Advanced, Evolves, Lists, GrayAgainOk, Gathered, Tight;
    GatheredMarking(a, s0, exact);
    AdvancedFacts(s0, s);
    AdvancedLists(s0, s);
    EvolvesPruned(s0, t);
    assert Whites(t) == Whites(s);
    if exact { PrunedTrans(a.heap, s0.heap, t.heap); }
    GatherUp(s, t, Scope(a, s0, exact));
    GatheredBase(s0, t);
  }

  lemma Relax(s: State, keep: set<Obj>)
    requires Marking(s, Frame({}, Elems(s.grayagain), true, keep))
    ensures Marking(s, Waiting(s.grayagain, keep))
  {
    hide Settled, RefsIn, Closed;
  }

  lemma ReadyForAtomic(a: State, s0: State, s: State, exact: bool)
    requires Inv(s0) && s0.phase == Atomic && (exact ==> Cycle(a, s0)) && Advanced(s0, s) && s.gray == []
    requires Marking(s, Waiting(s0.grayagain, Scope(a, s0, exact)))
    ensures Marking(s, Waiting(s.grayagain, Scope(a, s0, exact))) && GrayAgainOk(s) && Lists(s)
    ensures RootsIn(s, Scope(a, s0, exact)) && RootsIn(s, s.mark.Keys) && s.mainthread in Marked(s) && s.phase == Atomic
  {
    hide Advanced, Inv, Lists, Cycle, Marking, GrayAgainOk;
    GatheredMarking(a, s0, exact);
    AdvancedFacts(s0, s);
    AdvancedLists(s0, s);
    RootsKnown(s0);
    if exact { ScopeRoots(a, s0); }
    Widen(s0, s, Scope(a, s0, exact));
  }

  lemma Widen(s0: State, s: State, keep: set<Obj>)
    requires Marking(s, Waiting(s0.grayagain, keep)) && GrayAgainOk(s) && s.gray == []
    requires Elems(s0.grayagain) <= Elems(s.grayagain)
    ensures Marking(s, Waiting(s.grayagain, keep))
  {
    hide Settled, RefsIn, Closed;
  }

  lemma ScopeRoots(a: State, s: State)
    requires Inv(s) && MarkPhase(s.phase) && Cycle(a, s)
    ensures RootsIn(s, ReachSet(a))
  {
    assert Live(s) == s.heap.Keys;
    AllClosed(s);
    PrunedClosed(a.heap, s.heap, s.heap.Keys);
    ReachSetClosed(a, a.heap.Keys);
  }

  lemma AtomicInv(a: State, s0: State, s1: State, s2: State, exact: bool)
    requires Inv(s0) && s0.phase == Atomic && (exact ==> Cycle(a, s0)) && Advanced(s0, s1)
    requires AtomicDone(s1, s2, Scope(a, s0, exact)) && Marking(s1, Waiting(s1.grayagain, Scope(a, s0, exact)))
    ensures Base(s2) && Shrunk(s0, s2)
    ensures exact ==> Live(s2) == ReachSet(a) && Survivors(a, s2.heap) && SameRoots(a, s2)
  {
    AdvancedFacts(s0, s1);
    var keep := Scope(a, s0, exact);
    TightWhites(s1, Waiting(s1.grayagain, keep));
    assert WellFormed(s1);
    hide Advanced, ListsGrew, Marking;
    GatheredBase(s0, s1);
    ShrunkAtomic(s0, s1, s2, keep);
    BaseAtomic(s1, s2, keep);
    if exact {
      PrunedTrans(a.heap, s0.heap, s1.heap);
      AtomicSurvivors(a, s1, s2);
    }
  }

  // Ready to be swept: what was reachable is alive, the objects are as before
  // apart from entries that the marker emptied.
  ghost predicate Shrunk(a: State, b: State) {
    && SameRoots(a, b) && ReachSet(a) <= Live(b) && b.heap.Keys == a.heap.Keys
    && (forall o :: o in b.heap ==> ClearedObject(a.heap[o], b.heap[o], ReachSet(a)))
    && (a.phase != Atomic ==> Live(b) == b.heap.Keys)
  }

  lemma ShrunkAtomic(s0: State, s1: State, s2: State, keep: set<Obj>)
    requires PrunedHeap(s0.heap, s1.heap) && SameRoots(s0, s1) && Base(s1) && AtomicDone(s1, s2, keep) && s0.phase == Atomic
    ensures Shrunk(s0, s2)
  {
    var M := Marked(s2);
    FlipLive(s1, s2, keep);
    PrunedClosed(s0.heap, s1.heap, M);
    assert RootsIn(s0, M);
    assert ReachSet(s0) <= M;
    ClearedTrans(s0.heap, s1.heap, s2.heap, M);
    forall o | o in s0.heap ensures o in s2.heap && ClearedObject(s0.heap[o], s2.heap[o], ReachSet(s0)) {
      assert ClearedObject(s0.heap[o], s2.heap[o], M);
    }
  }

  lemma BaseAtomic(s: State, t: State, keep: set<Obj>)
    requires Base(s) && AtomicDone(s, t, keep)
    ensures Base(t)
  {
    FlipLive(s, t, keep);
    assert ClearedObject(s.heap[s.mainthread], t.heap[s.mainthread], Marked(t));
    assert ClearedObject(s.heap[s.running], t.heap[s.running], Marked(t));
  }

  lemma PhaseBase(s0: State, s: State, t: State)
    requires Base(s) && Shrunk(s0, s) && t == s.(phase := t.phase)
    ensures Base(t) && SweptTo(t, 0) && Shrunk(s0, t) && Live(t) == Live(s) && AllGcOk(s)
  {
    assert Live(t) == Live(s);
  }

  lemma SweepPlaced(a: State, s0: State, r: State, s: State, t: State, u: State, exact: bool)
    requires AllGcOk(r) && s == r.(phase := s.phase)
    requires Base(s0) && Shrunk(s0, s) && Base(t) && SweepStep(s, t) && u == t.(sweep := u.sweep) && u.phase == SwpAllGc
    requires if u.sweep.Done? then AllSwept(t) else SweptTo(t, u.sweep.pos)
    requires exact ==> Live(s) == ReachSet(a) && Survivors(a, s.heap) && SameRoots(a, s)
    ensures Inv(u) && Evolves(s0, u) && (exact ==> Cycle(a, u)) && SweepStep(r, u)
  {
    assert Live(u) == Live(t) && Live(r) == Live(s);
    forall o | s0.phase != Atomic && Accessible(s0, o) ensures o in u.heap { assert o in Live(s0); }
    if exact { SweepSurvivors(a, s, u); }
  }

  // ---------------------------------------------------------------- the sweep phases

  ghost predicate SweepPhase(p: Phase) {
    p == SwpAllGc || p == SwpFinObj || p == SwpToBeFnz || p == SwpEnd || p == CallFin
  }

  ghost function NextSweep(p: Phase): Phase {
    match p
    case SwpAllGc => SwpFinObj
    case SwpFinObj => SwpToBeFnz
    case SwpToBeFnz => SwpEnd
    case SwpEnd => CallFin
    case _ => Pause
  }

  ghost function SweepLeft(s: State): int { if s.phase == SwpAllGc && s.sweep.At? then |s.allgc| - s.sweep.pos + 1 else 0 }

  lemma SweepReflInv(s: State)
    requires Inv(s)
    ensures SweepStep(s, s) && Base(s) && s.mainthread in s.mark
  {
  }

  // A step that only sweeps, or only changes phase.
  lemma SweptSome(s: State, t: State, u: State)
    requires Inv(s) && Base(t) && SweepStep(s, t) && u == t.(sweep := u.sweep, phase := u.phase)
    requires (u.phase == SwpAllGc && u.sweep.At? && SweptTo(t, u.sweep.pos)) ||
             (u.sweep.Done? && (u.phase == SwpFinObj || u.phase == SwpToBeFnz || u.phase == SwpEnd) && AllSwept(t)) ||
             (u.sweep.Done? && u.phase == Pause && s.phase == CallFin && t == s)
    ensures Inv(u) && SweepStep(s, u)
  {
    assert Live(u) == Live(t);
  }

  lemma SweptLast(s: State, u: State)
    requires Inv(s) && s.phase == SwpEnd && s.mainthread in s.mark
    requires u == s.(mark := s.mark[s.mainthread := White(s.cw)], phase := CallFin)
    ensures Inv(u) && SweepStep(s, u)
  {
    assert Live(u) == Live(s);
    forall o | o in u.mark ensures u.mark[o] == White(u.cw) {
      if o != s.mainthread {
        assert o in s.allgc;
        var i :| 0 <= i < |s.allgc| && s.allgc[i] == o;
      }
    }
  }

  lemma SweptCycle(a: State, s: State, u: State)
    requires Inv(s) && SweepPhase(s.phase) && Cycle(a, s) && Inv(u) && SweepStep(s, u)
    requires u.phase == s.phase || u.phase == NextSweep(s.phase)
    ensures Cycle(a, u)
  {
    if s.phase == SwpEnd {
      SweptAll(s);
      SweepSurvivors(a, s, u);
    } else if s.phase != CallFin {
      SweepSurvivors(a, s, u);
    } else {
      assert Live(s) == s.heap.Keys;
    }
  }

  // Sweeping does not change what is reachable.
  lemma ReachSetSwept(s: State, t: State)
    requires Base(s) && Base(t) && SameRoots(s, t) && Live(s) <= t.heap.Keys <= s.heap.Keys
    requires forall o :: o in t.heap ==> t.heap[o] == s.heap[o]
    ensures ReachSet(t) == ReachSet(s)
  {
    forall o | o in Live(s) && Reachable(s, o) ensures Reachable(t, o) {
      forall S | Closed(t.heap, S) && RootsIn(t, S) ensures o in S {
        LiveClosed(s, t.heap, s.heap, S);
        assert RootsIn(s, S * Live(s));
      }
    }
    forall o | o in t.heap && Reachable(t, o) ensures Reachable(s, o) {
      forall S | Closed(s.heap, S) && RootsIn(s, S) ensures o in S {
        LiveClosed(s, s.heap, t.heap, S);
        assert RootsIn(t, S * Live(s));
      }
    }
    forall o | o in ReachSet(s) ensures o in Live(s) { ReachableIsAccessible(s, o); }
  }

  lemma LiveClosed(s: State, h: Heap, k: Heap, S: set<Obj>)
    requires RefClosed(s.heap, Live(s)) && Closed(h, S)
    requires forall o :: o in Live(s) ==> o in h && o in k && h[o] == s.heap[o] && k[o] == s.heap[o]
    ensures Closed(k, S * Live(s))
  {
    var T := S * Live(s);
    forall o | o in T ensures o in k && KeepsIn(k, k[o], T) {
      assert KeepsIn(h, h[o], S) && RefsIn(s.heap[o], Live(s));
      LiveKeeps(s, h, k, s.heap[o], S);
    }
  }

  lemma LiveKeeps(s: State, h: Heap, k: Heap, ob: Object, S: set<Obj>)
    requires KeepsIn(h, ob, S) && RefsIn(ob, Live(s))
    requires forall o :: o in Live(s) ==> o in h && o in k && h[o] == k[o]
    ensures KeepsIn(k, ob, S * Live(s))
  {
    if ob.Table? {
      forall i | 0 <= i < |ob.hash| ensures KeepsEntry(k, ob.weakKeys, ob.hash[i], S * Live(s)) {
        assert KeepsEntry(h, ob.weakKeys, ob.hash[i], S);
      }
    }
  }

  // ---------------------------------------------------------------- termination

  ghost function Rank(s: State): nat {
    match s.phase
    case Pause => 0
    case Propagate => 7
    case Atomic => 6
    case SwpAllGc => 5
    case SwpFinObj => 4
    case SwpToBeFnz => 3
    case SwpEnd => 2
    case CallFin => 1
    case InsideAtomic => 0
  }

  ghost function Todo(s: State): set<Obj> { if s.phase == Propagate then Whites(s) else {} }

  ghost function Left(s: State): int { if s.phase == Propagate then |s.gray| else SweepLeft(s) }

  // Outside the pause every step makes progress towards the next one.
  ghost predicate Smaller(t: State, s: State) {
    || Rank(t) < Rank(s)
    || (Rank(t) == Rank(s) && (Todo(t) < Todo(s) || (Todo(t) == Todo(s) && 0 <= Left(t) < Left(s))))
  }

  lemma InvPhase(s: State)
    requires Inv(s)
    ensures s.phase != InsideAtomic && Base(s)
  {
  }

  predicate Sweeps(p: Phase)
    ensures Sweeps(p) == SweepPhase(p)
  {
    p != Propagate && p != Atomic && p != Pause && p != InsideAtomic
  }

  lemma AbortReady(s: State)
    requires Inv(s) && MarkPhase(s.phase)
    ensures Base(s) && Shrunk(s, s)
  {
    assert Live(s) == s.heap.Keys;
  }

  // The sweep before the new cycle did not change what is reachable, so the
  // survivors of the cycle are the objects reachable when the call began.
  lemma FullCycle(s0: State, a: State, s: State)
    requires Inv(s0) && Inv(a) && SweepStep(s0, a) && Cycle(a, s) && s.phase == Pause
    ensures s.heap.Keys == ReachSet(s0) && Survivors(s0, s.heap) && SameRoots(s0, s)
  {
    ReachSetSwept(s0, a);
    forall o | o in ReachSet(s0) ensures o in s.heap && ClearedObject(s0.heap[o], s.heap[o], ReachSet(s0)) {
      assert o in ReachSet(a);
    }
  }

  // ---------------------------------------------------------------- program steps

  lemma RunningLive(s: State)
    requires Inv(s)
    ensures s.running in Live(s) && s.running in s.heap && s.heap[s.running].Thread?
  {
  }

  lemma ThreadNotBlack(s: State, th: Obj)
    requires Inv(s) && MarkPhase(s.phase) && th in s.heap && s.heap[th].Thread?
    ensures th in s.mark && s.mark[th] != Black
  {
  }

  // The base part of the invariant survives writing live references.
  lemma WriteBase(s: State, u: State, t: Obj)
    requires Base(s) && t in Live(s) && t in s.heap && t in u.heap && RefsIn(u.heap[t], Live(s))
    requires u.heap[t].Thread? == s.heap[t].Thread?
    requires u == s.(heap := s.heap[t := u.heap[t]], mark := u.mark, grayagain := u.grayagain, gray := u.gray)
    requires u.mark.Keys == s.mark.Keys && Live(u) == Live(s)
    ensures Base(u)
  {
    forall p | p in Live(u) ensures RefsIn(u.heap[p], Live(u)) { assert p in Live(s); }
  }

  // While marking, a write leaves the tri-colour invariant up to the object
  // written to.
  lemma WriteTri(s: State, u: State, t: Obj, wait: set<Obj>)
    requires Tri(s, {}, wait, true) && t in s.heap && t in u.heap && RefsIn(u.heap[t], s.heap.Keys)
    requires u == s.(heap := s.heap[t := u.heap[t]])
    requires u.heap[t].Thread? == s.heap[t].Thread? && u.heap[t].Table? == s.heap[t].Table?
    ensures s.mark[t] == Black && !RefsIn(u.heap[t], Marked(s)) ==> Tri(u, {t}, wait, true)
    ensures s.mark[t] != Black || RefsIn(u.heap[t], Marked(s)) ==> Tri(u, {}, wait, true)
  {
    hide Settled;
    assert Marked(u) == Marked(s);
    forall p | p in u.heap && p != t ensures RefsIn(u.heap[p], u.heap.Keys) { assert RefsIn(s.heap[p], s.heap.Keys); }
  }

  // A write is safe as it stands unless a black object gets a white reference
  // while marking.
  lemma Write(s: State, t: Obj, ob: Object)
    requires Inv(s) && t in Live(s) && t in s.heap && RefsIn(ob, Live(s))
    requires ob.Thread? == s.heap[t].Thread? && ob.Table? == s.heap[t].Table?
    requires MarkPhase(s.phase) && s.mark[t] == Black ==> RefsIn(ob, Marked(s))
    ensures Inv(s.(heap := s.heap[t := ob]))
  {
    hide RefsIn, RefClosed, Gathered, Base;
    var u := s.(heap := s.heap[t := ob]);
    assert Live(u) == Live(s);
    WriteBase(s, u, t);
    if MarkPhase(s.phase) {
      WholeLive(s);
      WriteGathered(s, u, t);
    }
  }

  lemma WriteGathered(s: State, u: State, t: Obj)
    requires Gathered(s) && t in s.heap && t in s.mark && t in u.heap && RefsIn(u.heap[t], s.heap.Keys)
    requires u == s.(heap := s.heap[t := u.heap[t]])
    requires u.heap[t].Thread? == s.heap[t].Thread? && u.heap[t].Table? == s.heap[t].Table?
    requires s.mark[t] == Black ==> RefsIn(u.heap[t], Marked(s))
    ensures Gathered(u)
  {
    hide Tri, RefsIn;
    assert Marked(u) == Marked(s);
    WriteTri(s, u, t, Elems(s.grayagain));
  }

  // A black object that is turned gray again waits in grayagain.
  lemma WriteBack(s: State, t: Obj, ob: Object)
    requires Inv(s) && t in Live(s) && t in s.heap && RefsIn(ob, Live(s)) && s.mark[t] == Black
    requires s.heap[t].Table? && ob.Table?
    ensures Inv(s.(heap := s.heap[t := ob], mark := s.mark[t := Gray], grayagain := [t] + s.grayagain))
  {
    var u := s.(heap := s.heap[t := ob], mark := s.mark[t := Gray], grayagain := [t] + s.grayagain);
    assert Live(u) == Live(s);
    hide RefsIn, RefClosed, Gathered;
    WriteBase(s, u, t);
    if MarkPhase(s.phase) {
      assert Gathered(s);
      assert Live(s) == s.heap.Keys by { WholeLive(s); }
      BackGathered(s, s.(heap := s.heap[t := ob]), u, t);
    }
  }

  lemma WholeLive(s: State)
    requires Gathered(s)
    ensures Live(s) == s.heap.Keys
  {
  }

  lemma BackGathered(s: State, v: State, u: State, t: Obj)
    requires Gathered(s) && t in s.heap && t in s.mark && s.mark[t] == Black && s.heap[t].Table?
    requires v == s.(heap := v.heap) && t in v.heap && v.heap == s.heap[t := v.heap[t]] && v.heap[t].Table?
    requires RefsIn(v.heap[t], s.heap.Keys)
    requires u == v.(mark := v.mark[t := Gray], grayagain := [t] + s.grayagain)
    ensures Gathered(u)
  {
    hide Tri, RefsIn;
    WriteTri(s, v, t, Elems(s.grayagain));
    BlackUnlisted(s, t);
    assert t !in s.grayagain;
    BackTri(s, v, u, t);
    assert Marked(u) == Marked(s);
  }

  lemma BlackUnlisted(s: State, t: Obj)
    requires Gathered(s) && t in s.mark && s.mark[t] == Black
    ensures t !in s.gray && t !in s.grayagain
  {
  }

  lemma BackTri(s: State, v: State, u: State, t: Obj)
    requires t in v.heap && t in v.mark && v.mark[t] == Black && t !in s.grayagain && s.grayagain == v.grayagain
    requires Tri(v, {t}, Elems(s.grayagain), true) || Tri(v, {}, Elems(s.grayagain), true)
    requires u == v.(mark := v.mark[t := Gray], grayagain := [t] + s.grayagain)
    ensures Tri(u, {}, Elems(u.grayagain), true)
  {
    assert Marked(u) == Marked(v);
    ElemsCons(t, s.grayagain);
    hide Settled, RefsIn;
  }

  lemma Stored(s: State, t: Obj, ob: Object, k: Value, v: Value)
    requires Inv(s) && t in Live(s) && t in s.heap && s.heap[t].Table? && ob.Table?
    requires In(k, Live(s)) && In(v, Live(s)) && AddsTwo(s.heap[t], ob, k, v)
    ensures t in s.mark && In(k, s.mark.Keys) && In(v, s.mark.Keys)
    ensures s.mark[t] != Black || (In(k, Marked(s)) && In(v, Marked(s))) ==> Inv(s.(heap := s.heap[t := ob]))
    ensures s.mark[t] == Black ==>
              Inv(s.(heap := s.heap[t := ob], mark := s.mark[t := Gray], grayagain := [t] + s.grayagain))
  {
    assert RefsIn(s.heap[t], Live(s));
    if s.mark[t] == Black {
      WriteBack(s, t, ob);
      if In(k, Marked(s)) && In(v, Marked(s)) { Write(s, t, ob); }
    } else {
      Write(s, t, ob);
    }
  }

  lemma Created(s: State, o: Obj, ob: Object)
    requires Inv(s) && o !in s.heap && RefsIn(ob, {})
    ensures var u := s.(heap := s.heap[o := ob], mark := s.mark[o := White(s.cw)], allgc := [o] + s.allgc,
                        sweep := if s.sweep.At? && s.sweep.pos > 0 then At(s.sweep.pos + 1) else s.sweep);
            Inv(u) && o in Live(u)
  {
    var u := s.(heap := s.heap[o := ob], mark := s.mark[o := White(s.cw)], allgc := [o] + s.allgc,
                sweep := if s.sweep.At? && s.sweep.pos > 0 then At(s.sweep.pos + 1) else s.sweep);
    CreatedBase(s, u, o);
    CreatedPhase(s, u, o);
  }

  lemma CreatedBase(s: State, u: State, o: Obj)
    requires Base(s) && o !in s.heap && o in u.heap && RefsIn(u.heap[o], {})
    requires u == s.(heap := s.heap[o := u.heap[o]], mark := s.mark[o := White(s.cw)], allgc := [o] + s.allgc, sweep := u.sweep)
    ensures Base(u) && o in Live(u)
  {
    assert Live(u) == Live(s) + {o};
    forall p | p in Live(s) ensures RefsIn(u.heap[p], Live(u)) { assert RefsIn(s.heap[p], Live(s)); }
  }

  lemma CreatedPhase(s: State, u: State, o: Obj)
    requires Inv(s) && Base(u) && o !in s.heap && o in u.heap
    requires u == s.(heap := s.heap[o := u.heap[o]], mark := s.mark[o := White(s.cw)], allgc := [o] + s.allgc,
                     sweep := if s.sweep.At? && s.sweep.pos > 0 then At(s.sweep.pos + 1) else s.sweep)
    ensures PhaseInv(u)
  {
    hide Base, Tri;
    if MarkPhase(s.phase) {
      assert RefClosed(u.heap, Live(u)) by { BaseClosed(u); }
      CreatedGathered(s, u, o);
    }
  }

  lemma BaseClosed(s: State)
    requires Base(s)
    ensures RefClosed(s.heap, Live(s))
  {
  }

  lemma CreatedGathered(s: State, u: State, o: Obj)
    requires Gathered(s) && o !in s.heap && o in u.heap && RefClosed(u.heap, Live(u))
    requires u == s.(heap := s.heap[o := u.heap[o]], mark := s.mark[o := White(s.cw)], allgc := u.allgc, sweep := u.sweep)
    ensures Gathered(u)
  {
    hide Tri, RefClosed, GrayAgainOk;
    CreatedTri(s, u, o, Elems(s.grayagain));
    CreatedAgain(s, u, o);
  }

  lemma CreatedAgain(s: State, u: State, o: Obj)
    requires GrayAgainOk(s) && o !in s.heap && o in u.heap
    requires u.heap == s.heap[o := u.heap[o]] && u.mark == s.mark[o := White(s.cw)]
    requires u.gray == s.gray && u.grayagain == s.grayagain && u.ephemeron == s.ephemeron && u.allweak == s.allweak
    ensures GrayAgainOk(u)
  {
    forall p | p in u.grayagain ensures p != o { assert p in s.heap; }
  }

  lemma KeysSame(s: State)
    requires WellFormed(s)
    ensures s.mark.Keys == s.heap.Keys
  {
  }

  lemma CreatedWell(s: State, u: State, o: Obj)
    requires WellFormed(s) && o !in s.heap && o in u.heap && RefClosed(u.heap, Live(u))
    requires u.heap == s.heap[o := u.heap[o]] && u.mark == s.mark[o := White(s.cw)] && u.cw == s.cw
    ensures WellFormed(u) && Marked(u) == Marked(s)
  {
    hide RefsIn;
    assert Live(u) == u.heap.Keys;
  }

  lemma CreatedTri(s: State, u: State, o: Obj, wait: set<Obj>)
    requires Tri(s, {}, wait, true) && o !in s.heap && o in u.heap && RefClosed(u.heap, Live(u))
    requires u.heap == s.heap[o := u.heap[o]] && u.mark == s.mark[o := White(s.cw)] && u.gray == s.gray && u.cw == s.cw
    ensures Tri(u, {}, wait, true) && Marked(u) == Marked(s)
  {
    hide Settled, RefsIn, WellFormed;
    assert WellFormed(u) && Marked(u) == Marked(s) by { CreatedWell(s, u, o); }
    assert s.mark.Keys == s.heap.Keys by { KeysSame(s); }
  }

  ghost predicate Adds(a: Object, b: Object, v: Value) {
    forall S: set<Obj> :: RefsIn(a, S) && In(v, S) ==> RefsIn(b, S)
  }

  lemma ForwardStored(s: State, t: Obj, ob: Object, v: Value)
    requires Inv(s) && t in Live(s) && t in s.heap && In(v, Live(s)) && Adds(s.heap[t], ob, v)
    requires (s.heap[t].Table? && ob.Table?) || (s.heap[t].Udata? && ob.Udata?)
    ensures t in s.mark && In(v, s.mark.Keys)
    ensures s.mark[t] != Black || In(v, Marked(s)) ==> Inv(s.(heap := s.heap[t := ob]))
    ensures s.mark[t] == Black && !MarkPhase(s.phase) ==>
              Inv(s.(heap := s.heap[t := ob], mark := s.mark[t := White(s.cw)]))
  {
    assert RefsIn(s.heap[t], Live(s));
    assert RefsIn(ob, Live(s));
    if s.mark[t] != Black || In(v, Marked(s)) { Write(s, t, ob); }
    if s.mark[t] == Black && !MarkPhase(s.phase) { Repainted(s, t, ob); }
  }

  lemma Repainted(s: State, t: Obj, ob: Object)
    requires Inv(s) && t in Live(s) && t in s.heap && RefsIn(ob, Live(s)) && s.mark[t] == Black && !MarkPhase(s.phase)
    requires !ob.Thread? && !s.heap[t].Thread?
    ensures Inv(s.(heap := s.heap[t := ob], mark := s.mark[t := White(s.cw)]))
  {
    var u := s.(heap := s.heap[t := ob], mark := s.mark[t := White(s.cw)]);
    assert Live(u) == Live(s);
    hide RefsIn, RefClosed;
    WriteBase(s, u, t);
  }

  lemma ForwardReady(s: State, u: State, t: Obj, v: Value)
    requires Inv(s) && MarkPhase(s.phase) && t in s.heap && t in u.heap && s.mark[t] == Black
    requires u == s.(heap := s.heap[t := u.heap[t]]) && Adds(s.heap[t], u.heap[t], v) && v.Ref? && v.o in Whites(s)
    requires (s.heap[t].Table? && u.heap[t].Table?) || (s.heap[t].Udata? && u.heap[t].Udata?)
    ensures Marking(u, Frame({}, Elems(s.grayagain), true, u.heap.Keys).With(t)) && v.o in u.heap && v.o in Whites(u)
    ensures Base(u)
  {
    assert Live(s) == s.heap.Keys;
    assert RefsIn(s.heap[t], s.heap.Keys);
    assert RefsIn(u.heap[t], s.heap.Keys);
    WriteTri(s, u, t, Elems(s.grayagain));
    WriteBase(s, u, t) by { assert Live(u) == Live(s); }
    TriInto(u, t, Elems(s.grayagain));
  }

  lemma TriInto(u: State, t: Obj, wait: set<Obj>)
    requires Tri(u, {t}, wait, true) || Tri(u, {}, wait, true)
    requires t in u.heap && t in u.mark && u.mark[t] == Black
    ensures Marking(u, Frame({}, wait, true, u.heap.Keys).With(t))
  {
    AllClosed(u);
    hide Settled, RefsIn;
  }

  lemma ForwardDone(s: State, u: State, w: State, t: Obj, v: Value)
    requires Inv(s) && MarkPhase(s.phase) && t in s.heap && t in u.heap && s.mark[t] == Black && Base(u)
    requires u == s.(heap := s.heap[t := u.heap[t]]) && Adds(s.heap[t], u.heap[t], v)
    requires Grew(u, w) && Marking(w, Frame({}, Elems(s.grayagain), true, u.heap.Keys).With(t)) && In(v, Marked(w))
    requires !u.heap[t].Thread?
    ensures Inv(w)
  {
    GrewFacts(u, w);
    assert Marked(u) == Marked(s);
    assert RefsIn(s.heap[t], Marked(s)) && Marked(s) <= Marked(w);
    RefsMono(s.heap[t], Marked(s), Marked(w));
    assert RefsIn(w.heap[t], Marked(w));
    assert w.mark[t] == Black && Elems(w.grayagain) == Elems(s.grayagain);
    Leave(w, t, Frame({}, Elems(s.grayagain), true, u.heap.Keys));
    ForwardGathered(s, u, w);
  }

  lemma RefsMono(ob: Object, S: set<Obj>, T: set<Obj>)
    requires RefsIn(ob, S) && S <= T
    ensures RefsIn(ob, T)
  {
  }

  lemma ForwardGathered(s: State, u: State, w: State)
    requires Gathered(s) && Base(u) && MarkPhase(u.phase) && u == s.(heap := u.heap) && u.sweep == Done
    requires Grew(u, w) && Marking(w, Frame({}, Elems(w.grayagain), true, u.heap.Keys))
    requires forall o :: o in s.grayagain ==> o in u.heap && Visitable(u.heap[o])
    ensures Inv(w)
  {
    hide Grew, Settled, RefsIn, Tri, Marking;
    GrewFacts(u, w);
    assert Marked(u) == Marked(s);
    assert GrayAgainOk(u) && Lists(u);
    GrewLists(u, w);
    GrewLen(u, w);
    GatherUp(w, w, u.heap.Keys);
    GatheredBase(u, w);
  }

  lemma GrewLen(a: State, b: State)
    requires Grew(a, b)
    ensures a.gray != [] ==> b.gray != []
  {
  }

  ghost predicate AddsTwo(a: Object, b: Object, k: Value, v: Value) {
    forall S: set<Obj> :: RefsIn(a, S) && In(k, S) && In(v, S) ==> RefsIn(b, S)
  }

  // Every reference an object on the stack holds may be loaded.
  lemma StackLive(s: State)
    requires Inv(s)
    ensures s.running in s.heap && s.heap[s.running].Thread? && s.running in Live(s)
    ensures AllIn(s.heap[s.running].stack, Live(s)) && In(s.registry, Live(s))
    ensures forall o :: o in Live(s) ==> o in s.heap && RefsIn(s.heap[o], Live(s))
  {
    assert RefsIn(s.heap[s.running], Live(s));
  }

  lemma RegistryLive(s: State)
    requires Inv(s)
    ensures In(s.registry, Live(s))
  {
  }

  lemma RootsChanged(s: State, u: State)
    requires Inv(s) && u == s.(running := u.running, registry := u.registry)
    requires u.running in Live(s) && u.running in s.heap && s.heap[u.running].Thread? && In(u.registry, Live(s))
    ensures Inv(u)
  {
    assert Live(u) == Live(s) && Marked(u) == Marked(s);
    if MarkPhase(s.phase) { RootsGathered(s, u); }
    hide Gathered;
  }

  lemma RootsGathered(s: State, u: State)
    requires Gathered(s) && u == s.(running := u.running, registry := u.registry)
    ensures Gathered(u)
  {
    assert Marked(u) == Marked(s);
    SettledMono(s, u);
    hide Settled, RefsIn;
  }

  lemma Remoded(s: State, t: Obj, weak: bool)
    requires Inv(s) && t in Live(s) && t in s.heap && s.heap[t].Table?
    ensures Inv(s.(heap := s.heap[t := s.heap[t].(weakKeys := weak)]))
  {
    var ob := s.heap[t].(weakKeys := weak);
    assert forall S :: RefsIn(s.heap[t], S) ==> RefsIn(ob, S);
    Write(s, t, ob);
  }

  // ---------------------------------------------------------------- program operations

  datatype Kind = NewStr | NewUdata | NewTable | NewThread

  datatype Field = ElemAt(n: nat) | KeyAt(n: nat) | ValAt(n: nat) | MetaOf | UserValueOf | StackAt(n: nat)

  datatype Target = ToElem(n: nat) | ToField(n: nat, k: nat) | ToMeta | ToUserValue

  datatype Op =
    | Collect
    | FullCollect
    | New(o: Obj, kind: Kind)
    | Copy(i: nat)
    | Drop(n: nat)
    | Load(i: nat, sel: Field)
    | Set(t: nat, p: Target, v: nat)
    | SetMode(t: nat, weak: bool)
    | MoveTo(th: nat, v: nat)
    | Resume(th: nat)
    | SetRegistry(v: nat)
    | GetRegistry

  datatype Place = Elem(n: nat) | Field(n: nat, key: Value) | Metatable | UserValue

  function Fresh(kind: Kind): Object {
    match kind
    case NewStr => Str
    case NewUdata => Udata(Nil, Nil)
    case NewTable => Table(Nil, false, [], [])
    case NewThread => Thread([])
  }

  lemma FreshEmpty(kind: Kind)
    ensures RefsIn(Fresh(kind), {})
  {
  }

  function Fetch(ob: Object, sel: Field): Value {
    match sel
    case ElemAt(n) => if ob.Table? && n < |ob.arr| then ob.arr[n] else Nil
    case KeyAt(n) => if ob.Table? && n < |ob.hash| && ob.hash[n].val != Nil then ob.hash[n].key else Nil
    case ValAt(n) => if ob.Table? && n < |ob.hash| then ob.hash[n].val else Nil
    case MetaOf => if ob.Table? || ob.Udata? then ob.meta else Nil
    case UserValueOf => if ob.Udata? then ob.uv else Nil
    case StackAt(n) => if ob.Thread? && n < |ob.stack| then ob.stack[n] else Nil
  }

  lemma FetchIn(ob: Object, sel: Field, S: set<Obj>)
    requires RefsIn(ob, S)
    ensures In(Fetch(ob, sel), S)
  {
  }

  // A new entry goes behind the others or in place of an empty one.
  predicate Applies(ob: Object, p: Place) {
    match p
    case Elem(n) => ob.Table?
    case Field(n, k) =>
      ob.Table? && (k.Ref? || k.Prim?) && (n < |ob.hash| ==> ob.hash[n].key == k || ob.hash[n].val == Nil)
    case Metatable => ob.Table? || ob.Udata?
    case UserValue => ob.Udata?
  }

  function PlaceKey(p: Place): Value { if p.Field? then p.key else Nil }

  function Put(ob: Object, p: Place, v: Value): Object
    requires Applies(ob, p)
  {
    match p
    case Elem(n) => ob.(arr := if n < |ob.arr| then ob.arr[n := v] else ob.arr + [v])
    case Field(n, k) => ob.(hash := if n < |ob.hash| then ob.hash[n := Entry(k, v)] else ob.hash + [Entry(k, v)])
    case Metatable => ob.(meta := v)
    case UserValue => ob.(uv := v)
  }

  lemma PutAdds(ob: Object, p: Place, v: Value)
    requires Applies(ob, p)
    ensures AddsTwo(ob, Put(ob, p, v), PlaceKey(p), v)
    ensures !p.Field? ==> Adds(ob, Put(ob, p, v), v)
  {
  }

  // ---------------------------------------------------------------- what a program operation does

  // The part of the state a program works with.
  datatype View = View(heap: Heap, running: Obj, registry: Value)

  function StackOf(w: View): seq<Value> {
    if w.running in w.heap && w.heap[w.running].Thread? then w.heap[w.running].stack else []
  }

  function SlotOf(w: View, i: nat): Value {
    if i < |StackOf(w)| then StackOf(w)[i] else Nil
  }

  predicate IsObject(w: View, v: Value) { v.Ref? && v.o in w.heap }

  function Pushed(w: View, v: Value): View {
    w.(heap := w.heap[w.running := Thread(StackOf(w) + [v])])
  }

  function PlaceOf(w: View, sel: Target): Place {
    match sel
    case ToElem(n) => Elem(n)
    case ToField(n, k) => Field(n, SlotOf(w, k))
    case ToMeta => Metatable
    case ToUserValue => UserValue
  }

  // The operations of a program; the collector is invisible to it.
  function After(w: View, op: Op): View {
    match op
    case New(o, kind) => if o in w.heap then w else Pushed(w.(heap := w.heap[o := Fresh(kind)]), Ref(o))
    case Copy(i) => Pushed(w, SlotOf(w, i))
    case Drop(n) => if n <= |StackOf(w)| then w.(heap := w.heap[w.running := Thread(StackOf(w)[..n])]) else w
    case Load(i, sel) => var v := SlotOf(w, i); if IsObject(w, v) then Pushed(w, Fetch(w.heap[v.o], sel)) else w
    case Set(t, sel, v) =>
      var o := SlotOf(w, t);
      if IsObject(w, o) && Applies(w.heap[o.o], PlaceOf(w, sel))
      then w.(heap := w.heap[o.o := Put(w.heap[o.o], PlaceOf(w, sel), SlotOf(w, v))])
      else w
    case SetMode(t, weak) =>
      var o := SlotOf(w, t);
      if IsObject(w, o) && w.heap[o.o].Table? then w.(heap := w.heap[o.o := w.heap[o.o].(weakKeys := weak)]) else w
    case MoveTo(th, v) =>
      var o := SlotOf(w, th);
      if IsObject(w, o) && w.heap[o.o].Thread?
      then w.(heap := w.heap[o.o := Thread(w.heap[o.o].stack + [SlotOf(w, v)])])
      else w
    case Resume(th) => var o := SlotOf(w, th); if IsObject(w, o) && w.heap[o.o].Thread? then w.(running := o.o) else w
    case SetRegistry(v) => w.(registry := SlotOf(w, v))
    case GetRegistry => Pushed(w, w.registry)
    case _ => w
  }

  predicate IsProgram(op: Op) { !op.Collect? && !op.FullCollect? }

  ghost function ViewOf(s: State): (w: View) { View(s.heap, s.running, s.registry) }

  // One operation: a program operation has its meaning, a collector step keeps
  // what is reachable and goes on with its cycle, a full collection leaves
  // exactly what is reachable.
  ghost predicate Stepped(a: State, op: Op, b: State) {
    && b.mainthread == a.mainthread && b.mt == a.mt
    && (IsProgram(op) ==> ViewOf(b) == After(ViewOf(a), op))
    && (op.Collect? ==> Evolves(a, b) && if a.phase == Pause then b.phase == Propagate else Smaller(b, a))
    && (op.FullCollect? ==> SameRoots(a, b) && b.heap.Keys == ReachSet(a) && Survivors(a, b.heap))
  }

  // The states of a run.
  ghost predicate Steps(trace: seq<State>, ops: seq<Op>) {
    |trace| == |ops| + 1 && forall i :: 0 <= i < |ops| ==> Stepped(trace[i], ops[i], trace[i + 1])
  }

  lemma EvolvesRoots(a: State, b: State)
    requires Evolves(a, b)
    ensures SameRoots(a, b)
  {
  }

  lemma StepsMore(trace: seq<State>, ops: seq<Op>, s: State, op: Op)
    requires Steps(trace, ops) && Stepped(trace[|ops|], op, s)
    ensures Steps(trace + [s], ops + [op])
  {
    hide Stepped;
    var t, p := trace + [s], ops + [op];
    forall i | 0 <= i < |p| ensures Stepped(t[i], p[i], t[i + 1]) {
      if i < |ops| { assert p[i] == ops[i] && t[i] == trace[i] && t[i + 1] == trace[i + 1]; }
    }
  }
}
