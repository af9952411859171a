/**
  The incremental mark-and-sweep collector: global_State as a class, its marking,
  traversal, atomic and sweep routines as methods that update it in place, and
  the mutator operations with the barriers they run.
 */
module Gc {
  import opened Common
  import opened GcHeap
  import opened GcCycle
  import opened GcTrail

  // Elements swept per step: (100 * 24) / ((24 + 4) / 4) / 4, with 24-byte string headers.
  const GCSWEEPMAX: nat := 85

  class Collector {
    var heap: Heap
    var mark: map<Obj, Mark>
    var cw: bool
    var phase: Phase
    var allgc: seq<Obj>
    var sweep: Sweep
    var gray: seq<Obj>
    var grayagain: seq<Obj>
    var ephemeron: seq<Obj>
    var allweak: seq<Obj>
    var mainthread: Obj
    var running: Obj
    var registry: Value
    var mt: seq<Value>

    ghost function S(): State
      reads this
    {
      State(heap, mark, cw, phase, allgc, sweep, gray, grayagain, ephemeron, allweak,
            mainthread, running, registry, mt)
    }

    // -------------------------------------------------------------- marking

    // Marks a white object.  Strings and userdata turn black at once, following
    // the chain of user values; tables and threads go to the gray list.
    method ReallyMark(o: Obj, ghost f: Frame)
      requires Marking(S(), f)
      requires o in Whites(S()) && o in f.keep
      modifies this
      ensures Marking(S(), f)
      ensures Grew(old(S()), S()) && o in Marked(S())
      ensures o in heap && (heap[o].Str? ==> Marked(S()) == old(Marked(S())) + {o})
      ensures heap[o].Table? || heap[o].Thread? ==> gray == [o] + old(gray) && mark == old(mark)[o := Gray]
      decreases Whites(S()), 0
    {
      hide Marking, Grew, AllIn, EntriesIn, KeepsEntry;
      ghost var s0 := S();
      ghost var g := f.With(o);
      Enter(s0, o, f);
      mark := mark[o := Gray];
      ghost var s1 := S();
      Followed(s1, o, g);
      match heap[o]
      case Str =>
        Recolor(s1, o, Black, g);
        mark := mark[o := Black];
        RecolorGrew(s0, s1, S(), o);
        Leave(S(), o, f);
      case Udata(meta, uv) =>
        VisitUdata(o, s0, f);
      case _ =>
        LeaveToGray(s1, o, f);
        gray := [o] + gray;
        PushGrew(s0, s1, o);
    }

    // A userdata marks its metatable, turns black, and goes on with its user value.
    method VisitUdata(o: Obj, ghost s0: State, ghost f: Frame)
      requires Marking(S(), f.With(o)) && Grew(s0, S())
      requires o in Whites(s0) && o in heap && heap[o].Udata? && o in mark && mark[o] == Gray && o !in f.wait
      modifies this
      ensures Marking(S(), f) && Grew(s0, S()) && o in Marked(S()) && heap == old(heap)
      decreases Whites(S()), 2
    {
      hide Marking, Grew;
      ghost var g := f.With(o);
      ghost var s1 := S();
      var Udata(meta, uv) := heap[o];
      Followed(s1, o, g);
      MarkValue(meta, g);
      GrewTrans(s0, s1, S());
      GrewFacts(s1, S());
      ghost var s2 := S();
      Recolor(s2, o, Black, g);
      mark := mark[o := Black];
      RecolorGrew(s0, s2, S(), o);
      ghost var s3 := S();
      MarkValue(uv, g);
      GrewTrans(s0, s3, S());
      GrewFacts(s3, S());
      Leave(S(), o, f);
    }

    method MarkValue(v: Value, ghost f: Frame)
      requires Marking(S(), f)
      requires v.Ref? ==> v.o in mark && v.o in f.keep
      modifies this
      ensures Marking(S(), f)
      ensures Grew(old(S()), S()) && In(v, Marked(S()))
      ensures v.Ref? ==> v.o in heap && (heap[v.o].Str? ==> Marked(S()) == old(Marked(S())) + {v.o})
      decreases Whites(S()), 1
    {
      if v.Ref? && mark[v.o].White? {
        ReallyMark(v.o, f);
      }
    }
  
    method MarkAll(vs: seq<Value>, ghost f: Frame)
      requires Marking(S(), f)
      requires AllIn(vs, f.keep) && AllIn(vs, mark.Keys)
      modifies this
      ensures Marking(S(), f)
      ensures Grew(old(S()), S()) && AllIn(vs, Marked(S()))
    {
      hide Marking, Grew;
      ghost var s0 := S();
      GrewRefl(s0);
      for i := 0 to |vs|
        invariant Marking(S(), f)
        invariant Grew(s0, S()) && AllIn(vs[..i], Marked(S()))
      {
        ghost var s1 := S();
        GrewFacts(s0, s1);
        assert In(vs[i], f.keep) && In(vs[i], s0.mark.Keys);
        MarkValue(vs[i], f);
        GrewTrans(s0, s1, S());
        GrewFacts(s1, S());
      }
      assert vs[..|vs|] == vs;
    }

    // -------------------------------------------------------------- visiting

    // Retags the key of an empty entry unless the key is marked.
    method RemoveEntry(o: Obj, i: nat, ghost s0: State, ghost f: Frame)
      requires Marking(S(), f) && Traced(s0, S(), o)
      requires o in f.ex && o in heap && heap[o].Table? && i < |heap[o].hash| && heap[o].hash[i].val == Nil
      modifies this
      ensures Marking(S(), f) && Traced(s0, S(), o)
      ensures o in heap && S() == old(S()).(heap := old(heap)[o := heap[o]])
      ensures heap[o] == if IsWhite(old(S()), old(heap[o].hash[i].key))
        then old(heap[o]).(hash := old(heap[o].hash)[i := Entry(DeadKey, Nil)]) else old(heap[o])
      ensures In(heap[o].hash[i].key, Marked(S()))
    {
      hide Traced;
      var k := heap[o].hash[i].key;
      if k.Ref? && mark[k.o].White? {
        PruneEntry(s0, S(), o, i, f);
        heap := heap[o := heap[o].(hash := heap[o].hash[i := Entry(DeadKey, Nil)])];
      }
    }

    method TraverseStrong(o: Obj, ghost f: Frame)
      requires Marking(S(), f)
      requires o in f.ex && o in heap && heap[o].Table? && !heap[o].weakKeys && In(heap[o].meta, Marked(S()))
      modifies this
      ensures Marking(S(), f)
      ensures Traced(old(S()), S(), o) && RefsIn(heap[o], Marked(S()))
    {
      hide Marking, Traced, Grew;
      ghost var s0 := S();
      ghost var m, a := heap[o].meta, heap[o].arr;
      Followed(s0, o, f);
      MarkAll(heap[o].arr, f);
      GrewFacts(s0, S());
      TracedRefl(s0, S(), o);
      var n := |heap[o].hash|;
      for i := 0 to n
        invariant Marking(S(), f) && Traced(s0, S(), o)
        invariant o in heap && heap[o].Table? && |heap[o].hash| == n && !heap[o].weakKeys
        invariant heap[o].meta == m && heap[o].arr == a
        invariant In(m, Marked(S())) && AllIn(a, Marked(S())) && EntriesIn(heap[o].hash, i, Marked(S()))
      {
        if heap[o].hash[i].val == Nil {
          RemoveEntry(o, i, s0, f);
        } else {
          ghost var s1 := S();
          StrongEntry(o, i, f);
          GrewFacts(s1, S());
          TracedGrew(s0, s1, S(), o);
        }
      }
    }

    // Marks the key and the value of a nonempty entry.
    method StrongEntry(o: Obj, i: nat, ghost f: Frame)
      requires Marking(S(), f)
      requires o in f.ex && o in heap && heap[o].Table? && !heap[o].weakKeys && i < |heap[o].hash| && heap[o].hash[i].val != Nil
      modifies this
      ensures Marking(S(), f) && Grew(old(S()), S())
      ensures In(old(heap[o].hash[i].key), Marked(S())) && In(old(heap[o].hash[i].val), Marked(S()))
    {
      hide Marking, Grew;
      var e := heap[o].hash[i];
      Followed(S(), o, f);
      assert KeepsEntry(heap, false, e, f.keep);
      MarkAll([e.key, e.val], f);
      assert In([e.key, e.val][0], Marked(S())) && In([e.key, e.val][1], Marked(S()));
    }
  
    // Strings are values: as keys they are marked and never cleared.
    method MarkStringKey(e: Entry, ghost o: Obj, ghost f: Frame)
      requires Marking(S(), f) && e.val != Nil
      requires o in heap && o in f.ex && heap[o].Table? && heap[o].weakKeys && e in heap[o].hash
      modifies this
      ensures Marking(S(), f) && Grew(old(S()), S()) && OnlyStr(old(S()), S())
      ensures IsStr(heap, e.key) ==> In(e.key, Marked(S()))
    {
      hide Marking, Grew;
      ghost var s0 := S();
      GrewRefl(s0);
      EntryFollowed(s0, o, e, f);
      if e.key.Ref? && heap[e.key.o].Str? {
        MarkValue(e.key, f);
        GrewFacts(s0, S());
      }
    }

    // One nonempty entry of an ephemeron table: a string key is marked, a
    // white key leaves the entry for later, any other key marks the value.
    method EphemeronEntry(e: Entry, ghost o: Obj, ghost f: Frame)
      returns (marked: bool, ww: bool, clears: bool, ghost at: State)
      requires Marking(S(), f) && e.val != Nil
      requires o in heap && o in f.ex && heap[o].Table? && heap[o].weakKeys && e in heap[o].hash
      modifies this
      ensures Marking(S(), f) && Grew(old(S()), S())
      ensures Scanned(S(), [e], 1, marked, ww, clears)
      ensures !marked ==> OnlyStr(old(S()), S())
      ensures marked ==> Whites(S()) < old(Whites(S()))
      ensures Whites(S()) <= Whites(at) <= old(Whites(S())) && (ww <==> WhiteWhite(Moment(o, e, at)))
      ensures clears <==> IsWhite(at, e.key)
    {
      hide Marking, Grew;
      marked, ww, clears := false, false, false;
      ghost var s0 := S();
      MarkStringKey(e, o, f);
      ghost var s1 := S();
      at := s1;
      GrewFacts(s0, s1);
      EntryFollowed(s1, o, e, f);
      if e.key.Ref? && mark[e.key.o].White? {
        clears := true;
        ww := e.val.Ref? && mark[e.val.o].White?;
      } else if e.val.Ref? && mark[e.val.o].White? {
        marked := true;
        MarkValue(e.val, f);
        GrewFacts(s1, S());
        GrewTrans(s0, s1, S());
      }
    }
  
    // Visits the entries of an ephemeron table; says whether it marked a value.
    method ScanEphemeron(o: Obj, ghost f: Frame)
      returns (marked: bool, ww: bool, clears: bool, ghost log: seq<Moment>)
      requires Marking(S(), f)
      requires o in heap && o in f.ex && heap[o].Table? && heap[o].weakKeys && In(heap[o].meta, Marked(S()))
      modifies this
      ensures Marking(S(), f) && o in heap && heap[o].Table?
      ensures ScanInv(old(S()), S(), o, |heap[o].hash|, marked, ww, clears)
      ensures ScanLog(old(S()), S(), o, |heap[o].hash|, ww, log) && (clears <==> SomeKey(log))
    {
      hide Marking, Grew, ScanInv, ScanLog;
      ghost var s0 := S();
      ww, clears, log := false, false, [];
      marked := ScanArray(o, f);
      ScanStart(s0, S(), o, marked);
      ScanLogStart(s0, S(), o);
      ScanFacts(s0, S(), o, 0, marked, ww, clears);
      var n := |heap[o].hash|;
      for i := 0 to n
        invariant Marking(S(), f) && ScanInv(s0, S(), o, i, marked, ww, clears) && ScanLog(s0, S(), o, i, ww, log)
        invariant clears <==> SomeKey(log)
        invariant o in heap && heap[o].Table? && |heap[o].hash| == n && heap[o].weakKeys
      {
        marked, ww, clears, log := ScanEntry(o, i, s0, f, marked, ww, clears, log);
        ScanFacts(s0, S(), o, i + 1, marked, ww, clears);
      }
    }

    method ScanEntry(o: Obj, i: nat, ghost s0: State, ghost f: Frame, marked: bool, ww: bool, clears: bool, ghost log: seq<Moment>)
      returns (marked': bool, ww': bool, clears': bool, ghost log': seq<Moment>)
      requires Marking(S(), f) && ScanInv(s0, S(), o, i, marked, ww, clears) && ScanLog(s0, S(), o, i, ww, log)
      requires clears <==> SomeKey(log)
      requires o in heap && o in f.ex && heap[o].Table? && i < |heap[o].hash| && heap[o].weakKeys
      modifies this
      ensures Marking(S(), f) && ScanInv(s0, S(), o, i + 1, marked', ww', clears') && ScanLog(s0, S(), o, i + 1, ww', log')
      ensures clears' <==> SomeKey(log')
    {
      hide Marking, Grew, Traced, Scanned, OnlyStr, ScanLog, WhiteWhite, SomeKey, IsWhite;
      if heap[o].hash[i].val == Nil {
        ghost var s1 := S();
        TracedEntry(s0, s1, o, i);
        RemoveEntry(o, i, s0, f);
        ScannedNil(s1, S(), o, i, marked, ww, clears);
        ScanLogNil(s0, s1, S(), o, i, ww, log);
        if !marked { OnlyStrSame(s0, s1, S()); }
        marked', ww', clears', log' := marked, ww, clears, log;
      } else {
        marked', ww', clears', log' := ScanFull(o, i, s0, f, marked, ww, clears, log);
      }
    }

    // The same for an entry with a value.
    method ScanFull(o: Obj, i: nat, ghost s0: State, ghost f: Frame, marked: bool, ww: bool, clears: bool, ghost log: seq<Moment>)
      returns (marked': bool, ww': bool, clears': bool, ghost log': seq<Moment>)
      requires Marking(S(), f) && ScanInv(s0, S(), o, i, marked, ww, clears) && ScanLog(s0, S(), o, i, ww, log)
      requires clears <==> SomeKey(log)
      requires o in heap && o in f.ex && heap[o].Table? && i < |heap[o].hash| && heap[o].weakKeys && heap[o].hash[i].val != Nil
      modifies this
      ensures Marking(S(), f) && ScanInv(s0, S(), o, i + 1, marked', ww', clears') && ScanLog(s0, S(), o, i + 1, ww', log')
      ensures clears' <==> SomeKey(log')
    {
      hide Marking, Grew, Traced, Scanned, OnlyStr, ScanLog, WhiteWhite, SomeKey, IsWhite;
      ghost var s1, e := S(), heap[o].hash[i];
      Followed(s1, o, f);
      TracedEntry(s0, s1, o, i);
      var mk, w, c;
      ghost var at;
      mk, w, c, at := EphemeronEntry(heap[o].hash[i], o, f);
      GrewFacts(s1, S());
      ScanLogEntry(s0, s1, S(), o, i, ww, log, Moment(o, e, at));
      SomeKeyMore(log, Moment(o, e, at));
      log' := log + [Moment(o, e, at)];
      TracedGrew(s0, s1, S(), o);
      ScannedNext(s1, S(), heap[o].hash, i, marked, ww, clears, mk, w, c);
      if !marked && !mk { OnlyStrTrans(s0, s1, S()); }
      TracedFacts(s0, s1, o);
      marked', ww', clears' := marked || mk, ww || w, clears || c;
    }

    method ScanArray(o: Obj, ghost f: Frame) returns (marked: bool)
      requires Marking(S(), f)
      requires o in heap && o in f.ex && heap[o].Table?
      modifies this
      ensures Marking(S(), f) && Grew(old(S()), S())
      ensures AllIn(heap[o].arr, Marked(S()))
      ensures !marked ==> S() == old(S())
      ensures marked ==> Whites(S()) < old(Whites(S()))
    {
      hide Marking, Grew;
      ghost var s0 := S();
      var vs := heap[o].arr;
      Followed(s0, o, f);
      GrewRefl(s0);
      marked := false;
      for i := 0 to |vs|
        invariant Marking(S(), f) && Grew(s0, S()) && AllIn(vs[..i], Marked(S())) && heap == s0.heap
        invariant !marked ==> S() == s0
        invariant marked ==> Whites(S()) < Whites(s0)
      {
        ghost var s1 := S();
        GrewFacts(s0, s1);
        assert In(vs[i], f.keep) && In(vs[i], s0.mark.Keys);
        if vs[i].Ref? && mark[vs[i].o].White? {
          marked := true;
          ReallyMark(vs[i].o, f);
          GrewTrans(s0, s1, S());
          GrewFacts(s1, S());
        }
      }
      assert vs[..|vs|] == vs;
    }
  
    // Visits an ephemeron table and links it where it still has work: in
    // 'grayagain' while propagating, afterwards in 'ephemeron' or 'allweak'.
    method TraverseEphemeron(o: Obj, ghost f: Frame) returns (marked: bool, ghost log: seq<Moment>)
      requires Marking(S(), f.With(o)) && (f.strict <==> phase == Propagate)
      requires o in heap && heap[o].Table? && heap[o].weakKeys && In(heap[o].meta, Marked(S()))
      requires o in mark && mark[o] == Gray && o !in gray && o !in f.ex && o !in f.wait
      modifies this
      ensures Marking(S(), f.Again(o))
      ensures Traced(old(S()), S().(grayagain := old(grayagain), ephemeron := old(ephemeron), allweak := old(allweak)), o)
      ensures Linked(old(S()), S(), o) && grayagain == if f.strict then [o] + old(grayagain) else old(grayagain)
      ensures !marked ==> OnlyStr(old(S()), S()) && KeepsIn(heap, heap[o], Marked(S()))
      ensures marked ==> Whites(S()) < old(Whites(S()))
      ensures ScanLog(old(S()), S(), o, |heap[o].hash|, SomeWhite(log), log) && |heap[o].hash| == old(|heap[o].hash|)
      ensures phase != Propagate ==> ephemeron == if SomeWhite(log) then [o] + old(ephemeron) else old(ephemeron)
      ensures phase != Propagate ==> allweak == if SomeKey(log) && !SomeWhite(log) then [o] + old(allweak) else old(allweak)
    {
      hide Marking, Traced, OnlyStr, Scanned, ScanLog, SomeWhite, SomeKey;
      ghost var s0 := S();
      Followed(s0, o, f.With(o));
      var ww, clears;
      marked, ww, clears, log := ScanEphemeron(o, f.With(o));
      ScanLogFlag(s0, S(), o, |heap[o].hash|, ww, log);
      ghost var s1 := S();
      TracedFacts(s0, s1, o);
      TracedGray(s0, s1, o);
      if phase == Propagate {
        grayagain := [o] + grayagain;
      } else if ww {
        ephemeron := [o] + ephemeron;
      } else if clears {
        allweak := [o] + allweak;
      }
      RelistedMarking(s1, S(), f.With(o));
      RelistedScan(s1, S(), heap[o].hash, marked, ww, clears);
      if f.strict {
        LeaveToWait(S(), o, f);
      } else {
        SettledEphemeron(S(), o, ww, clears, marked);
        Leave(S(), o, f);
      }
      if !marked { KeptByScan(s0, s1, S(), o, ww, clears); }
      assert s1 == S().(grayagain := s0.grayagain, ephemeron := s0.ephemeron, allweak := s0.allweak);
      ScanLogSame(s0, s1, S(), o, |heap[o].hash|, ww, log);
    }
  
    method VisitTable(o: Obj, ghost f: Frame) returns (ghost log: seq<Moment>)
      requires Marking(S(), f.With(o)) && (f.strict <==> phase == Propagate)
      requires o in heap && heap[o].Table? && o in mark && mark[o] == Black && o !in gray && o !in f.ex && o !in f.wait
      modifies this
      ensures Visited(old(S()), S(), o)
      ensures Marking(S(), if grayagain == old(grayagain) then f else f.Again(o))
      ensures VisitLog(old(S()), S(), o, log)
    {
      hide Marking, Traced, Visited, Grew, VisitLog, ScanLog, SomeWhite;
      ghost var s0 := S();
      ghost var g := f.With(o);
      Followed(s0, o, g);
      MarkValue(heap[o].meta, g);
      ghost var s1 := S();
      GrewFacts(s0, s1);
      TracedRefl(s0, s1, o);
      TracedGray(s0, s1, o);
      if heap[o].weakKeys {
        log := VisitWeak(o, f, s0);
      } else {
        TraverseStrong(o, g);
        TracedFacts(s1, S(), o);
        TracedTrans(s0, s1, S(), o);
        TracedVisited(s0, S(), S(), o);
        log := [];
        StrongLog(s0, S(), o);
        Leave(S(), o, f);
      }
    }

    // An ephemeron table whose metatable is marked turns gray again and is visited.
    method VisitWeak(o: Obj, ghost f: Frame, ghost s0: State) returns (ghost log: seq<Moment>)
      requires Marking(S(), f.With(o)) && (f.strict <==> phase == Propagate) && Grew(s0, S()) && o in Marked(s0)
      requires Weak(heap, o) && In(heap[o].meta, Marked(S()))
      requires o in mark && mark[o] == Black && o !in gray && o !in f.ex && o !in f.wait
      modifies this
      ensures Visited(s0, S(), o) && VisitLog(s0, S(), o, log)
      ensures Marking(S(), if grayagain == s0.grayagain then f else f.Again(o))
    {
      hide Marking, Traced, Visited, Grew, VisitLog, ScanLog, SomeWhite;
      ghost var s1 := S();
      GrewFacts(s0, s1);
      Recolor(s1, o, Gray, f.With(o));
      mark := mark[o := Gray];
      ghost var s2 := S();
      var marked;
      marked, log := TraverseEphemeron(o, f);
      WeakVisited(s0, s1, s2, S(), o);
      WeakLog(s0, s1, s2, S(), o, log);
      if !f.strict { assert f.Again(o) == f; }
    }

    // A thread goes back to gray and waits in 'grayagain'; its stack is marked.
    method VisitThread(o: Obj, ghost f: Frame)
      requires Marking(S(), f.With(o)) && (f.strict <==> phase == Propagate)
      requires o in heap && heap[o].Thread? && o in mark && mark[o] == Black && o !in gray && o !in f.ex && o !in f.wait
      modifies this
      ensures Visited(old(S()), S(), o) && grayagain == [o] + old(grayagain)
      ensures Marking(S(), f.Again(o)) && VisitLog(old(S()), S(), o, [])
    {
      hide Marking, Traced, Visited, Grew, VisitLog;
      ghost var s0 := S();
      ghost var g := f.With(o);
      Followed(s0, o, g);
      grayagain := [o] + grayagain;
      Recolor(s0, o, Gray, g);
      mark := mark[o := Gray];
      ghost var s1 := S();
      RelistedMarking(s0.(mark := mark), s1, g);
      MarkAll(heap[o].stack, g);
      GrewFacts(s1, S());
      ThreadVisited(s0, s1, S(), o);
      ThreadLog(s0, s1, S(), o);
      if f.strict {
        LeaveToWait(S(), o, f);
      } else {
        Leave(S(), o, f);
      }
    }
  
    // -------------------------------------------------------------- propagation

    // Visits the first gray object.
    method PropagateMark(ghost f: Frame) returns (ghost log: seq<Moment>)
      requires Marking(S(), f) && (f.strict <==> phase == Propagate) && gray != []
      requires f.strict ==> f.wait == Elems(grayagain)
      modifies this
      ensures Marking(S(), if f.strict then f.(wait := Elems(grayagain)) else f)
      ensures Advanced(old(S()), S())
      ensures Whites(S()) == old(Whites(S())) ==> |gray| < old(|gray|)
      ensures VisitedLog(old(S()), S(), old(gray[0]), log)
    {
      hide Marking, Visited, Advanced, VisitLog, VisitedLog;
      ghost var s0 := S();
      var o := gray[0];
      Pop(s0, f);
      gray := gray[1..];
      mark := mark[o := Black];
      ElemsCons(o, grayagain);
      if heap[o].Table? {
        log := VisitTable(o, f);
      } else {
        VisitThread(o, f);
        log := [];
      }
      PoppedLog(s0, s0.(gray := s0.gray[1..], mark := s0.mark[o := Black]), S(), o, log);
      VisitedAdvanced(s0, S(), f);
      VisitedAgain(s0.(gray := s0.gray[1..], mark := s0.mark[o := Black]), S(), o);
    }

    // Visits gray objects until none is left. A table has been linked to
    // 'ephemeron' exactly if one of the entries looked at was white on both sides.
    method PropagateAll(ghost f: Frame) returns (ghost log: seq<Moment>)
      requires Marking(S(), f) && !f.strict && phase != Propagate
      modifies this
      ensures Marking(S(), f) && gray == []
      ensures Advanced(old(S()), S()) && RunLog(old(S()), S(), log)
    {
      hide Marking, Advanced, RunLog, VisitedLog;
      ghost var s0 := S();
      AdvancedRefl(s0);
      RunLogStart(s0);
      log := [];
      while gray != []
        invariant Marking(S(), f) && phase == s0.phase
        invariant Advanced(s0, S()) && RunLog(s0, S(), log)
        decreases Whites(S()), |gray|
      {
        ghost var s1 := S();
        ghost var more := PropagateMark(f);
        RunLogNext(s0, s1, S(), s1.gray[0], log, more);
        log := log + more;
        AdvancedTrans(s0, s1, S());
        AdvancedFacts(s0, S());
        AdvancedFacts(s1, S());
      }
    }
  
    // Visits the listed ephemeron tables again and again until a whole pass
    // marks nothing.
    method ConvergeEphemerons(ghost keep: set<Obj>)
      requires Marking(S(), Waiting([], keep)) && Lists(S()) && gray == [] && phase == InsideAtomic
      modifies this
      ensures Marking(S(), Waiting([], keep)) && Lists(S()) && gray == []
      ensures Progress(old(S()), S()) && Closed(heap, Marked(S()))
    {
      hide Marking, Rest, Lists, Progress, Kept;
      ghost var s0 := S();
      var changed := true;
      ProgressRefl(s0);
      while changed
        invariant Marking(S(), Waiting([], keep)) && Lists(S()) && gray == [] && phase == InsideAtomic
        invariant Progress(s0, S())
        invariant !changed ==> Kept(S(), ephemeron)
        decreases Whites(S()), changed
      {
        ghost var s1 := S();
        var next := ephemeron;
        TakeList(s1, keep);
        ephemeron := [];
        ghost var s2 := S();
        changed := false;
        ProgressRefl(s2);
        KeptNone(s2);
        while next != []
          invariant Marking(S(), Waiting(next, keep)) && Rest(S(), next) && gray == [] && phase == InsideAtomic
          invariant Progress(s2, S())
          invariant !changed ==> Kept(S(), ephemeron)
          invariant changed ==> Whites(S()) < Whites(s2)
          decreases |next|
        {
          ghost var s3 := S();
          var marked := ConvergeOne(next, keep);
          ProgressTrans(s2, s3, S());
          ProgressFacts(s3, S());
          ProgressFacts(s2, s3);
          if marked { changed := true; }
          next := next[1..];
        }
        RestLists(S());
        ProgressFacts(s1, s2);
        ProgressFacts(s2, S());
        ProgressTrans(s1, s2, S());
        ProgressTrans(s0, s1, S());
      }
      ConvergedClosed(S(), keep);
    }

    method ConvergeOne(next: seq<Obj>, ghost keep: set<Obj>) returns (marked: bool)
      requires Marking(S(), Waiting(next, keep)) && Rest(S(), next) && gray == [] && phase == InsideAtomic && next != []
      modifies this
      ensures Marking(S(), Waiting(next[1..], keep)) && Rest(S(), next[1..]) && gray == []
      ensures Progress(old(S()), S())
      ensures marked ==> Whites(S()) < old(Whites(S()))
      ensures !marked && old(Kept(S(), ephemeron)) ==> Kept(S(), ephemeron)
    {
      hide Marking, Rest, Progress, Traced, OnlyStr, Kept, Linked;
      ghost var s0 := S();
      ghost var f := Waiting(next[1..], keep);
      TakeNext(s0, next, keep);
      ghost var log;
      marked, log := TraverseEphemeron(next[0], f);
      ghost var s1 := S();
      Traversed(s0, s1, next[0], next);
      ProgressFacts(s0, s1);
      if marked {
        ghost var more := PropagateAll(f);
        RestAdvanced(s1, S(), next[1..]);
        AdvancedProgress(s1, S());
        ProgressFacts(s1, S());
        ProgressTrans(s0, s1, S());
      } else {
        UnmarkedVisit(s0, s1, next, keep);
      }
    }
  
    // Empties the entries of an ephemeron table whose key is not marked.
    method ClearTable(o: Obj)
      requires mark.Keys == heap.Keys && o in heap && heap[o].Table? && heap[o].weakKeys && RefsIn(heap[o], heap.Keys)
      modifies this`heap
      ensures o in heap && heap == old(heap)[o := heap[o]] && ClearedObject(old(heap[o]), heap[o], Marked(S()))
      ensures heap[o].Table? && Clean(heap, heap[o], |heap[o].hash|, Marked(S())) && RefsIn(heap[o], heap.Keys)
    {
      var n := |heap[o].hash|;
      for i := 0 to n
        invariant o in heap && heap == old(heap)[o := heap[o]] && heap[o].Table? && |heap[o].hash| == n
        invariant heap[o] == old(heap[o]).(hash := heap[o].hash)
        invariant forall j :: i <= j < n ==> heap[o].hash[j] == old(heap[o]).hash[j]
        invariant ClearedObject(old(heap[o]), heap[o], Marked(S()))
        invariant Clean(heap, heap[o], i, Marked(S())) && RefsIn(heap[o], heap.Keys)
      {
        var e := heap[o].hash[i];
        if e.val != Nil && e.key.Ref? && !heap[e.key.o].Str? && mark[e.key.o].White? {
          heap := heap[o := heap[o].(hash := heap[o].hash[i := Entry(DeadKey, Nil)])];
        }
      }
    }

    method ClearKeys(l: seq<Obj>)
      requires mark.Keys == heap.Keys && RefHeap(heap) && AllWeak(heap, l)
      modifies this`heap
      ensures mark.Keys == heap.Keys && RefHeap(heap)
      ensures ClearedBy(old(heap), heap, l, Marked(S()))
    {
      hide Clean, RefsIn;
      for i := 0 to |l|
        invariant mark.Keys == heap.Keys && RefHeap(heap)
        invariant ClearedHeap(old(heap), heap, Marked(S()))
        invariant forall o :: o in heap && o !in l[..i] ==> heap[o] == old(heap)[o]
        invariant forall o :: o in l ==> o in heap && heap[o].Table? && heap[o].weakKeys
        invariant forall o :: o in l[..i] ==> Clean(heap, heap[o], |heap[o].hash|, Marked(S()))
      {
        ghost var h := heap;
        assert l[i] in l;
        ClearTable(l[i]);
        ClearedSteps(old(heap), h, heap, l[i], Marked(S()));
      }
    }
  
    // Marks the roots again; the thread that runs is one of them.
    method MarkRoots(ghost f: Frame)
      requires Marking(S(), f) && RootsIn(S(), f.keep) && RootsIn(S(), mark.Keys) && mainthread in Marked(S())
      modifies this
      ensures Marking(S(), f) && Grew(old(S()), S()) && RootsIn(S(), Marked(S()))
    {
      hide Marking, Grew;
      ghost var s0 := S();
      MarkValue(Ref(running), f);
      ghost var s1 := S();
      GrewFacts(s0, s1);
      MarkValue(registry, f);
      ghost var s2 := S();
      GrewFacts(s1, s2);
      GrewTrans(s0, s1, s2);
      MarkAll(mt, f);
      GrewFacts(s2, S());
      GrewTrans(s0, s2, S());
    }

    // Marks everything strongly reachable: from the roots, and then from what
    // waits in the saved grayagain list.
    method AtomicMark(ghost keep: set<Obj>)
      requires phase == InsideAtomic && gray == [] && Marking(S(), Waiting(grayagain, keep)) && GrayAgainOk(S()) && Lists(S())
      requires RootsIn(S(), keep) && RootsIn(S(), mark.Keys) && mainthread in Marked(S())
      modifies this
      ensures Marking(S(), Waiting([], keep)) && gray == [] && Lists(S())
      ensures Progress(old(S()), S()) && RootsIn(S(), Marked(S()))
    {
      hide Marking, Grew, Advanced, Lists, GrayAgainOk, Progress;
      ghost var s0 := S();
      var saved := grayagain;
      MarkRoots(Waiting(saved, keep));
      ghost var s1 := S();
      GrewFacts(s0, s1);
      GrewProgress(s0, s1);
      GrewLists(s0, s1);
      ghost var log := PropagateAll(Waiting(saved, keep));
      ghost var s2 := S();
      AdvancedProgress(s1, s2);
      ProgressFacts(s1, s2);
      ProgressTrans(s0, s1, s2);
      ProgressRoots(s1, s2);
      SwitchLists(s1, s2, keep);
      gray := saved;
      ghost var s3 := S();
      ProgressTrans(s0, s2, s3);
      ProgressRoots(s2, s3);
      ghost var more := PropagateAll(Waiting([], keep));
      AdvancedProgress(s3, S());
      ProgressTrans(s0, s3, S());
      ProgressRoots(s3, S());
      AdvancedLists(s3, S());
    }

    method AtomicPhase(ghost keep: set<Obj>)
      requires phase == Atomic && gray == [] && Marking(S(), Waiting(grayagain, keep)) && GrayAgainOk(S()) && Lists(S())
      requires RootsIn(S(), keep) && RootsIn(S(), mark.Keys) && mainthread in Marked(S())
      modifies this
      ensures AtomicDone(old(S()), S(), keep)
    {
      ghost var s0 := S();
      TightWhites(s0, Waiting(grayagain, keep));
      hide Marking, Lists, GrayAgainOk, Progress, Closed, AtomicDone;
      phase := InsideAtomic;
      PhaseOnly(s0, S(), Waiting(grayagain, keep));
      ghost var s1 := S();
      AtomicMark(keep);
      ghost var s2 := S();
      ProgressFacts(s1, s2);
      ConvergeEphemerons(keep);
      ghost var s3 := S();
      ProgressFacts(s2, s3);
      ProgressTrans(s1, s2, s3);
      ProgressRoots(s2, s3);
      ConvergeEphemerons(keep);
      ProgressTrans(s1, s3, S());
      ProgressRoots(s3, S());
      FinishAtomic(s0, keep);
    }

    // Clears the ephemeron tables and flips the current white.
    method FinishAtomic(ghost s0: State, ghost keep: set<Obj>)
      requires Marking(S(), Waiting([], keep)) && gray == [] && Lists(S()) && Closed(heap, Marked(S()))
      requires Progress(s0.(phase := InsideAtomic), S()) && s0.mark.Keys == s0.heap.Keys && RootsIn(S(), Marked(S()))
      modifies this
      ensures AtomicDone(s0, S(), keep)
    {
      ghost var s1 := S();
      WeakTables(s1, keep);
      hide Marking, Lists, Closed, RefHeap, AllWeak, ClearedBy, AtomicDone, Progress;
      ClearKeys(ephemeron);
      ghost var s2 := S();
      assert Marked(s2) == Marked(s1);
      StillWeak(s1.heap, s2.heap, ephemeron, allweak, Marked(s1));
      ClearKeys(allweak);
      assert Marked(S()) == Marked(s1);
      AtomicFinish(s0, s1, s2.heap, heap, keep);
      cw := !cw;
    }
  
    // -------------------------------------------------------------- sweeping

    // Sweeps up to 'count' objects from position p on: dead ones are freed, the
    // others painted with the current white.
    method SweepList(p: nat, count: nat) returns (q: Sweep)
      requires Base(S()) && SweptTo(S(), p)
      modifies this
      ensures S() == old(S()).(heap := heap, mark := mark, allgc := allgc)
      ensures Base(S()) && SweepStep(old(S()), S())
      ensures if q.Done? then AllSwept(S()) else SweptTo(S(), q.pos)
      ensures q.At? ==> q.pos < |allgc| && |allgc| - q.pos <= old(|allgc|) - p - count
    {
      hide SweepStep, Live, NoDup;
      ghost var s0 := S();
      SweepRefl(s0);
      var i: nat, c: nat := p, count;
      while i < |allgc| && c > 0
        invariant S() == s0.(heap := heap, mark := mark, allgc := allgc)
        invariant AllGcOk(S()) && SweptTo(S(), i) && SweepStep(s0, S())
        invariant c <= count && |allgc| - i == |s0.allgc| - p - (count - c)
        decreases c
      {
        ghost var s1 := S();
        var o := allgc[i];
        if mark[o] == White(!cw) {
          SweepDead(s1, i);
          allgc := allgc[..i] + allgc[i + 1..];
          heap := heap - {o};
          mark := mark - {o};
        } else {
          SweepAlive(s1, i);
          mark := mark[o := White(cw)];
          i := i + 1;
        }
        SweepTrans(s0, s1, S());
        c := c - 1;
      }
      SweepBase(s0, S());
      q := if i == |allgc| then Done else At(i);
    }
  
    // -------------------------------------------------------------- single steps

    // Resets the gray lists and marks the roots known at the start of a cycle.
    method RestartCollection(ghost keep: set<Obj>)
      requires Inv(S()) && phase == Pause && Closed(heap, keep) && RootsIn(S(), keep)
      modifies this
      ensures Grew(old(S()).(gray := [], grayagain := [], ephemeron := [], allweak := []), S())
      ensures Marking(S(), Frame({}, {}, true, keep)) && mainthread in Marked(S()) && mainthread == old(mainthread)
      ensures In(registry, Marked(S())) && AllIn(mt, Marked(S()))
    {
      hide Inv, Marking, Grew, Closed;
      RootsKnown(S());
      StartMarking(S(), keep);
      gray, grayagain, ephemeron, allweak := [], [], [], [];
      ghost var s1 := S();
      ghost var f := Frame({}, {}, true, keep);
      MarkValue(Ref(mainthread), f);
      ghost var s2 := S();
      GrewFacts(s1, s2);
      MarkValue(registry, f);
      ghost var s3 := S();
      GrewFacts(s2, s3);
      GrewTrans(s1, s2, s3);
      MarkAll(mt, f);
      GrewTrans(s1, s3, S());
      GrewFacts(s3, S());
    }

    // Every step keeps the invariant and what the program can see.  With
    // 'exact' it also advances a cycle that began, undisturbed, in state a.
    method StepPause(ghost a: State, ghost exact: bool)
      requires Inv(S()) && phase == Pause && (exact ==> a == S())
      modifies this
      ensures Inv(S()) && Evolves(old(S()), S()) && (exact ==> Cycle(a, S()))
      ensures phase == Propagate
    {
      ghost var s0 := S();
      hide Inv, Marking, Grew, Evolves, Cycle, Closed, RootsIn;
      ScopeStart(s0, exact);
      RestartCollection(Scope(s0, s0, exact));
      Restarted(s0, S(), exact);
      phase := Propagate;
    }

    method StepPropagate(ghost a: State, ghost exact: bool)
      requires Inv(S()) && phase == Propagate && (exact ==> Cycle(a, S()))
      modifies this
      ensures Inv(S()) && Evolves(old(S()), S()) && (exact ==> Cycle(a, S()))
      ensures MarkPhase(phase)
      ensures Whites(S()) <= old(Whites(S()))
      ensures Whites(S()) == old(Whites(S())) ==> |gray| < old(|gray|)
    {
      hide Inv, Marking, Advanced, Evolves, Cycle, Lists, GrayAgainOk, Elems, Scope, PrunedHeap, ListsGrew;
      ghost var s0 := S();
      ghost var keep := Scope(a, s0, exact);
      ghost var f := Frame({}, Elems(grayagain), true, keep);
      GatheredMarking(a, s0, exact);
      ghost var log := PropagateMark(f);
      ghost var s1 := S();
      AdvancedFacts(s0, s1);
      if gray == [] {
        phase := Atomic;
      }
      Propagated(a, s0, s1, S(), exact);
    }
  
    // What runs before the atomic function: it asserts that 'ephemeron' is empty,
    // which holds exactly if no entry looked at here was white on both sides.
    method BeforeAtomic(ghost keep: set<Obj>) returns (ghost log: seq<Moment>)
      requires Inv(S()) && phase == Atomic && Marking(S(), Frame({}, Elems(grayagain), true, keep))
      modifies this
      ensures Marking(S(), Waiting(old(grayagain), keep)) && gray == []
      ensures Advanced(old(S()), S()) && RunLog(old(S()), S(), log)
      ensures ephemeron == [] <==> !SomeWhite(log)
      ensures old(gray) == [] ==> ephemeron == []
    {
      hide Inv, Marking, Advanced, Elems, SomeWhite, Within, Covers;
      ghost var s0 := S();
      NothingLinked(s0);
      Relax(s0, keep);
      log := PropagateAll(Waiting(grayagain, keep));
      SomeNone();
    }

    // Finishes marking in one go, flips the white and enters the sweep.
    method StepAtomic(ghost a: State, ghost exact: bool)
      requires Inv(S()) && phase == Atomic && (exact ==> Cycle(a, S()))
      modifies this
      ensures Inv(S()) && Evolves(old(S()), S()) && (exact ==> Cycle(a, S()))
      ensures phase == SwpAllGc
    {
      hide Inv, Marking, Advanced, Evolves, Cycle, Lists, GrayAgainOk, Elems, Scope, PrunedHeap, ListsGrew, RootsIn, AtomicDone;
      ghost var s0 := S();
      ghost var keep := Scope(a, s0, exact);
      ghost var saved := grayagain;
      GatheredMarking(a, s0, exact);
      ghost var log := BeforeAtomic(keep);
      ghost var s1 := S();
      AdvancedFacts(s0, s1);
      ReadyForAtomic(a, s0, s1, exact);
      AtomicPhase(keep);
      ghost var s2 := S();
      AtomicInv(a, s0, s1, s2, exact);
      InvBase(s0);
      EnterSweep(s0, a, exact);
    }

    // Enters the sweep phase and sweeps one object, so that the place to go on
    // from is inside the list.
    method EnterSweep(ghost s0: State, ghost a: State, ghost exact: bool)
      requires Base(S()) && Shrunk(s0, S()) && Base(s0)
      requires exact ==> Live(S()) == ReachSet(a) && Survivors(a, heap) && SameRoots(a, S())
      modifies this
      ensures Inv(S()) && Evolves(s0, S()) && (exact ==> Cycle(a, S())) && phase == SwpAllGc
      ensures SweepStep(old(S()), S())
    {
      hide Base, Evolves, Shrunk, Survivors, SweptTo, AllSwept, SweepStep;
      ghost var s1 := S();
      phase := SwpAllGc;
      ghost var s2 := S();
      PhaseBase(s0, s1, s2);
      var q := SweepList(0, 1);
      ghost var s3 := S();
      sweep := q;
      SweepPlaced(a, s0, s1, s2, s3, S(), exact);
    }
  
    // One step of the sweep phases.  Without finalizers the two lists after
    // 'allgc' are empty, and the main thread is swept last.
    method StepSweep(ghost a: State, ghost exact: bool)
      requires Inv(S()) && SweepPhase(phase) && (exact ==> Cycle(a, S()))
      modifies this
      ensures Inv(S()) && SweepStep(old(S()), S()) && (exact ==> Cycle(a, S()))
      ensures phase == old(phase) || phase == NextSweep(old(phase))
      ensures phase == old(phase) ==> 0 <= SweepLeft(S()) < old(SweepLeft(S()))
    {
      hide Base, SweepStep, Survivors, SweptTo, AllSwept, Live, ReachSet, SameRoots, AllGcOk;
      ghost var s0 := S();
      SweepReflInv(s0);
      match phase {
        case SwpAllGc =>
          if sweep.At? {
            var q := SweepList(sweep.pos, GCSWEEPMAX);
            sweep := q;
          }
          if sweep.Done? {
            phase := SwpFinObj;
          }
          SweptSome(s0, S().(sweep := s0.sweep, phase := s0.phase), S());
        case SwpFinObj =>
          phase := SwpToBeFnz;
          SweptSome(s0, s0, S());
        case SwpToBeFnz =>
          phase := SwpEnd;
          SweptSome(s0, s0, S());
        case SwpEnd =>
          mark := mark[mainthread := White(cw)];
          phase := CallFin;
          SweptLast(s0, S());
        case CallFin =>
          phase := Pause;
          SweptSome(s0, s0, S());
      }
      if exact { SweptCycle(a, s0, S()); }
    }
  
    // One step of the collector, whatever its phase.
    method SingleStep(ghost a: State, ghost exact: bool)
      requires Inv(S()) && (exact ==> if phase == Pause then a == S() else Cycle(a, S()))
      modifies this
      ensures Inv(S()) && Evolves(old(S()), S()) && (exact ==> Cycle(a, S()))
      ensures old(SweepPhase(phase)) ==> SweepStep(old(S()), S())
      ensures old(phase) == Pause ==> phase == Propagate
      ensures old(MarkPhase(phase)) ==> MarkPhase(phase) || phase == SwpAllGc
      ensures old(SweepPhase(phase)) ==> SweepPhase(phase) || phase == Pause
      ensures old(phase) != Pause ==> Smaller(S(), old(S()))
    {
      hide Inv, Evolves, Cycle, SweepStep;
      ghost var s0 := S();
      InvPhase(s0);
      if phase == Pause {
        StepPause(a, exact);
      } else if phase == Propagate {
        StepPropagate(a, exact);
      } else if phase == Atomic {
        StepAtomic(a, exact);
      } else {
        StepSweep(a, exact);
        EvolvesSwept(s0, S());
      }
    }

    method RunToPause(ghost a: State, ghost exact: bool)
      requires Inv(S()) && SweepPhase(phase) && (exact ==> Cycle(a, S()))
      modifies this
      ensures Inv(S()) && phase == Pause && SweepStep(old(S()), S()) && (exact ==> Cycle(a, S()))
    {
      hide Inv, Evolves, Cycle, SweepStep;
      ghost var s0 := S();
      SweepReflInv(s0);
      while phase != Pause
        invariant Inv(S()) && SweepStep(s0, S()) && (phase == Pause || SweepPhase(phase)) && (exact ==> Cycle(a, S()))
        decreases Rank(S()), Todo(S()), Left(S())
      {
        ghost var s1 := S();
        SingleStep(a, exact);
        SweepTrans(s0, s1, S());
      }
    }

    // A full collection: abandons a cycle that is still marking, finishes the
    // pending sweep, and runs one complete cycle.  Exactly the reachable
    // objects survive it.
    method FullGc()
      requires Inv(S())
      modifies this
      ensures Inv(S()) && phase == Pause && SameRoots(old(S()), S())
      ensures heap.Keys == old(ReachSet(S())) && Survivors(old(S()), heap)
    {
      hide Inv, Evolves, Cycle, SweepStep, Survivors, ReachSet, SameRoots;
      ghost var s0 := S();
      SweepReflInv(s0);
      InvPhase(s0);
      if phase == Propagate || phase == Atomic {
        AbortReady(s0);
        EnterSweep(s0, s0, false);
      }
      ghost var s1 := S();
      if phase != Pause {
        RunToPause(s0, false);
        SweepTrans(s0, s1, S());
      }
      ghost var a := S();
      SingleStep(a, true);
      while !Sweeps(phase)
        invariant Inv(S()) && Cycle(a, S()) && (MarkPhase(phase) || SweepPhase(phase))
        decreases Rank(S()), Todo(S()), Left(S())
      {
        SingleStep(a, true);
      }
      RunToPause(a, true);
      FullCycle(s0, a, S());
    }
  
    // -------------------------------------------------------------- the program

    // Replaces the stack of a thread; threads need no barrier.
    method SetStack(th: Obj, st: seq<Value>)
      requires Inv(S()) && th in Live(S()) && th in heap && heap[th].Thread? && AllIn(st, Live(S()))
      modifies this`heap
      ensures Inv(S()) && heap == old(heap)[th := Thread(st)]
    {
      hide Inv;
      if MarkPhase(phase) { ThreadNotBlack(S(), th); }
      Write(S(), th, Thread(st));
      heap := heap[th := Thread(st)];
    }

    method Push(v: Value)
      requires Inv(S()) && running in heap && heap[running].Thread? && In(v, Live(S()))
      modifies this`heap
      ensures Inv(S()) && heap == old(heap)[running := Thread(old(heap[running].stack) + [v])]
    {
      RunningLive(S());
      SetStack(running, heap[running].stack + [v]);
    }

    // Creates an object, painted with the current white and anchored on the stack.
    method NewObject(o: Obj, ob: Object)
      requires Inv(S()) && o !in heap && RefsIn(ob, {})
      modifies this
      ensures Inv(S()) && o in heap && running in old(heap) && old(heap[running]).Thread?
      ensures heap == old(heap)[o := ob][running := Thread(old(heap[running]).stack + [Ref(o)])]
      ensures S() == old(S()).(heap := heap, mark := mark, allgc := allgc, sweep := sweep)
    {
      hide Inv;
      RunningLive(S());
      Created(S(), o, ob);
      heap := heap[o := ob];
      mark := mark[o := White(cw)];
      allgc := [o] + allgc;
      if sweep.At? && sweep.pos > 0 {
        sweep := At(sweep.pos + 1);
      }
      Push(Ref(o));
    }

    // Stores into a table; the backward barrier turns a black table gray again
    // when the new key or value is white.
    method TableWrite(t: Obj, ob: Object, k: Value, v: Value)
      requires Inv(S()) && t in Live(S()) && t in heap && heap[t].Table? && ob.Table?
      requires In(k, Live(S())) && In(v, Live(S())) && AddsTwo(heap[t], ob, k, v)
      modifies this
      ensures Inv(S()) && heap == old(heap)[t := ob]
      ensures S() == old(S()).(heap := heap, mark := mark, gray := gray, grayagain := grayagain)
    {
      hide Inv, RefsIn, Live;
      ghost var s0 := S();
      Stored(s0, t, ob, k, v);
      heap := heap[t := ob];
      if mark[t] == Black && k.Ref? && mark[k.o].White? {
        mark := mark[t := Gray];
        grayagain := [t] + grayagain;
      }
      if mark[t] == Black && v.Ref? && mark[v.o].White? {
        mark := mark[t := Gray];
        grayagain := [t] + grayagain;
      }
    }
  
    // The barrier is for a black object that gets a white reference.
    ghost predicate Barred(t: Obj, v: Value)
      reads this
    {
      t in mark && mark[t] == Black && v.Ref? && v.o in mark && mark[v.o].White?
    }

    // Stores a metatable or user value; the forward barrier marks the new
    // reference while marking, and repaints the object while sweeping.
    method ForwardWrite(t: Obj, ob: Object, v: Value)
      requires Inv(S()) && t in Live(S()) && t in heap && In(v, Live(S()))
      requires (heap[t].Table? && ob.Table?) || (heap[t].Udata? && ob.Udata?)
      requires Adds(heap[t], ob, v)
      modifies this
      ensures Inv(S()) && heap == old(heap)[t := ob]
      ensures S() == old(S()).(heap := heap, mark := mark, gray := gray)
      ensures !(old(Barred(t, v)) && MarkPhase(phase)) ==> gray == old(gray)
      ensures old(Barred(t, v)) && MarkPhase(phase) && v.o != t && v.o in heap && (heap[v.o].Table? || heap[v.o].Thread?) ==>
        gray == [v.o] + old(gray) && mark == old(mark)[v.o := Gray]
    {
      hide Inv, RefsIn, Live, Marking, Grew;
      ghost var s0 := S();
      ForwardStored(s0, t, ob, v);
      heap := heap[t := ob];
      if mark[t] == Black && v.Ref? && mark[v.o].White? {
        if phase == Propagate || phase == Atomic {
          ghost var s1 := S();
          ghost var f := Frame({}, Elems(grayagain), true, heap.Keys);
          ForwardReady(s0, s1, t, v);
          ReallyMark(v.o, f.With(t));
          GrewFacts(s1, S());
          ForwardDone(s0, s1, S(), t, v);
        } else {
          mark := mark[t := White(cw)];
        }
      }
    }
  
    // -------------------------------------------------------------- programs

    function W(): View
      reads this
    {
      View(heap, running, registry)
    }

    // The value in a slot of the running thread's stack.
    function Slot(i: nat): Value
      reads this
    {
      SlotOf(W(), i)
    }

    lemma SlotLive(i: nat)
      requires Inv(S())
      ensures In(Slot(i), Live(S())) && (Slot(i).Ref? ==> Slot(i).o in heap)
      ensures running in heap && heap[running].Thread? && running in Live(S())
    {
      StackLive(S());
    }

    // Stores v at a place of object o, with the barrier its kind of place has.
    method Store(o: Obj, p: Place, v: Value)
      requires Inv(S()) && o in Live(S()) && o in heap && Applies(heap[o], p)
      requires In(PlaceKey(p), Live(S())) && In(v, Live(S()))
      modifies this
      ensures Inv(S()) && heap == old(heap)[o := Put(old(heap)[o], p, v)]
      ensures S() == old(S()).(heap := heap, mark := mark, gray := gray, grayagain := grayagain)
    {
      hide Inv, Live;
      PutAdds(heap[o], p, v);
      if p.Elem? || p.Field? {
        TableWrite(o, Put(heap[o], p, v), PlaceKey(p), v);
      } else {
        ForwardWrite(o, Put(heap[o], p, v), v);
      }
    }

    // One operation of a program on the running thread's stack, or one step of
    // the collector.  An operation that does not apply does nothing.
    method Execute(op: Op)
      requires Inv(S())
      modifies this
      ensures Inv(S()) && Stepped(old(S()), op, S())
    {
      hide Inv, Live, Evolves, Survivors, ReachSet, RefsIn, AllIn, Fetch, Put, Applies, PlaceOf, Smaller;
      SlotLive(0);
      match op
      case Collect => SingleStep(S(), false); EvolvesRoots(old(S()), S());
      case FullCollect => FullGc();
      case New(o, kind) => if o !in heap { FreshEmpty(kind); NewObject(o, Fresh(kind)); }
      case Copy(i) => SlotLive(i); Push(Slot(i));
      case Drop(n) => DropTop(n);
      case Load(i, sel) => LoadField(i, sel);
      case Set(t, p, v) => SetField(t, p, v);
      case SetMode(t, weak) => SwitchMode(t, weak);
      case MoveTo(th, v) => MoveValue(th, v);
      case Resume(th) => SwitchThread(th);
      case SetRegistry(v) => SlotLive(v); RootsChanged(S(), S().(registry := Slot(v))); registry := Slot(v);
      case GetRegistry => RegistryLive(S()); Push(registry);
    }

    method DropTop(n: nat)
      requires Inv(S())
      modifies this`heap
      ensures Inv(S()) && W() == After(old(W()), Drop(n))
    {
      hide Inv;
      StackLive(S());
      if n <= |heap[running].stack| {
        SetStack(running, heap[running].stack[..n]);
      }
    }

    method LoadField(i: nat, sel: Field)
      requires Inv(S())
      modifies this`heap
      ensures Inv(S()) && W() == After(old(W()), Load(i, sel))
    {
      hide Inv, Fetch;
      StackLive(S());
      SlotLive(i);
      if Slot(i).Ref? {
        FetchIn(heap[Slot(i).o], sel, Live(S()));
        Push(Fetch(heap[Slot(i).o], sel));
      }
    }

    method SetField(t: nat, sel: Target, v: nat)
      requires Inv(S())
      modifies this
      ensures Inv(S()) && W() == After(old(W()), Set(t, sel, v)) && mainthread == old(mainthread) && mt == old(mt)
    {
      hide Inv, Put, Applies, Live;
      SlotLive(t);
      SlotLive(v);
      var p := PlaceOf(W(), sel);
      if sel.ToField? { SlotLive(sel.k); }
      if Slot(t).Ref? && Applies(heap[Slot(t).o], p) {
        Store(Slot(t).o, p, Slot(v));
      }
    }

    // The mode of a table can change at any time, with its metatable.
    method SwitchMode(t: nat, weak: bool)
      requires Inv(S())
      modifies this`heap
      ensures Inv(S()) && W() == After(old(W()), SetMode(t, weak))
    {
      hide Inv, Live;
      SlotLive(t);
      var v := Slot(t);
      if v.Ref? && heap[v.o].Table? {
        Remoded(S(), v.o, weak);
        heap := heap[v.o := heap[v.o].(weakKeys := weak)];
      }
    }

    method MoveValue(th: nat, v: nat)
      requires Inv(S())
      modifies this`heap
      ensures Inv(S()) && W() == After(old(W()), MoveTo(th, v))
    {
      hide Inv;
      SlotLive(th);
      SlotLive(v);
      StackLive(S());
      var t := Slot(th);
      if t.Ref? && heap[t.o].Thread? {
        assert RefsIn(heap[t.o], Live(S()));
        SetStack(t.o, heap[t.o].stack + [Slot(v)]);
      }
    }

    method SwitchThread(th: nat)
      requires Inv(S())
      modifies this`running
      ensures Inv(S()) && W() == After(old(W()), Resume(th))
    {
      hide Inv, Live;
      SlotLive(th);
      RegistryLive(S());
      var v := Slot(th);
      if v.Ref? && heap[v.o].Thread? {
        RootsChanged(S(), S().(running := v.o));
        running := v.o;
      }
    }

    // Any program interleaved in any way with collector steps: each operation does
    // what it means, and whatever the program can still get hold of by any pointer
    // has not been freed.
    method Run(ops: seq<Op>) returns (ghost trace: seq<State>)
      requires Inv(S())
      modifies this
      ensures Inv(S()) && forall o :: Accessible(S(), o) ==> o in heap
      ensures Steps(trace, ops) && trace[0] == old(S()) && trace[|ops|] == S() && forall s :: s in trace ==> Inv(s)
    {
      hide Stepped, Inv, Accessible;
      trace := [S()];
      for i := 0 to |ops|
        invariant Inv(S()) && Steps(trace, ops[..i]) && trace[0] == old(S()) && trace[i] == S() && forall s :: s in trace ==> Inv(s)
      {
        Execute(ops[i]);
        StepsMore(trace, ops[..i], S(), ops[i]);
        assert ops[..i + 1] == ops[..i] + [ops[i]];
        trace := trace + [S()];
      }
      assert ops[..|ops|] == ops;
      forall o | Accessible(S(), o) ensures o in heap { AccessibleIsLive(S(), o); }
    }

    // A new state: the main thread, and the registry with the thread and the
    // table of globals in it.
    constructor (main: Obj, reg: Obj, globals: Obj)
      requires main != reg && main != globals && reg != globals
      ensures Inv(S()) && mainthread == main && running == main && phase == Pause && registry == Ref(reg)
      ensures heap == map[main := Thread([]), reg := Table(Nil, false, [Ref(main), Ref(globals)], []), globals := Table(Nil, false, [], [])]
    {
      heap := map[main := Thread([]), reg := Table(Nil, false, [Ref(main), Ref(globals)], []), globals := Table(Nil, false, [], [])];
      mark := map[main := White(false), reg := White(false), globals := White(false)];
      cw := false;
      phase := Pause;
      allgc, sweep := [globals, reg], Done;
      gray, grayagain, ephemeron, allweak := [], [], [], [];
      mainthread, running := main, main;
      registry, mt := Ref(reg), [];
      new;
      assert Live(S()) == {main, reg, globals};
      assert RefsIn(heap[reg], Live(S()));
    }

    constructor From(s: State)
      ensures S() == s
    {
      heap, mark, cw, phase, allgc, sweep := s.heap, s.mark, s.cw, s.phase, s.allgc, s.sweep;
      gray, grayagain, ephemeron, allweak := s.gray, s.grayagain, s.ephemeron, s.allweak;
      mainthread, running, registry, mt := s.mainthread, s.running, s.registry, s.mt;
    }
  }
}
