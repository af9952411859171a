/**
  A trail of the entries of ephemeron tables that marking looks at, each with the
  state at that moment: it says exactly when a table is linked to the list of
  tables with a white key and a white value.
 */
module GcTrail {
  import opened GcHeap

  // A traversal looks at the nonempty entry e of the ephemeron table o.
  datatype Moment = Moment(o: Obj, e: Entry, s: State)

  ghost predicate IsWhite(s: State, v: Value) { v.Ref? && v.o in s.mark && s.mark[v.o].White? }

  ghost predicate WhiteWhite(m: Moment) { IsWhite(m.s, m.e.key) && IsWhite(m.s, m.e.val) }

  ghost predicate SomeWhite(log: seq<Moment>) { exists i :: 0 <= i < |log| && WhiteWhite(log[i]) }

  // An entry looked at had a white key.
  ghost predicate SomeKey(log: seq<Moment>) { exists i :: 0 <= i < |log| && IsWhite(log[i].s, log[i].e.key) }

  ghost predicate Weak(h: Heap, o: Obj) { o in h && h[o].Table? && h[o].weakKeys }

  // e is a nonempty entry of the ephemeron table o.
  ghost predicate Has(h: Heap, o: Obj, e: Entry) { Weak(h, o) && e in h[o].hash && e.val != Nil }

  // The moments lie between a and b.
  ghost predicate Within(log: seq<Moment>, a: State, b: State) {
    forall i :: 0 <= i < |log| ==> Has(a.heap, log[i].o, log[i].e) && Whites(b) <= Whites(log[i].s) <= Whites(a)
  }

  ghost predicate Mentions(log: seq<Moment>, o: Obj, e: Entry) {
    exists i :: 0 <= i < |log| && log[i].o == o && log[i].e == e
  }

  // Every nonempty entry among the first n of o has been looked at.
  ghost predicate Covers(log: seq<Moment>, h: Heap, o: Obj, n: nat) {
    Weak(h, o) ==> n <= |h[o].hash| && forall j :: 0 <= j < n && h[o].hash[j].val != Nil ==> Mentions(log, o, h[o].hash[j])
  }

  // The scan of one table, after n entries.
  ghost predicate ScanLog(a: State, s: State, o: Obj, n: nat, ww: bool, log: seq<Moment>) {
    Weak(a.heap, o) && Within(log, a, s) && Covers(log, a.heap, o, n) && (ww <==> SomeWhite(log))
  }

  lemma ScanLogStart(a: State, s: State, o: Obj)
    requires Weak(a.heap, o)
    ensures ScanLog(a, s, o, 0, false, [])
  {
  }

  // An empty entry leaves no trace.
  lemma ScanLogNil(a: State, s: State, t: State, o: Obj, n: nat, ww: bool, log: seq<Moment>)
    requires ScanLog(a, s, o, n, ww, log) && Whites(t) <= Whites(s) && n < |a.heap[o].hash| && a.heap[o].hash[n].val == Nil
    ensures ScanLog(a, t, o, n + 1, ww, log)
  {
    hide SomeWhite, Mentions;
  }

  lemma ScanLogEntry(a: State, s: State, t: State, o: Obj, n: nat, ww: bool, log: seq<Moment>, m: Moment)
    requires ScanLog(a, s, o, n, ww, log) && n < |a.heap[o].hash| && a.heap[o].hash[n].val != Nil
    requires m.o == o && m.e == a.heap[o].hash[n] && Whites(t) <= Whites(m.s) <= Whites(s) <= Whites(a)
    ensures ScanLog(a, t, o, n + 1, ww || WhiteWhite(m), log + [m])
  {
    hide WhiteWhite;
    var l := log + [m];
    SomeMore(log, [m]);
    assert WhiteWhite(m) <==> SomeWhite([m]) by { assert [m][0] == m; }
    assert Within(l, a, t) by { hide SomeWhite, Mentions; }
    assert Covers(l, a.heap, o, n + 1) by {
      hide Within, SomeWhite;
      forall j | 0 <= j < n + 1 && a.heap[o].hash[j].val != Nil ensures Mentions(l, o, a.heap[o].hash[j]) {
        if j < n { MentionsMore(log, [m], o, a.heap[o].hash[j]); } else { assert l[|log|] == m; }
      }
    }
  }

  lemma SomeMore(a: seq<Moment>, b: seq<Moment>)
    ensures SomeWhite(a + b) <==> SomeWhite(a) || SomeWhite(b)
  {
    hide WhiteWhite;
    var c := a + b;
    if i :| 0 <= i < |a| && WhiteWhite(a[i]) { assert c[i] == a[i]; }
    if i :| 0 <= i < |b| && WhiteWhite(b[i]) { assert c[|a| + i] == b[i]; }
    if i :| 0 <= i < |c| && WhiteWhite(c[i]) {
      if i < |a| { assert c[i] == a[i]; } else { assert c[i] == b[i - |a|]; }
    }
  }

  lemma SomeKeyMore(log: seq<Moment>, m: Moment)
    ensures SomeKey(log + [m]) <==> SomeKey(log) || IsWhite(m.s, m.e.key)
  {
    hide IsWhite;
    var c := log + [m];
    if i :| 0 <= i < |log| && IsWhite(log[i].s, log[i].e.key) { assert c[i] == log[i]; }
    if i :| 0 <= i < |c| && IsWhite(c[i].s, c[i].e.key) { if i < |log| { assert c[i] == log[i]; } }
    assert c[|log|] == m;
  }

  lemma MentionsMore(a: seq<Moment>, b: seq<Moment>, o: Obj, e: Entry)
    ensures Mentions(a, o, e) || Mentions(b, o, e) ==> Mentions(a + b, o, e)
  {
    var c := a + b;
    if i :| 0 <= i < |a| && a[i].o == o && a[i].e == e { assert c[i] == a[i]; }
    if i :| 0 <= i < |b| && b[i].o == o && b[i].e == e { assert c[|a| + i] == b[i]; }
  }

  // ---------------------------------------------------------------- one visit, many visits

  // The visit of one gray object: an ephemeron table is looked at completely,
  // and linked again exactly if an entry was white on both sides.
  ghost predicate VisitLog(a: State, b: State, o: Obj, log: seq<Moment>) {
    && Within(log, a, b) && (Weak(a.heap, o) ==> Covers(log, a.heap, o, |a.heap[o].hash|))
    && (a.phase != Propagate ==> b.ephemeron == if SomeWhite(log) then [o] + a.ephemeron else a.ephemeron)
    && (forall p :: p in a.gray ==> p in b.gray)
  }

  // A run of visits from a to b.
  ghost predicate RunLog(a: State, b: State, log: seq<Moment>) {
    && Within(log, a, b)
    && |a.ephemeron| <= |b.ephemeron| && (SomeWhite(log) <==> b.ephemeron != a.ephemeron)
    && (SomeWhite(log) <==> |a.ephemeron| < |b.ephemeron|)
    && (forall o :: o in a.gray && Weak(a.heap, o) ==> o in b.gray || Covers(log, a.heap, o, |a.heap[o].hash|))
    && (a.gray == [] ==> b.gray == [] && log == [])
  }

  lemma RunLogStart(a: State)
    ensures RunLog(a, a, [])
  {
  }

  // What is nonempty after pruning was so before, and stays so.
  lemma PrunedHas(h: Heap, k: Heap, o: Obj)
    requires PrunedHeap(h, k)
    ensures Weak(h, o) <==> Weak(k, o)
    ensures Weak(h, o) ==> |h[o].hash| == |k[o].hash|
    ensures Weak(h, o) ==> forall j :: 0 <= j < |h[o].hash| ==> (h[o].hash[j].val != Nil <==> k[o].hash[j].val != Nil)
    ensures Weak(h, o) ==> forall j :: 0 <= j < |h[o].hash| && h[o].hash[j].val != Nil ==> k[o].hash[j] == h[o].hash[j]
  {
    if o in h { assert Pruned(h[o], k[o]); }
  }

  lemma HasBefore(h: Heap, k: Heap, o: Obj, e: Entry)
    requires PrunedHeap(h, k) && Has(k, o, e)
    ensures Has(h, o, e)
  {
    hide PrunedHeap;
    PrunedHas(h, k, o);
    var j :| 0 <= j < |k[o].hash| && k[o].hash[j] == e;
    assert h[o].hash[j] == e;
  }

  lemma CoversBefore(log: seq<Moment>, h: Heap, k: Heap, o: Obj)
    requires PrunedHeap(h, k) && Weak(h, o) && Weak(k, o) && Covers(log, k, o, |k[o].hash|)
    ensures Covers(log, h, o, |h[o].hash|)
  {
    hide PrunedHeap, Mentions;
    PrunedHas(h, k, o);
  }

  lemma WithinBoth(l: seq<Moment>, m: seq<Moment>, a: State, b: State, c: State)
    requires Within(l, a, b) && Within(m, b, c) && PrunedHeap(a.heap, b.heap) && Whites(c) <= Whites(b) <= Whites(a)
    ensures Within(l + m, a, c)
  {
    hide PrunedHeap, Has;
    var n := l + m;
    forall i | 0 <= i < |n| ensures Has(a.heap, n[i].o, n[i].e) && Whites(c) <= Whites(n[i].s) <= Whites(a) {
      if i < |l| { assert n[i] == l[i]; } else { assert n[i] == m[i - |l|]; HasBefore(a.heap, b.heap, n[i].o, n[i].e); }
    }
  }

  // One more visit, of the first gray object.
  lemma RunLogNext(a: State, b: State, c: State, o: Obj, log: seq<Moment>, more: seq<Moment>)
    requires RunLog(a, b, log) && Advanced(a, b) && Advanced(b, c) && b.phase != Propagate
    requires b.gray != [] && o == b.gray[0] && VisitedLog(b, c, o, more)
    ensures RunLog(a, c, log + more)
  {
    hide Advanced, Mentions, Within, Covers;
    AdvancedFacts(a, b);
    AdvancedFacts(b, c);
    WithinBoth(log, more, a, b, c);
    SomeMore(log, more);
    hide SomeWhite;
    CoversNext(a, b, c, o, log, more);
  }

  lemma CoversNext(a: State, b: State, c: State, o: Obj, log: seq<Moment>, more: seq<Moment>)
    requires PrunedHeap(a.heap, b.heap) && (Weak(b.heap, o) ==> Covers(more, b.heap, o, |b.heap[o].hash|))
    requires forall p :: p in a.gray && Weak(a.heap, p) ==> p in b.gray || Covers(log, a.heap, p, |a.heap[p].hash|)
    requires forall p :: p in b.gray && p != o ==> p in c.gray
    ensures forall p :: p in a.gray && Weak(a.heap, p) ==> p in c.gray || Covers(log + more, a.heap, p, |a.heap[p].hash|)
  {
    hide PrunedHeap, Covers;
    forall p | p in a.gray && Weak(a.heap, p) && p !in c.gray ensures Covers(log + more, a.heap, p, |a.heap[p].hash|) {
      if p == o {
        PrunedHas(a.heap, b.heap, p);
        CoversBefore(more, a.heap, b.heap, p);
      }
      CoversMore(log, more, a.heap, p);
    }
  }

  // The same, when the object has left the gray list.
  ghost predicate VisitedLog(a: State, b: State, o: Obj, log: seq<Moment>) {
    && Within(log, a, b) && (Weak(a.heap, o) ==> Covers(log, a.heap, o, |a.heap[o].hash|))
    && (a.phase != Propagate ==> b.ephemeron == if SomeWhite(log) then [o] + a.ephemeron else a.ephemeron)
    && (forall p :: p in a.gray && p != o ==> p in b.gray)
  }

  lemma CoversMore(a: seq<Moment>, b: seq<Moment>, h: Heap, o: Obj)
    requires Weak(h, o) && (Covers(a, h, o, |h[o].hash|) || Covers(b, h, o, |h[o].hash|))
    ensures Covers(a + b, h, o, |h[o].hash|)
  {
    hide Mentions;
    forall j | 0 <= j < |h[o].hash| && h[o].hash[j].val != Nil ensures Mentions(a + b, o, h[o].hash[j]) {
      MentionsMore(a, b, o, h[o].hash[j]);
    }
  }

  // ---------------------------------------------------------------- what the traversals need

  lemma TracedEntry(a: State, s: State, o: Obj, i: nat)
    requires Traced(a, s, o) && Weak(s.heap, o) && i < |s.heap[o].hash|
    ensures Weak(a.heap, o) && |a.heap[o].hash| == |s.heap[o].hash| && Whites(s) <= Whites(a)
    ensures a.heap[o].hash[i].val == Nil <==> s.heap[o].hash[i].val == Nil
    ensures s.heap[o].hash[i].val != Nil ==> a.heap[o].hash[i] == s.heap[o].hash[i]
  {
    hide Traced;
    TracedFacts(a, s, o);
    PrunedHas(a.heap, s.heap, o);
  }

  lemma ScanLogFlag(a: State, s: State, o: Obj, n: nat, ww: bool, log: seq<Moment>)
    requires ScanLog(a, s, o, n, ww, log)
    ensures ww == SomeWhite(log)
  {
  }

  lemma ScanLogSame(a: State, s: State, t: State, o: Obj, n: nat, ww: bool, log: seq<Moment>)
    requires ScanLog(a, s, o, n, ww, log) && t.mark == s.mark
    ensures ScanLog(a, t, o, n, ww, log)
  {
    assert Whites(t) == Whites(s);
    hide SomeWhite, Mentions;
  }

  // A marking step keeps the gray list and adds to it.
  lemma GrewKeeps(a: State, b: State)
    requires Grew(a, b)
    ensures forall p :: p in a.gray ==> p in b.gray
  {
    var n := |b.gray| - |a.gray|;
    forall p | p in a.gray ensures p in b.gray { assert p in b.gray[n..]; }
  }

  lemma TracedKeeps(a: State, b: State, o: Obj)
    requires Traced(a, b, o)
    ensures forall p :: p in a.gray ==> p in b.gray
    ensures b.ephemeron == a.ephemeron && Whites(b) <= Whites(a)
  {
    GrewKeeps(a.(heap := b.heap), b);
    TracedFacts(a, b, o);
  }

  // An ephemeron table: the metatable is marked (b), the table is gray again
  // (c), its entries are looked at (d).
  lemma WeakLog(a: State, b: State, c: State, d: State, o: Obj, log: seq<Moment>)
    requires Grew(a, b) && o in b.mark && !b.mark[o].White? && c == b.(mark := b.mark[o := Gray]) && Weak(c.heap, o)
    requires Traced(c, d.(grayagain := c.grayagain, ephemeron := c.ephemeron, allweak := c.allweak), o)
    requires ScanLog(c, d, o, |c.heap[o].hash|, SomeWhite(log), log)
    requires d.phase != Propagate ==> d.ephemeron == if SomeWhite(log) then [o] + c.ephemeron else c.ephemeron
    ensures VisitLog(a, d, o, log)
  {
    hide SomeWhite, Mentions, Traced, Has;
    TracedFacts(c, d.(grayagain := c.grayagain, ephemeron := c.ephemeron, allweak := c.allweak), o);
    GrewFacts(a, b);
    GrewKeeps(a, b);
    hide Grew;
    TracedKeeps(c, d.(grayagain := c.grayagain, ephemeron := c.ephemeron, allweak := c.allweak), o);
    assert Whites(c) == Whites(b) && a.heap == c.heap;
  }

  lemma StrongLog(a: State, b: State, o: Obj)
    requires Traced(a, b, o) && !Weak(a.heap, o)
    ensures VisitLog(a, b, o, [])
  {
    hide Traced;
    TracedKeeps(a, b, o);
  }

  lemma ThreadLog(a: State, b: State, c: State, o: Obj)
    requires b == a.(grayagain := b.grayagain, mark := b.mark) && Grew(b, c) && !Weak(a.heap, o)
    ensures VisitLog(a, c, o, [])
  {
    GrewKeeps(b, c);
  }

  // The object visited was the first gray one.
  lemma PoppedLog(a: State, b: State, c: State, o: Obj, log: seq<Moment>)
    requires a.gray != [] && o == a.gray[0] && o in a.mark && !a.mark[o].White?
    requires b == a.(gray := a.gray[1..], mark := a.mark[o := Black]) && VisitLog(b, c, o, log)
    ensures VisitedLog(a, c, o, log)
  {
    assert Whites(b) == Whites(a);
    hide SomeWhite, Mentions, Has;
    forall p | p in a.gray && p != o ensures p in b.gray {
      var i :| 0 <= i < |a.gray| && a.gray[i] == p;
      assert p == b.gray[i - 1];
    }
  }

  // ---------------------------------------------------------------- before the atomic step

  lemma SomeNone()
    ensures !SomeWhite([])
  {
  }

  // If no entry is white on both sides before, none is when it is looked at.
  lemma NoneWhite(a: State, b: State, log: seq<Moment>)
    requires RunLog(a, b, log)
    requires forall o, e :: Has(a.heap, o, e) ==> !(IsWhite(a, e.key) && IsWhite(a, e.val))
    ensures !SomeWhite(log)
  {
    forall i | 0 <= i < |log| ensures !WhiteWhite(log[i]) {
      var m := log[i];
      assert Has(a.heap, m.o, m.e) && Whites(m.s) <= Whites(a);
      assert IsWhite(m.s, m.e.key) ==> m.e.key.o in Whites(m.s);
      assert IsWhite(m.s, m.e.val) ==> m.e.val.o in Whites(m.s);
    }
  }

  // If a gray ephemeron table has an entry whose key and value marking does not
  // reach, this entry is white on both sides when it is looked at.
  lemma UnreachedWhite(a: State, b: State, log: seq<Moment>, keep: set<Obj>, o: Obj, e: Entry)
    requires RunLog(a, b, log) && b.gray == [] && o in a.gray && Has(a.heap, o, e)
    requires e.key.Ref? && e.val.Ref? && e.key.o in b.mark && e.val.o in b.mark
    requires Marked(b) <= keep && e.key.o !in keep && e.val.o !in keep
    ensures SomeWhite(log)
  {
    var j :| 0 <= j < |a.heap[o].hash| && a.heap[o].hash[j] == e;
    assert Covers(log, a.heap, o, |a.heap[o].hash|);
    assert Mentions(log, o, e);
    var i :| 0 <= i < |log| && log[i].o == o && log[i].e == e;
    assert e.key.o in Whites(b) && e.val.o in Whites(b);
    assert WhiteWhite(log[i]);
  }
}
