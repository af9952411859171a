/**
  The assertion at the start of the atomic function, that no ephemeron table is
  linked: a state in which the program is about to make it fail.
 */
module GcAssertion {
  import opened Common
  import opened GcHeap
  import opened GcCycle
  import opened GcTrail
  import opened Gc

  // Between the last propagation and the atomic step: a black table 1, and an
  // ephemeron table 2 on the stack whose only entry has a white key and value.
  const Doubtful := State(
    map[0 := Thread([Ref(1), Ref(2)]), 1 := Table(Nil, false, [], []), 2 := Table(Nil, true, [], [Entry(Ref(3), Ref(4))]),
        3 := Table(Nil, false, [], []), 4 := Table(Nil, false, [], [])],
    map[0 := Gray, 1 := Black, 2 := White(false), 3 := White(false), 4 := White(false)],
    false, Atomic, [4, 3, 2, 1], Done, [], [0], [], [], 0, 0, Ref(1), [])

  // Table 1 with table 2 as its metatable.
  const WithMeta := Table(Ref(2), false, [], [])

  lemma DoubtfulSets()
    ensures var s := Doubtful;
      Live(s) == s.heap.Keys == s.mark.Keys == {0, 1, 2, 3, 4} && Marked(s) == {0, 1} && Elems(s.grayagain) == {0}
  {
  }

  lemma DoubtfulBase()
    ensures Base(Doubtful)
  {
    DoubtfulSets();
    var s := Doubtful;
    hide Live;
    assert NoDup(s.allgc);
    forall o | o in s.heap ensures RefsIn(s.heap[o], {0, 1, 2, 3, 4}) { DoubtfulRefs(o); }
  }

  lemma DoubtfulRefs(o: Obj)
    requires o in {0, 1, 2, 3, 4}
    ensures RefsIn(Doubtful.heap[o], {0, 1, 2, 3, 4}) && (o == 1 ==> RefsIn(Doubtful.heap[o], {0, 1}))
  {
  }

  lemma DoubtfulTri()
    ensures Tri(Doubtful, {}, {0}, true)
  {
    DoubtfulSets();
    var s := Doubtful;
    hide Live, Marked, Settled;
    forall o | o in s.heap ensures RefsIn(s.heap[o], {0, 1, 2, 3, 4}) { DoubtfulRefs(o); }
    DoubtfulRefs(1);
    hide RefsIn;
    assert WellFormed(s);
  }

  lemma DoubtfulInv()
    ensures Inv(Doubtful)
  {
    DoubtfulSets();
    DoubtfulBase();
    DoubtfulTri();
    hide Tri, Base, Live, Marked, Elems;
    assert GrayAgainOk(Doubtful);
  }

  lemma DoubtfulStore()
    ensures {1, 2} <= Live(Doubtful) && Adds(Doubtful.heap[1], WithMeta, Ref(2))
  {
  }

  // The state that the barrier leaves: marking reaches nothing beyond 0, 1 and 2.
  lemma DoubtfulAfter(s: State)
    requires Inv(s) && s == Doubtful.(heap := Doubtful.heap[1 := WithMeta], mark := Doubtful.mark[2 := Gray], gray := [2])
    ensures Marking(s, Frame({}, Elems(s.grayagain), true, {0, 1, 2}))
    ensures Has(s.heap, 2, Entry(Ref(3), Ref(4))) && {3, 4} <= s.mark.Keys
  {
    assert Tri(s, {}, Elems(s.grayagain), true);
    hide Tri, Inv, Elems;
    assert Marked(s) == {0, 1, 2};
    assert s.heap[2].hash[0] == Entry(Ref(3), Ref(4));
    forall o | o in {0, 1, 2} ensures o in s.heap && KeepsIn(s.heap, s.heap[o], {0, 1, 2}) { AfterKeeps(s.heap, o); }
    hide KeepsIn;
  }

  lemma AfterKeeps(h: Heap, o: Obj)
    requires h == Doubtful.heap[1 := WithMeta] && o in {0, 1, 2}
    ensures KeepsIn(h, h[o], {0, 1, 2})
  {
  }

  lemma MarkedKept(s: State, f: Frame)
    requires Marking(s, f)
    ensures Marked(s) <= f.keep
  {
  }

  // Setting table 2 as the metatable of table 1 makes the forward barrier mark
  // it, and the propagation before the atomic step links it: the assertion of
  // the atomic function does not hold.
  method AssertionFails() returns (c: Collector)
    ensures fresh(c) && c.phase == Atomic && c.gray == [] && c.ephemeron != []
  {
    hide Inv, Marking, Advanced, Live, Within, Covers, RunLog, SomeWhite, Adds, Has;
    DoubtfulInv();
    c := new Collector.From(Doubtful);
    DoubtfulStore();
    c.ForwardWrite(1, WithMeta, Ref(2));
    ghost var s := c.S();
    DoubtfulAfter(s);
    ghost var log := c.BeforeAtomic({0, 1, 2});
    AdvancedFacts(s, c.S());
    MarkedKept(c.S(), Waiting(s.grayagain, {0, 1, 2}));
    UnreachedWhite(s, c.S(), log, {0, 1, 2}, 2, Entry(Ref(3), Ref(4)));
  }
}
