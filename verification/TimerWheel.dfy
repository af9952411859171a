/**
  The hierarchical timing wheel against a flat list of deadlines.

  A slot of the wheel is an index: 0..255 are the near slots, then come four
  levels of 64 slots.  Times are 32-bit and wrap.
 */
module TimerWheel {

  const TIME_NEAR := 0x100
  const TIME_LEVEL := 0x40
  const WRAP := 0x1_0000_0000
  const HALF := 0x8000_0000

  datatype Event = Event(handle: nat, session: int)
  datatype Node = Node(event: Event, expire: nat)

  predicate Word(x: nat) { x < WRAP }

  // Where add_node puts a node: near if all but the low 8 bits agree with the
  // current time, otherwise on the lowest level above which all bits agree.
  function Where(time: nat, e: nat): (i: nat)
    requires Word(time) && Word(e)
    ensures i < 512
  {
    if e / 0x100 == time / 0x100 then e % 0x100
    else if e / 0x4000 == time / 0x4000 then 0x100 + (e / 0x100) % 0x40
    else if e / 0x10_0000 == time / 0x10_0000 then 0x140 + (e / 0x4000) % 0x40
    else if e / 0x400_0000 == time / 0x400_0000 then 0x180 + (e / 0x10_0000) % 0x40
    else 0x1C0 + (e / 0x400_0000) % 0x40
  }

  // How far e lies ahead of the current time.
  function Ahead(time: nat, e: nat): (d: nat)
    requires Word(time) && Word(e)
    ensures d < WRAP && (d == 0 <==> e == time)
  {
    if e >= time then e - time else e + WRAP - time
  }

  predicate Future(time: nat, e: nat)
    requires Word(time) && Word(e)
  {
    1 <= Ahead(time, e) < HALF
  }

  function Tick(time: nat): (t: nat)
    requires Word(time)
    ensures Word(t)
  {
    if time + 1 == WRAP then 0 else time + 1
  }

  // The slot timer_shift empties when the clock reaches ct, if any.
  function Cascade(ct: nat): (i: int)
    requires Word(ct)
    ensures -1 <= i < 512
  {
    if ct == 0 then 0x1C0
    else if ct % 0x100 != 0 then -1
    else if (ct / 0x100) % 0x40 != 0 then 0x100 + (ct / 0x100) % 0x40
    else if (ct / 0x4000) % 0x40 != 0 then 0x140 + (ct / 0x4000) % 0x40
    else if (ct / 0x10_0000) % 0x40 != 0 then 0x180 + (ct / 0x10_0000) % 0x40
    else 0x1C0 + (ct / 0x400_0000) % 0x40
  }

  // Block sizes: a near slot array, and what one slot of each level spans.
  predicate Block(m: nat) { m == 0x100 || m == 0x4000 || m == 0x10_0000 || m == 0x400_0000 }

  lemma QuotientStep(time: nat, m: nat)
    requires Block(m) && time + 1 < WRAP
    ensures (time + 1) % m != 0 ==> (time + 1) / m == time / m
    ensures (time + 1) % m == 0 ==> (time + 1) / m == time / m + 1 && time % m == m - 1
  {
    if m == 0x100 {} else if m == 0x4000 {} else if m == 0x10_0000 {} else {}
  }

  // At the last tick of a block nothing in it lies ahead.
  lemma BlockOver(time: nat, e: nat, m: nat)
    requires Word(time) && Word(e) && Block(m)
    ensures time % m == m - 1 && e / m == time / m ==> !Future(time, e)
  {
    if m == 0x100 {} else if m == 0x4000 {} else if m == 0x10_0000 {} else {}
  }

  lemma Digits(x: nat)
    ensures x / 0x4000 == (x / 0x100) / 0x40 && x / 0x10_0000 == (x / 0x4000) / 0x40 && x / 0x400_0000 == (x / 0x10_0000) / 0x40
    ensures x % 0x4000 == 0 <==> x % 0x100 == 0 && (x / 0x100) % 0x40 == 0
    ensures x % 0x10_0000 == 0 <==> x % 0x4000 == 0 && (x / 0x4000) % 0x40 == 0
    ensures x % 0x400_0000 == 0 <==> x % 0x10_0000 == 0 && (x / 0x10_0000) % 0x40 == 0
  {
  }

  // The key fact: when the clock moves on, the only future nodes whose place
  // changes are those in the slot that is emptied.
  lemma PlaceStable(time: nat, e: nat)
    requires Word(time) && Word(e) && Future(time, e) && Where(time, e) != Cascade(Tick(time))
    ensures Where(Tick(time), e) == Where(time, e)
  {
    var ct := Tick(time);
    if ct == 0 {
      WrapStable(time, e);
    } else {
      QuotientStep(time, 0x100);
      QuotientStep(time, 0x4000);
      QuotientStep(time, 0x10_0000);
      QuotientStep(time, 0x400_0000);
      Digits(ct);
      Digits(time);
      Digits(e);
      BlockOver(time, e, 0x100);
      BlockOver(time, e, 0x4000);
      BlockOver(time, e, 0x10_0000);
      BlockOver(time, e, 0x400_0000);
    }
  }

  lemma WrapStable(time: nat, e: nat)
    requires time == WRAP - 1 && Word(e) && Future(time, e) && Where(time, e) != 0x1C0
    ensures Where(0, e) == Where(time, e)
  {
    BlockOver(time, e, 0x100);
    BlockOver(time, e, 0x4000);
    BlockOver(time, e, 0x10_0000);
    BlockOver(time, e, 0x400_0000);
  }

  lemma NearIsNow(time: nat, e: nat)
    requires Word(time) && Word(e)
    ensures Where(time, e) == time % 0x100 <==> e == time
  {
  }

  // ---------------------------------------------------------------- the wheel and the flat list

  type Wheel = seq<seq<Node>>

  // The nodes of a list that expire at e, in order.
  function Select(l: seq<Node>, e: nat): seq<Node> {
    if l == [] then [] else (if l[0].expire == e then [l[0]] else []) + Select(l[1..], e)
  }

  function Others(l: seq<Node>, e: nat): seq<Node> {
    if l == [] then [] else (if l[0].expire == e then [] else [l[0]]) + Others(l[1..], e)
  }

  lemma {:induction false} SelectConcat(l: seq<Node>, m: seq<Node>, e: nat)
    ensures Select(l + m, e) == Select(l, e) + Select(m, e)
  {
    if l == [] {
      assert l + m == m;
    } else {
      var first := if l[0].expire == e then [l[0]] else [];
      assert (l + m)[1..] == l[1..] + m && (l + m)[0] == l[0];
      SelectConcat(l[1..], m, e);
      assert first + (Select(l[1..], e) + Select(m, e)) == first + Select(l[1..], e) + Select(m, e);
    }
  }

  lemma {:induction false} SelectAll(l: seq<Node>, e: nat)
    ensures (forall n :: n in l ==> n.expire == e) ==> Select(l, e) == l
    ensures (forall n :: n in l ==> n.expire != e) ==> Select(l, e) == [] && Others(l, e) == l
    ensures forall n :: n in Select(l, e) <==> n in l && n.expire == e
    ensures forall n :: n in Others(l, e) <==> n in l && n.expire != e
  {
    if l != [] {
      SelectAll(l[1..], e);
      assert l == [l[0]] + l[1..];
    }
  }

  lemma {:induction false} SelectOthers(l: seq<Node>, e: nat, d: nat)
    ensures Select(Others(l, e), d) == if d == e then [] else Select(l, d)
  {
    if l != [] {
      SelectOthers(l[1..], e, d);
      SelectConcat(if l[0].expire == e then [] else [l[0]], Others(l[1..], e), d);
    }
  }

  // Nodes are 32-bit and sit where add_node would put them now.
  ghost predicate Sits(w: Wheel, time: nat)
    requires Word(time)
  {
    |w| == 512 && forall i, n :: 0 <= i < 512 && n in w[i] ==> Word(n.expire) && Where(time, n.expire) == i
  }

  // For each expiry the wheel holds the nodes of the list 'pend' in the same
  // order, apart from those in 'rest', which are still to be put back.
  ghost predicate Holds(w: Wheel, time: nat, rest: seq<Node>, pend: seq<Node>)
    requires Word(time)
  {
    && Sits(w, time)
    && (forall n :: n in rest ==> Word(n.expire))
    && (forall e :: 0 <= e < WRAP ==> Select(w[Where(time, e)], e) + Select(rest, e) == Select(pend, e))
  }

  ghost predicate Agrees(w: Wheel, time: nat, pend: seq<Node>)
    requires Word(time)
  {
    && Holds(w, time, [], pend)
    && forall n :: n in pend ==> Word(n.expire) && Future(time, n.expire)
  }

  function Linked(w: Wheel, i: nat, n: Node): Wheel
    requires i < |w|
  {
    w[i := w[i] + [n]]
  }

  lemma LinkHolds(w: Wheel, time: nat, n: Node, rest: seq<Node>, pend: seq<Node>)
    requires Word(time) && Holds(w, time, [n] + rest, pend)
    ensures Word(n.expire) && Holds(Linked(w, Where(time, n.expire), n), time, rest, pend)
  {
    hide Where, Select;
    assert n in [n] + rest;
    var i := Where(time, n.expire);
    var v := Linked(w, i, n);
    forall e | 0 <= e < WRAP ensures Select(v[Where(time, e)], e) + Select(rest, e) == Select(pend, e) {
      assert Select(w[Where(time, e)], e) + Select([n] + rest, e) == Select(pend, e);
      LinkSelect(w, i, Where(time, e), n, rest, e);
    }
  }

  lemma LinkSelect(w: Wheel, i: nat, j: nat, n: Node, rest: seq<Node>, e: nat)
    requires i < |w| && j < |w| && (n.expire == e ==> i == j)
    ensures Select(Linked(w, i, n)[j], e) + Select(rest, e) == Select(w[j], e) + Select([n] + rest, e)
  {
    SelectOne(n, e);
    hide Select;
    SelectConcat([n], rest, e);
    SelectConcat(w[i], [n], e);
    if n.expire == e {
      assert Select(w[j], e) + [n] + Select(rest, e) == Select(w[j], e) + ([n] + Select(rest, e));
    } else {
      assert Select(w[i], e) + [] == Select(w[i], e) && [] + Select(rest, e) == Select(rest, e);
    }
  }

  lemma SelectOne(n: Node, e: nat)
    ensures Select([n], e) == if n.expire == e then [n] else []
  {
  }

  // A new node goes to the end of the flat list.
  lemma AddHolds(w: Wheel, time: nat, n: Node, pend: seq<Node>)
    requires Word(time) && Word(n.expire) && Future(time, n.expire) && Agrees(w, time, pend)
    ensures Agrees(Linked(w, Where(time, n.expire), n), time, pend + [n])
  {
    forall e | 0 <= e < WRAP ensures Select(w[Where(time, e)], e) + Select([n], e) == Select(pend + [n], e) {
      SelectConcat(pend, [n], e);
    }
    assert Holds(w, time, [n] + [], pend + [n]) by { assert [n] + [] == [n]; }
    LinkHolds(w, time, n, [], pend + [n]);
  }

  // Emptying the slot that cascades leaves everything else in place for the
  // new time.
  lemma ShiftHolds(w: Wheel, time: nat, pend: seq<Node>)
    requires Word(time) && Agrees(w, time, pend)
    ensures var i := Cascade(Tick(time));
            if i < 0 then Holds(w, Tick(time), [], pend) else Holds(w[i := []], Tick(time), w[i], pend)
  {
    var i := Cascade(Tick(time));
    var v: Wheel := if i < 0 then w else w[i := []];
    var rest: seq<Node> := if i < 0 then [] else w[i];
    forall j, n: Node | 0 <= j < 512 && n in v[j] ensures Where(Tick(time), n.expire) == j {
      assert n in w[j];
      PendingNode(w, time, pend, j, n);
      PlaceStable(time, n.expire);
    }
    forall e | 0 <= e < WRAP ensures Select(v[Where(Tick(time), e)], e) + Select(rest, e) == Select(pend, e) {
      ShiftSelect(w, time, pend, e);
    }
  }

  lemma PendingNode(w: Wheel, time: nat, pend: seq<Node>, j: nat, n: Node)
    requires Word(time) && Agrees(w, time, pend) && j < 512 && n in w[j]
    ensures n in pend && Word(n.expire) && Future(time, n.expire)
  {
    SelectAll(w[j], n.expire);
    SelectAll(pend, n.expire);
    assert Select(w[Where(time, n.expire)], n.expire) + Select([], n.expire) == Select(pend, n.expire);
    assert n in Select(w[j], n.expire);
  }

  lemma ShiftSelect(w: Wheel, time: nat, pend: seq<Node>, e: nat)
    requires Word(time) && Agrees(w, time, pend) && e < WRAP
    ensures var i := Cascade(Tick(time));
            if i < 0 then Select(w[Where(Tick(time), e)], e) == Select(pend, e)
            else Select(w[i := []][Where(Tick(time), e)], e) + Select(w[i], e) == Select(pend, e)
  {
    var i := Cascade(Tick(time));
    var here, there := Where(time, e), Where(Tick(time), e);
    assert Select(w[here], e) + Select([], e) == Select(pend, e);
    forall j | 0 <= j < 512 && j != here ensures Select(w[j], e) == [] {
      SelectAll(w[j], e);
    }
    if Select(pend, e) != [] {
      SelectAll(pend, e);
      assert Select(pend, e)[0] in pend;
      if here != i { PlaceStable(time, e); }
    }
  }

  // What is dispatched at the new time, and what stays.
  lemma FireAgrees(w: Wheel, time: nat, pend: seq<Node>)
    requires Word(time) && Holds(w, time, [], pend)
    requires forall n :: n in pend ==> Word(n.expire) && (n.expire == time || Future(time, n.expire))
    ensures w[time % 0x100] == Select(pend, time)
    ensures Agrees(w[time % 0x100 := []], time, Others(pend, time))
  {
    var i := time % 0x100;
    NearIsNow(time, time);
    assert Select(w[i], time) + Select([], time) == Select(pend, time);
    forall n | n in w[i] ensures n.expire == time { NearIsNow(time, n.expire); }
    SelectAll(w[i], time);
    SelectAll(pend, time);
    var v := w[i := []];
    forall e | 0 <= e < WRAP ensures Select(v[Where(time, e)], e) + Select([], e) == Select(Others(pend, time), e) {
      NearIsNow(time, e);
      SelectOthers(pend, time, e);
      assert Select(w[Where(time, e)], e) + Select([], e) == Select(pend, e);
    }
  }

  // ---------------------------------------------------------------- the timer

  datatype Add = Add(event: Event, delay: nat)

  predicate Delay(d: int) { 1 <= d < HALF }

  // What a new timer looks like at the given time.
  function NodeFor(a: Add, time: nat): (n: Node)
    requires Word(time) && Delay(a.delay)
    ensures Word(n.expire) && Ahead(time, n.expire) == a.delay
  {
    Node(a.event, if a.delay + time < WRAP then a.delay + time else a.delay + time - WRAP)
  }

  function NodesFor(adds: seq<Add>, time: nat): seq<Node>
    requires Word(time) && forall a :: a in adds ==> Delay(a.delay)
  {
    seq(|adds|, i requires 0 <= i < |adds| => NodeFor(adds[i], time))
  }

  class Timer {
    var wheel: array<seq<Node>>
    var time: nat
    ghost var pend: seq<Node>

    ghost predicate Valid()
      reads this, wheel
    {
      wheel.Length == 512 && Word(time) && Agrees(wheel[..], time, pend)
    }

    constructor ()
      ensures Valid() && fresh(wheel) && time == 0 && pend == []
    {
      wheel := new seq<Node>[512](_ => []);
      time := 0;
      pend := [];
    }

    // Appends the node to the list of the slot it belongs to at this time.
    method AddNode(n: Node)
      requires wheel.Length == 512 && Word(time) && Word(n.expire)
      modifies wheel
      ensures wheel[..] == Linked(old(wheel[..]), Where(time, n.expire), n)
    {
      var e := n.expire;
      if e / TIME_NEAR == time / TIME_NEAR {
        wheel[e % TIME_NEAR] := wheel[e % TIME_NEAR] + [n];
      } else {
        var i, span, mask := 0, TIME_NEAR, TIME_NEAR * TIME_LEVEL;
        while i < 3 && e / mask != time / mask
          invariant 0 <= i <= 3
          invariant span == [0x100, 0x4000, 0x10_0000, 0x400_0000][i] && mask == span * 0x40
          invariant i > 0 ==> e / 0x4000 != time / 0x4000
          invariant i > 1 ==> e / 0x10_0000 != time / 0x10_0000
          invariant i > 2 ==> e / 0x400_0000 != time / 0x400_0000
        {
          i, span, mask := i + 1, mask, mask * TIME_LEVEL;
        }
        var slot := TIME_NEAR + i * TIME_LEVEL + (e / span) % TIME_LEVEL;
        assert slot == Where(time, e);
        wheel[slot] := wheel[slot] + [n];
      }
    }

    // A timer for 1 to 2^31-1 ticks from now.
    method TimerAdd(a: Add)
      requires Valid() && Delay(a.delay)
      modifies this`pend, wheel
      ensures Valid() && pend == old(pend) + [NodeFor(a, time)]
    {
      hide Agrees, Linked, Where;
      var n := NodeFor(a, time);
      AddHolds(wheel[..], time, n, pend);
      AddNode(n);
      pend := pend + [n];
    }

    // Puts the nodes of one slot back where they belong now, in order.
    method MoveList(slot: nat)
      requires wheel.Length == 512 && Word(time) && slot < 512
      requires Holds(wheel[..][slot := []], time, wheel[slot], pend)
      modifies wheel
      ensures Holds(wheel[..], time, [], pend)
    {
      hide Holds, Linked, Where;
      var list := wheel[slot];
      wheel[slot] := [];
      assert wheel[..] == old(wheel[..][slot := []]);
      while list != []
        invariant Holds(wheel[..], time, list, pend)
        decreases |list|
      {
        var n := list[0];
        assert list == [n] + list[1..];
        LinkHolds(wheel[..], time, n, list[1..], pend);
        AddNode(n);
        list := list[1..];
      }
    }

    // Advances the clock and empties the slot whose block begins now.
    method TimerShift()
      requires Valid()
      modifies this`time, wheel
      ensures wheel.Length == 512 && time == Tick(old(time)) && Holds(wheel[..], time, [], pend)
    {
      hide Agrees, Holds, Where;
      ShiftHolds(wheel[..], time, pend);
      time := Tick(time);
      var ct := time;
      if ct == 0 {
        MoveList(TIME_NEAR + 3 * TIME_LEVEL);
      } else {
        Digits(ct);
        var mask, t, i := TIME_NEAR, ct / TIME_NEAR, 0;
        while ct % mask == 0
          invariant 0 <= i <= 3 && mask == [0x100, 0x4000, 0x10_0000, 0x400_0000][i] && t == ct / mask
          invariant i > 0 ==> ct % 0x100 == 0 && (ct / 0x100) % 0x40 == 0
          invariant i > 1 ==> (ct / 0x4000) % 0x40 == 0
          invariant i > 2 ==> (ct / 0x10_0000) % 0x40 == 0
          invariant wheel[..] == old(wheel[..]) && time == Tick(old(time))
          decreases 4 - i
        {
          var idx := t % TIME_LEVEL;
          if idx != 0 {
            MoveList(TIME_NEAR + i * TIME_LEVEL + idx);
            return;
          }
          mask, t, i := mask * TIME_LEVEL, t / TIME_LEVEL, i + 1;
        }
      }
    }
  
    // Dispatches the nodes of the current near slot.  The lock is released
    // meanwhile: 'window' are the timers other threads add then.
    method TimerExecute(window: seq<Add>) returns (fired: seq<Node>)
      requires wheel.Length == 512 && Word(time) && Holds(wheel[..], time, [], pend)
      requires forall n :: n in pend ==> Word(n.expire) && (n.expire == time || Future(time, n.expire))
      requires forall a :: a in window ==> Delay(a.delay)
      modifies this`pend, wheel
      ensures Valid() && fired == Select(old(pend), time)
      ensures pend == Others(old(pend), time) + (if fired == [] then [] else NodesFor(window, time))
    {
      hide Agrees, Holds, Where, Linked;
      var idx := time % TIME_NEAR;
      FireAgrees(wheel[..], time, pend);
      fired := [];
      if wheel[idx] == [] {
        assert wheel[..][idx := []] == wheel[..];
        pend := Others(pend, time);
        return;
      }
      ghost var rest := Others(pend, time);
      var rounds := 0;
      while wheel[idx] != []
        invariant wheel.Length == 512 && 0 <= rounds <= 1
        invariant rounds == 0 ==> fired == [] && wheel[..] == old(wheel[..]) && pend == old(pend)
        invariant rounds == 1 ==> Valid() && wheel[idx] == [] && fired == Select(old(pend), time)
        invariant rounds == 1 ==> pend == rest + NodesFor(window, time)
        decreases 1 - rounds
      {
        fired := fired + wheel[idx];
        wheel[idx] := [];
        assert wheel[..] == old(wheel[..][idx := []]);
        pend := rest;
        AddAll(window);
        NothingNow(wheel[..], time, pend);
        rounds := 1;
      }
    }

    method AddAll(adds: seq<Add>)
      requires Valid() && forall a :: a in adds ==> Delay(a.delay)
      modifies this`pend, wheel
      ensures Valid() && pend == old(pend) + NodesFor(adds, time)
    {
      hide Agrees;
      for i := 0 to |adds|
        invariant Valid() && pend == old(pend) + NodesFor(adds[..i], time)
      {
        TimerAdd(adds[i]);
        assert NodesFor(adds[..i + 1], time) == NodesFor(adds[..i], time) + [NodeFor(adds[i], time)];
      }
      assert adds[..|adds|] == adds;
    }

    // One tick: nothing is due before the clock moves; then exactly the timers
    // that expire at the new time are dispatched, in the order they were added.
    method TimerUpdate(window: seq<Add>) returns (fired: seq<Node>)
      requires Valid() && forall a :: a in window ==> Delay(a.delay)
      modifies this`time, this`pend, wheel
      ensures Valid() && time == Tick(old(time))
      ensures fired == Select(old(pend), time)
      ensures pend == Others(old(pend), time) + (if fired == [] then [] else NodesFor(window, time))
    {
      ghost var p := pend;
      SelectAll(pend, time);
      var none := TimerExecute([]);
      assert none == [] && pend == p;
      NextDue(time, pend);
      TimerShift();
      fired := TimerExecute(window);
    }
  }

  // No future node sits in the near slot of the current time.
  lemma NothingNow(w: Wheel, time: nat, pend: seq<Node>)
    requires Word(time) && Agrees(w, time, pend)
    ensures w[time % 0x100] == []
  {
    var i := time % 0x100;
    NearIsNow(time, time);
    assert forall n :: n in w[i] ==> n.expire == time by {
      forall n | n in w[i] ensures n.expire == time { NearIsNow(time, n.expire); }
    }
    SelectAll(w[i], time);
    SelectAll(pend, time);
    assert Select(w[i], time) + Select([], time) == Select(pend, time);
  }

  // A tick brings every pending timer one nearer.
  lemma NextDue(time: nat, pend: seq<Node>)
    requires Word(time) && forall n :: n in pend ==> Word(n.expire) && Future(time, n.expire)
    ensures forall n :: n in pend ==> n.expire == Tick(time) || Future(Tick(time), n.expire)
  {
  }

  // ---------------------------------------------------------------- the flat list of deadlines

  // The specification: every timer ever added, with its deadline in unbounded
  // time; a tick dispatches those whose deadline is the new time.
  datatype Timed = Timed(node: Node, deadline: nat)

  datatype Flat = Flat(now: nat, all: seq<Timed>)

  datatype Op = Start(a: Add) | Update(window: seq<Add>)

  function Due(all: seq<Timed>, d: nat): seq<Node> {
    if all == [] then [] else (if all[0].deadline == d then [all[0].node] else []) + Due(all[1..], d)
  }

  function Later(all: seq<Timed>, d: nat): seq<Node> {
    if all == [] then [] else (if all[0].deadline > d then [all[0].node] else []) + Later(all[1..], d)
  }

  predicate OpOk(op: Op) {
    match op
    case Start(a) => Delay(a.delay)
    case Update(window) => forall a :: a in window ==> Delay(a.delay)
  }

  function TimedFor(adds: seq<Add>, now: nat): seq<Timed>
    requires forall a :: a in adds ==> Delay(a.delay)
  {
    seq(|adds|, i requires 0 <= i < |adds| => Timed(NodeFor(adds[i], now % WRAP), now + adds[i].delay))
  }

  function FlatStep(f: Flat, op: Op): Flat
    requires OpOk(op)
  {
    match op
    case Start(a) => f.(all := f.all + TimedFor([a], f.now))
    case Update(window) =>
      Flat(f.now + 1, f.all + if Due(f.all, f.now + 1) == [] then [] else TimedFor(window, f.now + 1))
  }

  // The dispatches of a sequence of operations, one list per update.
  function FlatRun(f: Flat, ops: seq<Op>): (r: (Flat, seq<seq<Node>>))
    requires forall op :: op in ops ==> OpOk(op)
  {
    if ops == [] then (f, [])
    else
      var (g, out) := FlatRun(f, ops[..|ops| - 1]);
      var op := ops[|ops| - 1];
      (FlatStep(g, op), if op.Update? then out + [Due(g.all, g.now + 1)] else out)
  }

  // Deadlines still to come are less than half the 32-bit range away, so the
  // 32-bit expiry tells them apart.
  ghost predicate InRange(f: Flat) {
    forall x :: x in f.all ==> x.node.expire == x.deadline % WRAP && x.deadline < f.now + HALF
  }

  lemma {:induction false} LaterConcat(l: seq<Timed>, m: seq<Timed>, d: nat)
    ensures Later(l + m, d) == Later(l, d) + Later(m, d)
  {
    if l == [] {
      assert l + m == m;
    } else {
      assert (l + m)[1..] == l[1..] + m && (l + m)[0] == l[0];
      LaterConcat(l[1..], m, d);
    }
  }

  lemma TickWraps(now: nat)
    ensures Tick(now % WRAP) == (now + 1) % WRAP
  {
  }

  lemma SameWord(now: nat, d: nat)
    requires now < d < now + HALF
    ensures d % WRAP == (now + 1) % WRAP <==> d == now + 1
  {
  }

  lemma {:induction false} SplitDue(all: seq<Timed>, now: nat)
    requires forall x :: x in all ==> x.node.expire == x.deadline % WRAP && x.deadline < now + HALF
    ensures Select(Later(all, now), (now + 1) % WRAP) == Due(all, now + 1)
    ensures Others(Later(all, now), (now + 1) % WRAP) == Later(all, now + 1)
  {
    if all != [] {
      SplitDue(all[1..], now);
      var l := Later(all[1..], now);
      assert ([all[0].node] + l)[1..] == l && [] + l == l;
      if all[0].deadline > now { SameWord(now, all[0].deadline); }
    }
  }

  lemma {:induction false} AllLater(adds: seq<Add>, now: nat)
    requires forall a :: a in adds ==> Delay(a.delay)
    ensures Later(TimedFor(adds, now), now) == NodesFor(adds, now % WRAP)
  {
    if adds != [] {
      AllLater(adds[1..], now);
      assert TimedFor(adds, now)[1..] == TimedFor(adds[1..], now);
      assert NodesFor(adds, now % WRAP) == [NodeFor(adds[0], now % WRAP)] + NodesFor(adds[1..], now % WRAP);
    }
  }

  lemma TimedInRange(adds: seq<Add>, now: nat)
    requires forall a :: a in adds ==> Delay(a.delay)
    ensures forall x :: x in TimedFor(adds, now) ==> x.node.expire == x.deadline % WRAP && x.deadline < now + HALF
  {
    forall x | x in TimedFor(adds, now) ensures x.node.expire == x.deadline % WRAP && x.deadline < now + HALF {
      var i :| 0 <= i < |adds| && x == TimedFor(adds, now)[i];
      assert adds[i] in adds;
    }
  }

  // The wheel refines the flat list: every update of every run dispatches
  // exactly the timers whose deadline it reaches, in the order they were added.
  method Run(t: Timer, ops: seq<Op>) returns (fired: seq<seq<Node>>)
    requires t.Valid() && t.pend == [] && forall op :: op in ops ==> OpOk(op)
    modifies t`time, t`pend, t.wheel
    ensures t.Valid()
    ensures var (f, out) := FlatRun(Flat(old(t.time), []), ops);
            fired == out && t.time == f.now % WRAP && t.pend == Later(f.all, f.now)
    ensures |fired| == Clock(old(t.time), ops) - old(t.time) && t.time == Clock(old(t.time), ops) % WRAP
    ensures forall k :: 0 <= k < |fired| ==> Events(fired[k]) == DueAt(Promises(old(t.time), ops), old(t.time) + 1 + k)
  {
    hide Agrees, Later, InRange, FlatStep, FlatRun, Due, Promises, Clock, DueAt, Events, Keeps;
    fired := [];
    ghost var f0 := Flat(t.time, []);
    ghost var f := f0;
    FlatRunNone(f0);
    for i := 0 to |ops|
      invariant t.Valid() && t.wheel == old(t.wheel)
      invariant (f, fired) == FlatRun(f0, ops[..i])
      invariant t.time == f.now % WRAP && t.pend == Later(f.all, f.now) && InRange(f)
    {
      assert ops[i] in ops;
      var out := RunOne(t, ops[i], f);
      FlatRunNext(f0, ops, i);
      fired := fired + out;
      f := FlatStep(f, ops[i]);
    }
    assert ops[..|ops|] == ops;
    SentAsPromised(f0.now, ops);
    KeepsRun(f0, ops);
  }

  method RunOne(t: Timer, op: Op, ghost f: Flat) returns (out: seq<seq<Node>>)
    requires t.Valid() && OpOk(op) && t.time == f.now % WRAP && t.pend == Later(f.all, f.now) && InRange(f)
    modifies t`time, t`pend, t.wheel
    ensures t.Valid() && out == if op.Update? then [Due(f.all, f.now + 1)] else []
    ensures var g := FlatStep(f, op); t.time == g.now % WRAP && t.pend == Later(g.all, g.now) && InRange(g)
  {
    hide Agrees, Later, InRange, Due, Select, Others;
    match op
    case Start(a) =>
      t.TimerAdd(a);
      StartStep(f, a);
      out := [];
    case Update(window) =>
      UpdateStep(f, window);
      var fired := t.TimerUpdate(window);
      out := [fired];
  }

  lemma FlatRunNone(f: Flat)
    ensures FlatRun(f, []) == (f, []) && InRange(Flat(f.now, [])) && Later([], f.now) == []
  {
  }

  lemma FlatRunNext(f: Flat, ops: seq<Op>, i: nat)
    requires i < |ops| && forall op :: op in ops ==> OpOk(op)
    ensures var (g, out) := FlatRun(f, ops[..i]);
            OpOk(ops[i]) &&
            FlatRun(f, ops[..i + 1]) == (FlatStep(g, ops[i]), out + if ops[i].Update? then [Due(g.all, g.now + 1)] else [])
  {
    assert ops[..i + 1][..i] == ops[..i] && ops[i] in ops;
    var (g, out) := FlatRun(f, ops[..i]);
    assert out + [] == out;
  }

  lemma StartStep(f: Flat, a: Add)
    requires InRange(f) && Delay(a.delay)
    ensures var g := FlatStep(f, Start(a));
            InRange(g) && Later(g.all, g.now) == Later(f.all, f.now) + [NodeFor(a, f.now % WRAP)]
  {
    TimedInRange([a], f.now);
    LaterConcat(f.all, TimedFor([a], f.now), f.now);
    AllLater([a], f.now);
    assert NodesFor([a], f.now % WRAP) == [NodeFor(a, f.now % WRAP)];
  }

  lemma UpdateStep(f: Flat, window: seq<Add>)
    requires InRange(f) && OpOk(Update(window))
    ensures var g := FlatStep(f, Update(window));
            && InRange(g) && Tick(f.now % WRAP) == g.now % WRAP
            && Select(Later(f.all, f.now), g.now % WRAP) == Due(f.all, f.now + 1)
            && Later(g.all, g.now) == Others(Later(f.all, f.now), g.now % WRAP)
                                    + (if Due(f.all, f.now + 1) == [] then [] else NodesFor(window, g.now % WRAP))
  {
    hide Later, Due, TimedFor, NodesFor, Select, Others, Tick;
    TickWraps(f.now);
    SplitDue(f.all, f.now);
    TimedInRange(window, f.now + 1);
    AllLater(window, f.now + 1);
    LaterConcat(f.all, TimedFor(window, f.now + 1), f.now + 1);
    assert f.all + [] == f.all;
  }

  lemma {:induction false} DueConcat(l: seq<Timed>, m: seq<Timed>, d: nat)
    ensures Due(l + m, d) == Due(l, d) + Due(m, d)
    ensures (forall x :: x in m ==> x.deadline != d) ==> Due(m, d) == []
  {
    if l == [] {
      assert l + m == m;
      DueNone(m, d);
    } else {
      assert (l + m)[1..] == l[1..] + m && (l + m)[0] == l[0];
      DueConcat(l[1..], m, d);
    }
  }

  lemma {:induction false} DueNone(m: seq<Timed>, d: nat)
    ensures (forall x :: x in m ==> x.deadline != d) ==> Due(m, d) == []
  {
    if m != [] { DueNone(m[1..], d); }
  }

  // A step adds timers for the time after it only.
  lemma DueStays(g: Flat, op: Op, d: nat)
    requires OpOk(op) && d <= FlatStep(g, op).now
    ensures Due(FlatStep(g, op).all, d) == Due(g.all, d)
  {
    var h := FlatStep(g, op);
    var added := h.all[|g.all|..];
    assert h.all == g.all + added;
    forall x | x in added ensures x.deadline != d {}
    DueConcat(g.all, added, d);
  }

  // Over a whole run, tick number k dispatches exactly the timers, among all
  // ever added, whose deadline is that tick: each once, none early or late.
  lemma {:induction false} EachOnceAtItsDeadline(f: Flat, ops: seq<Op>)
    requires f.all == [] && forall op :: op in ops ==> OpOk(op)
    ensures var (g, out) := FlatRun(f, ops);
            |out| == g.now - f.now && forall k :: 0 <= k < |out| ==> out[k] == Due(g.all, f.now + 1 + k)
    decreases |ops|
  {
    hide FlatRun, Due, Later, InRange;
    if ops == [] {
      FlatRunNone(f);
    } else {
      var n := |ops| - 1;
      EachOnceAtItsDeadline(f, ops[..n]);
      FlatRunNext(f, ops, n);
      assert ops[..n + 1] == ops;
      var (g, out) := FlatRun(f, ops[..n]);
      forall d: nat | d <= g.now ensures Due(FlatStep(g, ops[n]).all, d) == Due(g.all, d) { DueStays(g, ops[n], d); }
      if ops[n].Update? { DueStays(g, ops[n], g.now + 1); }
    }
  }

  // ---------------------------------------------------------------- what a run promises its callers

  // An event and the tick at which it is to be sent.
  datatype Promise = Promise(event: Event, due: nat)

  // The time after the operations: every update is one tick.
  ghost function Clock(start: nat, ops: seq<Op>): (now: nat) {
    if ops == [] then start
    else Clock(start, ops[..|ops| - 1]) + if ops[|ops| - 1].Update? then 1 else 0
  }

  ghost function Promised(adds: seq<Add>, now: nat): (r: seq<Promise>)
    ensures |r| == |adds|
  {
    seq(|adds|, i requires 0 <= i < |adds| => Promise(adds[i].event, now + adds[i].delay))
  }

  // All timers added, in order: by themselves, or while an update was sending
  // the events that came due in it.
  ghost function Promises(start: nat, ops: seq<Op>): (r: seq<Promise>) {
    if ops == [] then []
    else
      var before, op := ops[..|ops| - 1], ops[|ops| - 1];
      var now, made := Clock(start, before), Promises(start, before);
      match op
      case Start(a) => made + [Promise(a.event, now + a.delay)]
      case Update(window) => if exists p :: p in made && p.due == now + 1 then made + Promised(window, now + 1) else made
  }

  ghost function DueAt(ps: seq<Promise>, d: nat): (r: seq<Event>) {
    if ps == [] then [] else (if ps[0].due == d then [ps[0].event] else []) + DueAt(ps[1..], d)
  }

  ghost function Events(ns: seq<Node>): (r: seq<Event>)
    ensures |r| == |ns|
  {
    seq(|ns|, i requires 0 <= i < |ns| => ns[i].event)
  }

  // The flat list is the list of promises.
  ghost predicate Keeps(all: seq<Timed>, ps: seq<Promise>) {
    |all| == |ps| && forall i :: 0 <= i < |all| ==> all[i].node.event == ps[i].event && all[i].deadline == ps[i].due
  }

  lemma {:induction false} KeepsDue(all: seq<Timed>, ps: seq<Promise>, d: nat)
    requires Keeps(all, ps)
    ensures Events(Due(all, d)) == DueAt(ps, d)
    ensures Due(all, d) != [] <==> exists p :: p in ps && p.due == d
  {
    if all != [] {
      KeepsDue(all[1..], ps[1..], d);
      var first := if all[0].deadline == d then [all[0].node] else [];
      assert Events(first + Due(all[1..], d)) == Events(first) + Events(Due(all[1..], d));
      assert ps == [ps[0]] + ps[1..];
      assert forall p :: p in ps <==> p == ps[0] || p in ps[1..];
    }
  }

  lemma KeepsMore(all: seq<Timed>, ps: seq<Promise>, adds: seq<Add>, now: nat)
    requires Keeps(all, ps) && forall a :: a in adds ==> Delay(a.delay)
    ensures Keeps(all + TimedFor(adds, now), ps + Promised(adds, now))
  {
  }

  lemma {:induction false} KeepsRun(f: Flat, ops: seq<Op>)
    requires f.all == [] && forall op :: op in ops ==> OpOk(op)
    ensures var (g, out) := FlatRun(f, ops); g.now == Clock(f.now, ops) && Keeps(g.all, Promises(f.now, ops))
    decreases |ops|
  {
    hide FlatRun, Due;
    if ops == [] {
      FlatRunNone(f);
    } else {
      var n := |ops| - 1;
      KeepsRun(f, ops[..n]);
      FlatRunNext(f, ops, n);
      assert ops[..n + 1] == ops && ops[n] in ops;
      var (g, out) := FlatRun(f, ops[..n]);
      KeepsStep(g, ops[n], Promises(f.now, ops[..n]));
    }
  }

  lemma KeepsStep(g: Flat, op: Op, ps: seq<Promise>)
    requires OpOk(op) && Keeps(g.all, ps)
    ensures var h := FlatStep(g, op);
      match op
      case Start(a) => h.now == g.now && Keeps(h.all, ps + [Promise(a.event, g.now + a.delay)])
      case Update(window) =>
        var made := if exists p :: p in ps && p.due == g.now + 1 then ps + Promised(window, g.now + 1) else ps;
        h.now == g.now + 1 && Keeps(h.all, made)
  {
    hide Due, Keeps;
    match op
    case Start(a) =>
      KeepsMore(g.all, ps, [a], g.now);
      assert Promised([a], g.now) == [Promise(a.event, g.now + a.delay)];
    case Update(window) =>
      KeepsDue(g.all, ps, g.now + 1);
      KeepsMore(g.all, ps, window, g.now + 1);
      assert g.all + [] == g.all;
  }

  // Update number k of a run sends exactly the events that are due at its tick,
  // in the order in which their timers were added.
  lemma SentAsPromised(start: nat, ops: seq<Op>)
    requires forall op :: op in ops ==> OpOk(op)
    ensures var out := FlatRun(Flat(start, []), ops).1;
      && |out| == Clock(start, ops) - start
      && forall k :: 0 <= k < |out| ==> Events(out[k]) == DueAt(Promises(start, ops), start + 1 + k)
  {
    hide FlatRun, Due, Keeps;
    var f := Flat(start, []);
    EachOnceAtItsDeadline(f, ops);
    KeepsRun(f, ops);
    var (g, out) := FlatRun(f, ops);
    forall k | 0 <= k < |out| ensures Events(out[k]) == DueAt(Promises(start, ops), start + 1 + k) {
      KeepsDue(g.all, Promises(start, ops), start + 1 + k);
    }
  }
}
