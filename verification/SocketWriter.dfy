/**
  The write side of one TCP socket: two priority lists of packages, partial
  writes, the write event, half-close and release. The bytes put on the wire,
  the packages finished and the packages accepted are kept as ghost history.
 */
module SocketWriter {
  import opened Common

  datatype Priority = High | Low
  datatype Package = Package(data: seq<byte>, prio: Priority)

  // A package waiting in a list; off bytes of it have been written.
  datatype Buffer = Buffer(pkg: Package, off: nat)

  datatype Kind = Invalid | PListen | Listen | Connecting | Connected | HalfClose | PAccept

  datatype Cause = Open | Graceful | WriteError | ReadError | PeerClose | ConnectError | StartError | Shutdown

  // ---------------------------------------------------------------- lists of packages

  // The bytes of whole packages, one after the other.
  ghost function Flat(ps: seq<Package>): (r: seq<byte>) {
    if ps == [] then [] else Flat(ps[..|ps| - 1]) + ps[|ps| - 1].data
  }

  lemma FlatSnoc(ps: seq<Package>, p: Package)
    ensures Flat(ps + [p]) == Flat(ps) + p.data
  {
    assert (ps + [p])[..|ps|] == ps;
  }

  ghost function Packages(bs: seq<Buffer>): (r: seq<Package>)
    ensures |r| == |bs|
  {
    seq(|bs|, i requires 0 <= i < |bs| => bs[i].pkg)
  }

  // The packages of one priority, in order.
  ghost function Of(ps: seq<Package>, p: Priority): (r: seq<Package>) {
    if ps == [] then []
    else Of(ps[..|ps| - 1], p) + if ps[|ps| - 1].prio == p then [ps[|ps| - 1]] else []
  }

  lemma {:induction false} OfAppend(a: seq<Package>, b: seq<Package>, p: Priority)
    ensures Of(a + b, p) == Of(a, p) + Of(b, p)
  {
    if b == [] {
      assert a + b == a;
    } else {
      var n := |b| - 1;
      OfAppend(a, b[..n], p);
      assert (a + b)[..|a| + n] == a + b[..n];
    }
  }

  lemma {:induction false} OfNone(ps: seq<Package>, p: Priority)
    requires forall i :: 0 <= i < |ps| ==> ps[i].prio != p
    ensures Of(ps, p) == []
  {
    if ps != [] { OfNone(ps[..|ps| - 1], p); }
  }

  // The bytes not yet written.
  ghost function Unsent(bs: seq<Buffer>): (r: int) {
    if bs == [] then 0 else |bs[0].pkg.data| - bs[0].off + Unsent(bs[1..])
  }

  lemma {:induction false} UnsentAppend(a: seq<Buffer>, b: seq<Buffer>)
    ensures Unsent(a + b) == Unsent(a) + Unsent(b)
  {
    if a == [] {
      assert a + b == b;
    } else {
      UnsentAppend(a[1..], b);
      assert (a + b)[1..] == a[1..] + b;
    }
  }

  // Nothing of these packages has been written.
  ghost predicate Whole(bs: seq<Buffer>) {
    forall i :: 0 <= i < |bs| ==> bs[i].off == 0
  }

  // At most the first package is partly written, and then something is left of it.
  ghost predicate Headed(bs: seq<Buffer>) {
    && (forall i :: 1 <= i < |bs| ==> bs[i].off == 0)
    && (bs != [] && bs[0].off > 0 ==> bs[0].off < |bs[0].pkg.data|)
  }

  // What the wire has of the package being written.
  ghost function Cut(bs: seq<Buffer>): (r: seq<byte>)
    requires Headed(bs)
  {
    if bs == [] then [] else bs[0].pkg.data[..bs[0].off]
  }

  // What the two lists hold, in the order in which it will be written.
  ghost predicate Lists(high: seq<Buffer>, low: seq<Buffer>) {
    && Headed(high) && Whole(low)
    && forall i :: 0 <= i < |low| ==> low[i].pkg.prio == Low
  }

  // For each priority, the packages finished and those pending are the
  // packages accepted, in the order in which they were accepted.
  ghost predicate InOrder(written: seq<Package>, pending: seq<Package>, accepted: seq<Package>) {
    forall p: Priority :: Of(written + pending, p) == Of(accepted, p)
  }

  // The wire carries whole packages and then at most one prefix; together with
  // what is pending these are the packages accepted.
  ghost predicate Story(wire: seq<byte>, written: seq<Package>, pending: seq<Buffer>, accepted: seq<Package>) {
    && Headed(pending) && wire == Flat(written) + Cut(pending)
    && InOrder(written, Packages(pending), accepted)
  }

  // ---------------------------------------------------------------- calls of the system

  // One write: the bytes offered and the answer.
  datatype Call = Call(data: seq<byte>, n: int)

  // The system took all it was offered.
  ghost predicate AllTaken(cs: seq<Call>) { forall i :: 0 <= i < |cs| ==> cs[i].n == |cs[i].data| }

  // The last write found the socket broken.
  ghost predicate Broken(cs: seq<Call>) { cs != [] && cs[|cs| - 1].n == -2 }

  // The calls made between two moments.
  ghost function Since(before: seq<Call>, now: seq<Call>): (r: seq<Call>)
    requires before <= now
    ensures now == before + r
  {
    now[|before|..]
  }

  // What is left to write of a package.
  ghost function Left(b: Buffer): (r: seq<byte>) { if b.off <= |b.pkg.data| then b.pkg.data[b.off..] else [] }

  // The first thing offered is what is left of the first package.
  ghost predicate Offers(cs: seq<Call>, pending: seq<Buffer>) {
    pending != [] ==> cs != [] && cs[0].data == Left(pending[0])
  }

  // ---------------------------------------------------------------- what events do

  // A socket as it is at one moment.
  datatype Now = Now(kind: Kind, high: seq<Buffer>, low: seq<Buffer>, writeEvent: bool, written: seq<Package>,
                     accepted: seq<Package>, lost: seq<Buffer>, cause: Cause, calls: seq<Call>)
  {
    ghost function Pending(): (r: seq<Buffer>) { if kind == Invalid then lost else high + low }
  }

  ghost predicate Same(a: Now, b: Now) { b.accepted == a.accepted && b.written + Packages(b.Pending()) == a.written + Packages(a.Pending()) }

  // The lists are written, high first: everything if the system takes everything,
  // and otherwise from the front. A half-closed socket with nothing left after
  // the high list is released; with nothing left the write event goes off.
  ghost predicate Flushed(a: Now, b: Now) {
    && a.kind != Invalid && a.calls <= b.calls && Same(a, b)
    && var cs := Since(a.calls, b.calls);
       && Offers(cs, a.high + a.low)
       && (AllTaken(cs) <==> b.Pending() == [])
       && (b.kind == Invalid && b.cause == WriteError <==> Broken(cs))
       && (b.kind == Invalid && b.cause == Graceful <==> AllTaken(cs) && a.kind == HalfClose && a.low == [])
       && (b.kind == Invalid ==> b.cause == WriteError || b.cause == Graceful)
       && (b.kind != Invalid ==> b.kind == a.kind && b.cause == a.cause)
       && (b.kind != Invalid ==> b.writeEvent == (a.writeEvent && !(AllTaken(cs) && a.low == [])))
  }

  // The high list was written, as far as the system took it.
  ghost predicate HighDone(a: Now, b: Now) {
    && a.calls <= b.calls && Same(a, b)
    && var cs := Since(a.calls, b.calls);
       && Offers(cs, a.high) && (a.high == [] ==> cs == [])
       && (b.kind == Invalid <==> Broken(cs)) && (AllTaken(cs) <==> b.kind != Invalid && b.high == [])
       && (b.kind == Invalid ==> b.lost != [])
       && (b.kind != Invalid ==> b.kind == a.kind && b.low == a.low && b.writeEvent == a.writeEvent && b.cause == a.cause)
  }

  ghost predicate LowDone(a: Now, b: Now) {
    && a.calls <= b.calls && Same(a, b)
    && var cs := Since(a.calls, b.calls);
       && Offers(cs, a.low) && cs != []
       && (b.kind == Invalid <==> Broken(cs)) && (AllTaken(cs) <==> b.Pending() == [])
       && (b.kind != Invalid ==> b.kind == a.kind && b.writeEvent == a.writeEvent && b.cause == a.cause)
  }

  lemma StoppedHigh(a: Now, b: Now)
    requires HighDone(a, b) && a.kind != Invalid && a.cause == Open && (b.kind == Invalid ==> b.cause == WriteError)
    requires b.kind == Invalid || b.high != []
    ensures Flushed(a, b)
  {
    hide Packages, Offers, AllTaken, Broken;
    NoCalls();
    var cs := Since(a.calls, b.calls);
    assert a.high != [];
    FirstOffered(cs, a.high, a.low);
  }

  lemma WentLow(a: Now, b: Now, c: Now)
    requires HighDone(a, b) && a.kind != Invalid && b.kind != Invalid && b.high == [] && b.low != [] && LowDone(b, c) && a.cause == Open
    requires c.kind == Invalid ==> c.cause == WriteError
    ensures Flushed(a, c)
  {
    hide Packages, Offers, AllTaken, Broken;
    var x, y := Since(a.calls, b.calls), Since(b.calls, c.calls);
    CallsJoined(a.calls, x, y, a.high, a.low);
    assert c.calls == a.calls + x + y;
  }

  lemma WentIdle(a: Now, b: Now, c: Now)
    requires HighDone(a, b) && a.kind != Invalid && b.kind != Invalid && b.high == [] && b.low == [] && a.cause == Open
    requires c == b.(writeEvent := false, kind := c.kind, cause := c.cause, lost := c.lost)
    requires (c.kind == Invalid) == (b.kind == HalfClose)
    requires if c.kind == Invalid then c.cause == Graceful && c.lost == [] else c.kind == b.kind && c.cause == Open && c.lost == b.lost
    ensures Flushed(a, c)
  {
    hide Packages, Offers, AllTaken, Broken;
    var cs := Since(a.calls, b.calls);
    FirstOffered(cs, a.high, a.low);
    assert b.high + b.low == [] && c.Pending() == [] && b.Pending() == [];
    assert !Broken(cs);
  }

  // What of a package offered at once is queued after the system's answer.
  ghost function Remaining(p: Package, n: int): (r: seq<Buffer>) {
    var taken := if n > 0 then n else 0;
    if taken == |p.data| then [] else [Buffer(p, taken)]
  }

  // A package: refused, offered to the system at once, or queued.
  ghost predicate Given(a: Now, b: Now, p: Package) {
    if !Takes(a.kind) then b == a
    else
      && a.calls <= b.calls
      && var cs := Since(a.calls, b.calls);
         && (a.high == [] && a.low == [] && a.kind == Connected ==>
              |cs| == 1 && cs[0].data == p.data && b.low == [] &&
              (b.kind != Invalid ==> b.high == Remaining(p, cs[0].n)))
         && (!(a.high == [] && a.low == [] && a.kind == Connected) ==>
              cs == [] && b.written == a.written && b.writeEvent == a.writeEvent &&
              b.high == a.high + (if p.prio == High then [Buffer(p, 0)] else []) &&
              b.low == a.low + (if p.prio == Low then [Buffer(p, 0)] else []))
         && (b.kind == Invalid <==> Broken(cs))
         && (b.kind == Invalid ==> b.cause == WriteError && b.accepted == a.accepted)
         && (b.kind != Invalid ==> b.kind == a.kind && b.cause == a.cause && b.accepted == a.accepted + [p])
         && (b.kind != Invalid ==> b.written + Packages(b.high + b.low) == a.written + Queued(a.high, a.low, p))
  }

  // A request to close: what waits is written first, as far as it goes.
  ghost predicate Closes(a: Now, b: Now, shutdown: bool) {
    if a.kind == Invalid then b == a
    else
      && a.calls <= b.calls && Same(a, b)
      && var cs := Since(a.calls, b.calls);
         && Offers(cs, a.high + a.low) && (a.high + a.low == [] ==> cs == [])
         && (AllTaken(cs) <==> b.Pending() == [])
         && (Broken(cs) ==> b.kind == Invalid && b.cause == WriteError)
         && (AllTaken(cs) ==> b.kind == Invalid && b.cause == Graceful)
         && (!Broken(cs) && !AllTaken(cs) ==> if shutdown then b.kind == Invalid && b.cause == Shutdown else b.kind == HalfClose && b.cause == Open)
  }

  // The socket is released with what waits, for a reason.
  ghost predicate Released(a: Now, b: Now, why: Cause) {
    b == a.(kind := Invalid, high := [], low := [], lost := a.high + a.low, cause := why)
  }

  ghost predicate Effect(e: Event, a: Now, b: Now) {
    match e
    case Send(p) => Given(a, b, p)
    case Close(shutdown) => Closes(a, b, shutdown)
    case Start(added) =>
      if a.kind != PAccept && a.kind != PListen then b == a
      else if !added then Released(a, b, StartError)
      else b == a.(kind := if a.kind == PAccept then Connected else Listen)
    case WriteReady => if a.kind == Connected || a.kind == HalfClose then Flushed(a, b) else b == a
    case ReadReady(outcome) =>
      if a.kind != Connected && a.kind != HalfClose then b == a
      else if outcome == Failed then Released(a, b, ReadError)
      else if outcome == Eof then Released(a, b, PeerClose)
      else b == a
    case ConnectReady(ok) =>
      if a.kind != Connecting then b == a
      else if !ok then Released(a, b, ConnectError)
      else b == a.(kind := Connected, writeEvent := a.high != [] || a.low != [])
  }

  // ---------------------------------------------------------------- events

  datatype ReadOutcome = Data | Again | Eof | Failed

  datatype Event =
    | Send(pkg: Package)
    | Close(shutdown: bool)
    | Start(added: bool)
    | WriteReady
    | ReadReady(outcome: ReadOutcome)
    | ConnectReady(ok: bool)

  // Events that may give up packages that were accepted.
  predicate Aborts(e: Event) {
    match e
    case Close(shutdown) => shutdown
    case Start(added) => !added
    case ReadReady(outcome) => outcome == Eof || outcome == Failed
    case ConnectReady(ok) => !ok
    case _ => false
  }

  class Socket {
    var kind: Kind
    var high: seq<Buffer>
    var low: seq<Buffer>
    var wbSize: int
    var writeEvent: bool

    ghost var wire: seq<byte>
    ghost var written: seq<Package>
    ghost var accepted: seq<Package>
    ghost var lost: seq<Buffer>
    ghost var cause: Cause
    ghost var failed: bool
    ghost var calls: seq<Call>

    ghost function Snap(): (r: Now)
      reads this
    {
      Now(kind, high, low, writeEvent, written, accepted, lost, cause, calls)
    }

    ghost function Pending(): (r: seq<Buffer>)
      reads this
    {
      if kind == Invalid then lost else high + low
    }

    ghost predicate Valid()
      reads this
    {
      Sound() && (kind == Connecting ==> writeEvent)
    }

    ghost predicate Sound()
      reads this
    {
      && Lists(high, low) && Story(wire, written, Pending(), accepted)
      && (kind == Invalid ==> high == [] && low == [])
      && (kind == Invalid <==> cause != Open)
      && (kind != Invalid ==> wbSize == Unsent(high) + Unsent(low))
      // a socket with packages waiting hears about write events
      && (high != [] || low != [] ==> (kind == Connecting || kind == Connected || kind == HalfClose) && writeEvent)
      && (cause == Graceful ==> lost == [])
      && (cause == WriteError ==> failed)
    }

    // A slot that new_fd has filled.
    constructor (k: Kind)
      requires k == PListen || k == Connecting || k == Connected || k == PAccept
      ensures Valid() && kind == k && wire == [] && accepted == [] && written == [] && !failed
    {
      kind := k;
      high, low, wbSize, writeEvent := [], [], 0, k == Connecting;
      wire, written, accepted, lost, cause, failed, calls := [], [], [], [], Open, false, [];
    }

    // The operating system takes some of the bytes (n), or none for now (-1),
    // or the socket is broken (-2).
    method WriteFd(data: seq<byte>) returns (n: int)
      modifies this`wire, this`failed, this`calls
      ensures -2 <= n <= |data| && calls == old(calls) + [Call(data, n)]
      ensures wire == old(wire) + if n > 0 then data[..n] else []
      ensures failed == (old(failed) || n == -2)
    {
      n := *;
      if n < -2 || n > |data| { n := -1; }
      if n > 0 { wire := wire + data[..n]; }
      failed := failed || n == -2;
      calls := calls + [Call(data, n)];
    }

    // Writes the list from its head on, as far as the system takes it.
    method SendList(list: seq<Buffer>) returns (rest: seq<Buffer>, broken: bool)
      requires Headed(list) && wire == Flat(written) + Cut(list)
      modifies this`wire, this`failed, this`written, this`wbSize, this`calls
      ensures Headed(rest) && wire == Flat(written) + Cut(rest)
      ensures written + Packages(rest) == old(written) + Packages(list)
      ensures wbSize - Unsent(rest) == old(wbSize) - Unsent(list)
      ensures failed == (old(failed) || broken)
      ensures |rest| <= |list|
      ensures old(calls) <= calls && Offers(Since(old(calls), calls), list)
      ensures AllTaken(Since(old(calls), calls)) <==> rest == []
      ensures (Broken(Since(old(calls), calls)) <==> broken) && (broken ==> rest != []) && (list == [] ==> calls == old(calls))
    {
      hide Flat, Packages, Unsent, Headed, Cut, Left;
      NoCalls();
      rest, broken := list, false;
      while rest != []
        invariant Headed(rest) && wire == Flat(written) + Cut(rest) && !broken
        invariant written + Packages(rest) == old(written) + Packages(list)
        invariant wbSize - Unsent(rest) == old(wbSize) - Unsent(list)
        invariant failed == old(failed)
        invariant |rest| <= |list| && (|rest| == |list| ==> rest == list && calls == old(calls))
        invariant old(calls) <= calls && AllTaken(Since(old(calls), calls))
        invariant |rest| < |list| ==> Offers(Since(old(calls), calls), list)
        decreases |rest|
      {
        var b := rest[0];
        assert b.off <= |b.pkg.data| && Left(b) == b.pkg.data[b.off..] by { HeadFits(rest); }
        ghost var cs := Since(old(calls), calls);
        var n := WriteFd(b.pkg.data[b.off..]);
        CallMade(old(calls), cs, Call(b.pkg.data[b.off..], n));
        if n < 0 { return rest, n == -2; }
        wbSize := wbSize - n;
        if n != |b.pkg.data| - b.off {
          PartlyWritten(b, n, rest);
          rest := [b.(off := b.off + n)] + rest[1..];
          return;
        }
        Finished(b, rest, written, wire);
        written := written + [b.pkg];
        rest := rest[1..];
      }
    }

    // Releases the socket; what was still waiting is lost.
    method ForceClose(ghost why: Cause)
      requires kind != Invalid && cause == Open && why != Open
      requires Story(wire, written, high + low, accepted)
      requires why == Graceful ==> high == [] && low == []
      requires why == WriteError ==> failed
      modifies this`kind, this`high, this`low, this`lost, this`cause
      ensures Sound() && kind == Invalid && cause == why && lost == old(high + low)
    {
      hide Story;
      lost, cause := high + low, why;
      high, low := [], [];
      kind := Invalid;
    }

    // The head of the low list, partly written, becomes the high list.
    method RaiseUncomplete()
      requires high == [] && low != [] && Headed(low) && forall i :: 0 <= i < |low| ==> low[i].pkg.prio == Low
      modifies this`high, this`low
      ensures high + low == old(low) && Lists(high, low) && |high| == 1
      ensures Unsent(high) + Unsent(low) == old(Unsent(low))
    {
      var b := low[0];
      low := low[1..];
      high := [b];
    }

    // Writes the high list, then the low one; with nothing left to write, turns
    // the write event off and finishes a half-closed socket.
    method SendBuffer() returns (closed: bool)
      requires Sound() && kind != Invalid
      modifies this
      ensures Sound() && closed == (kind == Invalid) && (closed ==> cause in {WriteError, Graceful}) && (!closed ==> cause == Open && kind == old(kind))
      ensures cause == WriteError || failed == old(failed)
      ensures Flushed(old(Snap()), Snap())
    {
      hide Flat, Packages, Of, Unsent, Story, Lists, Offers, AllTaken, Broken, Flushed, Same, HighDone, LowDone;
      ghost var a := Snap();
      closed := SendHigh();
      ghost var b := Snap();
      if closed || high != [] {
        StoppedHigh(a, b);
      } else if low != [] {
        closed := SendLow();
        WentLow(a, b, Snap());
      } else {
        closed := FinishIdle();
        WentIdle(a, b, Snap());
      }
    }

    // Nothing is left to write.
    method FinishIdle() returns (closed: bool)
      requires Sound() && kind != Invalid && high == [] && low == []
      modifies this
      ensures Sound() && closed == (kind == Invalid) == (old(kind) == HalfClose) && failed == old(failed)
      ensures Snap() == old(Snap()).(writeEvent := false, kind := kind, cause := cause, lost := lost)
      ensures if closed then cause == Graceful && lost == [] else kind == old(kind) && cause == Open && lost == old(lost)
    {
      hide Story, Lists, Unsent;
      writeEvent := false;
      closed := kind == HalfClose;
      if closed {
        ForceClose(Graceful);
      }
    }

    method SendHigh() returns (closed: bool)
      requires Sound() && kind != Invalid
      modifies this
      ensures Sound() && closed == (kind == Invalid)
      ensures cause == WriteError || failed == old(failed)
      ensures HighDone(old(Snap()), Snap()) && (closed ==> cause == WriteError) && (!closed ==> cause == Open && low == old(low) && kind == old(kind))
    {
      hide Flat, Packages, Of, Unsent, Headed, Cut, Whole, Story, Lists, Offers, AllTaken, Broken;
      ghost var w0, h0 := written, high;
      HighFirst(wire, written, high, low, accepted);
      high, closed := SendList(high);
      HighSent(w0, h0, written, high, low, accepted, wire, old(wire));
      if closed {
        ForceClose(WriteError);
      }
    }

    // The low list, when the high one is empty. A package begun is raised.
    method SendLow() returns (closed: bool)
      requires Sound() && kind != Invalid && high == [] && low != []
      modifies this
      ensures Sound() && closed == (kind == Invalid)
      ensures cause == WriteError || failed == old(failed)
      ensures LowDone(old(Snap()), Snap()) && (closed ==> cause == WriteError) && (!closed ==> cause == Open && kind == old(kind))
    {
      hide Flat, Packages, Of, Unsent, Headed, Cut, Whole, Story, AllTaken, Broken, Offers, Lists;
      AllLow(high, low);
      Empty();
      assert high + low == low;
      ghost var w0, l0 := written, low;
      LowFirst(wire, written, low, accepted);
      var broken;
      low, broken := SendList(low);
      SomeOffered(Since(old(calls), calls), l0);
      assert high + low == low;
      LowSent(w0, l0, written, low, accepted, wire, old(wire));
      if broken {
        ForceClose(WriteError);
        return true;
      }
      RaiseBegun();
      closed := false;
    }

    method RaiseBegun()
      requires high == [] && Headed(low) && forall i :: 0 <= i < |low| ==> low[i].pkg.prio == Low
      modifies this`high, this`low
      ensures high + low == old(low) && Lists(high, low) && Unsent(high) + Unsent(low) == old(Unsent(low))
    {
      Empty();
      if low != [] && low[0].off != 0 {
        RaiseUncomplete();
      } else {
        NotBegun(low);
        assert high + low == low;
      }
    }

    // A package for the socket: written at once when nothing waits, queued by
    // its priority otherwise.
    method SendSocket(pkg: Package) returns (closed: bool)
      requires Valid()
      modifies this
      ensures Valid() && (closed ==> kind == Invalid && cause == WriteError) && (!Takes(old(kind)) ==> !closed)
      ensures Given(old(Snap()), Snap(), pkg)
    {
      hide Flat, Packages, Of, Unsent, Story, Lists, Queued, Given;
      ghost var a := Snap();
      if kind != Connecting && kind != Connected {
        GivenNot(a, pkg);
        return false;
      }
      if high == [] && low == [] && kind == Connected {
        closed := SendDirect(pkg);
      } else {
        wbSize := wbSize + |pkg.data|;
        if pkg.prio == Low {
          AppendLow(wire, written, high, low, accepted, pkg);
          low := low + [Buffer(pkg, 0)];
        } else {
          AppendHigh(wire, written, high, low, accepted, pkg);
          high := high + [Buffer(pkg, 0)];
        }
        accepted := accepted + [pkg];
        GivenQueued(a, Snap(), pkg);
        closed := false;
      }
    }

    // Nothing waits: the rest of what the system does not take goes to the high
    // list, whatever the priority.
    method SendDirect(pkg: Package) returns (closed: bool)
      requires Valid() && kind == Connected && high == [] && low == []
      modifies this
      ensures Valid() && (closed <==> kind == Invalid) && (closed ==> cause == WriteError)
      ensures Given(old(Snap()), Snap(), pkg)
    {
      hide Flat, Packages, Of, Unsent, Story, Lists, Queued, Given;
      ghost var a := Snap();
      assert high + low == [];
      var n := WriteFd(pkg.data);
      if n == -2 {
        assert wire == old(wire);
        ForceClose(WriteError);
        GivenDirect(a, Snap(), pkg, n);
        return true;
      }
      ghost var answer := n;
      if n < 0 {
        n := 0;
      }
      assert wire == old(wire) + pkg.data[..n];
      accepted := accepted + [pkg];
      if n == |pkg.data| {
        assert pkg.data[..n] == pkg.data;
        DirectAll(old(wire), written, old(accepted), pkg);
        written := written + [pkg];
      } else {
        DirectPart(old(wire), written, old(accepted), pkg, n);
        high := [Buffer(pkg, n)];
        Empty();
        wbSize := wbSize + |pkg.data| - n;
        writeEvent := true;
        assert high + low == high;
      }
      GivenDirect(a, Snap(), pkg, answer);
      closed := false;
    }

    // A request to close: at once when nothing waits or when asked to, and
    // otherwise after the rest has been written.
    method CloseSocket(shutdown: bool) returns (closed: bool)
      requires Valid()
      modifies this
      ensures Valid() && closed == (kind == Invalid)
      ensures Closes(old(Snap()), Snap(), shutdown)
    {
      hide Flat, Packages, Of, Unsent, Story, Lists, Offers, AllTaken, Broken, Flushed, Closes, Same;
      ghost var a := Snap();
      if kind == Invalid {
        StaysClosed(a, shutdown);
        return true;
      }
      if high != [] || low != [] {
        closed := SendBuffer();
        if closed {
          FlushClosed(a, Snap(), shutdown);
          return;
        }
      }
      ghost var b := Snap();
      if shutdown || (high == [] && low == []) {
        ForceClose(if high == [] && low == [] then Graceful else Shutdown);
        CloseNow(a, b, Snap(), shutdown);
        return true;
      }
      kind := HalfClose;
      CloseLater(a, b, Snap(), shutdown);
      closed := false;
    }

    // Starts an accepted or a listening socket; added tells whether the
    // poll took it.
    method StartSocket(added: bool)
      requires Valid()
      modifies this
      ensures Valid() && Effect(Start(added), old(Snap()), Snap())
    {
      hide Flat, Packages, Of, Unsent, Story, Lists;
      if kind == PAccept || kind == PListen {
        if !added {
          ForceClose(StartError);
        } else {
          kind := if kind == PAccept then Connected else Listen;
        }
      }
    }

    // The end of a connection attempt.
    method ReportConnect(ok: bool)
      requires Valid() && kind == Connecting
      modifies this
      ensures Valid() && Effect(ConnectReady(ok), old(Snap()), Snap())
    {
      hide Flat, Packages, Of, Unsent, Story, Lists;
      if !ok {
        ForceClose(ConnectError);
      } else {
        kind := Connected;
        if high == [] && low == [] {
          writeEvent := false;
        }
      }
    }

    // Bytes, nothing, the end of the stream or an error on the read side.
    method ForwardMessage(outcome: ReadOutcome)
      requires Valid() && (kind == Connected || kind == HalfClose)
      modifies this
      ensures Valid() && Effect(ReadReady(outcome), old(Snap()), Snap())
    {
      hide Flat, Packages, Of, Unsent, Story, Lists;
      if outcome == Failed {
        ForceClose(ReadError);
      } else if outcome == Eof {
        ForceClose(PeerClose);
      }
    }

    // One event, given to the handler that the socket's kind selects.
    method Handle(e: Event)
      requires Valid()
      modifies this
      ensures Valid() && Effect(e, old(Snap()), Snap())
    {
      hide Flat, Packages, Of, Unsent, Story, Lists, Given, Closes, Flushed, Released;
      match e
      case Send(pkg) => var _ := SendSocket(pkg);
      case Close(shutdown) => var _ := CloseSocket(shutdown);
      case Start(added) => StartSocket(added);
      case ConnectReady(ok) => if kind == Connecting { ReportConnect(ok); }
      case WriteReady => if kind == Connected || kind == HalfClose { var _ := SendBuffer(); }
      case ReadReady(outcome) => if kind == Connected || kind == HalfClose { ForwardMessage(outcome); }
    }

    // Any run. Each event has its effect; accepted are the packages of the sends
    // that were taken, in order; and a socket released without an error, a
    // shutdown request or the peer's close has written every one of them, whole
    // and in order.
    method Serve(events: seq<Event>) returns (ghost trace: seq<Now>)
      requires Valid() && kind != Invalid
      modifies this
      ensures Valid() && Traces(events, trace) && trace[0] == old(Snap()) && trace[|events|] == Snap()
      ensures accepted == old(accepted) + Taken(events, trace)
      ensures kind == Invalid && !failed && (forall e <- events :: !Aborts(e)) ==>
        wire == Flat(written) && forall p: Priority :: Of(written, p) == Of(accepted, p)
    {
      hide Flat, Packages, Of, Unsent, Story, Lists, InOrder, Effect, Taken;
      trace := [Snap()];
      NothingTaken(events, trace);
      for i := 0 to |events|
        invariant Valid() && Traces(events[..i], trace) && trace[0] == old(Snap()) && trace[i] == Snap()
        invariant accepted == old(accepted) + Taken(events[..i], trace)
        invariant (forall e <- events[..i] :: !Aborts(e)) ==> cause in {Open, Graceful, WriteError}
      {
        assert events[..i + 1] == events[..i] + [events[i]];
        ghost var a := Snap();
        Handle(events[i]);
        CauseKnown(events[i], a, Snap());
        TraceNext(events[..i], trace, events[i], Snap());
        trace := trace + [Snap()];
      }
      assert events[..|events|] == events;
      if cause == Graceful { AllWritten(wire, written, accepted); }
    }
  }

  lemma GivenNot(a: Now, p: Package)
    requires !Takes(a.kind)
    ensures Given(a, a, p)
  {
  }

  lemma GivenDirect(a: Now, b: Now, p: Package, n: int)
    requires a.kind == Connected && a.high == [] && a.low == [] && b.low == [] && -2 <= n <= |p.data| && b.calls == a.calls + [Call(p.data, n)]
    requires n == -2 ==> b.kind == Invalid && b.cause == WriteError && b.accepted == a.accepted
    requires n != -2 ==> b.kind == a.kind && b.cause == a.cause && b.accepted == a.accepted + [p]
    requires n != -2 ==> b.high == Remaining(p, n)
    requires n != -2 ==> b.written + Packages(b.high + b.low) == a.written + Queued([], [], p)
    ensures Given(a, b, p)
  {
    hide Packages, Queued;
    var cs := Since(a.calls, b.calls);
    assert cs == [Call(p.data, n)];
  }

  lemma GivenQueued(a: Now, b: Now, p: Package)
    requires Takes(a.kind) && a.kind != Invalid && !(a.high == [] && a.low == [] && a.kind == Connected)
    requires b == a.(accepted := a.accepted + [p], high := if p.prio == High then a.high + [Buffer(p, 0)] else a.high,
                     low := if p.prio == Low then a.low + [Buffer(p, 0)] else a.low)
    requires b.written + Packages(b.high + b.low) == a.written + Queued(a.high, a.low, p)
    ensures Given(a, b, p)
  {
    hide Packages, Queued;
    assert Since(a.calls, b.calls) == [] && a.high + [] == a.high && a.low + [] == a.low;
  }

  // The moments of a run, each event with its effect.
  ghost predicate Traces(events: seq<Event>, trace: seq<Now>) {
    |trace| == |events| + 1 && forall i :: 0 <= i < |events| ==> Effect(events[i], trace[i], trace[i + 1])
  }

  // The packages of the sends that were taken.
  ghost function Taken(events: seq<Event>, trace: seq<Now>): (r: seq<Package>)
    requires |trace| >= |events| + 1
  {
    if events == [] then []
    else
      var n := |events| - 1;
      Taken(events[..n], trace) + TakenOne(events[n], trace[n], trace[n + 1])
  }

  ghost function TakenOne(e: Event, a: Now, b: Now): (r: seq<Package>) {
    if e.Send? && Takes(a.kind) && b.kind != Invalid then [e.pkg] else []
  }

  lemma NothingTaken(events: seq<Event>, trace: seq<Now>)
    requires |trace| == 1
    ensures Taken(events[..0], trace) == []
  {
  }

  lemma {:induction false} TakenLonger(events: seq<Event>, trace: seq<Now>, s: Now)
    requires |trace| >= |events| + 1
    ensures Taken(events, trace + [s]) == Taken(events, trace)
  {
    if events != [] { TakenLonger(events[..|events| - 1], trace, s); }
  }

  lemma TraceNext(events: seq<Event>, trace: seq<Now>, e: Event, s: Now)
    requires Traces(events, trace) && Effect(e, trace[|events|], s)
    ensures Traces(events + [e], trace + [s])
    ensures s.accepted == trace[|events|].accepted + TakenOne(e, trace[|events|], s)
    ensures Taken(events + [e], trace + [s]) == Taken(events, trace) + TakenOne(e, trace[|events|], s)
  {
    hide Effect, Taken, TakenOne;
    EffectAccepts(e, trace[|events|], s);
    TakenNext(events, trace, e, s);
    var l, m := events + [e], trace + [s];
    forall i | 0 <= i < |l| ensures Effect(l[i], m[i], m[i + 1]) {
      if i < |events| { assert l[i] == events[i] && m[i] == trace[i] && m[i + 1] == trace[i + 1]; }
    }
  }

  lemma TakenNext(events: seq<Event>, trace: seq<Now>, e: Event, s: Now)
    requires |trace| == |events| + 1
    ensures Taken(events + [e], trace + [s]) == Taken(events, trace) + TakenOne(e, trace[|events|], s)
  {
    hide TakenOne;
    TakenLonger(events, trace, s);
    assert (events + [e])[..|events|] == events;
  }

  lemma EffectAccepts(e: Event, a: Now, b: Now)
    requires Effect(e, a, b)
    ensures b.accepted == a.accepted + TakenOne(e, a, b)
  {
    hide Packages, Queued, AllTaken, Broken, Offers;
    assert a.accepted + [] == a.accepted;
  }

  lemma CauseKnown(e: Event, a: Now, b: Now)
    requires Effect(e, a, b) && (a.kind == Invalid <==> a.cause != Open)
    ensures a.kind == Invalid ==> b.cause == a.cause
    ensures a.kind != Invalid && !Aborts(e) ==> b.cause in {Open, Graceful, WriteError}
  {
    hide Packages, Queued, Offers, AllTaken, Broken, Same;
  }

  // A half-closed socket is finished by two write events that take everything,
  // or by one when nothing of low priority waits.
  lemma HalfCloseEnds(a: Now, b: Now, c: Now)
    requires a.kind == HalfClose && Effect(WriteReady, a, b) && Effect(WriteReady, b, c)
    requires a.calls <= b.calls <= c.calls && AllTaken(Since(a.calls, b.calls)) && AllTaken(Since(b.calls, c.calls))
    ensures c.kind == Invalid && c.cause == Graceful && c.written == a.written + Packages(a.high + a.low)
    ensures a.low == [] ==> b == c
  {
    TakenNotBroken(Since(a.calls, b.calls));
    TakenNotBroken(Since(b.calls, c.calls));
    hide Broken, Offers, AllTaken;
    assert b.Pending() == [] && c.Pending() == [];
    assert Packages([]) == [] && b.written + [] == b.written && c.written + [] == c.written;
    hide Packages;
    if b.kind != Invalid { assert b.high == [] && b.low == [] by { assert b.high + b.low == []; } }
  }

  lemma TakenNotBroken(cs: seq<Call>)
    ensures AllTaken(cs) ==> !Broken(cs)
  {
  }

  lemma StaysClosed(a: Now, shutdown: bool)
    requires a.kind == Invalid
    ensures Closes(a, a, shutdown)
  {
  }

  lemma FlushClosed(a: Now, b: Now, shutdown: bool)
    requires Flushed(a, b) && b.kind == Invalid && a.high + a.low != []
    ensures Closes(a, b, shutdown)
  {
    TakenNotBroken(Since(a.calls, b.calls));
    hide Packages, Offers, AllTaken, Broken, Same;
  }

  // What a closing socket has done before it decides.
  ghost predicate Tried(a: Now, b: Now) {
    if a.high == [] && a.low == [] then b == a else Flushed(a, b)
  }

  lemma CloseNow(a: Now, b: Now, c: Now, shutdown: bool)
    requires a.kind != Invalid && b.kind != Invalid && Tried(a, b) && Released(b, c, if b.high == [] && b.low == [] then Graceful else Shutdown)
    requires shutdown || (b.high == [] && b.low == [])
    ensures Closes(a, c, shutdown)
  {
    NoCalls();
    if a != b { TakenNotBroken(Since(a.calls, b.calls)); }
    hide Packages, Offers, Broken, AllTaken;
    assert b.high == [] && b.low == [] <==> b.high + b.low == [];
    if a == b { assert a.high + a.low == [] && Since(a.calls, c.calls) == []; OffersNone(a.high + a.low); }
  }

  lemma CloseLater(a: Now, b: Now, c: Now, shutdown: bool)
    requires a.kind != Invalid && b.kind != Invalid && b.cause == Open && Tried(a, b) && c == b.(kind := HalfClose)
    requires !shutdown && !(b.high == [] && b.low == [])
    ensures Closes(a, c, shutdown)
  {
    hide Packages, Offers, Broken;
    assert b.high + b.low != [];
  }

  predicate Takes(k: Kind) { k == Connecting || k == Connected }

  // The order of writing after a package has been queued.
  ghost function Queued(high: seq<Buffer>, low: seq<Buffer>, p: Package): (r: seq<Package>) {
    if p.prio == High then Packages(high) + [p] + Packages(low) else Packages(high) + Packages(low) + [p]
  }

  lemma AllWritten(wire: seq<byte>, written: seq<Package>, accepted: seq<Package>)
    requires Story(wire, written, [], accepted)
    ensures wire == Flat(written) && forall p: Priority :: Of(written, p) == Of(accepted, p)
  {
    assert written + Packages([]) == written;
  }

  lemma Kept(s: seq<Package>, accepted: seq<Package>, t: seq<Package>, p: Package)
    requires forall q: Priority :: Of(s, q) == Of(accepted, q)
    requires t == s + [p]
    ensures forall q: Priority :: Of(t, q) == Of(accepted + [p], q)
  {
    forall q: Priority ensures Of(t, q) == Of(accepted + [p], q) {
      OfAppend(s, [p], q);
      OfAppend(accepted, [p], q);
    }
  }

  lemma DirectAll(wire: seq<byte>, written: seq<Package>, accepted: seq<Package>, p: Package)
    requires Story(wire, written, [], accepted)
    ensures Story(wire + p.data, written + [p], [], accepted + [p])
    ensures (written + [p]) + Packages([]) == written + Queued([], [], p)
  {
    hide Of;
    AllWritten(wire, written, accepted);
    Kept(written, accepted, written + [p], p);
    FlatSnoc(written, p);
    hide Flat;
    assert (written + [p]) + Packages([]) == written + [p];
    assert Packages([]) == [] && Queued([], [], p) == [p];
  }

  lemma DirectPart(wire: seq<byte>, written: seq<Package>, accepted: seq<Package>, p: Package, n: nat)
    requires Story(wire, written, [], accepted) && n < |p.data|
    ensures var h := [Buffer(p, n)];
      && Story(wire + p.data[..n], written, h, accepted + [p])
      && Lists(h, []) && Unsent(h) == |p.data| - n
      && written + Packages(h) == written + Queued([], [], p)
  {
    var h := [Buffer(p, n)];
    assert Unsent(h) == |p.data| - n + Unsent(h[1..]) && h[1..] == [];
    hide Of, Flat, Unsent;
    AllWritten(wire, written, accepted);
    Kept(written, accepted, written + [p], p);
    assert Packages(h) == [p] && Packages([]) == [] && Queued([], [], p) == [p];
  }

  lemma AppendLow(wire: seq<byte>, written: seq<Package>, high: seq<Buffer>, low: seq<Buffer>, accepted: seq<Package>, p: Package)
    requires Story(wire, written, high + low, accepted) && Lists(high, low) && p.prio == Low
    ensures var low' := low + [Buffer(p, 0)];
      && Story(wire, written, high + low', accepted + [p]) && Lists(high, low')
      && Unsent(low') == Unsent(low) + |p.data|
      && written + Packages(high + low') == written + Queued(high, low, p)
  {
    var b := [Buffer(p, 0)];
    Alone(p);
    hide Of, Flat, Unsent, Packages;
    UnsentAppend(low, b);
    Concat(high, low);
    Concat(high, low + b);
    Concat(low, b);
    assert Packages(high + (low + b)) == Queued(high, low, p);
    LowInOrder(written, high, low, accepted, p);
    hide Queued, InOrder;
    CutLow(high, low, b);
  }

  lemma CutLow(high: seq<Buffer>, low: seq<Buffer>, b: seq<Buffer>)
    requires Headed(high) && Whole(low) && Whole(b)
    ensures Whole(low + b) && Headed(high + low) && Headed(high + (low + b)) && Cut(high + (low + b)) == Cut(high + low) == Cut(high)
  {
  }

  lemma LowInOrder(written: seq<Package>, high: seq<Buffer>, low: seq<Buffer>, accepted: seq<Package>, p: Package)
    requires InOrder(written, Packages(high + low), accepted) && p.prio == Low
    ensures InOrder(written, Queued(high, low, p), accepted + [p])
  {
    hide Of, Packages;
    Concat(high, low);
    var s := written + Packages(high + low);
    Kept(s, accepted, s + [p], p);
    assert s + [p] == written + Queued(high, low, p);
  }

  lemma Alone(p: Package)
    ensures Unsent([Buffer(p, 0)]) == |p.data| && Packages([Buffer(p, 0)]) == [p]
  {
    assert [Buffer(p, 0)][1..] == [];
  }

  lemma AppendHigh(wire: seq<byte>, written: seq<Package>, high: seq<Buffer>, low: seq<Buffer>, accepted: seq<Package>, p: Package)
    requires Story(wire, written, high + low, accepted) && Lists(high, low) && p.prio == High
    ensures var high' := high + [Buffer(p, 0)];
      && Story(wire, written, high' + low, accepted + [p]) && Lists(high', low)
      && Unsent(high') == Unsent(high) + |p.data|
      && written + Packages(high' + low) == written + Queued(high, low, p)
  {
    var b := [Buffer(p, 0)];
    Alone(p);
    hide Of, Flat, Unsent, Packages;
    UnsentAppend(high, b);
    Concat(high, low);
    Concat(high + b, low);
    Concat(high, b);
    assert Packages((high + b) + low) == Queued(high, low, p);
    HighInOrder(written, high, low, accepted, p);
  }

  lemma HighInOrder(written: seq<Package>, high: seq<Buffer>, low: seq<Buffer>, accepted: seq<Package>, p: Package)
    requires InOrder(written, Packages(high + low), accepted) && p.prio == High
    requires forall i :: 0 <= i < |low| ==> low[i].pkg.prio == Low
    ensures InOrder(written, Queued(high, low, p), accepted + [p])
  {
    hide Of, Packages;
    Concat(high, low);
    Overtake(written + Packages(high), low, p, accepted);
    assert written + Packages(high + low) == (written + Packages(high)) + Packages(low);
    assert written + Queued(high, low, p) == (written + Packages(high)) + [p] + Packages(low);
  }

  // A package of high priority may pass packages of low priority.
  lemma Overtake(s: seq<Package>, low: seq<Buffer>, p: Package, accepted: seq<Package>)
    requires p.prio == High && forall i :: 0 <= i < |low| ==> low[i].pkg.prio == Low
    ensures (forall q: Priority :: Of(s + Packages(low), q) == Of(accepted, q)) ==>
      forall q: Priority :: Of(s + [p] + Packages(low), q) == Of(accepted + [p], q)
  {
    var l := Packages(low);
    forall q: Priority ensures Of(s + l, q) == Of(accepted, q) ==> Of(s + [p] + l, q) == Of(accepted + [p], q) {
      OfAppend(s, l, q);
      OfAppend(s + [p], l, q);
      OfAppend(s, [p], q);
      OfAppend(accepted, [p], q);
      if q == High { OfNone(l, q); } else { OfNone([p], q); }
    }
  }

  // With the high list in front, the package being written is its head.
  lemma HighFirst(wire: seq<byte>, written: seq<Package>, high: seq<Buffer>, low: seq<Buffer>, accepted: seq<Package>)
    requires Lists(high, low) && Story(wire, written, high + low, accepted)
    ensures Headed(high) && wire == Flat(written) + Cut(high)
  {
    hide Flat, Packages, Of;
  }

  lemma LowFirst(wire: seq<byte>, written: seq<Package>, low: seq<Buffer>, accepted: seq<Package>)
    requires Whole(low) && Story(wire, written, low, accepted)
    ensures Headed(low) && wire == Flat(written) + Cut(low)
  {
  }

  lemma Empty()
    ensures Unsent([]) == 0 && Headed([]) && Cut([]) == [] && Whole([])
  {
  }

  lemma Concat(a: seq<Buffer>, b: seq<Buffer>)
    ensures Packages(a + b) == Packages(a) + Packages(b)
  {
  }

  lemma HighSent(w0: seq<Package>, h0: seq<Buffer>, w: seq<Package>, h: seq<Buffer>, low: seq<Buffer>, accepted: seq<Package>, wire: seq<byte>, wire0: seq<byte>)
    requires w + Packages(h) == w0 + Packages(h0) && Headed(h) && wire == Flat(w) + Cut(h)
    requires Lists(h0, low) && Story(wire0, w0, h0 + low, accepted)
    ensures w + Packages(h + low) == w0 + Packages(h0 + low)
    ensures Lists(h, low) && Story(wire, w, h + low, accepted)
  {
    hide Packages, Of, Flat;
    Concat(h, low);
    Concat(h0, low);
    assert w + (Packages(h) + Packages(low)) == (w + Packages(h)) + Packages(low);
    assert w0 + (Packages(h0) + Packages(low)) == (w0 + Packages(h0)) + Packages(low);
  }

  lemma LowSent(w0: seq<Package>, l0: seq<Buffer>, w: seq<Package>, l: seq<Buffer>, accepted: seq<Package>, wire: seq<byte>, wire0: seq<byte>)
    requires w + Packages(l) == w0 + Packages(l0) && |l| <= |l0| && Headed(l) && wire == Flat(w) + Cut(l)
    requires forall i :: 0 <= i < |l0| ==> l0[i].pkg.prio == Low
    requires Story(wire0, w0, l0, accepted)
    ensures Story(wire, w, l, accepted)
    ensures forall i :: 0 <= i < |l| ==> l[i].pkg.prio == Low
  {
    hide Of, Flat;
    forall i | 0 <= i < |l| ensures l[i].pkg.prio == Low {
      var k := |l0| - |l| + i;
      assert (w + Packages(l))[|w| + i] == l[i].pkg;
      assert (w0 + Packages(l0))[|w0| + k] == l0[k].pkg;
    }
  }

  lemma AllLow(high: seq<Buffer>, low: seq<Buffer>)
    requires Lists(high, low)
    ensures Whole(low) && forall i :: 0 <= i < |low| ==> low[i].pkg.prio == Low
  {
  }

  lemma OffersNone(l: seq<Buffer>)
    requires l == []
    ensures Offers([], l)
  {
  }

  lemma SomeOffered(cs: seq<Call>, l: seq<Buffer>)
    requires Offers(cs, l) && l != []
    ensures cs != []
  {
  }

  lemma NotBegun(l: seq<Buffer>)
    requires Headed(l) && (l == [] || l[0].off == 0)
    ensures Whole(l)
  {
  }

  lemma PartlyWritten(b: Buffer, n: nat, rest: seq<Buffer>)
    requires Headed(rest) && rest != [] && b == rest[0] && n < |b.pkg.data| - b.off
    ensures var r := [b.(off := b.off + n)] + rest[1..];
      && Headed(r) && Packages(r) == Packages(rest) && Unsent(r) == Unsent(rest) - n
      && Cut(r) == Cut(rest) + b.pkg.data[b.off..][..n]
  {
    var r := [b.(off := b.off + n)] + rest[1..];
    assert r[1..] == rest[1..];
    assert Packages(r) == Packages(rest);
  }

  lemma CallMade(before: seq<Call>, cs: seq<Call>, c: Call)
    ensures before <= before + cs + [c] && Since(before, before + cs + [c]) == cs + [c]
    ensures AllTaken(cs + [c]) <==> AllTaken(cs) && c.n == |c.data|
    ensures Broken(cs + [c]) <==> c.n == -2
  {
    var d := cs + [c];
    assert d[|cs|] == c && forall i :: 0 <= i < |cs| ==> d[i] == cs[i];
    if AllTaken(d) {
      forall i | 0 <= i < |cs| ensures cs[i].n == |cs[i].data| { assert d[i] == cs[i]; }
    }
  }

  lemma NoCalls()
    ensures AllTaken([]) && !Broken([])
  {
  }

  lemma FirstOffered(cs: seq<Call>, high: seq<Buffer>, low: seq<Buffer>)
    requires Offers(cs, high)
    ensures high != [] || low == [] ==> Offers(cs, high + low)
  {
    if high != [] { assert (high + low)[0] == high[0]; }
  }

  lemma CallsJoined(before: seq<Call>, a: seq<Call>, b: seq<Call>, high: seq<Buffer>, low: seq<Buffer>)
    requires Offers(a, high) && Offers(b, low) && b != [] && (high == [] ==> a == [])
    ensures before <= before + a + b && Since(before, before + a + b) == a + b
    ensures (AllTaken(a + b) <==> AllTaken(a) && AllTaken(b)) && (Broken(a + b) <==> Broken(b)) && Offers(a + b, high + low)
  {
    var c := a + b;
    assert AllTaken(c) ==> AllTaken(a) by { if AllTaken(c) { assert forall i :: 0 <= i < |a| ==> c[i] == a[i]; } }
    assert AllTaken(c) ==> AllTaken(b) by { if AllTaken(c) { assert forall i :: 0 <= i < |b| ==> b[i] == c[|a| + i]; } }
    if high != [] { assert (high + low)[0] == high[0] && c[0] == a[0]; } else { assert high + low == low && c == b; }
  }

  lemma HeadFits(rest: seq<Buffer>)
    requires Headed(rest) && rest != []
    ensures rest[0].off <= |rest[0].pkg.data| && Left(rest[0]) == rest[0].pkg.data[rest[0].off..]
  {
  }

  lemma Finished(b: Buffer, rest: seq<Buffer>, written: seq<Package>, wire: seq<byte>)
    requires Headed(rest) && rest != [] && b == rest[0] && b.off <= |b.pkg.data|
    requires wire == Flat(written) + Cut(rest) + b.pkg.data[b.off..]
    ensures Headed(rest[1..]) && wire == Flat(written + [b.pkg]) + Cut(rest[1..])
    ensures (written + [b.pkg]) + Packages(rest[1..]) == written + Packages(rest)
    ensures Unsent(rest) == |b.pkg.data| - b.off + Unsent(rest[1..])
  {
    hide Unsent, Packages, Flat;
    Pop(rest);
    WholeWritten(b, rest, written, wire);
    assert (written + [b.pkg]) + Packages(rest[1..]) == written + ([b.pkg] + Packages(rest[1..]));
  }

  lemma WholeWritten(b: Buffer, rest: seq<Buffer>, written: seq<Package>, wire: seq<byte>)
    requires Headed(rest) && rest != [] && b == rest[0] && b.off <= |b.pkg.data|
    requires wire == Flat(written) + Cut(rest) + b.pkg.data[b.off..]
    ensures Headed(rest[1..]) && wire == Flat(written + [b.pkg]) + Cut(rest[1..])
  {
    hide Flat;
    FlatSnoc(written, b.pkg);
    assert Cut(rest[1..]) == [];
    assert b.pkg.data == Cut(rest) + b.pkg.data[b.off..];
    assert Flat(written) + Cut(rest) + b.pkg.data[b.off..] == Flat(written) + b.pkg.data;
  }

  lemma Pop(rest: seq<Buffer>)
    requires rest != []
    ensures Packages(rest) == [rest[0].pkg] + Packages(rest[1..])
    ensures Unsent(rest) == |rest[0].pkg.data| - rest[0].off + Unsent(rest[1..])
  {
  }
}
