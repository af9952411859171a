/**
  Cutting byte streams into packages: each is two bytes of length, big-endian,
  and that many bytes. Chunks of many streams arrive interleaved; what a stream
  has begun is kept in a hash table and finished packages go through a ring.
 */
module NetPack {
  import opened Common
  import opened MessageQueue

  const QUEUESIZE := 1024
  const HASHSIZE := 4096

  datatype Pack = Pack(id: int, data: seq<byte>)

  // A package not yet complete: its first length byte alone (read == -1), or
  // its length and the first read bytes of its data.
  datatype Uncomplete = Uncomplete(id: int, read: int, header: byte, size: nat, buffer: seq<byte>)

  // ---------------------------------------------------------------- the format

  function ReadSize(hi: byte, lo: byte): (r: nat)
    ensures r < 0x10000
  {
    hi * 256 + lo
  }

  // The packages at the front of a stream, and the rest.
  function Parse(s: seq<byte>): (r: (seq<seq<byte>>, seq<byte>)) {
    if |s| < 2 || |s| - 2 < ReadSize(s[0], s[1]) then ([], s)
    else
      var n := ReadSize(s[0], s[1]);
      var t := Parse(s[2 + n..]);
      ([s[2..2 + n]] + t.0, t.1)
  }

  // Stopping anywhere and going on from the rest changes nothing.
  lemma {:induction false} ParseAppend(a: seq<byte>, b: seq<byte>)
    ensures Parse(a + b).0 == Parse(a).0 + Parse(Parse(a).1 + b).0
    ensures Parse(a + b).1 == Parse(Parse(a).1 + b).1
    decreases |a|
  {
    if |a| < 2 || |a| - 2 < ReadSize(a[0], a[1]) {
      assert Parse(a) == ([], a);
    } else {
      var n := ReadSize(a[0], a[1]);
      ParseAppend(a[2 + n..], b);
      assert (a + b)[2 + n..] == a[2 + n..] + b;
      assert (a + b)[2..2 + n] == a[2..2 + n];
    }
  }

  // The two length bytes, big-endian.
  function WriteSize(n: nat): (r: seq<byte>)
    requires n < 0x10000
    ensures |r| == 2 && ReadSize(r[0], r[1]) == n
  {
    [n / 256, n % 256]
  }

  // A stream that starts with the length of a package and some of its data.
  lemma ParseBegun(n: nat, have: seq<byte>, more: seq<byte>)
    requires n < 0x10000 && |have| <= n
    ensures var s, need := WriteSize(n) + have + more, n - |have|;
      if |more| < need then Parse(s) == ([], s)
      else Parse(s) == ([have + more[..need]] + Parse(more[need..]).0, Parse(more[need..]).1)
  {
    var s, need := WriteSize(n) + have + more, n - |have|;
    assert s[0] == WriteSize(n)[0] && s[1] == WriteSize(n)[1];
    hide WriteSize, ReadSize;
    if |more| >= need {
      assert s[2 + n..] == more[need..] && s[2..2 + n] == have + more[..need];
    }
  }

  // A package as it is sent; longer data is refused.
  function Encode(d: seq<byte>): (r: Option<seq<byte>>)
    ensures r.Some? <==> |d| < 0x10000
  {
    if |d| >= 0x10000 then None else Some(WriteSize(|d|) + d)
  }

  lemma EncodeParse(d: seq<byte>)
    requires |d| < 0x10000
    ensures Parse(Encode(d).value) == ([d], [])
  {
    hide ReadSize, WriteSize;
    ParseBegun(|d|, [], d);
    assert WriteSize(|d|) + [] + d == WriteSize(|d|) + d;
    assert d[|d|..] == [] && [] + d[..|d|] == d;
    assert Parse([]) == ([], []) && [d] + [] == [d];
  }

  ghost function Stream(ds: seq<seq<byte>>): (r: seq<byte>)
    requires forall d <- ds :: |d| < 0x10000
  {
    if ds == [] then [] else Stream(ds[..|ds| - 1]) + Encode(ds[|ds| - 1]).value
  }

  // What was sent is what is cut out of the stream.
  lemma {:induction false} RoundTrip(ds: seq<seq<byte>>)
    requires forall d <- ds :: |d| < 0x10000
    ensures Parse(Stream(ds)) == (ds, [])
  {
    hide Encode;
    if ds != [] {
      var n := |ds| - 1;
      assert Stream(ds) == Stream(ds[..n]) + Encode(ds[n]).value;
      RoundTrip(ds[..n]);
      Joined(Stream(ds[..n]), ds[..n], ds[n]);
      assert ds[..n] + [ds[n]] == ds;
    }
  }

  lemma Joined(s: seq<byte>, ds: seq<seq<byte>>, d: seq<byte>)
    requires Parse(s) == (ds, []) && |d| < 0x10000
    ensures Parse(s + Encode(d).value) == (ds + [d], [])
  {
    hide Parse, Encode;
    ParseAppend(s, Encode(d).value);
    EncodeParse(d);
    assert [] + Encode(d).value == Encode(d).value;
  }

  // ---------------------------------------------------------------- begun packages

  // The bytes that a begun package stands for.
  ghost function Bytes(u: Uncomplete): (r: seq<byte>)
    requires Begun(u)
  {
    if u.read < 0 then [u.header] else WriteSize(u.size) + u.buffer
  }

  ghost predicate Begun(u: Uncomplete) {
    (u.read == -1 && u.buffer == []) || (0 <= u.read == |u.buffer| < u.size < 0x10000)
  }

  function HashFd(fd: int): (r: nat)
    ensures r < HASHSIZE
  {
    (fd / 0x100_0000 + fd / 0x1000 + fd) % 0x1_0000_0000 % HASHSIZE
  }

  ghost predicate ChainOk(c: seq<Uncomplete>, h: nat) {
    && (forall i :: 0 <= i < |c| ==> Begun(c[i]) && HashFd(c[i].id) == h)
    && forall i, j :: 0 <= i < j < |c| ==> c[i].id != c[j].id
  }

  // What is kept for fd in a chain.
  ghost function Kept(c: seq<Uncomplete>, fd: int): (r: seq<byte>)
    requires forall i :: 0 <= i < |c| ==> Begun(c[i])
  {
    if c == [] then [] else if c[0].id == fd then Bytes(c[0]) else Kept(c[1..], fd)
  }

  lemma {:induction false} KeptAt(c: seq<Uncomplete>, h: nat, i: nat)
    requires ChainOk(c, h) && i < |c|
    ensures Kept(c, c[i].id) == Bytes(c[i])
  {
    hide HashFd;
    if i > 0 { KeptAt(c[1..], h, i - 1); }
  }

  lemma {:induction false} KeptNone(c: seq<Uncomplete>, fd: int)
    requires forall i :: 0 <= i < |c| ==> Begun(c[i]) && c[i].id != fd
    ensures Kept(c, fd) == []
  {
    if c != [] { KeptNone(c[1..], fd); }
  }

  // Taking one package out of the chain leaves the others.
  lemma {:induction false} KeptWithout(c: seq<Uncomplete>, h: nat, i: nat, fd: int)
    requires ChainOk(c, h) && i < |c|
    ensures ChainOk(c[..i] + c[i + 1..], h)
    ensures fd != c[i].id ==> Kept(c[..i] + c[i + 1..], fd) == Kept(c, fd)
    ensures var d := c[..i] + c[i + 1..]; forall j :: 0 <= j < |d| ==> d[j].id != c[i].id
  {
    hide HashFd, Bytes;
    var d := c[..i] + c[i + 1..];
    ChainWithout(c, h, i);
    if i > 0 {
      var e := c[1..];
      KeptWithout(e, h, i - 1, fd);
      assert e[i - 1] == c[i] && d[0] == c[0];
      assert d[1..] == e[..i - 1] + e[i..];
    } else {
      assert d == c[1..];
    }
  }

  lemma ChainWithout(c: seq<Uncomplete>, h: nat, i: nat)
    requires ChainOk(c, h) && i < |c|
    ensures var d := c[..i] + c[i + 1..]; ChainOk(d, h) && forall j :: 0 <= j < |d| ==> d[j].id != c[i].id
  {
    hide HashFd;
    var d := c[..i] + c[i + 1..];
    assert forall j :: 0 <= j < |d| ==> d[j] == if j < i then c[j] else c[j + 1];
  }

  ghost function Tagged(fd: int, ds: seq<seq<byte>>): (r: seq<Pack>)
    ensures |r| == |ds|
  {
    seq(|ds|, i requires 0 <= i < |ds| => Pack(fd, ds[i]))
  }

  datatype Outcome = Nothing | Data(id: int, data: seq<byte>) | More

  class Filter {
    const hash: array<seq<Uncomplete>>
    var queue: array<Pack>
    var head: nat
    var tail: nat

    ghost predicate Valid()
      reads this, hash
    {
      && hash.Length == HASHSIZE && (forall h :: 0 <= h < HASHSIZE ==> ChainOk(hash[h], h))
      && queue.Length >= 2 && head < queue.Length && tail < queue.Length
    }

    // The packages waiting to be popped.
    ghost function Waiting(): (r: seq<Pack>)
      requires Valid()
      reads this, hash, queue
    {
      Ring(queue[..], head, tail)
    }

    // What stream fd has begun.
    ghost function Rest(fd: int): (r: seq<byte>)
      requires Valid()
      reads this, hash
    {
      Kept(hash[HashFd(fd)], fd)
    }

    ghost predicate Absent(fd: int)
      requires Valid()
      reads this, hash
    {
      forall i :: 0 <= i < |hash[HashFd(fd)]| ==> hash[HashFd(fd)][i].id != fd
    }

    constructor ()
      ensures Valid() && fresh(hash) && fresh(queue) && Waiting() == [] && forall fd :: Rest(fd) == []
    {
      hash := new seq<Uncomplete>[HASHSIZE](_ => []);
      queue := new Pack[QUEUESIZE](_ => Pack(0, []));
      head, tail := 0, 0;
    }

    // Takes what fd has begun out of its chain.
    method FindUncomplete(fd: int) returns (r: Option<Uncomplete>)
      requires Valid()
      modifies hash
      ensures Valid() && Absent(fd)
      ensures r.Some? ==> r.value.id == fd && Begun(r.value) && Bytes(r.value) == old(Rest(fd))
      ensures r.None? ==> old(Rest(fd)) == []
      ensures forall g :: g != fd ==> Rest(g) == old(Rest(g))
    {
      hide HashFd, Bytes, Kept;
      var h := HashFd(fd);
      var c := hash[h];
      var i := 0;
      while i < |c| && c[i].id != fd
        invariant 0 <= i <= |c| && forall j :: 0 <= j < i ==> c[j].id != fd
      {
        i := i + 1;
      }
      if i == |c| {
        KeptNone(c, fd);
        return None;
      }
      KeptAt(c, h, i);
      forall g ensures g != fd ==> Kept(c[..i] + c[i + 1..], g) == Kept(c, g) { KeptWithout(c, h, i, g); }
      KeptWithout(c, h, i, fd);
      hash[h] := c[..i] + c[i + 1..];
      r := Some(c[i]);
    }

    // Puts a begun package at the head of its chain.
    method SaveUncomplete(u: Uncomplete)
      requires Valid() && Absent(u.id) && Begun(u)
      modifies hash
      ensures Valid() && Rest(u.id) == Bytes(u)
      ensures forall g :: g != u.id ==> Rest(g) == old(Rest(g))
    {
      hide HashFd, Bytes;
      var h := HashFd(u.id);
      assert ([u] + hash[h])[1..] == hash[h];
      hash[h] := [u] + hash[h];
    }

    method ExpandQueue()
      requires Valid() && head == tail
      modifies this
      ensures Valid() && fresh(queue)
      ensures Waiting() == old(queue[head..] + queue[..head])
      ensures forall fd :: Rest(fd) == old(Rest(fd))
    {
      hide HashFd, Kept, ChainOk;
      var cap := queue.Length;
      var bigger := new Pack[cap + QUEUESIZE](_ => Pack(0, []));
      ghost var all := queue[head..] + queue[..head];
      for i := 0 to cap
        invariant forall k :: 0 <= k < i ==> bigger[k] == all[k]
        modifies bigger
      {
        WrapOnce(head + i, cap);
        bigger[i] := queue[(head + i) % cap];
      }
      head, tail, queue := 0, cap, bigger;
      assert queue[..][0..cap] == all;
    }

    method PushData(p: Pack)
      requires Valid()
      modifies this, queue
      ensures Valid() && (queue == old(queue) || fresh(queue))
      ensures Waiting() == old(Waiting()) + [p]
      ensures forall fd :: Rest(fd) == old(Rest(fd))
    {
      hide HashFd, Kept, ChainOk;
      ghost var was := Waiting();
      queue[tail] := p;
      tail := tail + 1;
      if tail >= queue.Length {
        tail := tail - queue.Length;
      }
      if head == tail {
        assert queue[head..] + queue[..head] == was + [p];
        ExpandQueue();
      } else {
        assert Waiting() == was + [p];
      }
    }

    method Pop() returns (r: Option<Pack>)
      requires Valid()
      modifies this
      ensures Valid() && queue == old(queue)
      ensures r.None? <==> old(Waiting()) == []
      ensures r.Some? ==> [r.value] + Waiting() == old(Waiting())
      ensures r.None? ==> Waiting() == []
      ensures forall fd :: Rest(fd) == old(Rest(fd))
    {
      hide HashFd, Kept, ChainOk;
      if head == tail { return None; }
      r := Some(queue[head]);
      head := head + 1;
      if head >= queue.Length {
        head := 0;
      }
    }

    // A stream at the start of a package, with bytes to read: whole packages
    // are queued and what is left is kept.
    method PushMore(fd: int, s: seq<byte>)
      requires Valid() && Absent(fd) && s != []
      modifies this, queue, hash
      ensures Valid() && (queue == old(queue) || fresh(queue))
      ensures Waiting() == old(Waiting()) + Tagged(fd, Parse(s).0)
      ensures Rest(fd) == Parse(s).1
      ensures forall g :: g != fd ==> Rest(g) == old(Rest(g))
      decreases |s|
    {
      hide HashFd, Kept, ChainOk, ReadSize, WriteSize, Ring, Tagged;
      TagEmpty(fd, Waiting());
      if |s| == 1 {
        SaveUncomplete(Uncomplete(fd, -1, s[0], 0, []));
        return;
      }
      var size := ReadSize(s[0], s[1]);
      SizeBytes(s);
      if |s| - 2 < size {
        SaveUncomplete(Uncomplete(fd, |s| - 2, 0, size, s[2..]));
        return;
      }
      TagFirst(fd, s[2..2 + size], Parse(s[2 + size..]).0, Waiting());
      PushData(Pack(fd, s[2..2 + size]));
      if |s| - 2 - size > 0 {
        PushMore(fd, s[2 + size..]);
      } else {
        NothingKept(fd);
        TagEmpty(fd, Waiting());
      }
    }

    // Bytes of stream fd: one finished package is handed out at once, more than
    // one go through the queue.
    method FilterData(fd: int, s: seq<byte>) returns (r: Outcome)
      requires Valid() && s != []
      modifies this, queue, hash
      ensures Valid() && (queue == old(queue) || fresh(queue))
      ensures Rest(fd) == Parse(old(Rest(fd)) + s).1
      ensures forall g :: g != fd ==> Rest(g) == old(Rest(g))
      ensures Emits(r, fd, Parse(old(Rest(fd)) + s), old(Waiting()), Waiting())
    {
      hide HashFd, Kept, ChainOk, ReadSize, WriteSize, Ring, Tagged, Parse, Emits;
      var u := FindUncomplete(fd);
      if u.Some? {
        r := Fill(fd, u.value, s);
      } else {
        assert [] + s == s;
        r := Begin(fd, s);
      }
    }

    // Goes on with a begun package.
    method Fill(fd: int, begun: Uncomplete, bytes: seq<byte>) returns (r: Outcome)
      requires Valid() && bytes != [] && Absent(fd) && begun.id == fd && Begun(begun)
      modifies this, queue, hash
      ensures Valid() && (queue == old(queue) || fresh(queue))
      ensures Rest(fd) == Parse(Bytes(begun) + bytes).1
      ensures forall g :: g != fd ==> Rest(g) == old(Rest(g))
      ensures Emits(r, fd, Parse(Bytes(begun) + bytes), old(Waiting()), Waiting())
    {
      hide HashFd, Kept, ChainOk, ReadSize, WriteSize, Ring, Tagged, Parse, Emits;
      var u, s := begun, bytes;
      if u.read < 0 {
        HeaderByte(u, s);
        u := u.(size := ReadSize(u.header, s[0]), buffer := [], read := 0);
        s := s[1..];
      }
      var need := u.size - u.read;
      assert WriteSize(u.size) + u.buffer + s == Bytes(begun) + bytes;
      ParseBegun(u.size, u.buffer, s);
      if |s| < need {
        SaveUncomplete(u.(buffer := u.buffer + s, read := u.read + |s|));
        assert WriteSize(u.size) + (u.buffer + s) == WriteSize(u.size) + u.buffer + s;
        EmitNothing(fd, Parse(Bytes(begun) + bytes), Waiting());
        return Nothing;
      }
      var data := u.buffer + s[..need];
      r := Finish(fd, data, s[need..]);
    }

    // A stream at the start of a package.
    method Begin(fd: int, s: seq<byte>) returns (r: Outcome)
      requires Valid() && s != [] && Absent(fd)
      modifies this, queue, hash
      ensures Valid() && (queue == old(queue) || fresh(queue))
      ensures Rest(fd) == Parse(s).1
      ensures forall g :: g != fd ==> Rest(g) == old(Rest(g))
      ensures Emits(r, fd, Parse(s), old(Waiting()), Waiting())
    {
      hide HashFd, Kept, ChainOk, ReadSize, WriteSize, Ring, Tagged, Parse, Emits;
      EmitNothing(fd, Parse(s), Waiting());
      if |s| == 1 {
        ShortStream(s);
        SaveUncomplete(Uncomplete(fd, -1, s[0], 0, []));
        return Nothing;
      }
      var size := ReadSize(s[0], s[1]);
      SizeBytes(s);
      ParseBegun(size, [], s[2..]);
      assert WriteSize(size) + [] + s[2..] == s;
      if |s| - 2 < size {
        SaveUncomplete(Uncomplete(fd, |s| - 2, 0, size, s[2..]));
        return Nothing;
      }
      assert [] + s[2..][..size] == s[2..][..size];
      r := Finish(fd, s[2..][..size], s[2..][size..]);
    }

    // A package is complete and the bytes after it follow.
    method Finish(fd: int, data: seq<byte>, s: seq<byte>) returns (r: Outcome)
      requires Valid() && Absent(fd)
      modifies this, queue, hash
      ensures Valid() && (queue == old(queue) || fresh(queue))
      ensures Rest(fd) == Parse(s).1
      ensures forall g :: g != fd ==> Rest(g) == old(Rest(g))
      ensures Emits(r, fd, ([data] + Parse(s).0, Parse(s).1), old(Waiting()), Waiting())
    {
      hide HashFd, Kept, ChainOk, ReadSize, WriteSize, Ring, Tagged, Parse, Emits;
      if |s| == 0 {
        NothingKept(fd);
        ShortStream(s);
        EmitOne(fd, data, Waiting());
        return Data(fd, data);
      }
      ghost var was := Waiting();
      PushData(Pack(fd, data));
      PushMore(fd, s);
      NotEmpty(s);
      EmitMore(fd, data, Parse(s), was);
      r := More;
    }

    // The stream ends; what it has begun is dropped.
    method CloseUncomplete(fd: int)
      requires Valid()
      modifies hash
      ensures Valid() && Rest(fd) == [] && forall g :: g != fd ==> Rest(g) == old(Rest(g))
    {
      var u := FindUncomplete(fd);
      NothingKept(fd);
    }

    lemma NothingKept(fd: int)
      requires Valid() && Absent(fd)
      ensures Rest(fd) == []
    {
      KeptNone(hash[HashFd(fd)], fd);
    }

    // Any run of chunks, closed streams and pops: what has been returned and what
    // waits is what the abstract flow of the events says.
    method Serve(events: seq<Event>) returns (returned: seq<Pack>)
      requires Valid() && Waiting() == [] && (forall fd :: Rest(fd) == []) && forall e <- events :: e.Chunk? ==> e.bytes != []
      modifies this, queue, hash
      ensures Valid() && (forall fd :: Rest(fd) == RestAt(events, fd))
      ensures returned == Erase(After(events).returned) && Waiting() == Erase(After(events).waiting)
    {
      hide HashFd, Kept, ChainOk, Ring, Parse, Conn, Erase, After;
      returned := [];
      NothingYet();
      for i := 0 to |events|
        invariant Valid() && (queue == old(queue) || fresh(queue))
        invariant forall fd :: Rest(fd) == RestAt(events[..i], fd)
        invariant returned == Erase(After(events[..i]).returned) && Waiting() == Erase(After(events[..i]).waiting)
      {
        assert events[i] in events;
        assert events[..i + 1] == events[..i] + [events[i]];
        forall g ensures RestAt(events[..i + 1], g) == RestNext(events[..i], events[i], g) { RestStep(events[..i], events[i], g); }
        var out := Handle(events[i], events[..i]);
        returned := returned + out;
      }
      assert events[..|events|] == events;
    }

    // One event: what it returns.
    method Handle(e: Event, ghost before: seq<Event>) returns (out: seq<Pack>)
      requires Valid() && (forall fd :: Rest(fd) == RestAt(before, fd)) && (e.Chunk? ==> e.bytes != [])
      requires Waiting() == Erase(After(before).waiting)
      modifies this, queue, hash
      ensures Valid() && (queue == old(queue) || fresh(queue))
      ensures forall fd :: Rest(fd) == RestNext(before, e, fd)
      ensures Waiting() == Erase(After(before + [e]).waiting)
      ensures Erase(After(before).returned) + out == Erase(After(before + [e]).returned)
    {
      hide HashFd, Kept, ChainOk, Ring, Parse, Conn, Erase, After;
      FlowNext(before, e);
      match e
      case Chunk(fd, s) =>
        var r := FilterData(fd, s);
        out := if r.Data? then [Pack(r.id, r.data)] else [];
      case Close(fd) =>
        CloseUncomplete(fd);
        out := [];
      case PopOne =>
        ghost var w := Waiting();
        var p := Pop();
        assert p.Some? ==> w[1..] == Waiting() && w[1..] == Erase(After(before + [e]).waiting);
        out := if p.Some? then [p.value] else [];
    }
  }

  // ---------------------------------------------------------------- runs

  datatype Event = Chunk(fd: int, bytes: seq<byte>) | Close(fd: int) | PopOne

  // The packages of the streams of fd that were closed, and the bytes of the
  // one that is open.
  ghost function Conn(events: seq<Event>, fd: int): (r: (seq<seq<byte>>, seq<byte>)) {
    if events == [] then ([], [])
    else
      var c, e := Conn(events[..|events| - 1], fd), events[|events| - 1];
      if e.PopOne? || e.fd != fd then c
      else if e.Chunk? then (c.0, c.1 + e.bytes)
      else (c.0 + Parse(c.1).0, [])
  }

  // All packages that the bytes of fd have completed.
  ghost function Total(events: seq<Event>, fd: int): (r: seq<seq<byte>>) {
    Conn(events, fd).0 + Parse(Conn(events, fd).1).0
  }

  // What the open stream of fd has begun.
  ghost function RestAt(events: seq<Event>, fd: int): (r: seq<byte>) {
    Parse(Conn(events, fd).1).1
  }

  // What a chunk of fd completes, and what it leaves begun.
  ghost function Completed(before: seq<Event>, fd: int, s: seq<byte>): (r: (seq<seq<byte>>, seq<byte>)) {
    Parse(RestAt(before, fd) + s)
  }

  ghost function RestNext(before: seq<Event>, e: Event, fd: int): (r: seq<byte>) {
    if e.PopOne? || e.fd != fd then RestAt(before, fd)
    else if e.Chunk? then Completed(before, fd, e.bytes).1
    else []
  }

  // A package with its place among those of its stream.
  datatype Item = Item(id: int, no: nat, data: seq<byte>)

  ghost function Numbered(fd: int, from: nat, ds: seq<seq<byte>>): (r: seq<Item>)
    ensures |r| == |ds|
  {
    seq(|ds|, i requires 0 <= i < |ds| => Item(fd, from + i, ds[i]))
  }

  ghost function Erase(s: seq<Item>): (r: seq<Pack>)
    ensures |r| == |s|
  {
    seq(|s|, i requires 0 <= i < |s| => Pack(s[i].id, s[i].data))
  }

  // The packages returned so far, in the order of their return, and those that
  // wait to be popped.
  datatype Flow = Flow(returned: seq<Item>, waiting: seq<Item>)

  ghost function Flows(f: Flow, before: seq<Event>, e: Event): (r: Flow) {
    match e
    case Close(_) => f
    case PopOne => if f.waiting == [] then f else Flow(f.returned + [f.waiting[0]], f.waiting[1..])
    case Chunk(fd, s) =>
      var p := Completed(before, fd, s);
      var add := Numbered(fd, |Total(before, fd)|, p.0);
      match OutcomeOf(fd, p)
      case Nothing => f
      case Data(_, _) => f.(returned := f.returned + add)
      case More => f.(waiting := f.waiting + add)
  }

  ghost function After(events: seq<Event>): (r: Flow) {
    if events == [] then Flow([], [])
    else Flows(After(events[..|events| - 1]), events[..|events| - 1], events[|events| - 1])
  }

  lemma NothingYet()
    ensures Parse([]) == ([], []) && After([]) == Flow([], []) && Erase([]) == []
    ensures forall fd :: Conn([], fd) == ([], []) && Total([], fd) == [] && RestAt([], fd) == []
  {
  }

  lemma LastEvent(before: seq<Event>, e: Event)
    ensures (before + [e])[..|before|] == before && (before + [e])[|before|] == e
    ensures After(before + [e]) == Flows(After(before), before, e)
  {
    assert (before + [e])[..|before|] == before;
  }

  // An event adds the packages it completes to those of its stream.
  lemma RestStep(before: seq<Event>, e: Event, g: int)
    ensures RestAt(before + [e], g) == RestNext(before, e, g)
    ensures Total(before + [e], g) == Total(before, g) + if e.Chunk? && e.fd == g then Completed(before, g, e.bytes).0 else []
  {
    hide Parse;
    ShortStream([]);
    ConnNext(before, e, g);
    hide Conn;
    var c := Conn(before, g);
    if e.Chunk? && e.fd == g {
      ParseAppend(c.1, e.bytes);
      assert c.0 + (Parse(c.1).0 + Parse(Parse(c.1).1 + e.bytes).0) == c.0 + Parse(c.1).0 + Parse(Parse(c.1).1 + e.bytes).0;
    }
  }

  lemma ConnNext(before: seq<Event>, e: Event, g: int)
    ensures var c := Conn(before, g);
      Conn(before + [e], g) ==
        if e.PopOne? || e.fd != g then c else if e.Chunk? then (c.0, c.1 + e.bytes) else (c.0 + Parse(c.1).0, [])
  {
    hide Parse;
    assert (before + [e])[..|before|] == before;
  }

  lemma EraseConcat(a: seq<Item>, b: seq<Item>)
    ensures Erase(a + b) == Erase(a) + Erase(b)
  {
  }

  lemma EraseNumbered(fd: int, from: nat, ds: seq<seq<byte>>)
    ensures Erase(Numbered(fd, from, ds)) == Tagged(fd, ds)
  {
  }

  // The flow without its numbers, one event on.
  lemma FlowNext(before: seq<Event>, e: Event)
    ensures var f, g := After(before), After(before + [e]);
      && (e.Close? ==> g == f)
      && (e.PopOne? && f.waiting == [] ==> g == f && Erase(f.waiting) == [])
      && (e.PopOne? && f.waiting != [] ==> Erase(f.waiting) == [Erase(f.waiting)[0]] + Erase(g.waiting))
      && (e.PopOne? && f.waiting != [] ==> Erase(g.returned) == Erase(f.returned) + [Erase(f.waiting)[0]])
      && (e.Chunk? ==> var p := Completed(before, e.fd, e.bytes);
        match OutcomeOf(e.fd, p)
        case Nothing => g == f
        case Data(id, data) => g.waiting == f.waiting && Erase(g.returned) == Erase(f.returned) + [Pack(id, data)]
        case More => g.returned == f.returned && Erase(g.waiting) == Erase(f.waiting) + Tagged(e.fd, p.0))
  {
    hide Parse, Conn;
    LastEvent(before, e);
    var f := After(before);
    hide After;
    match e
    case Close(_) =>
    case PopOne =>
      if f.waiting != [] {
        assert f.waiting == [f.waiting[0]] + f.waiting[1..];
        EraseConcat([f.waiting[0]], f.waiting[1..]);
        EraseConcat(f.returned, [f.waiting[0]]);
      }
    case Chunk(fd, s) =>
      var p := Completed(before, fd, s);
      var add := Numbered(fd, |Total(before, fd)|, p.0);
      EraseConcat(f.returned, add);
      EraseConcat(f.waiting, add);
      EraseNumbered(fd, |Total(before, fd)|, p.0);
  }

  // ---------------------------------------------------------------- one stream

  ghost function Of(s: seq<Item>, fd: int): (r: seq<Item>) {
    if s == [] then [] else (if s[0].id == fd then [s[0]] else []) + Of(s[1..], fd)
  }

  lemma {:induction false} OfConcat(a: seq<Item>, b: seq<Item>, fd: int)
    ensures Of(a + b, fd) == Of(a, fd) + Of(b, fd)
  {
    if a == [] {
      assert a + b == b;
    } else {
      var first := if a[0].id == fd then [a[0]] else [];
      assert (a + b)[1..] == a[1..] + b;
      OfConcat(a[1..], b, fd);
      assert first + (Of(a[1..], fd) + Of(b, fd)) == first + Of(a[1..], fd) + Of(b, fd);
    }
  }

  lemma {:induction false} OfOwn(s: seq<Item>, fd: int, g: int)
    requires forall i :: 0 <= i < |s| ==> s[i].id == g
    ensures Of(s, fd) == if fd == g then s else []
  {
    if s != [] {
      OfOwn(s[1..], fd, g);
      assert s == [s[0]] + s[1..];
    }
  }

  // The packages of fd in the order in which they have been or will be returned
  // if no more bytes come.
  ghost function Line(events: seq<Event>, fd: int): (r: seq<Item>) {
    Of(After(events).returned, fd) + Of(After(events).waiting, fd)
  }

  // A package of fd is returned at once although another one waits.
  ghost predicate Overtakes(before: seq<Event>, e: Event, fd: int) {
    && e.Chunk? && e.fd == fd && OutcomeOf(fd, Completed(before, fd, e.bytes)).Data?
    && Of(After(before).waiting, fd) != []
  }

  ghost predicate Overtaken(events: seq<Event>, fd: int) {
    exists i :: 0 <= i < |events| && Overtakes(events[..i], events[i], fd)
  }

  lemma OvertakenNext(before: seq<Event>, e: Event, fd: int)
    ensures Overtaken(before + [e], fd) <==> Overtaken(before, fd) || Overtakes(before, e, fd)
  {
    hide Overtakes;
    var all := before + [e];
    assert all[..|before|] == before && all[|before|] == e;
    forall i | 0 <= i < |before| ensures Overtakes(all[..i], all[i], fd) <==> Overtakes(before[..i], before[i], fd) {
      assert all[..i] == before[..i];
    }
  }

  // One event in the line of fd: new packages join at its end, or at the end of
  // those returned.
  lemma LineNext(before: seq<Event>, e: Event, fd: int)
    ensures var r, w := Of(After(before).returned, fd), Of(After(before).waiting, fd);
      var ds := if e.Chunk? && e.fd == fd then Completed(before, fd, e.bytes).0 else [];
      var add := Numbered(fd, |Total(before, fd)|, ds);
      && Line(before, fd) == r + w
      && Line(before + [e], fd) == (if Overtakes(before, e, fd) then r + add + w else r + w + add)
      && (Overtakes(before, e, fd) ==> |ds| == 1 && w != [])
  {
    hide Parse, Conn;
    LastEvent(before, e);
    var f := After(before);
    hide After;
    var r, w := Of(f.returned, fd), Of(f.waiting, fd);
    match e
    case Close(_) => assert r + w + [] == r + w;
    case PopOne =>
      assert r + w + [] == r + w;
      if f.waiting != [] {
        assert f.waiting == [f.waiting[0]] + f.waiting[1..];
        OfConcat([f.waiting[0]], f.waiting[1..], fd);
        OfConcat(f.returned, [f.waiting[0]], fd);
      }
    case Chunk(g, s) =>
      var p := Completed(before, g, s);
      var add := Numbered(g, |Total(before, g)|, p.0);
      OfOwn(add, fd, g);
      OfConcat(f.returned, add, fd);
      OfConcat(f.waiting, add, fd);
      Regrouped(r, w, Of(add, fd));
  }

  lemma Regrouped(r: seq<Item>, w: seq<Item>, n: seq<Item>)
    ensures r + (w + n) == r + w + n && r + n + w == (r + n) + w && r + w + [] == r + w && (w == [] ==> r + n + w == r + w + n)
  {
  }

  lemma NumberedMore(fd: int, a: seq<seq<byte>>, b: seq<seq<byte>>)
    ensures Numbered(fd, 0, a + b) == Numbered(fd, 0, a) + Numbered(fd, |a|, b)
  {
  }

  // Nothing is lost and nothing doubled, in any schedule of chunks and pops.
  lemma {:induction false} Conserved(events: seq<Event>, fd: int)
    ensures multiset(Line(events, fd)) == multiset(Numbered(fd, 0, Total(events, fd)))
  {
    hide Total, Completed, Overtakes;
    if events == [] {
      NothingYet();
    } else {
      var n := |events| - 1;
      var before, e := events[..n], events[n];
      assert events == before + [e];
      Conserved(before, fd);
      LineNext(before, e, fd);
      hide Line;
      RestStep(before, e, fd);
      var ds := if e.Chunk? && e.fd == fd then Completed(before, fd, e.bytes).0 else [];
      NumberedMore(fd, Total(before, fd), ds);
    }
  }

  ghost predicate Inverted(s: seq<Item>) {
    exists i, j :: 0 <= i < j < |s| && s[i].no > s[j].no
  }

  // Joining in the middle does not put a wrong order right.
  lemma InvertedStays(a: seq<Item>, b: seq<Item>, n: seq<Item>)
    requires Inverted(a + b)
    ensures Inverted(a + n + b)
  {
    var s, t := a + b, a + n + b;
    var i, j :| 0 <= i < j < |s| && s[i].no > s[j].no;
    var k := if i < |a| then i else i + |n|;
    var l := if j < |a| then j else j + |n|;
    assert t[k] == s[i] && t[l] == s[j];
  }

  lemma NewInversion(r: seq<Item>, w: seq<Item>, n: seq<Item>)
    requires w != [] && |n| == 1 && w[0].no < n[0].no
    ensures Inverted(r + n + w)
  {
    var t := r + n + w;
    assert t[|r|] == n[0] && t[|r| + 1] == w[0];
  }

  // The packages of a stream keep their order if and only if none of them is
  // returned at once while another one waits.
  lemma {:induction false} InOrderExactly(events: seq<Event>, fd: int)
    ensures Line(events, fd) == Numbered(fd, 0, Total(events, fd)) <==> !Overtaken(events, fd)
    ensures Overtaken(events, fd) ==> Inverted(Line(events, fd))
  {
    hide Total, Completed, Overtakes;
    if events == [] {
      NothingYet();
    } else {
      var n := |events| - 1;
      var before, e := events[..n], events[n];
      assert events == before + [e];
      InOrderExactly(before, fd);
      OrderNext(before, e, fd);
    }
  }

  lemma OrderNext(before: seq<Event>, e: Event, fd: int)
    requires Line(before, fd) == Numbered(fd, 0, Total(before, fd)) <==> !Overtaken(before, fd)
    requires Overtaken(before, fd) ==> Inverted(Line(before, fd))
    ensures Line(before + [e], fd) == Numbered(fd, 0, Total(before + [e], fd)) <==> !Overtaken(before + [e], fd)
    ensures Overtaken(before + [e], fd) ==> Inverted(Line(before + [e], fd))
  {
    hide Total, Completed, Overtakes, Overtaken, Inverted, Line, Numbered;
    OvertakenNext(before, e, fd);
    LineNext(before, e, fd);
    RestStep(before, e, fd);
    var r, w := Of(After(before).returned, fd), Of(After(before).waiting, fd);
    var ds := if e.Chunk? && e.fd == fd then Completed(before, fd, e.bytes).0 else [];
    var had := Total(before, fd);
    var add := Numbered(fd, |had|, ds);
    NumberedMore(fd, had, ds);
    NumberedUpright(fd, had + ds);
    if Overtaken(before, fd) {
      assert (r + w) + [] == r + w && (r + w) + add + [] == r + w + add;
      if Overtakes(before, e, fd) { InvertedStays(r, w, add); } else { InvertedStays(r + w, [], add); }
    } else if Overtakes(before, e, fd) {
      NumbersBelow(fd, had, r, w, ds);
      NewInversion(r, w, add);
    }
  }

  lemma NumberedUpright(fd: int, ds: seq<seq<byte>>)
    ensures !Inverted(Numbered(fd, 0, ds))
  {
  }

  lemma NumbersBelow(fd: int, ds: seq<seq<byte>>, r: seq<Item>, w: seq<Item>, more: seq<seq<byte>>)
    requires r + w == Numbered(fd, 0, ds) && w != [] && more != []
    ensures w[0].no < Numbered(fd, |ds|, more)[0].no
  {
    assert (r + w)[|r|] == w[0];
  }

  // One byte, framed.
  lemma ParseOne(d: byte, rest: seq<byte>)
    ensures Parse([0, 1, d] + rest) == ([[d]] + Parse(rest).0, Parse(rest).1)
  {
    var s := [0, 1, d] + rest;
    assert s[3..] == rest && s[2..3] == [d];
  }

  lemma RunParses()
    ensures Parse([0, 1, 65, 0, 1, 66]) == ([[65], [66]], []) && Parse([0, 1, 67]) == ([[67]], [])
  {
    NothingYet();
    assert [0, 1, 65, 0, 1, 66] == [0, 1, 65] + [0, 1, 66] && [0, 1, 66] == [0, 1, 66] + [] && [0, 1, 67] == [0, 1, 67] + [];
    ParseOne(65, [0, 1, 66]);
    ParseOne(66, []);
    ParseOne(67, []);
    assert [[66]] + [] == [[66]] && [[67]] + [] == [[67]] && [[65]] + [[66]] == [[65], [66]];
  }

  // A chunk on top of a stream that has begun nothing.
  lemma ChunkRun(before: seq<Event>, fd: int, s: seq<byte>, ds: seq<seq<byte>>)
    requires RestAt(before, fd) == [] && Parse(s) == (ds, []) && |ds| >= 1
    ensures var f, g := After(before), After(before + [Chunk(fd, s)]);
      var add := Numbered(fd, |Total(before, fd)|, ds);
      && Completed(before, fd, s) == (ds, [])
      && g == (if |ds| == 1 then Flow(f.returned + add, f.waiting) else Flow(f.returned, f.waiting + add))
      && RestAt(before + [Chunk(fd, s)], fd) == [] && Total(before + [Chunk(fd, s)], fd) == Total(before, fd) + ds
  {
    hide Parse, Total;
    assert [] + s == s;
    LastEvent(before, Chunk(fd, s));
    RestStep(before, Chunk(fd, s), fd);
    hide After;
  }

  lemma PopRun(before: seq<Event>)
    requires After(before).waiting != []
    ensures var f, g := After(before), After(before + [PopOne]);
      g == Flow(f.returned + [f.waiting[0]], f.waiting[1..]) && forall fd :: Total(before + [PopOne], fd) == Total(before, fd)
  {
    hide Parse, Total;
    LastEvent(before, PopOne);
    forall fd ensures Total(before + [PopOne], fd) == Total(before, fd) { RestStep(before, PopOne, fd); }
  }

  // Two packages in one chunk wait; a third one in the next chunk is returned
  // before them, and they follow when they are popped.
  lemma OvertakingRun()
    ensures var events := [Chunk(1, [0, 1, 65, 0, 1, 66]), Chunk(1, [0, 1, 67]), PopOne, PopOne];
      && Total(events, 1) == [[65], [66], [67]]
      && Erase(After(events).returned) == [Pack(1, [67]), Pack(1, [65]), Pack(1, [66])]
      && After(events).waiting == [] && Overtaken(events, 1)
  {
    hide Parse, Total, After, Conn, RestAt, Overtaken, Numbered, Erase;
    var none: seq<Event>, e, f := [], Chunk(1, [0, 1, 65, 0, 1, 66]), Chunk(1, [0, 1, 67]);
    NothingYet();
    RunParses();
    NumberedTwo();
    ChunkRun(none, 1, e.bytes, [[65], [66]]);
    assert none + [e] == [e] && [] + [[65], [66]] == [[65], [66]];
    ChunkRun([e], 1, f.bytes, [[67]]);
    assert [e] + [f] == [e, f] && [[65], [66]] + [[67]] == [[65], [66], [67]];
    var i, j, k := Item(1, 0, [65]), Item(1, 1, [66]), Item(1, 2, [67]);
    assert After([e]) == Flow([], [i, j]) && After([e, f]) == Flow([k], [i, j]);
    PopRun([e, f]);
    assert [e, f] + [PopOne] == [e, f, PopOne] && [k] + [i] == [k, i] && [i, j][1..] == [j];
    PopRun([e, f, PopOne]);
    assert [e, f, PopOne] + [PopOne] == [e, f, PopOne, PopOne] && [k, i] + [j] == [k, i, j];
    FirstOvertakes([e], f, [i, j], [PopOne, PopOne]);
    assert [e] + [f] + [PopOne, PopOne] == [e, f, PopOne, PopOne];
  }

  lemma NumberedTwo()
    ensures Numbered(1, 0, [[65], [66]]) == [Item(1, 0, [65]), Item(1, 1, [66])] && Numbered(1, 2, [[67]]) == [Item(1, 2, [67])]
    ensures Erase([Item(1, 2, [67]), Item(1, 0, [65]), Item(1, 1, [66])]) == [Pack(1, [67]), Pack(1, [65]), Pack(1, [66])]
  {
  }

  lemma FirstOvertakes(before: seq<Event>, f: Event, w: seq<Item>, later: seq<Event>)
    requires After(before).waiting == w && w != [] && f.Chunk? && w[0].id == f.fd
    requires OutcomeOf(f.fd, Completed(before, f.fd, f.bytes)).Data?
    ensures Overtaken(before + [f] + later, f.fd)
  {
    hide After, Completed, OutcomeOf;
    var events := before + [f] + later;
    assert events[..|before|] == before && events[|before|] == f;
    assert Of(w, f.fd)[0] == w[0];
    assert Overtakes(events[..|before|], events[|before|], f.fd);
  }

  // What a chunk returns for the packages p.0 that it completes and the rest p.1:
  // a lone package with nothing behind it at once, others through the queue.
  function OutcomeOf(fd: int, p: (seq<seq<byte>>, seq<byte>)): (r: Outcome) {
    if p.0 == [] then Nothing
    else if |p.0| == 1 && p.1 == [] then Data(fd, p.0[0])
    else More
  }

  ghost predicate Emits(r: Outcome, fd: int, p: (seq<seq<byte>>, seq<byte>), was: seq<Pack>, now: seq<Pack>) {
    r == OutcomeOf(fd, p) && now == if r.More? then was + Tagged(fd, p.0) else was
  }

  lemma EmitNothing(fd: int, p: (seq<seq<byte>>, seq<byte>), w: seq<Pack>)
    ensures p.0 == [] ==> Emits(Nothing, fd, p, w, w)
  {
  }

  lemma EmitOne(fd: int, d: seq<byte>, w: seq<Pack>)
    ensures Emits(Data(fd, d), fd, ([d] + [], []), w, w)
  {
    assert [d] + [] == [d];
  }

  lemma EmitMore(fd: int, d: seq<byte>, p: (seq<seq<byte>>, seq<byte>), w: seq<Pack>)
    requires p.0 != [] || p.1 != []
    ensures Emits(More, fd, ([d] + p.0, p.1), w, (w + [Pack(fd, d)]) + Tagged(fd, p.0))
  {
    TagFirst(fd, d, p.0, w);
  }

  // Bytes either complete a package or are kept.
  lemma NotEmpty(s: seq<byte>)
    requires s != []
    ensures Parse(s).0 != [] || Parse(s).1 != []
  {
  }

  lemma TagEmpty(fd: int, w: seq<Pack>)
    ensures w + Tagged(fd, []) == w
  {
  }

  lemma TagFirst(fd: int, d: seq<byte>, ds: seq<seq<byte>>, w: seq<Pack>)
    ensures w + Tagged(fd, [d] + ds) == (w + [Pack(fd, d)]) + Tagged(fd, ds)
  {
  }

  lemma SizeBytes(s: seq<byte>)
    requires |s| >= 2
    ensures s == WriteSize(ReadSize(s[0], s[1])) + s[2..]
  {
  }

  lemma ShortStream(s: seq<byte>)
    requires |s| < 2
    ensures Parse(s) == ([], s)
  {
  }

  lemma HeaderByte(u: Uncomplete, s: seq<byte>)
    requires Begun(u) && u.read < 0 && s != []
    ensures WriteSize(ReadSize(u.header, s[0])) + [] + s[1..] == Bytes(u) + s
  {
    assert WriteSize(ReadSize(u.header, s[0])) == [u.header, s[0]];
  }
}
