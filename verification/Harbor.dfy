/**
  The link between two nodes: messages for a peer are queued until the link is
  up and framed onto a byte stream; the stream, in whatever chunks it arrives,
  is cut into messages again and forwarded to local services.
 */
module Harbor {
  import opened Common
  import opened MessageQueue

  type uint32 = x: int | 0 <= x < 0x1_0000_0000

  const HEADER_COOKIE_LENGTH := 12
  const NODE := 0x100_0000

  // A message for a service of another node.
  datatype Message = Message(source: uint32, destination: uint32, ty: byte, session: uint32, payload: seq<byte>)

  // The type goes where the node of the destination was.
  datatype Header = Header(source: uint32, destination: uint32, session: uint32)
  datatype HarborMsg = HarborMsg(header: Header, buffer: seq<byte>)

  // ---------------------------------------------------------------- the format

  function ToBigEndian(n: uint32): (r: seq<byte>)
    ensures |r| == 4
  {
    [n / 0x100_0000, n / 0x1_0000 % 256, n / 0x100 % 256, n % 256]
  }

  function Weigh(a: int, b: int, c: int, d: int): (r: int) {
    ((a * 256 + b) * 256 + c) * 256 + d
  }

  function FromBigEndian(s: seq<byte>): (r: uint32)
    requires |s| == 4
  {
    Weigh(s[0], s[1], s[2], s[3])
  }

  lemma BigEndianBack(n: uint32)
    ensures FromBigEndian(ToBigEndian(n)) == n
  {
    var s := ToBigEndian(n);
    Base256(n);
    assert s[0] == n / 0x100_0000 && s[1] == n / 0x1_0000 % 256 && s[2] == n / 0x100 % 256 && s[3] == n % 256;
  }

  lemma Base256(n: uint32)
    ensures Weigh(n / 0x100_0000, n / 0x1_0000 % 256, n / 0x100 % 256, n % 256) == n
    ensures n / 0x100_0000 == 0 <==> n < NODE
  {
    assert n / 0x100 == n / 0x1_0000 * 256 + n / 0x100 % 256;
    assert n / 0x1_0000 == n / 0x100_0000 * 256 + n / 0x1_0000 % 256;
  }

  function Cookie(h: Header): (r: seq<byte>)
    ensures |r| == HEADER_COOKIE_LENGTH
  {
    ToBigEndian(h.source) + ToBigEndian(h.destination) + ToBigEndian(h.session)
  }

  function CookieBack(s: seq<byte>): (h: Header)
    requires |s| == HEADER_COOKIE_LENGTH
  {
    Header(FromBigEndian(s[..4]), FromBigEndian(s[4..8]), FromBigEndian(s[8..]))
  }

  lemma CookieRoundTrip(h: Header)
    ensures CookieBack(Cookie(h)) == h
  {
    hide ToBigEndian, FromBigEndian;
    BigEndianBack(h.source);
    BigEndianBack(h.destination);
    BigEndianBack(h.session);
    var c := Cookie(h);
    assert c[..4] == ToBigEndian(h.source) && c[4..8] == ToBigEndian(h.destination) && c[8..] == ToBigEndian(h.session);
  }

  // What a frame carries after its length.
  function Body(m: HarborMsg): (r: seq<byte>)
    ensures |r| == |m.buffer| + HEADER_COOKIE_LENGTH
  {
    m.buffer + Cookie(m.header)
  }

  // A frame; nothing when the length does not fit 32 bits.
  function Frame(m: HarborMsg): (r: seq<byte>) {
    if |m.buffer| + HEADER_COOKIE_LENGTH >= 0x1_0000_0000 then []
    else ToBigEndian(|m.buffer| + HEADER_COOKIE_LENGTH) + Body(m)
  }

  function HeaderOf(m: Message): (h: Header) {
    Header(m.source, m.destination % NODE + m.ty * NODE, m.session)
  }

  // What the receiving node hands to its services.
  function Deliver(body: seq<byte>, id: byte): (m: Message)
    requires |body| >= HEADER_COOKIE_LENGTH
  {
    var n := |body| - HEADER_COOKIE_LENGTH;
    var h := CookieBack(body[n..]);
    Message(h.source, h.destination % NODE + id * NODE, h.destination / NODE, h.session, body[..n])
  }

  // Source, type, session, payload and the low destination bits survive; the
  // node of the destination is the receiving one.
  lemma DeliverBack(m: Message, id: byte)
    ensures Deliver(Body(HarborMsg(HeaderOf(m), m.payload)), id) == m.(destination := m.destination % NODE + id * NODE)
    ensures m.destination / NODE == id ==> Deliver(Body(HarborMsg(HeaderOf(m), m.payload)), id) == m
  {
    hide ToBigEndian, FromBigEndian, Cookie, CookieBack;
    var b := Body(HarborMsg(HeaderOf(m), m.payload));
    CookieRoundTrip(HeaderOf(m));
    assert b[|m.payload|..] == Cookie(HeaderOf(m)) && b[..|m.payload|] == m.payload;
  }

  // ---------------------------------------------------------------- cutting a stream

  datatype Stop = Going | TooLong | Short

  // The bodies at the front of a stream, the rest, and why it stopped: more
  // bytes are needed, a length of 2 to the 24 or more, or one below 12.
  datatype Parsed = Parsed(bodies: seq<seq<byte>>, rest: seq<byte>, stop: Stop)

  function Length(s: seq<byte>): (n: nat)
    requires |s| >= 4
  {
    Weigh(0, s[1], s[2], s[3])
  }

  ghost predicate AllLong(bodies: seq<seq<byte>>) {
    forall i :: 0 <= i < |bodies| ==> |bodies[i]| >= HEADER_COOKIE_LENGTH
  }

  function Parse(s: seq<byte>): (r: Parsed)
    ensures AllLong(r.bodies)
    decreases |s|
  {
    if |s| < 4 then Parsed([], s, Going)
    else if s[0] != 0 then Parsed([], s, TooLong)
    else if Length(s) < HEADER_COOKIE_LENGTH then Parsed([], s, Short)
    else if |s| - 4 < Length(s) then Parsed([], s, Going)
    else
      var n := 4 + Length(s);
      var t := Parse(s[n..]);
      Parsed([s[4..n]] + t.bodies, t.rest, t.stop)
  }

  // Going on from the rest is going on with the whole.
  ghost function Continue(p: Parsed, q: Parsed): (r: Parsed) {
    Parsed(p.bodies + q.bodies, q.rest, q.stop)
  }

  lemma LengthPrefix(a: seq<byte>, b: seq<byte>)
    requires |a| >= 4
    ensures Length(a + b) == Length(a) && (a + b)[0] == a[0]
  {
  }

  lemma {:induction false} ParseAppend(a: seq<byte>, b: seq<byte>)
    requires Parse(a).stop == Going
    ensures Parse(a + b) == Continue(Parse(a), Parse(Parse(a).rest + b))
    decreases |a|
  {
    hide Length, Continue;
    if |a| < 4 || |a| - 4 < Length(a) {
      ContinueNone(a, Parse(a + b));
    } else {
      var n := 4 + Length(a);
      LengthPrefix(a, b);
      assert (a + b)[n..] == a[n..] + b && (a + b)[4..n] == a[4..n];
      ParseAppend(a[n..], b);
      ContinueOne(a[4..n], Parse(a[n..]), Parse(Parse(a[n..]).rest + b));
    }
  }

  lemma ContinueNone(s: seq<byte>, q: Parsed)
    ensures Continue(Parsed([], s, Going), q) == q
  {
  }

  lemma ContinueOne(d: seq<byte>, p: Parsed, q: Parsed)
    ensures var r := Continue(p, q);
      Parsed([d] + r.bodies, r.rest, r.stop) == Continue(Parsed([d] + p.bodies, p.rest, p.stop), q)
  {
  }

  // A stream that went wrong stays wrong.
  lemma {:induction false} ParseStopped(a: seq<byte>, b: seq<byte>)
    requires Parse(a).stop != Going
    ensures Parse(a + b).bodies == Parse(a).bodies && Parse(a + b).stop == Parse(a).stop
    decreases |a|
  {
    hide Length;
    LengthPrefix(a, b);
    if a[0] == 0 && Length(a) >= HEADER_COOKIE_LENGTH {
      var n := 4 + Length(a);
      assert (a + b)[n..] == a[n..] + b && (a + b)[4..n] == a[4..n];
      ParseStopped(a[n..], b);
      assert Parse(a + b) == Parsed([a[4..n]] + Parse(a[n..] + b).bodies, Parse(a[n..] + b).rest, Parse(a[n..] + b).stop);
    }
  }

  // One frame: read back exactly when its length fits 24 bits.
  lemma FrameBack(m: HarborMsg, rest: seq<byte>)
    requires |m.buffer| + HEADER_COOKIE_LENGTH < 0x1_0000_0000
    ensures |m.buffer| + HEADER_COOKIE_LENGTH < NODE ==>
      Parse(Frame(m) + rest) == Continue(Parsed([Body(m)], [], Going), Parse(rest))
    ensures |m.buffer| + HEADER_COOKIE_LENGTH >= NODE ==> Parse(Frame(m) + rest).stop == TooLong
  {
    var n := |m.buffer| + HEADER_COOKIE_LENGTH;
    var s := Frame(m) + rest;
    assert s[0] == n / 0x100_0000 && s[1] == n / 0x1_0000 % 256 && s[2] == n / 0x100 % 256 && s[3] == n % 256;
    Base256(n);
    hide ToBigEndian, Body;
    if n < NODE {
      assert Length(s) == n;
      assert s[4..4 + n] == Body(m) && s[4 + n..] == rest;
    }
  }

  ghost function Wire(ms: seq<HarborMsg>): (r: seq<byte>) {
    if ms == [] then [] else Wire(ms[..|ms| - 1]) + Frame(ms[|ms| - 1])
  }

  ghost function Bodies(ms: seq<HarborMsg>): (r: seq<seq<byte>>)
    ensures |r| == |ms|
  {
    seq(|ms|, i requires 0 <= i < |ms| => Body(ms[i]))
  }

  ghost predicate Fits(m: HarborMsg) { |m.buffer| + HEADER_COOKIE_LENGTH < NODE }

  // A whole stream of frames gives back what was framed.
  lemma {:induction false} WireBack(ms: seq<HarborMsg>)
    requires forall m <- ms :: Fits(m)
    ensures Parse(Wire(ms)) == Parsed(Bodies(ms), [], Going)
  {
    hide Frame, Body;
    if ms != [] {
      var n := |ms| - 1;
      WireBack(ms[..n]);
      ParseAppend(Wire(ms[..n]), Frame(ms[n]));
      assert Fits(ms[n]);
      FrameBack(ms[n], []);
      assert [] + Frame(ms[n]) == Frame(ms[n]) + [];
      assert Parse([]) == Parsed([], [], Going);
      assert Bodies(ms) == Bodies(ms[..n]) + [Body(ms[n])];
    } else {
      assert Bodies(ms) == [];
    }
  }

  // What has arrived of a stream of frames has been cut into its first bodies.
  lemma PrefixBack(ms: seq<HarborMsg>, a: seq<byte>)
    requires (forall m <- ms :: Fits(m)) && a <= Wire(ms)
    ensures Parse(a).stop == Going && Parse(a).bodies <= Bodies(ms)
  {
    WireBack(ms);
    var b := Wire(ms)[|a|..];
    assert Wire(ms) == a + b;
    if Parse(a).stop == Going { ParseAppend(a, b); } else { ParseStopped(a, b); }
  }

  ghost function DeliverAll(bodies: seq<seq<byte>>, id: byte): (r: seq<Message>)
    requires AllLong(bodies)
    ensures |r| == |bodies|
  {
    seq(|bodies|, i requires 0 <= i < |bodies| => Deliver(bodies[i], id))
  }

  lemma DeliverMore(bodies: seq<seq<byte>>, b: seq<byte>, id: byte)
    requires AllLong(bodies) && |b| >= HEADER_COOKIE_LENGTH
    ensures AllLong(bodies + [b]) && DeliverAll(bodies + [b], id) == DeliverAll(bodies, id) + [Deliver(b, id)]
  {
  }

  // ---------------------------------------------------------------- the queue of a peer

  // A ring that keeps one slot free and doubles when no other is left.
  class MsgQueue {
    var data: array<HarborMsg>
    var head: nat
    var tail: nat

    ghost predicate Valid()
      reads this
    {
      data.Length >= 2 && head < data.Length && tail < data.Length
    }

    ghost function Contents(): (r: seq<HarborMsg>)
      reads this, data
      requires Valid()
    {
      Ring(data[..], head, tail)
    }

    constructor ()
      ensures Valid() && fresh(data) && Contents() == []
    {
      data := new HarborMsg[1024](_ => HarborMsg(Header(0, 0, 0), []));
      head, tail := 0, 0;
    }

    method Grow()
      requires Valid() && |Contents()| == data.Length - 1
      modifies this
      ensures Valid() && fresh(data) && Contents() == old(Contents()) && data.Length == 2 * old(data.Length)
      ensures tail + 1 < data.Length && head == 0
    {
      var size := data.Length;
      ghost var all := Contents();
      var bigger := new HarborMsg[2 * size](_ => HarborMsg(Header(0, 0, 0), []));
      for i := 0 to size - 1
        invariant forall k :: 0 <= k < i ==> bigger[k] == all[k]
        modifies bigger
      {
        WrapOnce(i + head, size);
        bigger[i] := data[(i + head) % size];
      }
      data, head, tail := bigger, 0, size - 1;
      assert data[..][0..size - 1] == all;
    }

    method Push(m: HarborMsg)
      requires Valid()
      modifies this, data
      ensures Valid() && (data == old(data) || fresh(data)) && Contents() == old(Contents()) + [m]
    {
      WrapOnce(tail + 1, data.Length);
      if (tail + 1) % data.Length == head {
        Grow();
        WrapOnce(tail + 1, data.Length);
      }
      Put(m);
    }

    // Writes the free slot at the tail.
    method Put(m: HarborMsg)
      requires Valid() && (tail + 1) % data.Length != head
      modifies this`tail, data
      ensures Valid() && Contents() == old(Contents()) + [m]
    {
      WrapOnce(tail + 1, data.Length);
      data[tail] := m;
      tail := (tail + 1) % data.Length;
      assert Contents() == old(Contents()) + [m];
    }

    method Pop() returns (r: Option<HarborMsg>)
      requires Valid()
      modifies this
      ensures Valid() && data == old(data)
      ensures old(Contents()) == [] ==> r == None && Contents() == []
      ensures old(Contents()) != [] ==> r.Some? && old(Contents()) == [r.value] + Contents()
    {
      if head == tail { return None; }
      WrapOnce(head + 1, data.Length);
      r := Some(data[head]);
      head := (head + 1) % data.Length;
    }
  }

  // ---------------------------------------------------------------- one step of the receiver

  // Bytes in front of a length that was not read completely.
  lemma NoLength(s: seq<byte>)
    requires |s| < 4
    ensures Parse(s) == Parsed([], s, Going)
  {
  }

  lemma BadLength(s: seq<byte>, rest: seq<byte>)
    requires |s| == 4
    ensures s[0] != 0 ==> Parse(s + rest).stop == TooLong && Parse(s + rest).bodies == []
    ensures s[0] == 0 && Length(s) < HEADER_COOKIE_LENGTH ==> Parse(s + rest).stop == Short
  {
    hide Length;
    LengthPrefix(s, rest);
  }

  lemma NoBody(s: seq<byte>, part: seq<byte>)
    requires |s| == 4 && s[0] == 0 && Length(s) >= HEADER_COOKIE_LENGTH && |part| < Length(s)
    ensures Parse(s + part) == Parsed([], s + part, Going)
  {
    hide Length;
    LengthPrefix(s, part);
  }

  lemma WholeBody(s: seq<byte>, body: seq<byte>, rest: seq<byte>)
    requires |s| == 4 && s[0] == 0 && Length(s) == |body| >= HEADER_COOKIE_LENGTH
    ensures Parse(s + body + rest) == Continue(Parsed([body], [], Going), Parse(rest))
  {
    hide Length;
    var t := s + body + rest;
    assert t == s + (body + rest);
    LengthPrefix(s, body + rest);
    assert t[4..4 + |body|] == body && t[4 + |body|..] == rest;
  }

  // ---------------------------------------------------------------- one peer

  datatype Status = Wait | Handshake | HeaderWait | Content | Down

  class Slave {
    const self: byte
    const peer: byte
    var fd: int
    var status: Status
    var queue: MsgQueue?
    var size: seq<byte>
    var length: nat
    var recv: seq<byte>

    // The bytes handed to the socket.
    var wire: seq<byte>

    // The messages they frame and the messages accepted; the bytes received
    // after the handshake and the messages forwarded.
    ghost var sent: seq<HarborMsg>
    ghost var accepted: seq<HarborMsg>
    ghost var stream: seq<byte>
    ghost var forwarded: seq<Message>

    // The messages answered with an error, and those handed to a socket that
    // was closed.
    ghost var answered: seq<Message>
    ghost var dead: seq<HarborMsg>

    ghost predicate QueueOk()
      reads this, queue
    {
      queue != null ==> queue.Valid()
    }

    ghost function Queued(): (r: seq<HarborMsg>)
      reads this, queue, if queue != null then {queue.data} else {}
      requires QueueOk()
    {
      if queue == null then [] else queue.Contents()
    }

    // Everything accepted is on the wire, in order, behind the handshake, or
    // waits in the queue, which is gone once the link is up.
    ghost predicate Sending()
      reads this, queue, if queue != null then {queue.data} else {}
    {
      && QueueOk()
      && (status == Wait ==> fd == 0 && wire == [] && sent == [])
      && (status != Wait ==> wire == [self] + Wire(sent))
      && (status != Wait && status != Down ==> fd != 0)
      && (status == HeaderWait || status == Content ==> queue == null)
      && (status != Down ==> sent + Queued() == accepted)
      && sent <= accepted
    }

    // What the received bytes have begun.
    ghost function Pending(): (r: seq<byte>)
      reads this
    {
      if status == Content then size + recv else size
    }

    ghost predicate Between()
      reads this
    {
      && (status == HeaderWait ==> |size| < 4 && recv == [])
      && (status == Content ==> |size| == 4 && size[0] == 0 && length == Length(size) >= HEADER_COOKIE_LENGTH && |recv| < length)
    }

    // The messages forwarded are those of the bytes received.
    ghost predicate Receiving()
      reads this
    {
      && Between()
      && forwarded == DeliverAll(Parse(stream).bodies, self)
      && (status == Wait || status == Handshake ==> stream == [] && size == [] && recv == [])
      && (status == HeaderWait || status == Content ==> Parse(stream).rest == Pending() && Parse(stream).stop == Going)
    }

    ghost predicate Valid()
      reads this, queue, if queue != null then {queue.data} else {}
    {
      Sound() && (status == Down ==> fd != 0) && answered == []
    }

    ghost predicate Sound()
      reads this, queue, if queue != null then {queue.data} else {}
    {
      Sending() && Receiving()
    }

    constructor (self: byte, peer: byte)
      ensures Valid() && status == Wait && accepted == [] && forwarded == [] && queue == null && dead == [] && fd == 0
      ensures this.self == self && this.peer == peer
    {
      this.self, this.peer := self, peer;
      fd, status, queue := 0, Wait, null;
      size, length, recv := [], 0, [];
      wire, sent, accepted, stream, forwarded, answered, dead := [], [], [], [], [], [], [];
      NoLength([]);
    }

    // Frames a message onto the socket.
    method SendRemote(m: HarborMsg)
      requires fd != 0 && wire == [self] + Wire(sent)
      modifies this`wire, this`sent
      ensures sent == old(sent) + [m] && wire == [self] + Wire(sent) && old(wire) <= wire
    {
      hide Frame;
      wire := wire + Frame(m);
      assert (sent + [m])[..|sent|] == sent;
      sent := sent + [m];
      assert Wire(sent) == Wire(old(sent)) + Frame(m);
    }

    method DispatchQueue()
      requires QueueOk() && fd != 0 && wire == [self] + Wire(sent) && sent + Queued() == accepted
      modifies this`queue, this`wire, this`sent, queue
      ensures queue == null && wire == [self] + Wire(sent) && sent == accepted && old(wire) <= wire
    {
      hide Wire, Ring;
      if queue == null { return; }
      var m := queue.Pop();
      while m.Some?
        invariant queue == old(queue) != null && QueueOk() && queue.data == old(queue.data) && fd != 0
        invariant wire == [self] + Wire(sent) && old(wire) <= wire
        invariant m.Some? ==> sent + [m.value] + queue.Contents() == accepted
        invariant m.None? ==> sent == accepted
        decreases |queue.Contents()|, if m.Some? then 1 else 0
      {
        SendRemote(m.value);
        ghost var c := queue.Contents();
        m := queue.Pop();
        assert m.Some? ==> sent + [m.value] + queue.Contents() == sent + c;
      }
      queue := null;
    }

    // A message for a service of the peer: framed when the link is up, queued
    // before. When the link is down it is answered with an error only if there
    // is no socket, and otherwise handed to the closed one.
    method RemoteSendHandle(msg: Message)
      requires Sound() && msg.destination / NODE == peer
      modifies this, queue, if queue != null then {queue.data} else {}
      ensures Sound() && (old(Valid()) ==> Valid())
      ensures status == old(status) && fd == old(fd) && forwarded == old(forwarded) && stream == old(stream)
      ensures queue == old(queue) || fresh(queue)
      ensures queue != null ==> fresh(queue.data) || (old(queue) == queue && queue.data == old(queue.data))
      ensures old(wire) <= wire && (old(queue) == null && status != Wait && status != Handshake ==> queue == null)
      ensures accepted == old(accepted) + if status == Down then [] else [HarborMsg(HeaderOf(msg), msg.payload)]
      ensures answered == old(answered) + if status == Down && fd == 0 then [msg] else []
      ensures dead == old(dead) + if status == Down && fd != 0 then [HarborMsg(HeaderOf(msg), msg.payload)] else []
    {
      hide Wire, Ring, HeaderOf, Parse, DeliverAll, Length;
      var m := HarborMsg(HeaderOf(msg), msg.payload);
      if fd == 0 || status == Handshake {
        if status == Down {
          answered := answered + [msg];
          return;
        }
        Enqueue(m);
      } else if status == Down {
        // send_remote on the socket that close_harbor closed
        dead := dead + [m];
      } else {
        SendRemote(m);
        accepted := accepted + [m];
      }
    }

    method Enqueue(m: HarborMsg)
      requires Sound() && (status == Wait || status == Handshake)
      modifies this`queue, this`accepted, queue, if queue != null then {queue.data} else {}
      ensures Sound() && accepted == old(accepted) + [m]
      ensures queue == old(queue) || fresh(queue)
      ensures queue != null ==> fresh(queue.data) || (old(queue) == queue && queue.data == old(queue.data))
    {
      hide Wire, Ring, Parse, DeliverAll, Length;
      if queue == null {
        queue := new MsgQueue();
      }
      queue.Push(m);
      accepted := accepted + [m];
    }

    // Closing leaves the socket number in place, so no error is ever answered.
    lemma NeverAnswered()
      requires Valid()
      ensures !(status == Down && fd == 0) && answered == []
    {
    }

    // The commands that give the peer a socket: S connects and waits for the
    // peer's number, A accepts and starts at once.
    method Connect(socket: int, connecting: bool)
      requires Valid() && socket != 0
      modifies this, queue
      ensures Valid() && accepted == old(accepted) && forwarded == old(forwarded)
      ensures status == if old(fd) != 0 then old(status) else if connecting then Handshake else HeaderWait
      ensures (queue == old(queue) || queue == null) && dead == old(dead) && (old(fd) == 0 ==> fd == socket)
      ensures (queue != null ==> queue.data == old(queue.data)) && stream == old(stream)
    {
      hide Ring, Parse, DeliverAll, Length;
      if fd != 0 { return; }
      fd := socket;
      wire := wire + [self];
      assert wire == [self] + Wire(sent);
      if connecting {
        status := Handshake;
      } else {
        Started(stream);
        status := HeaderWait;
        DispatchQueue();
      }
    }

    method CloseHarbor()
      requires Sending() && status != Wait && status != Down && answered == []
      requires forwarded == DeliverAll(Parse(stream).bodies, self)
      modifies this`status, this`queue
      ensures Valid() && status == Down && queue == null
    {
      status := Down;
      queue := null;
    }

    // Bytes from the peer, in any chunks. After the handshake every message
    // they complete is forwarded.
    method PushSocketData(chunk: seq<byte>)
      requires Valid() && chunk != []
      requires Parse(stream + if status == Handshake then chunk[1..] else chunk).stop != Short
      modifies this, queue
      ensures Valid() && accepted == old(accepted) && dead == old(dead) && (queue == old(queue) || queue == null)
      ensures old(status) == Handshake && chunk[0] != peer ==> status == Down && forwarded == []
      ensures old(status) == Handshake && chunk[0] == peer ==> stream == chunk[1..]
      ensures old(status) == HeaderWait || old(status) == Content ==> stream == old(stream) + chunk
      ensures old(status) == Wait || old(status) == Down ==> status == old(status) && forwarded == old(forwarded)
      ensures old(status) == HeaderWait || old(status) == Content || (old(status) == Handshake && chunk[0] == peer) ==>
        && (status == HeaderWait || status == Content || status == Down) && (status == Down <==> Parse(stream).stop == TooLong)
        && queue == null && sent == accepted && old(wire) <= wire
    {
      hide Ring, Parse, Length, DeliverAll, Wire;
      if status == Handshake {
        Started(stream);
        if chunk[0] != peer {
          CloseHarbor();
          return;
        }
        status := HeaderWait;
        DispatchQueue();
        assert stream + chunk[1..] == chunk[1..];
        if |chunk| == 1 {
          assert stream == chunk[1..];
          return;
        }
        Cut(chunk[1..]);
      } else if status == HeaderWait || status == Content {
        Cut(chunk);
      }
    }

    // Part of the stream has been cut, and buf has not been read.
    ghost predicate Midway(all: Parsed, bodies: seq<seq<byte>>, buf: seq<byte>)
      reads this
    {
      && Between() && (status == HeaderWait || status == Content)
      && AllLong(bodies) && forwarded == DeliverAll(bodies, self)
      && CutAt(all, bodies, Pending() + buf)
    }

    method Cut(chunk: seq<byte>)
      requires Valid() && (status == HeaderWait || status == Content) && Parse(stream + chunk).stop != Short
      modifies this
      ensures Valid() && accepted == old(accepted) && stream == old(stream) + chunk && dead == old(dead) && (queue == old(queue) || queue == null)
      ensures (status == HeaderWait || status == Content || status == Down) && (status == Down <==> Parse(stream).stop == TooLong)
      ensures sent == old(sent) && wire == old(wire)
    {
      hide Ring, Parse, Length, DeliverAll, Wire, CutAt, Sending;
      var buf := chunk;
      ghost var all, bodies := Parse(stream + chunk), Parse(stream).bodies;
      CutStart(stream, chunk);
      while |buf| > 0
        invariant Midway(all, bodies, buf) && Sending() && answered == [] && queue == old(queue)
        invariant stream == old(stream) && accepted == old(accepted) && dead == old(dead) && sent == old(sent) && wire == old(wire)
        decreases |buf|
      {
        if status == HeaderWait {
          var bad;
          buf, bad := ReadHeader(buf, all, bodies);
          if bad {
            Heard(chunk);
            CloseHarbor();
            return;
          }
          if |buf| == 0 { break; }
        }
        buf, bodies := ReadBody(buf, all, bodies);
      }
      assert Pending() + buf == Pending();
      if status == HeaderWait { NoLength(size); } else { NoBody(size, recv); }
      CutEnd(all, bodies, Pending());
      Heard(chunk);
    }

    // The history takes the chunk in.
    ghost method Heard(chunk: seq<byte>)
      modifies this`stream
      ensures stream == old(stream) + chunk && (old(Sending()) ==> Sending())
    {
      hide Wire, Ring;
      stream := stream + chunk;
    }

    // The four bytes of a length; the first must be zero.
    method ReadHeader(buf: seq<byte>, ghost all: Parsed, ghost bodies: seq<seq<byte>>) returns (rest: seq<byte>, bad: bool)
      requires Midway(all, bodies, buf) && status == HeaderWait && |buf| > 0 && all.stop != Short
      modifies this`status, this`size, this`length, this`recv
      ensures |rest| < |buf| && (old(Sending()) ==> Sending())
      ensures bad ==> all.stop == TooLong && all.bodies == bodies && status == HeaderWait
      ensures !bad ==> Midway(all, bodies, rest) && (status == Content || rest == [])
    {
      hide Parse, Length, DeliverAll, CutAt, Wire, Ring;
      var need := 4 - |size|;
      if |buf| < need {
        assert Pending() + buf == (size + buf) + [];
        size := size + buf;
        return [], false;
      }
      assert Pending() + buf == (size + buf[..need]) + buf[need..];
      size := size + buf[..need];
      rest := buf[need..];
      bad := size[0] != 0;
      if bad {
        BadLength(size, rest);
        CutEnd(all, bodies, size + rest);
        return;
      }
      CutShort(all, bodies, size, rest);
      length := Length(size);
      recv := [];
      status := Content;
      assert Pending() == size;
    }

    // The bytes of a body, which is forwarded when it is complete.
    method ReadBody(buf: seq<byte>, ghost all: Parsed, ghost bodies: seq<seq<byte>>) returns (rest: seq<byte>, ghost more: seq<seq<byte>>)
      requires Midway(all, bodies, buf) && status == Content && |buf| > 0
      modifies this`status, this`size, this`length, this`recv, this`forwarded
      ensures |rest| < |buf| && Midway(all, more, rest) && (old(Sending()) ==> Sending())
    {
      hide Parse, Length, DeliverAll, CutAt, Wire, Ring, Deliver, AllLong;
      var need := length - |recv|;
      more := bodies;
      if |buf| < need {
        Joined(size, recv, buf, |buf|);
        recv := recv + buf;
        return [], more;
      }
      var body := recv + buf[..need];
      rest := buf[need..];
      Joined(size, recv, buf, need);
      CutBody(all, bodies, size, body, rest);
      DeliverMore(bodies, body, self);
      Forward(body);
      more := bodies + [body];
      LongMore(bodies, body);
      size, length, recv := [], 0, [];
      status := HeaderWait;
      assert [] + rest == rest;
    }

    method Forward(body: seq<byte>)
      requires |body| >= HEADER_COOKIE_LENGTH
      modifies this`forwarded
      ensures forwarded == old(forwarded) + [Deliver(body, self)]
    {
      forwarded := forwarded + [Deliver(body, self)];
    }
  }

  lemma Joined(size: seq<byte>, recv: seq<byte>, buf: seq<byte>, need: nat)
    requires need <= |buf|
    ensures size + recv + buf == size + (recv + buf[..need]) + buf[need..]
    ensures need == |buf| ==> size + recv + buf == size + (recv + buf) + []
  {
  }

  lemma LongMore(bodies: seq<seq<byte>>, body: seq<byte>)
    requires AllLong(bodies) && |body| >= HEADER_COOKIE_LENGTH
    ensures AllLong(bodies + [body])
  {
  }

  // The stream after a part of it has been cut and the rest has not.
  ghost predicate CutAt(all: Parsed, bodies: seq<seq<byte>>, rest: seq<byte>) {
    all == Continue(Parsed(bodies, [], Going), Parse(rest))
  }

  lemma CutStart(stream: seq<byte>, more: seq<byte>)
    requires Parse(stream).stop == Going
    ensures CutAt(Parse(stream + more), Parse(stream).bodies, Parse(stream).rest + more)
  {
    ParseAppend(stream, more);
  }

  lemma CutEnd(all: Parsed, bodies: seq<seq<byte>>, rest: seq<byte>)
    requires CutAt(all, bodies, rest) && Parse(rest).bodies == []
    ensures all.bodies == bodies && all.rest == Parse(rest).rest && all.stop == Parse(rest).stop
  {
  }

  lemma CutBody(all: Parsed, bodies: seq<seq<byte>>, s: seq<byte>, body: seq<byte>, rest: seq<byte>)
    requires CutAt(all, bodies, s + body + rest)
    requires |s| == 4 && s[0] == 0 && Length(s) == |body| >= HEADER_COOKIE_LENGTH
    ensures CutAt(all, bodies + [body], rest)
  {
    hide Parse, Length;
    WholeBody(s, body, rest);
    assert bodies + ([body] + Parse(rest).bodies) == bodies + [body] + Parse(rest).bodies;
  }

  lemma CutShort(all: Parsed, bodies: seq<seq<byte>>, s: seq<byte>, rest: seq<byte>)
    requires CutAt(all, bodies, s + rest) && |s| == 4 && s[0] == 0 && all.stop != Short
    ensures Length(s) >= HEADER_COOKIE_LENGTH
  {
    BadLength(s, rest);
  }

  lemma Started(stream: seq<byte>)
    requires stream == []
    ensures Parse(stream) == Parsed([], [], Going)
  {
  }

  // ---------------------------------------------------------------- end to end

  ghost function Packed(ms: seq<Message>): (r: seq<HarborMsg>)
    ensures |r| == |ms|
  {
    seq(|ms|, i requires 0 <= i < |ms| => HarborMsg(HeaderOf(ms[i]), ms[i].payload))
  }

  // A message that the other end can take.
  ghost predicate Carried(m: Message, id: byte) {
    m.destination / NODE == id && |m.payload| + HEADER_COOKIE_LENGTH < NODE
  }

  // Bodies of messages for a node, delivered there, are the messages.
  lemma DeliveredBack(ms: seq<Message>, bodies: seq<seq<byte>>, id: byte)
    requires (forall i :: 0 <= i < |ms| ==> Carried(ms[i], id)) && AllLong(bodies) && bodies <= Bodies(Packed(ms))
    ensures DeliverAll(bodies, id) <= ms
  {
    hide Deliver, Body, HeaderOf;
    forall i | 0 <= i < |bodies| ensures DeliverAll(bodies, id)[i] == ms[i] {
      assert bodies[i] == Body(HarborMsg(HeaderOf(ms[i]), ms[i].payload));
      DeliverBack(ms[i], id);
    }
  }

  lemma BehindHandshake(id: byte, s: seq<byte>, wire: seq<byte>)
    requires [id] + s <= wire
    ensures s <= wire[1..] && ([id] + s == wire ==> s == wire[1..])
  {
    assert forall i :: 0 <= i < |s| ==> s[i] == ([id] + s)[i + 1] == wire[i + 1];
  }

  // A link that went down over a wrong number: a message sent to it is neither
  // carried nor answered.
  method DeadPeer(msg: Message) returns (s: Slave)
    requires msg.destination / NODE == 2
    ensures fresh(s) && s.Valid() && s.status == Down && s.accepted == [] && s.answered == []
    ensures s.dead == [HarborMsg(HeaderOf(msg), msg.payload)]
  {
    hide Wire, Ring, HeaderOf, Parse, DeliverAll, Length;
    s := new Slave(1, 2);
    s.Connect(7, true);
    Started([]);
    assert s.stream == [] && [] + [3][1..] == [];
    s.PushSocketData([3]);
    s.RemoteSendHandle(msg);
  }

  // Whatever part of a link's bytes has arrived, the far end has forwarded the
  // first of the accepted messages, unchanged and in order.
  lemma LinkDelivers(a: Slave, b: Slave, ms: seq<Message>)
    requires a.Valid() && b.Valid() && a.accepted == Packed(ms) && forall i :: 0 <= i < |ms| ==> Carried(ms[i], b.self)
    requires a.status != Wait && [a.self] + b.stream <= a.wire
    ensures b.forwarded <= ms
    ensures (a.status == HeaderWait || a.status == Content) && [a.self] + b.stream == a.wire ==> b.forwarded == ms
  {
    hide Parse, Body, HeaderOf, Frame, Ring, Length;
    var n := |a.sent|;
    var part := ms[..n];
    assert a.sent == Packed(part);
    assert forall m <- a.sent :: Fits(m);
    BehindHandshake(a.self, b.stream, a.wire);
    assert a.wire[1..] == Wire(a.sent);
    PrefixBack(a.sent, b.stream);
    DeliveredBack(part, Parse(b.stream).bodies, b.self);
    if (a.status == HeaderWait || a.status == Content) && [a.self] + b.stream == a.wire {
      assert b.stream == Wire(a.sent);
      WireBack(a.sent);
      assert |b.forwarded| == |ms|;
    }
  }

  // ---------------------------------------------------------------- a link from its start

  // Something happens on a link between a, which connects, and b, which accepts:
  // a message is sent, or up to n bytes arrive.
  datatype LinkOp = SendA(m: Message) | SendB(m: Message) | ArriveA(n: nat) | ArriveB(n: nat)

  ghost function FromA(ops: seq<LinkOp>): (r: seq<Message>) {
    if ops == [] then [] else FromA(ops[..|ops| - 1]) + if ops[|ops| - 1].SendA? then [ops[|ops| - 1].m] else []
  }

  ghost function FromB(ops: seq<LinkOp>): (r: seq<Message>) {
    if ops == [] then [] else FromB(ops[..|ops| - 1]) + if ops[|ops| - 1].SendB? then [ops[|ops| - 1].m] else []
  }

  ghost predicate AllCarried(ms: seq<Message>, id: byte) { forall i :: 0 <= i < |ms| ==> Carried(ms[i], id) }

  lemma PackedMore(ms: seq<Message>, m: Message)
    ensures Packed(ms + [m]) == Packed(ms) + [HarborMsg(HeaderOf(m), m.payload)]
  {
  }

  // A part of what a peer has framed holds no bad length.
  lemma SoundBytes(a: Slave, ms: seq<Message>, id: byte, s: seq<byte>)
    requires a.Valid() && a.status != Wait && a.accepted == Packed(ms) && AllCarried(ms, id) && [a.self] + s <= a.wire
    ensures Parse(s).stop == Going
  {
    hide Parse, Body, HeaderOf, Frame, Ring, Length;
    var part := ms[..|a.sent|];
    assert a.sent == Packed(part);
    assert forall m <- a.sent :: Fits(m);
    BehindHandshake(a.self, s, a.wire);
    PrefixBack(a.sent, s);
  }

  // What holds of a link at all times: p and q bytes of the other side's have
  // arrived at a and, behind the handshake byte, at b.
  ghost predicate Linking(a: Slave, b: Slave, p: nat, q: nat, ms: seq<Message>, ns: seq<Message>)
    reads a, b, a.queue, b.queue, if a.queue != null then {a.queue.data} else {}, if b.queue != null then {b.queue.data} else {}
  {
    && a.Valid() && b.Valid() && a != b && a.self == b.peer && b.self == a.peer && a.accepted == Packed(ms) && b.accepted == Packed(ns)
    && (b.status == HeaderWait || b.status == Content) && b.queue == null && AllCarried(ms, b.self) && AllCarried(ns, a.self)
    && p <= |b.wire| && q + 1 <= |a.wire| && b.stream == a.wire[1..q + 1]
    && (if p == 0 then a.status == Handshake else (a.status == HeaderWait || a.status == Content) && [b.self] + a.stream == b.wire[..p])
  }

  // The messages a slave was given before it had a socket are queued.
  method Prepare(x: byte, y: byte, early: seq<Message>) returns (a: Slave)
    requires AllCarried(early, y)
    ensures fresh(a) && (a.queue != null ==> fresh(a.queue) && fresh(a.queue.data))
    ensures a.Valid() && a.self == x && a.peer == y && a.status == Wait && a.fd == 0 && a.accepted == Packed(early) && a.stream == []
  {
    hide Parse, HeaderOf, Ring, Wire, DeliverAll, Length;
    a := new Slave(x, y);
    assert early[..0] == [] && Packed(early[..0]) == [];
    for i := 0 to |early|
      invariant fresh(a) && (a.queue != null ==> fresh(a.queue) && fresh(a.queue.data))
      invariant a.Valid() && a.self == x && a.peer == y && a.status == Wait && a.fd == 0
      invariant a.accepted == Packed(early[..i]) && a.stream == []
    {
      assert Carried(early[i], y);
      PackedMore(early[..i], early[i]);
      assert early[..i + 1] == early[..i] + [early[i]];
      a.RemoteSendHandle(early[i]);
    }
    assert early[..|early|] == early;
  }

  method Open(x: byte, y: byte, ms: seq<Message>, ns: seq<Message>) returns (a: Slave, b: Slave)
    requires AllCarried(ms, y) && AllCarried(ns, x)
    ensures fresh(a) && fresh(b) && (a.queue != null ==> fresh(a.queue) && fresh(a.queue.data))
    ensures a.self == x && b.self == y && a != b && Linking(a, b, 0, 0, ms, ns)
  {
    hide Parse, HeaderOf, Ring, Wire, DeliverAll, Length, Packed;
    a := Prepare(x, y, ms);
    b := Prepare(y, x, ns);
    a.Connect(1, true);
    b.Connect(1, false);
    FirstByte(a);
  }

  lemma FirstByte(a: Slave)
    requires a.Valid() && a.status != Wait
    ensures |a.wire| >= 1 && a.wire[0] == a.self && a.wire[1..1] == []
  {
    hide Wire, Parse;
  }

  method GiveA(a: Slave, b: Slave, p: nat, q: nat, m: Message, ghost ms: seq<Message>, ghost ns: seq<Message>)
    requires Linking(a, b, p, q, ms, ns) && Carried(m, b.self)
    modifies a, a.queue, if a.queue != null then {a.queue.data} else {}
    ensures Linking(a, b, p, q, ms + [m], ns)
    ensures a.queue == old(a.queue) || fresh(a.queue)
    ensures a.queue != null ==> fresh(a.queue.data) || (old(a.queue) == a.queue && a.queue.data == old(a.queue.data))
  {
    hide Parse, HeaderOf, Ring, Wire, DeliverAll, Length, Packed;
    PackedMore(ms, m);
    a.RemoteSendHandle(m);
  }

  method GiveB(a: Slave, b: Slave, p: nat, q: nat, m: Message, ghost ms: seq<Message>, ghost ns: seq<Message>)
    requires Linking(a, b, p, q, ms, ns) && Carried(m, a.self)
    modifies b
    ensures Linking(a, b, p, q, ms, ns + [m])
  {
    hide Parse, HeaderOf, Ring, Wire, DeliverAll, Length, Packed;
    PackedMore(ns, m);
    ghost var w := b.wire;
    b.RemoteSendHandle(m);
    assert b.wire[..p] == w[..p];
  }

  method FeedB(a: Slave, b: Slave, p: nat, q: nat, n: nat, ghost ms: seq<Message>, ghost ns: seq<Message>) returns (r: nat)
    requires Linking(a, b, p, q, ms, ns)
    modifies b
    ensures q <= r && Linking(a, b, p, r, ms, ns)
    ensures r == if q + 1 + n <= |a.wire| then q + n else |a.wire| - 1
  {
    hide Parse, HeaderOf, Ring, Wire, DeliverAll, Length, Packed;
    r := if q + 1 + n <= |a.wire| then q + n else |a.wire| - 1;
    if r > q {
      FirstByte(a);
      var chunk := a.wire[q + 1..r + 1];
      Longer(a.wire, q + 1, r + 1);
      SoundBytes(a, ms, b.self, a.wire[1..r + 1]);
      b.PushSocketData(chunk);
    }
  }

  method FeedA(a: Slave, b: Slave, p: nat, q: nat, n: nat, ghost ms: seq<Message>, ghost ns: seq<Message>) returns (r: nat)
    requires Linking(a, b, p, q, ms, ns)
    modifies a, a.queue
    ensures p <= r && Linking(a, b, r, q, ms, ns)
    ensures r == if p + n <= |b.wire| then p + n else |b.wire|
    ensures a.queue != null ==> a.queue == old(a.queue) && a.queue.data == old(a.queue.data)
  {
    hide Parse, HeaderOf, Ring, Wire, DeliverAll, Length, Packed;
    r := if p + n <= |b.wire| then p + n else |b.wire|;
    if r > p {
      FirstByte(b);
      var chunk := b.wire[p..r];
      ghost var s := b.wire[1..r];
      Longer(b.wire, p, r);
      SoundBytes(b, ns, a.self, s);
      if p == 0 {
        assert a.stream + s == s;
      } else {
        SameTail(b.self, a.stream, b.wire[1..p]);
      }
      a.PushSocketData(chunk);
    }
  }

  // The first r of some bytes, from the first p of them on.
  lemma Longer(w: seq<byte>, p: nat, r: nat)
    requires p <= r <= |w| && r >= 1
    ensures [w[0]] + w[1..r] == w[..r]
    ensures if p == 0 then w[p..r][1..] == w[1..r] else [w[0]] + w[1..p] == w[..p] && w[1..p] + w[p..r] == w[1..r]
  {
  }

  lemma SameTail(id: byte, s: seq<byte>, t: seq<byte>)
    requires [id] + s == [id] + t
    ensures s == t
  {
    assert s == ([id] + s)[1..] && t == ([id] + t)[1..];
  }

  // A link from its start: whatever was queued before, whatever is sent on either
  // side and however the bytes arrive, what has been forwarded is the first of
  // what was sent; when everything has arrived, it is all of it.
  method Converse(x: byte, y: byte, early: seq<Message>, hers: seq<Message>, ops: seq<LinkOp>)
    returns (a: Slave, b: Slave, p: nat, q: nat)
    requires AllCarried(early + FromA(ops), y) && AllCarried(hers + FromB(ops), x)
    ensures a.Valid() && b.Valid() && a.self == x && b.self == y && p <= |b.wire| && q + 1 <= |a.wire|
    ensures b.forwarded <= early + FromA(ops) && a.forwarded <= hers + FromB(ops)
    ensures p > 0 ==> (a.status == HeaderWait || a.status == Content) && a.accepted == a.sent == Packed(early + FromA(ops))
    ensures p == |b.wire| && q + 1 == |a.wire| ==> b.forwarded == early + FromA(ops) && a.forwarded == hers + FromB(ops)
  {
    hide Parse, HeaderOf, Ring, Wire, DeliverAll, Length, Packed, FromA, FromB, AllCarried, Linking;
    NothingSaid(early, hers, ops, x, y);
    a, b := Open(x, y, early, hers);
    p, q := 0, 0;
    for i := 0 to |ops|
      invariant fresh(a) && fresh(b) && a != b && (a.queue != null ==> fresh(a.queue) && fresh(a.queue.data))
      invariant a.self == x && b.self == y && Linking(a, b, p, q, early + FromA(ops[..i]), hers + FromB(ops[..i]))
    {
      ghost var ms, ns := early + FromA(ops[..i]), hers + FromB(ops[..i]);
      SaidByA(early, ops, i, y);
      SaidByB(hers, ops, i, x);
      assert ms + [] == ms && ns + [] == ns;
      match ops[i]
      case SendA(m) => GiveA(a, b, p, q, m, ms, ns);
      case SendB(m) => GiveB(a, b, p, q, m, ms, ns);
      case ArriveA(n) => p := FeedA(a, b, p, q, n, ms, ns);
      case ArriveB(n) => q := FeedB(a, b, p, q, n, ms, ns);
    }
    assert ops[..|ops|] == ops;
    Told(a, b, p, q, early + FromA(ops), hers + FromB(ops));
  }

  lemma NothingSaid(early: seq<Message>, hers: seq<Message>, ops: seq<LinkOp>, x: byte, y: byte)
    requires AllCarried(early + FromA(ops), y) && AllCarried(hers + FromB(ops), x)
    ensures AllCarried(early, y) && AllCarried(hers, x)
    ensures early + FromA(ops[..0]) == early && hers + FromB(ops[..0]) == hers
  {
    var m, n := early + FromA(ops), hers + FromB(ops);
    forall i | 0 <= i < |early| ensures Carried(early[i], y) { assert m[i] == early[i]; }
    forall i | 0 <= i < |hers| ensures Carried(hers[i], x) { assert n[i] == hers[i]; }
  }

  lemma {:induction false} FromPrefix(ops: seq<LinkOp>, i: nat)
    requires i <= |ops|
    ensures FromA(ops[..i]) <= FromA(ops) && FromB(ops[..i]) <= FromB(ops)
    decreases |ops| - i
  {
    if i < |ops| {
      assert ops[..i + 1][..i] == ops[..i];
      FromPrefix(ops, i + 1);
    } else {
      assert ops[..i] == ops;
    }
  }

  lemma SaidByA(early: seq<Message>, ops: seq<LinkOp>, i: nat, y: byte)
    requires i < |ops| && AllCarried(early + FromA(ops), y)
    ensures early + FromA(ops[..i + 1]) == early + FromA(ops[..i]) + if ops[i].SendA? then [ops[i].m] else []
    ensures ops[i].SendA? ==> Carried(ops[i].m, y)
  {
    hide Carried, FromA, FromB;
    NextA(ops, i);
    FromPrefix(ops, i + 1);
    if ops[i].SendA? { Last(early, FromA(ops[..i]), FromA(ops), ops[i].m); }
  }

  lemma NextA(ops: seq<LinkOp>, i: nat)
    requires i < |ops|
    ensures FromA(ops[..i + 1]) == FromA(ops[..i]) + if ops[i].SendA? then [ops[i].m] else []
  {
    var w := ops[..i + 1];
    assert w[..i] == ops[..i] && w[i] == ops[i];
    assert FromA(w) == FromA(w[..|w| - 1]) + if w[i].SendA? then [w[i].m] else [];
  }

  lemma SaidByB(hers: seq<Message>, ops: seq<LinkOp>, i: nat, x: byte)
    requires i < |ops| && AllCarried(hers + FromB(ops), x)
    ensures hers + FromB(ops[..i + 1]) == hers + FromB(ops[..i]) + if ops[i].SendB? then [ops[i].m] else []
    ensures ops[i].SendB? ==> Carried(ops[i].m, x)
  {
    hide Carried, FromA, FromB;
    NextB(ops, i);
    FromPrefix(ops, i + 1);
    if ops[i].SendB? { Last(hers, FromB(ops[..i]), FromB(ops), ops[i].m); }
  }

  lemma NextB(ops: seq<LinkOp>, i: nat)
    requires i < |ops|
    ensures FromB(ops[..i + 1]) == FromB(ops[..i]) + if ops[i].SendB? then [ops[i].m] else []
  {
    var w := ops[..i + 1];
    assert w[..i] == ops[..i] && w[i] == ops[i];
    assert FromB(w) == FromB(w[..|w| - 1]) + if w[i].SendB? then [w[i].m] else [];
  }

  lemma Last(early: seq<Message>, f: seq<Message>, all: seq<Message>, m: Message)
    requires f + [m] <= all
    ensures (early + all)[|early| + |f|] == m
  {
    assert all[|f|] == (f + [m])[|f|];
  }

  // What the invariant of a link says about what has been forwarded.
  lemma Told(a: Slave, b: Slave, p: nat, q: nat, ms: seq<Message>, ns: seq<Message>)
    requires Linking(a, b, p, q, ms, ns)
    ensures a.Valid() && b.Valid() && p <= |b.wire| && q + 1 <= |a.wire| && b.forwarded <= ms && a.forwarded <= ns
    ensures p > 0 ==> (a.status == HeaderWait || a.status == Content) && a.accepted == a.sent == Packed(ms)
    ensures p == |b.wire| && q + 1 == |a.wire| ==> b.forwarded == ms && a.forwarded == ns
  {
    hide Parse, HeaderOf, Ring, Wire, DeliverAll, Length, Packed, Carried;
    FirstByte(a);
    FirstByte(b);
    assert [a.self] + b.stream == a.wire[..q + 1];
    LinkDelivers(a, b, ms);
    if p > 0 {
      LinkDelivers(b, a, ns);
    } else {
      QuietYet(a);
    }
  }

  lemma QuietYet(a: Slave)
    requires a.Valid() && a.status == Handshake
    ensures a.forwarded == []
  {
    Started(a.stream);
  }
}
