/**
  The message queue of a service: a ring buffer that grows, and the overload
  watermark that is looked at when a message is taken.
 */
module MessageQueue {
  import opened Common

  const DEFAULT_QUEUE_SIZE := 64
  const MQ_OVERLOAD := 1024

  // The messages between head and tail, going round the end of the buffer.
  function Ring<T>(buf: seq<T>, head: nat, tail: nat): seq<T>
    requires head < |buf| && tail < |buf|
  {
    if head <= tail then buf[head..tail] else buf[head..] + buf[..tail]
  }

  lemma WrapOnce(x: nat, n: nat)
    requires x < 2 * n
    ensures x % n == if x < n then x else x - n
  {
    if x >= n { assert x == n + (x - n) && (n + (x - n)) % n == x - n; }
  }

  // The watermark after a length has been seen: doubled until it covers it.
  function Raised(threshold: nat, length: nat): (r: nat)
    requires threshold > 0
    ensures length <= r && threshold <= r && (length <= threshold ==> r == threshold)
    ensures length > threshold ==> r < 2 * length
    decreases length - threshold
  {
    if length > threshold then Raised(threshold * 2, length) else threshold
  }

  class Mq<T(0)> {
    var queue: array<T>
    var head: nat
    var tail: nat
    var inGlobal: bool
    var release: bool
    var overload: nat
    var threshold: nat

    ghost predicate Valid()
      reads this
    {
      queue.Length >= 2 && head < queue.Length && tail < queue.Length && threshold > 0
    }

    ghost function Contents(): seq<T>
      requires Valid()
      reads this, queue
    {
      Ring(queue[..], head, tail)
    }

    // A new queue counts as listed: its creator lists it after init.
    constructor ()
      ensures Valid() && fresh(queue) && Contents() == [] && inGlobal && !release && overload == 0
      ensures threshold == MQ_OVERLOAD
    {
      queue := new T[DEFAULT_QUEUE_SIZE];
      head, tail := 0, 0;
      inGlobal, release := true, false;
      overload, threshold := 0, MQ_OVERLOAD;
    }

    method Length() returns (n: nat)
      requires Valid()
      ensures n == |Contents()|
    {
      n := if head <= tail then tail - head else tail + queue.Length - head;
    }

    // Twice the room, the messages moved to the front in order.
    method ExpandQueue()
      requires Valid() && head == tail
      modifies this`queue, this`head, this`tail
      ensures Valid() && fresh(queue)
      ensures Contents() == old(queue[head..] + queue[..head])
    {
      var cap := queue.Length;
      var bigger := new T[cap * 2];
      ghost var all := queue[head..] + queue[..head];
      for i := 0 to cap
        invariant forall k :: 0 <= k < i ==> bigger[k] == all[k]
        modifies bigger
      {
        WrapOnce(head + i, cap);
        bigger[i] := queue[(head + i) % cap];
      }
      head, tail, queue := 0, cap, bigger;
      assert queue[..][0..cap] == all;
    }

    // Appends a message; says whether the queue must now be listed.
    method Push(m: T) returns (list: bool)
      requires Valid()
      modifies this`queue, this`head, this`tail, this`inGlobal, queue
      ensures Valid() && (queue == old(queue) || fresh(queue))
      ensures Contents() == old(Contents()) + [m]
      ensures list == !old(inGlobal) && inGlobal
    {
      ghost var was := Contents();
      ghost var h, t := head, tail;
      queue[tail] := m;
      tail := tail + 1;
      if tail >= queue.Length {
        tail := 0;
      }
      if head == tail {
        assert queue[head..] + queue[..head] == was + [m];
        ExpandQueue();
      } else {
        assert Contents() == was + [m];
      }
      list := !inGlobal;
      inGlobal := true;
    }

    // Takes the first message; an empty queue is given up by its owner.
    method Pop() returns (m: Option<T>)
      requires Valid()
      modifies this`head, this`inGlobal, this`overload, this`threshold
      ensures Valid()
      ensures old(Contents()) == [] ==> m == None && Contents() == [] && !inGlobal && threshold == MQ_OVERLOAD && overload == old(overload)
      ensures old(Contents()) != [] ==>
                && m == Some(old(Contents())[0]) && Contents() == old(Contents())[1..] && inGlobal == old(inGlobal)
                && threshold == Raised(old(threshold), |Contents()|)
                && overload == if |Contents()| > old(threshold) then |Contents()| else old(overload)
    {
      if head != tail {
        m := Some(queue[head]);
        ghost var was := Contents();
        head := head + 1;
        if head >= queue.Length {
          head := 0;
        }
        assert Contents() == was[1..];
        var length := tail - head;
        if length < 0 {
          length := length + queue.Length;
        }
        Watermark(length);
      } else {
        m := None;
        threshold := MQ_OVERLOAD;
        inGlobal := false;
      }
    }

    // Remembers a length beyond the watermark and raises the watermark.
    method Watermark(length: nat)
      requires threshold > 0
      modifies this`overload, this`threshold
      ensures threshold == Raised(old(threshold), length)
      ensures overload == if length > old(threshold) then length else old(overload)
    {
      while length > threshold
        invariant 0 < old(threshold) <= threshold && Raised(threshold, length) == Raised(old(threshold), length)
        invariant overload == if threshold > old(threshold) then length else old(overload)
        invariant threshold > old(threshold) ==> length > old(threshold)
        decreases length - threshold
      {
        overload := length;
        threshold := threshold * 2;
      }
    }
  }
}
