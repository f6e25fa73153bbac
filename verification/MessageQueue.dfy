/** The growing ring buffer of one service (skynet_mq.c): `struct message_queue` under its spin lock. */
module MessageQueue {

  import opened Prelude

  const DEFAULT_QUEUE_SIZE: nat := 64
  const MQ_OVERLOAD: nat := 1024

  /** The ring read from `head` up to `tail`. */
  function Ring<T>(q: seq<T>, head: nat, tail: nat): seq<T>
    requires head < |q| && tail < |q|
  {
    if head <= tail then q[head..tail] else q[head..] + q[..tail]
  }

  /** The threshold after `k` doublings. */
  function Doubled(threshold: nat, k: nat): nat {
    if k == 0 then threshold else 2 * Doubled(threshold, k - 1)
  }

  class Queue<T(0)> {
    var queue: array<T>
    var head: nat
    var tail: nat
    var release: bool
    var inGlobal: bool
    var overload: nat
    var overloadThreshold: nat

    ghost predicate Valid()
      reads this, queue
    {
      && head < queue.Length && tail < queue.Length
      && 0 < overloadThreshold
    }

    ghost function Contents(): seq<T>
      requires Valid()
      reads this, queue
    {
      Ring(queue[..], head, tail)
    }

    /** A new queue counts as listed, so that nobody lists it before its service is up. */
    constructor ()
      ensures Valid() && fresh(queue) && Contents() == []
      ensures inGlobal && !release && overload == 0 && overloadThreshold == MQ_OVERLOAD
    {
      queue := new T[DEFAULT_QUEUE_SIZE];
      head, tail := 0, 0;
      inGlobal, release := true, false;
      overload, overloadThreshold := 0, MQ_OVERLOAD;
    }

    method Length() returns (n: nat)
      requires Valid()
      ensures n == |Contents()|
    {
      if head <= tail {
        return tail - head;
      }
      n := tail + queue.Length - head;
    }

    /** skynet_mq_pop: the oldest message; the threshold doubles as long as, and no longer than, more are left. */
    method Pop() returns (message: Option<T>)
      requires Valid()
      modifies this`head, this`inGlobal, this`overload, this`overloadThreshold
      ensures Valid()
      ensures old(Contents()) == [] ==>
        message.None? && Contents() == [] && !inGlobal && overloadThreshold == MQ_OVERLOAD && overload == old(overload)
      ensures old(Contents()) != [] ==>
        && message == Some(old(Contents())[0]) && Contents() == old(Contents())[1..] && inGlobal == old(inGlobal)
        && |Contents()| <= overloadThreshold && old(overloadThreshold) <= overloadThreshold
        && overload == (if overloadThreshold == old(overloadThreshold) then old(overload) else |Contents()|)
        && exists k: nat :: overloadThreshold == Doubled(old(overloadThreshold), k)
                       && (k > 0 ==> Doubled(old(overloadThreshold), k - 1) < |Contents()|)
    {
      if head != tail {
        message := Some(queue[head]);
        RingPop(queue[..], head, tail);
        head := head + 1;
        if head >= queue.Length {
          head := 0;
        }
        var length: int := tail - head;
        if length < 0 {
          length := length + queue.Length;
        }
        assert length == |Contents()|;
        hide Ring;
        ghost var k: nat := 0;
        while length > overloadThreshold
          invariant overloadThreshold == Doubled(old(overloadThreshold), k)
          invariant k > 0 ==> Doubled(old(overloadThreshold), k - 1) < length
          invariant 0 < overloadThreshold && old(overloadThreshold) <= overloadThreshold
          invariant overload == if overloadThreshold == old(overloadThreshold) then old(overload) else length
          modifies this`overload, this`overloadThreshold
          decreases length - overloadThreshold
        {
          overload := length;
          overloadThreshold, k := overloadThreshold * 2, k + 1;
        }
      } else {
        overloadThreshold := MQ_OVERLOAD;
        message := None;
        inGlobal := false;
      }
    }

    /** Called when a push has made the ring full, so that head and tail meet on `cap` messages. */
    method ExpandQueue()
      requires head == tail < queue.Length && 0 < overloadThreshold
      modifies this`queue, this`head, this`tail
      ensures Valid() && fresh(queue)
      ensures Contents() == old(queue[head..] + queue[..head])
      ensures queue.Length == 2 * old(queue.Length)
    {
      var cap := queue.Length;
      var grown := new T[2 * cap];
      var i := 0;
      ghost var whole := queue[head..] + queue[..head];
      while i < cap
        invariant 0 <= i <= cap
        invariant grown[..i] == whole[..i]
        invariant queue == old(queue) && queue.Length == cap && head == old(head)
        invariant whole == queue[head..] + queue[..head]
      {
        RingIndex(head, i, cap);
        assert whole[i] == queue[(head + i) % cap];
        grown[i] := queue[(head + i) % cap];
        assert grown[..i+1] == grown[..i] + [grown[i]];
        assert whole[..i+1] == whole[..i] + [whole[i]];
        i := i + 1;
      }
      assert whole[..cap] == whole;
      head, tail := 0, cap;
      queue := grown;
      assert queue[..][0..cap] == queue[..cap];
    }

    /** skynet_mq_push; `listed` says whether the caller's push also put the queue on the run queue. */
    method Push(message: T) returns (listed: bool)
      requires Valid()
      modifies this`queue, this`head, this`tail, this`inGlobal, queue
      ensures Valid() && (queue == old(queue) || fresh(queue))
      ensures Contents() == old(Contents()) + [message]
      ensures queue.Length == old(if |Contents()| + 1 == queue.Length then 2 * queue.Length else queue.Length)
      ensures inGlobal && listed == !old(inGlobal)
    {
      ghost var before := Contents();
      ghost var q0, h, t := queue[..], head, tail;
      queue[tail] := message;
      tail := tail + 1;
      if tail >= queue.Length {
        tail := 0;
      }
      assert queue[..] == q0[t := message];
      RingPush(q0, h, t, message);
      if head == tail {
        ExpandQueue();
      }
      assert Contents() == before + [message];
      listed := !inGlobal;
      inGlobal := true;
    }

    method MarkRelease() returns (listed: bool)
      requires Valid() && !release
      modifies this`release
      ensures Valid() && release && Contents() == old(Contents())
      ensures listed == !inGlobal
    {
      release := true;
      listed := !inGlobal;
    }
  }

  lemma RingIndex(head: nat, i: nat, cap: nat)
    requires head < cap && i < cap
    ensures (head + i) % cap == if head + i < cap then head + i else head + i - cap
  {
    if head + i < cap {
      SmallMod(head + i, cap);
    } else {
      SmallMod(head + i - cap, cap);
      assert (head + i) % cap == (head + i - cap) % cap by {
        WrapMod(head + i - cap, cap);
      }
    }
  }

  lemma SmallMod(x: nat, n: nat)
    requires x < n
    ensures x % n == x
  {
  }

  lemma WrapMod(x: nat, n: nat)
    requires x < n
    ensures (x + n) % n == x
  {
    var q, r := (x + n) / n, (x + n) % n;
    assert x + n == q * n + r;
  }

  /** Advancing `head` takes the first message off the ring. */
  lemma RingPop<T>(q: seq<T>, head: nat, tail: nat)
    requires head < |q| && tail < |q| && head != tail
    ensures var h := if head + 1 >= |q| then 0 else head + 1;
      && Ring(q, head, tail) == [q[head]] + Ring(q, h, tail)
      && |Ring(q, h, tail)| == if h <= tail then tail - h else tail - h + |q|
  {
    if head < tail {
      assert q[head..tail] == [q[head]] + q[head + 1..tail];
    } else if head + 1 < |q| {
      assert q[head..] == [q[head]] + q[head + 1..];
      assert ([q[head]] + q[head + 1..]) + q[..tail] == [q[head]] + (q[head + 1..] + q[..tail]);
    } else {
      assert q[head..] == [q[head]];
      assert q[..tail] == q[0..tail];
    }
  }

  /** Storing at `tail` and advancing it appends to the ring, or fills it so that head and tail meet. */
  lemma RingPush<T>(q: seq<T>, head: nat, tail: nat, m: T)
    requires head < |q| && tail < |q|
    ensures var q', t := q[tail := m], if tail + 1 >= |q| then 0 else tail + 1;
      Ring(q, head, tail) + [m] == if head == t then q'[head..] + q'[..head] else Ring(q', head, t)
  {
    var q', t := q[tail := m], if tail + 1 >= |q| then 0 else tail + 1;
    if head <= tail {
      assert q'[head..tail + 1] == q[head..tail] + [m];
      if t == 0 {
        assert q'[head..] == q'[head..tail + 1];
      }
    } else {
      assert q'[..tail + 1] == q[..tail] + [m];
      assert q'[head..] == q[head..];
    }
  }
}
