/**
  Concurrent senders on one TCP socket (socket_server.c): any number of workers either write directly
  under the try-lock or hand a request to the socket thread through the pipe, guarded by the `sending`
  counter.  Every access to a shared field is a step of its own, in the order the code makes it, except
  that a region executed under the lock by the socket thread is one step.
 */
module SendProtocol {
  import opened Prelude
  import opened SendLists

  /**
    A worker: idle, inside the first `can_direct_write` without the lock after `seen` successful field reads,
    inside the second one under the lock, about to count its request, or about to put it in the pipe.
   */
  datatype Worker =
    | Idle
    | Peeking(p: Packet, seen: nat)
    | Checking(p: Packet, seen: nat)
    | Queueing(p: Packet)
    | Counted(p: Packet)

  /** The socket thread inside `ctrl_cmd`: request read, or appended with the counter still up. */
  datatype Thread = Waiting | Got(p: Packet) | Putted

  datatype State = State(
    ls: Lists, wire: seq<byte>, sending: nat, lock: Option<nat>, pipe: seq<Packet>, sock: Thread,
    pcs: seq<Worker>,
    done: seq<Packet>,        // history: packets written completely, in order
    sent: seq<seq<Packet>>,   // history: high-priority packets submitted by each worker, in order
    window: seq<Packet>,      // history: packets appended since the lock holder found the high list empty
    sentLow: seq<seq<Packet>> // history: low-priority packets submitted by each worker, in order
  )

  datatype Event =
    | Submit(w: nat, p: Packet)
    | Peek(w: nat, torn: bool)
    | Decline(w: nat)
    | Lock(w: nat)
    | Read(w: nat)
    | Write(w: nat, n: nat)
    | Count(w: nat)
    | Post(w: nat)
    | Take
    | Put
    | Drop
    | Flush(ans: seq<Answer>)

  function Init(n: nat): State {
    State(Lists([], [], 0, None), [], 0, None, [], Waiting, seq(n, i => Idle), [], seq(n, i => []), [],
          seq(n, i => []))
  }

  /** The four reads of `nomore_sending_data`, in program order. */
  predicate Blocks(s: State, k: nat) {
    if k == 0 then s.ls.high != []
    else if k == 1 then s.ls.low != []
    else if k == 2 then s.ls.dw.Some?
    else s.sending != 0
  }

  predicate Can(s: State, e: Event) {
    match e
    case Submit(w, p) => w < |s.pcs| == |s.sentLow| && w < |s.sent| && s.pcs[w].Idle? && p.sender == w
    case Peek(w, _) => w < |s.pcs| && s.pcs[w].Peeking? && s.pcs[w].seen < 4
    case Decline(w) => w < |s.pcs| && s.pcs[w].Peeking? && s.pcs[w].seen == 4
    case Lock(w) => w < |s.pcs| && s.pcs[w].Peeking? && s.pcs[w].seen == 4 && s.lock.None?
    case Read(w) => w < |s.pcs| && s.pcs[w].Checking? && s.pcs[w].seen < 4
    case Write(w, n) => w < |s.pcs| && s.pcs[w].Checking? && s.pcs[w].seen == 4 && n <= |s.pcs[w].p.data|
    case Count(w) => w < |s.pcs| && s.pcs[w].Queueing? && s.sending < 0xffff
    case Post(w) => w < |s.pcs| && s.pcs[w].Counted?
    case Take => s.sock.Waiting? && s.pipe != []
    case Put => s.sock.Got?
    case Drop => s.sock.Putted? && s.sending > 0
    case Flush(_) => s.sock.Waiting? && s.lock.None? && AllSound(Line(s.ls)) && AllSound(s.ls.low)
  }

  /**
    A read without the lock.  `torn`: it falls into a flush of the socket thread, which is one step here, and
    may find a list or the direct-write buffer empty in between; the counter is not touched by a flush.
   */
  function AfterPeek(s: State, w: nat, torn: bool): State
    requires w < |s.pcs| && s.pcs[w].Peeking?
  {
    var Peeking(p, k) := s.pcs[w];
    if Blocks(s, k) && (k >= 3 || !torn) then s.(pcs := s.pcs[w := Queueing(p)])
    else s.(pcs := s.pcs[w := Peeking(p, k + 1)])
  }

  function AfterRead(s: State, w: nat): State
    requires w < |s.pcs| && s.pcs[w].Checking?
  {
    var Checking(p, k) := s.pcs[w];
    if Blocks(s, k) then s.(lock := None, pcs := s.pcs[w := Queueing(p)])
    else s.(pcs := s.pcs[w := Checking(p, k + 1)], window := if k == 0 then [] else s.window)
  }

  /** The direct write of `n` bytes; what is left over waits in the direct-write buffer. */
  function AfterWrite(s: State, w: nat, n: nat): State
    requires w < |s.pcs| && s.pcs[w].Checking? && n <= |s.pcs[w].p.data|
  {
    var p := s.pcs[w].p;
    var t := s.(wire := s.wire + p.data[..n], lock := None, pcs := s.pcs[w := Idle]);
    if n == |p.data| then t.(done := s.done + [p])
    else t.(ls := s.ls.(dw := Some(Buf(p, n))))
  }

  function AfterFlush(s: State, ans: seq<Answer>): State
    requires AllSound(Line(s.ls)) && AllSound(s.ls.low)
  {
    MergeSound(s.ls);
    var f := FlushLists(Merge(s.ls), ans);
    s.(ls := f.st, wire := s.wire + f.bytes, done := s.done + f.finished)
  }

  lemma MergeSound(s: Lists)
    requires AllSound(Line(s)) && AllSound(s.low)
    ensures AllSound(Merge(s).high) && AllSound(Merge(s).low)
  {
    assert Merge(s).high == Line(s);
  }

  function Do(s: State, e: Event): State
    requires Can(s, e)
  {
    match e
    case Submit(w, p) =>
      if p.high then s.(pcs := s.pcs[w := Peeking(p, 0)], sent := s.sent[w := s.sent[w] + [p]])
      else s.(pcs := s.pcs[w := Queueing(p)], sentLow := s.sentLow[w := s.sentLow[w] + [p]])
    case Peek(w, torn) => AfterPeek(s, w, torn)
    case Decline(w) => s.(pcs := s.pcs[w := Queueing(s.pcs[w].p)])
    case Lock(w) => s.(lock := Some(w), pcs := s.pcs[w := Checking(s.pcs[w].p, 0)])
    case Read(w) => AfterRead(s, w)
    case Write(w, n) => AfterWrite(s, w, n)
    case Count(w) => s.(sending := s.sending + 1, pcs := s.pcs[w := Counted(s.pcs[w].p)])
    case Post(w) => s.(pipe := s.pipe + [s.pcs[w].p], pcs := s.pcs[w := Idle])
    case Take => s.(pipe := s.pipe[1..], sock := Got(s.pipe[0]))
    case Put => s.(ls := Append(s.ls, s.sock.p), window := s.window + [s.sock.p], sock := Putted)
    case Drop => s.(sending := s.sending - 1, sock := Waiting)
    case Flush(ans) => AfterFlush(s, ans)
  }

  /** A step; an event that is not enabled changes nothing, so every sequence of events is a run. */
  function Step(s: State, e: Event): State {
    if Can(s, e) then Do(s, e) else s
  }

  function After(n: nat, evs: seq<Event>): State {
    if evs == [] then Init(n) else Step(After(n, evs[..|evs|-1]), evs[|evs|-1])
  }

  // ---------------------------------------------------------------- invariants

  function CountCounted(pcs: seq<Worker>): nat {
    if pcs == [] then 0 else CountCounted(pcs[..|pcs|-1]) + if pcs[|pcs|-1].Counted? then 1 else 0
  }

  lemma {:induction false} CountUpdate(pcs: seq<Worker>, w: nat, x: Worker)
    requires w < |pcs|
    ensures CountCounted(pcs[w := x]) + (if pcs[w].Counted? then 1 else 0)
         == CountCounted(pcs) + (if x.Counted? then 1 else 0)
  {
    var init := pcs[..|pcs|-1];
    if w == |pcs| - 1 {
      assert pcs[w := x][..|pcs|-1] == init;
    } else {
      CountUpdate(init, w, x);
      assert pcs[w := x][..|pcs|-1] == init[w := x];
    }
  }

  predicate LockAgrees(s: State) {
    && |s.sent| == |s.pcs| == |s.sentLow|
    && (forall w :: 0 <= w < |s.pcs| ==> (s.pcs[w].Checking? <==> s.lock == Some(w)))
    && (forall w :: 0 <= w < |s.pcs| && !s.pcs[w].Idle? ==> s.pcs[w].p.sender == w)
    && (forall w :: 0 <= w < |s.pcs| && s.pcs[w].Peeking? ==> s.pcs[w].p.high)
    && (forall w :: 0 <= w < |s.pcs| && s.pcs[w].Checking? ==> s.pcs[w].p.high && s.pcs[w].seen <= 4)
  }

  predicate CounterAgrees(s: State) {
    s.sending == |s.pipe| + (if s.sock.Waiting? then 0 else 1) + CountCounted(s.pcs)
  }

  /** What the lock holder may rely on from its reads, although the socket thread keeps appending. */
  ghost predicate ReadsHold(s: State) {
    match s.lock
    case None => true
    case Some(w) =>
      && w < |s.pcs| && s.pcs[w].Checking?
      && (s.pcs[w].seen >= 1 ==> AllFresh(s.ls.high) && OnlyHigh(Pkts(s.ls.high)) == OnlyHigh(s.window))
      && (s.pcs[w].seen >= 3 ==> s.ls.dw.None?)
  }

  /** Integrity: the lock, the counter and the wire agree in every reachable state. */
  ghost predicate Inv(s: State) {
    && LockAgrees(s)
    && CounterAgrees(s)
    && ReadsHold(s)
    && OnWire(s.ls, s.wire, s.done)
  }

  lemma LockKept(s: State, e: Event)
    requires LockAgrees(s)
    ensures LockAgrees(Step(s, e))
  {
    hide FlushLists, Append, Merge, AllSound, Line;
  }

  lemma CounterKept(s: State, e: Event)
    requires CounterAgrees(s)
    ensures CounterAgrees(Step(s, e))
  {
    hide FlushLists, Append, Merge, AllSound, Line, CountCounted, Blocks;
    if Can(s, e) {
      match e
      case Submit(w, p) =>
        CountUpdate(s.pcs, w, Peeking(p, 0));
        CountUpdate(s.pcs, w, Queueing(p));
      case Peek(w, _) =>
        CountUpdate(s.pcs, w, Queueing(s.pcs[w].p));
        CountUpdate(s.pcs, w, Peeking(s.pcs[w].p, s.pcs[w].seen + 1));
      case Decline(w) => CountUpdate(s.pcs, w, Queueing(s.pcs[w].p));
      case Lock(w) => CountUpdate(s.pcs, w, Checking(s.pcs[w].p, 0));
      case Read(w) =>
        CountUpdate(s.pcs, w, Queueing(s.pcs[w].p));
        CountUpdate(s.pcs, w, Checking(s.pcs[w].p, s.pcs[w].seen + 1));
      case Write(w, _) => CountUpdate(s.pcs, w, Idle);
      case Count(w) => CountUpdate(s.pcs, w, Counted(s.pcs[w].p));
      case Post(w) => CountUpdate(s.pcs, w, Idle);
      case _ =>
    }
  }

  lemma WholeWrite(ls: Lists, wire: seq<byte>, done: seq<Packet>, p: Packet)
    requires OnWire(ls, wire, done) && ls.dw.None? && AllFresh(ls.high)
    ensures OnWire(ls, wire + p.data, done + [p])
  {
    assert Line(ls) == ls.high;
    FreshHead(ls.high);
    FlatConcat(done, [p]);
    FlatOne(p);
    hide Flat, Unsent, HeadPart;
  }

  lemma PartWrite(ls: Lists, wire: seq<byte>, done: seq<Packet>, p: Packet, n: nat)
    requires OnWire(ls, wire, done) && ls.dw.None? && AllFresh(ls.high) && n < |p.data|
    ensures OnWire(ls.(dw := Some(Buf(p, n))), wire + p.data[..n], done)
  {
    assert Line(ls) == ls.high;
    FreshHead(ls.high);
    var t := ls.(dw := Some(Buf(p, n)));
    assert Line(t) == [Buf(p, n)] + ls.high;
    hide Flat, Unsent;
    assert HeadPart(Line(t)) == p.data[..n];
  }

  lemma DirectWrite(s: State, w: nat, n: nat)
    requires Inv(s) && Can(s, Write(w, n))
    ensures s.ls.dw.None? && Line(s.ls) == s.ls.high && AllFresh(s.ls.high)
    ensures var t := AfterWrite(s, w, n); OnWire(t.ls, t.wire, t.done)
  {
    hide OnWire;
    assert s.lock == Some(w);
    assert Line(s.ls) == s.ls.high;
    var p := s.pcs[w].p;
    if n == |p.data| {
      WholeWrite(s.ls, s.wire, s.done, p);
      assert p.data[..n] == p.data;
    } else {
      PartWrite(s.ls, s.wire, s.done, p, n);
    }
  }

  lemma WireKept(s: State, e: Event)
    requires Inv(s)
    ensures var t := Step(s, e); OnWire(t.ls, t.wire, t.done)
  {
    InvWire(s);
    hide OnWire, FlushLists, Merge, Append, AllSound, Line, Balanced, Pkts, OnlyHigh;
    if Can(s, e) {
      match e
      case Write(w, n) => DirectWrite(s, w, n);
      case Put => OnWireAppend(s.ls, s.wire, s.done, s.sock.p);
      case Flush(ans) => OnWireFlush(s.ls, s.wire, s.done, ans);
      case _ =>
    }
  }

  lemma {:induction false} AppendFresh(s: Lists, p: Packet, window: seq<Packet>)
    requires AllFresh(s.high) && OnlyHigh(Pkts(s.high)) == OnlyHigh(window)
    ensures AllFresh(Append(s, p).high)
    ensures OnlyHigh(Pkts(Append(s, p).high)) == OnlyHigh(window + [p])
  {
    OnePacket(p);
    PktsConcat(s.high, [Buf(p, 0)]);
    OnlyHighConcat(Pkts(s.high), [p]);
    OnlyHighConcat(window, [p]);
    hide OnlyHigh, Pkts;
    if !((s.high == [] && s.low == []) || p.high) {
      assert OnlyHigh(window) + [] == OnlyHigh(window);
    }
  }

  lemma {:induction false} ReadsKept(s: State, e: Event)
    requires LockAgrees(s) && ReadsHold(s)
    ensures ReadsHold(Step(s, e))
  {
    hide FlushLists, Merge, OnlyHigh, AllSound, Pkts, Line, AllFresh, Append;
    if Can(s, e) {
      if e.Put? && s.lock.Some? {
        AppendKeepsDw(s.ls, s.sock.p);
        if s.pcs[s.lock.value].seen >= 1 {
          AppendFresh(s.ls, s.sock.p, s.window);
        }
      }
      EmptyLists();
    }
  }

  lemma AppendKeepsDw(s: Lists, p: Packet)
    ensures Append(s, p).dw == s.dw
  {
  }

  lemma EmptyLists()
    ensures OnlyHigh(Pkts([])) == OnlyHigh([]) == [] && AllFresh([])
  {
  }

  lemma InvKept(s: State, e: Event)
    requires Inv(s)
    ensures Inv(Step(s, e))
  {
    LockKept(s, e);
    CounterKept(s, e);
    ReadsKept(s, e);
    WireKept(s, e);
    hide LockAgrees, CounterAgrees, ReadsHold, OnWire, Step;
  }

  lemma {:induction false} InitInv(n: nat)
    ensures Inv(Init(n))
  {
    var s := Init(n);
    assert s.pcs == seq(n, i => Idle);
    NoneCounted(s.pcs);
    assert Line(s.ls) == [];
  }

  lemma {:induction false} NoneCounted(pcs: seq<Worker>)
    requires forall i :: 0 <= i < |pcs| ==> pcs[i].Idle?
    ensures CountCounted(pcs) == 0
  {
    if pcs != [] {
      NoneCounted(pcs[..|pcs|-1]);
    }
  }

  /**
    Packet integrity over every interleaving: what the fd has received is a sequence of whole packets
    followed by a part of at most one more, wb_size counts the unsent bytes, and `sending` counts the
    requests between a worker's increment and the socket thread's decrement.
   */
  lemma {:induction false} IntegrityHolds(n: nat, evs: seq<Event>)
    ensures Inv(After(n, evs))
  {
    if evs == [] {
      InitInv(n);
    } else {
      IntegrityHolds(n, evs[..|evs|-1]);
      InvKept(After(n, evs[..|evs|-1]), evs[|evs|-1]);
    }
  }

  // ---------------------------------------------------------------- order of one sender's packets

  function From(w: nat, ps: seq<Packet>): seq<Packet> {
    if ps == [] then []
    else From(w, ps[..|ps|-1]) + (if ps[|ps|-1].sender == w then [ps[|ps|-1]] else [])
  }

  lemma {:induction false} FromConcat(w: nat, a: seq<Packet>, b: seq<Packet>)
    ensures From(w, a + b) == From(w, a) + From(w, b)
  {
    if b == [] {
      assert a + b == a;
    } else {
      var init, last := b[..|b|-1], b[|b|-1];
      FromConcat(w, a, init);
      assert (a + b)[..|a + b|-1] == a + init;
      assert From(w, a + b) == From(w, a + init) + (if last.sender == w then [last] else []);
    }
  }

  lemma FromOne(w: nat, p: Packet)
    ensures From(w, OnlyHigh([p])) == if p.high && p.sender == w then [p] else []
  {
    assert [p][..0] == [];
    OnePacket(p);
  }

  function Held(t: Thread): seq<Packet> {
    if t.Got? then [t.p] else []
  }

  /** Everything accepted so far, in the order it will be on the wire if nothing overtakes. */
  function Queue(s: State): seq<Packet> {
    s.done + Pkts(Line(s.ls)) + (Held(s.sock) + s.pipe)
  }

  function Queued(s: State, w: nat): seq<Packet> {
    From(w, OnlyHigh(Queue(s)))
  }

  function Own(s: State, w: nat): seq<Packet>
    requires w < |s.pcs|
  {
    if s.pcs[w].Idle? || !s.pcs[w].p.high then [] else [s.pcs[w].p]
  }

  /** The high-priority packets of worker `w` are in the order in which it submitted them. */
  predicate InOrder(s: State, w: nat)
    requires w < |s.pcs| && w < |s.sent|
  {
    Queued(s, w) + Own(s, w) == s.sent[w]
  }

  lemma QueueParts(s: State)
    ensures OnlyHigh(Queue(s)) == OnlyHigh(s.done) + OnlyHigh(Pkts(Line(s.ls))) + OnlyHigh(Held(s.sock) + s.pipe)
  {
    OnlyHighConcat(s.done + Pkts(Line(s.ls)), Held(s.sock) + s.pipe);
    OnlyHighConcat(s.done, Pkts(Line(s.ls)));
  }

  lemma PutKeepsQueue(s: State, t: State)
    requires OnWire(s.ls, s.wire, s.done) && s.sock.Got?
    requires t.ls == Append(s.ls, s.sock.p) && t.done == s.done && t.pipe == s.pipe && t.sock == Putted
    ensures OnlyHigh(Queue(t)) == OnlyHigh(Queue(s))
  {
    hide OnWire, OnlyHigh, Pkts, Line, Append, Queue, Balanced, AllSound, HeadPart;
    var p := s.sock.p;
    OnWireSound(s.ls, s.wire, s.done);
    AppendBalanced(s.ls, p);
    QueueParts(s);
    QueueParts(t);
    OnlyHighConcat([p], s.pipe);
    assert Held(t.sock) + t.pipe == s.pipe;
    Regroup(OnlyHigh(s.done), OnlyHigh(Pkts(Line(s.ls))), OnlyHigh([p]), OnlyHigh(s.pipe));
  }

  lemma Regroup<T>(a: seq<T>, b: seq<T>, c: seq<T>, d: seq<T>)
    ensures a + (b + c) + d == a + b + (c + d)
  {
  }

  lemma FlushKeepsQueue(s: State, t: State, f: Flushed)
    requires t.done == s.done + f.finished && t.ls == f.st && t.pipe == s.pipe && t.sock == s.sock
    requires OnlyHigh(f.finished + Pkts(Line(f.st))) == OnlyHigh(Pkts(Line(s.ls)))
    ensures OnlyHigh(Queue(t)) == OnlyHigh(Queue(s))
  {
    hide OnlyHigh, Pkts, Line, Held;
    var tail := Held(s.sock) + s.pipe;
    var here := Pkts(Line(f.st));
    assert (s.done + f.finished) + here + tail == s.done + (f.finished + here) + tail;
    OnlyHighConcat(s.done + (f.finished + here), tail);
    OnlyHighConcat(s.done, f.finished + here);
    QueueParts(s);
  }

  lemma TakeKeepsQueue(s: State)
    requires Can(s, Take)
    ensures Queue(Do(s, Take)) == Queue(s)
  {
    assert [s.pipe[0]] + s.pipe[1..] == s.pipe;
    assert [] + s.pipe == s.pipe;
  }

  lemma InvWire(s: State)
    requires Inv(s)
    ensures OnWire(s.ls, s.wire, s.done)
  {
  }

  lemma QueueKept(s: State, e: Event)
    requires Inv(s) && !(Can(s, e) && (e.Write? || e.Post?))
    ensures OnlyHigh(Queue(Step(s, e))) == OnlyHigh(Queue(s))
  {
    InvWire(s);
    hide Inv, OnWire, OnlyHigh, FlushLists, Pkts, Append, AllSound, Line;
    if Can(s, e) {
      if e.Put? {
        PutKeepsQueue(s, Do(s, e));
      } else if e.Flush? {
        OnWireFlush(s.ls, s.wire, s.done, e.ans);
        FlushKeepsQueue(s, Do(s, e), FlushLists(Merge(s.ls), e.ans));
      } else if e.Take? {
        TakeKeepsQueue(s);
      } else {
        OthersKeepQueue(s, e);
      }
      hide Do, Queue;
    }
  }

  lemma OthersKeepQueue(s: State, e: Event)
    requires Can(s, e) && !e.Put? && !e.Flush? && !e.Take? && !e.Write? && !e.Post?
    ensures Queue(Do(s, e)) == Queue(s)
  {
    hide FlushLists, Pkts, Append, Line;
  }

  lemma PostGrowsQueue(s: State, w: nat)
    requires Can(s, Post(w))
    ensures OnlyHigh(Queue(Do(s, Post(w)))) == OnlyHigh(Queue(s)) + OnlyHigh([s.pcs[w].p])
  {
    var p := s.pcs[w].p;
    assert Queue(Do(s, Post(w))) == Queue(s) + [p];
    OnlyHighConcat(Queue(s), [p]);
  }

  /** A direct write enters the queue in front of whatever the high list holds by then. */
  lemma WriteInserts(s: State, w: nat, n: nat)
    requires Inv(s) && Can(s, Write(w, n))
    ensures s.ls.dw.None? && Line(s.ls) == s.ls.high && s.pcs[w].p.high
    ensures OnlyHigh(Queue(Do(s, Write(w, n))))
         == (OnlyHigh(s.done) + [s.pcs[w].p]) + OnlyHigh(Pkts(s.ls.high)) + OnlyHigh(Held(s.sock) + s.pipe)
  {
    hide OnlyHigh, Pkts, OnWire;
    DirectWrite(s, w, n);
    var t := Do(s, Write(w, n));
    assert s.pcs[w].p.high;
    FrontInsert(s.done, s.ls, s.pcs[w].p, n);
    hide Inv, Line;
    QueueParts(t);
  }

  lemma FrontInsert(done: seq<Packet>, ls: Lists, p: Packet, n: nat)
    requires p.high && ls.dw.None?
    ensures OnlyHigh(done + [p]) + OnlyHigh(Pkts(Line(ls))) == (OnlyHigh(done) + [p]) + OnlyHigh(Pkts(ls.high))
    ensures OnlyHigh(done) + OnlyHigh(Pkts(Line(ls.(dw := Some(Buf(p, n))))))
         == (OnlyHigh(done) + [p]) + OnlyHigh(Pkts(ls.high))
  {
    OnePacket(p);
    assert Line(ls) == ls.high;
    OnlyHighConcat(done, [p]);
    FrontPackets(ls, p, n);
    hide OnlyHigh, Pkts, Line;
    OnlyHighConcat([p], Pkts(ls.high));
    assert OnlyHigh(done) + ([p] + OnlyHigh(Pkts(ls.high))) == (OnlyHigh(done) + [p]) + OnlyHigh(Pkts(ls.high));
  }

  lemma FrontPackets(ls: Lists, p: Packet, n: nat)
    ensures Pkts(Line(ls.(dw := Some(Buf(p, n))))) == [p] + Pkts(ls.high)
  {
    var t := ls.(dw := Some(Buf(p, n)));
    assert Line(t) == [Buf(p, n)] + ls.high;
    assert Line(t)[1..] == ls.high;
  }

  // ---------------------------------------------------------------- when the order is kept

  /** From the last read of the first `can_direct_write`, which found `sending` at 0, to the direct write. */
  predicate Trying(pc: Worker) {
    (pc.Peeking? && pc.seen == 4) || pc.Checking?
  }

  /** A worker that is trying to write directly has nothing of its own in the pipe. */
  predicate PipeClear(s: State) {
    forall w :: 0 <= w < |s.pcs| && Trying(s.pcs[w]) ==> From(w, OnlyHigh(Held(s.sock) + s.pipe)) == []
  }

  /** Hence nothing of its own is appended while it checks for the second time. */
  predicate WindowClear(s: State) {
    forall w :: 0 <= w < |s.pcs| && s.pcs[w].Checking? && s.pcs[w].seen >= 1 ==> From(w, OnlyHigh(s.window)) == []
  }

  lemma FromAppend(w: nat, ps: seq<Packet>, p: Packet)
    ensures From(w, OnlyHigh(ps + [p])) == From(w, OnlyHigh(ps)) + if p.high && p.sender == w then [p] else []
  {
    OnlyHighConcat(ps, [p]);
    FromConcat(w, OnlyHigh(ps), OnlyHigh([p]));
    FromOne(w, p);
  }

  lemma FromPrepend(w: nat, ps: seq<Packet>, p: Packet)
    ensures From(w, OnlyHigh([p] + ps)) == (if p.high && p.sender == w then [p] else []) + From(w, OnlyHigh(ps))
  {
    OnlyHighConcat([p], ps);
    FromConcat(w, OnlyHigh([p]), OnlyHigh(ps));
    FromOne(w, p);
  }

  lemma PipeClearPost(s: State, v: nat, w: nat)
    requires v < |s.pcs| && !s.pcs[v].Idle? && s.pcs[v].p.sender != w
    ensures From(w, OnlyHigh(Held(s.sock) + (s.pipe + [s.pcs[v].p]))) == From(w, OnlyHigh(Held(s.sock) + s.pipe))
  {
    FromAppend(w, Held(s.sock) + s.pipe, s.pcs[v].p);
    hide OnlyHigh, From;
    assert Held(s.sock) + (s.pipe + [s.pcs[v].p]) == (Held(s.sock) + s.pipe) + [s.pcs[v].p];
  }

  lemma PipeClearThread(s: State, e: Event, w: nat)
    requires Can(s, e) && (e.Take? || e.Put?)
    ensures var t := Do(s, e);
      From(w, OnlyHigh(Held(s.sock) + s.pipe)) == [] ==> From(w, OnlyHigh(Held(t.sock) + t.pipe)) == []
  {
    hide OnlyHigh, From, Append;
    if e.Take? {
      assert [s.pipe[0]] + s.pipe[1..] == [] + s.pipe;
    } else {
      FromPrepend(w, s.pipe, s.sock.p);
      assert [] + s.pipe == s.pipe;
    }
  }

  /** With `sending` at 0 the pipe is empty, because the counter drops only after the append. */
  lemma ZeroIsClear(s: State, w: nat)
    requires CounterAgrees(s) && s.sending == 0
    ensures Held(s.sock) + s.pipe == [] && From(w, OnlyHigh([])) == []
  {
  }

  lemma PipeClearAt(s: State, e: Event, w: nat)
    requires LockAgrees(s) && CounterAgrees(s) && PipeClear(s) && Can(s, e)
    requires w < |s.pcs| == |Do(s, e).pcs| && Trying(Do(s, e).pcs[w])
    ensures var t := Do(s, e); From(w, OnlyHigh(Held(t.sock) + t.pipe)) == []
  {
    hide OnlyHigh, From, CountCounted, FlushLists, Merge, Append, CounterAgrees, AllSound, Line;
    if e.Post? {
      PipeClearPost(s, e.w, w);
    } else if e.Take? || e.Put? {
      PipeClearThread(s, e, w);
    } else if e.Peek? && e.w == w {
      ZeroIsClear(s, w);
    }
  }

  lemma PipeClearKept(s: State, e: Event)
    requires LockAgrees(s) && CounterAgrees(s) && PipeClear(s)
    ensures PipeClear(Step(s, e))
  {
    hide OnlyHigh, From, Held, Do, LockAgrees, CounterAgrees;
    if Can(s, e) {
      SamePool(s, e);
      var t := Do(s, e);
      forall w | 0 <= w < |t.pcs| && Trying(t.pcs[w])
        ensures From(w, OnlyHigh(Held(t.sock) + t.pipe)) == []
      {
        PipeClearAt(s, e, w);
      }
    }
  }

  lemma WindowClearKept(s: State, e: Event)
    requires LockAgrees(s) && PipeClear(s) && WindowClear(s)
    ensures WindowClear(Step(s, e))
  {
    hide OnlyHigh, From, FlushLists, Merge, Append, AllSound, Line, Pkts;
    EmptyLists();
    forall w
      ensures From(w, OnlyHigh([])) == []
    {
      NoneFrom(w);
    }
    if Can(s, e) && e.Put? {
      forall w | 0 <= w < |s.pcs| && s.pcs[w].Checking?
        ensures From(w, OnlyHigh(s.window + [s.sock.p])) == From(w, OnlyHigh(s.window))
      {
        FromAppend(w, s.window, s.sock.p);
        FromPrepend(w, s.pipe, s.sock.p);
      }
    }
  }

  lemma NoneFrom(w: nat)
    ensures From(w, OnlyHigh([])) == []
  {
  }

  lemma QueuedParts(s: State, w: nat)
    ensures Queued(s, w) == From(w, OnlyHigh(s.done)) + From(w, OnlyHigh(Pkts(Line(s.ls))))
                            + From(w, OnlyHigh(Held(s.sock) + s.pipe))
  {
    QueueParts(s);
    var a, b, c := OnlyHigh(s.done), OnlyHigh(Pkts(Line(s.ls))), OnlyHigh(Held(s.sock) + s.pipe);
    FromConcat(w, a + b, c);
    FromConcat(w, a, b);
  }

  /** What a direct write by `v` does to the line of worker `w`. */
  lemma {:induction false} WriteQueued(s: State, v: nat, n: nat, w: nat)
    requires Inv(s) && PipeClear(s) && Can(s, Write(v, n))
    ensures var a, b, c := From(w, OnlyHigh(s.done)), From(w, OnlyHigh(s.window)),
                           From(w, OnlyHigh(Held(s.sock) + s.pipe));
      && Queued(s, w) == a + b + c
      && Queued(Do(s, Write(v, n)), w) == a + (if v == w then [s.pcs[v].p] else []) + b + c
      && (v == w ==> c == [])
  {
    hide OnlyHigh, From, OnWire;
    WriteInserts(s, v, n);
    assert s.lock == Some(v);
    var p := s.pcs[v].p;
    var a, b, c := OnlyHigh(s.done), OnlyHigh(Pkts(s.ls.high)), OnlyHigh(Held(s.sock) + s.pipe);
    assert b == OnlyHigh(s.window) && p.sender == v;
    hide Inv, Pkts, Do;
    QueuedParts(s, w);
    FromConcat(w, (a + [p]) + b, c);
    FromConcat(w, a + [p], b);
    FromConcat(w, a, [p]);
    OnePacket(p);
    FromOne(w, p);
  }

  lemma OrderKeptWrite(s: State, v: nat, n: nat, w: nat, t: State)
    requires w < |s.pcs| && w < |s.sent| && InOrder(s, w) && w < |t.pcs| && w < |t.sent|
    requires Inv(s) && PipeClear(s) && WindowClear(s) && Can(s, Write(v, n)) && t == Do(s, Write(v, n))
    ensures InOrder(t, w)
  {
    hide Inv, OnlyHigh, From, Queued, Held, PipeClear;
    WriteQueued(s, v, n, w);
    LockedHigh(s, v, n);
    var a, b, c := From(w, OnlyHigh(s.done)), From(w, OnlyHigh(s.window)), From(w, OnlyHigh(Held(s.sock) + s.pipe));
    assert v == w ==> b == [];
    if v != w {
      assert a + [] + b + c == a + b + c;
    } else {
      assert a + [s.pcs[v].p] + [] + [] + [] == a + [] + [] + [s.pcs[v].p];
    }
  }

  lemma LockedHigh(s: State, v: nat, n: nat)
    requires Inv(s) && Can(s, Write(v, n))
    ensures s.pcs[v].p.high
  {
  }

  lemma OrderKeptPost(s: State, v: nat, w: nat)
    requires LockAgrees(s) && Can(s, Post(v)) && w < |s.pcs| && InOrder(s, w)
    ensures InOrder(Do(s, Post(v)), w)
  {
    hide OnlyHigh, From, Queue;
    PostGrowsQueue(s, v);
    FromConcat(w, OnlyHigh(Queue(s)), OnlyHigh([s.pcs[v].p]));
    FromOne(w, s.pcs[v].p);
  }

  /** Apart from a direct write and a post, a step leaves a worker's hand alone or fills it. */
  lemma OwnKept(s: State, e: Event, w: nat)
    requires Can(s, e) && !e.Write? && !e.Post? && w < |s.pcs| && w < |s.sent|
    ensures var t := Do(s, e);
      && w < |t.pcs| && w < |t.sent|
      && exists more :: Own(t, w) == Own(s, w) + more && t.sent[w] == s.sent[w] + more
  {
    hide FlushLists, Merge, Append, Blocks, AllSound, Line;
    var t := Do(s, e);
    var more := if e.Submit? && e.w == w && e.p.high then [e.p] else [];
    assert Own(t, w) == Own(s, w) + more && t.sent[w] == s.sent[w] + more;
  }

  lemma OrderKept(s: State, e: Event, w: nat)
    requires Inv(s) && PipeClear(s) && WindowClear(s) && w < |s.pcs| && w < |s.sent| && InOrder(s, w)
    ensures var t := Step(s, e); w < |t.pcs| && w < |t.sent| && InOrder(t, w)
  {
    hide OnlyHigh, From, OnWire, Queue, CountCounted, PipeClear, WindowClear;
    if Can(s, e) {
      if e.Write? {
        OrderKeptWrite(s, e.w, e.n, w, Do(s, e));
      } else if e.Post? {
        OrderKeptPost(s, e.w, w);
      } else {
        QueueKept(s, e);
        OwnKept(s, e, w);
        var t := Do(s, e);
        hide Do;
        var more :| Own(t, w) == Own(s, w) + more && t.sent[w] == s.sent[w] + more;
        assert Queued(s, w) + (Own(s, w) + more) == (Queued(s, w) + Own(s, w)) + more;
      }
    }
  }

  // ---------------------------------------------------------------- whole runs

  ghost predicate AllInOrder(s: State) {
    |s.sent| == |s.pcs| && forall w :: 0 <= w < |s.pcs| ==> InOrder(s, w)
  }

  lemma SamePool(s: State, e: Event)
    ensures |Step(s, e).pcs| == |s.pcs| && |Step(s, e).sent| == |s.sent| && |Step(s, e).sentLow| == |s.sentLow|
  {
    hide FlushLists, Merge, Append, Blocks, AllSound, Line;
  }

  lemma AllOrderKept(s: State, e: Event)
    requires Inv(s) && PipeClear(s) && WindowClear(s) && AllInOrder(s)
    ensures AllInOrder(Step(s, e))
  {
    hide Inv, PipeClear, WindowClear, InOrder, Step;
    var t := Step(s, e);
    SamePool(s, e);
    forall w | 0 <= w < |t.pcs|
      ensures w < |t.sent| && InOrder(t, w)
    {
      OrderKept(s, e, w);
    }
  }

  lemma ForgetWire(s: State)
    requires Inv(s)
    ensures LockAgrees(s) && CounterAgrees(s)
  {
  }

  lemma InitInOrder(n: nat)
    ensures AllInOrder(Init(n))
  {
    var s := Init(n);
    assert Line(s.ls) == [];
    assert Queue(s) == [];
  }

  /** What every run keeps. */
  lemma {:induction false} AlwaysHolds(n: nat, evs: seq<Event>)
    ensures var s := After(n, evs); Inv(s) && PipeClear(s) && WindowClear(s) && AllInOrder(s)
  {
    if evs == [] {
      InitInv(n);
      InitInOrder(n);
    } else {
      var s, e := After(n, evs[..|evs|-1]), evs[|evs|-1];
      AlwaysHolds(n, evs[..|evs|-1]);
      ForgetWire(s);
      InvKept(s, e);
      PipeClearKept(s, e);
      WindowClearKept(s, e);
      AllOrderKept(s, e);
      hide Inv, PipeClear, WindowClear, AllInOrder, LockAgrees, CounterAgrees, Step;
    }
  }

  /**
    Per-sender order: over every interleaving of workers, pipe and socket thread, the high-priority packets of
    every worker are written, being written, listed, in the pipe or in its hand in the order of submission.
   */
  lemma OrderHolds(n: nat, evs: seq<Event>)
    ensures AllInOrder(After(n, evs))
  {
    AlwaysHolds(n, evs);
  }

  /** On the wire: the completed high-priority packets of a sender are a prefix of what it sent. */
  lemma WirePrefix(n: nat, evs: seq<Event>, w: nat)
    requires w < |After(n, evs).sent|
    ensures From(w, OnlyHigh(After(n, evs).done)) <= After(n, evs).sent[w]
  {
    hide After, From, OnlyHigh, Pkts, Line, Queued;
    var s := After(n, evs);
    OrderHolds(n, evs);
    QueuedParts(s, w);
    assert InOrder(s, w);
  }

  /** The assertion on entry to `send_buffer_`: whatever happened, the head of the low list is not partly sent. */
  lemma LowHeadWhole(n: nat, evs: seq<Event>)
    ensures var s := After(n, evs); s.ls.low != [] ==> s.ls.low[0].off == 0
  {
    IntegrityHolds(n, evs);
    var s := After(n, evs);
    hide After;
    InvWire(s);
    OnWireSound(s.ls, s.wire, s.done);
  }

  // ---------------------------------------------------------------- low priority

  /** The low-priority packets accepted so far, in the order they will be on the wire. */
  function LowQueue(s: State): seq<Packet> {
    OnlyLow(s.done) + (OnlyLow(Pkts(Line(s.ls))) + OnlyLow(Pkts(s.ls.low))) + OnlyLow(Held(s.sock) + s.pipe)
  }

  function OwnLow(s: State, w: nat): seq<Packet>
    requires w < |s.pcs|
  {
    if s.pcs[w].Idle? || s.pcs[w].p.high then [] else [s.pcs[w].p]
  }

  predicate InOrderLow(s: State, w: nat)
    requires w < |s.pcs| && w < |s.sentLow|
  {
    From(w, LowQueue(s)) + OwnLow(s, w) == s.sentLow[w]
  }

  lemma PutKeepsLow(s: State)
    requires Can(s, Put)
    ensures LowQueue(Do(s, Put)) == LowQueue(s)
  {
    hide OnlyLow, Pkts, Line, Append;
    var p := s.sock.p;
    AppendLowInLine(s.ls, p);
    OnlyLowConcat([p], s.pipe);
    var t := Do(s, Put);
    assert Held(s.sock) == [p] && Held(t.sock) + t.pipe == s.pipe && t.done == s.done && t.ls == Append(s.ls, p);
    hide Do, Can, Held;
    Regroup(OnlyLow(s.done), OnlyLow(Pkts(Line(s.ls))) + OnlyLow(Pkts(s.ls.low)), OnlyLow([p]), OnlyLow(s.pipe));
  }

  lemma FlushKeepsLow(s: State, ans: seq<Answer>)
    requires Inv(s) && Can(s, Flush(ans))
    ensures LowQueue(Do(s, Flush(ans))) == LowQueue(s)
  {
    hide OnlyLow, Pkts, Line, FlushLists, Held, OnWire;
    InvWire(s);
    OnWireSound(s.ls, s.wire, s.done);
    FlushInLine(s.ls, ans);
    hide Inv, Balanced, AllSound;
    var f := FlushLists(Merge(s.ls), ans);
    var line, low := Pkts(Line(f.st)), Pkts(f.st.low);
    OnlyLowConcat(f.finished, line + low);
    OnlyLowConcat(line, low);
    OnlyLowConcat(Pkts(Line(s.ls)), Pkts(s.ls.low));
    OnlyLowConcat(s.done, f.finished);
    assert (OnlyLow(s.done) + OnlyLow(f.finished)) + (OnlyLow(line) + OnlyLow(low))
        == OnlyLow(s.done) + (OnlyLow(f.finished) + (OnlyLow(line) + OnlyLow(low)));
  }

  lemma WriteKeepsLow(s: State, w: nat, n: nat)
    requires Inv(s) && Can(s, Write(w, n))
    ensures LowQueue(Do(s, Write(w, n))) == LowQueue(s)
  {
    hide OnlyLow, OnWire, Pkts;
    DirectWrite(s, w, n);
    LockedHigh(s, w, n);
    var p := s.pcs[w].p;
    OnlyLowConcat(s.done, [p]);
    OnlyLowOne(p);
    OnePacket(p);
    if n < |p.data| {
      DwKeepsLow(s.ls, p, n);
    }
    hide Inv, Line;
    assert OnlyLow(s.done) + [] == OnlyLow(s.done);
  }

  lemma DwKeepsLow(ls: Lists, p: Packet, n: nat)
    requires p.high && ls.dw.None?
    ensures OnlyLow(Pkts(Line(ls.(dw := Some(Buf(p, n)))))) == OnlyLow(Pkts(Line(ls)))
  {
    var b := Buf(p, n);
    assert Line(ls) == ls.high;
    assert Line(ls.(dw := Some(b))) == [b] + ls.high;
    PktsConcat([b], ls.high);
    assert Pkts([b]) == [p] by { assert [b][1..] == []; }
    OnlyLowConcat([p], Pkts(ls.high));
    OnlyLowOne(p);
  }

  lemma TakeKeepsLow(s: State)
    requires Can(s, Take)
    ensures LowQueue(Do(s, Take)) == LowQueue(s)
  {
    assert [s.pipe[0]] + s.pipe[1..] == [] + s.pipe;
    hide OnlyLow, Pkts, Line;
  }

  lemma OthersKeepLow(s: State, e: Event)
    requires Can(s, e) && !e.Put? && !e.Flush? && !e.Take? && !e.Write? && !e.Post?
    ensures LowQueue(Do(s, e)) == LowQueue(s)
  {
    hide FlushLists, Pkts, Append, Line, OnlyLow;
  }

  lemma LowQueueKept(s: State, e: Event)
    requires Inv(s) && Can(s, e) && !e.Post?
    ensures LowQueue(Do(s, e)) == LowQueue(s)
  {
    hide Inv, LowQueue, Do;
    match e
    case Put => PutKeepsLow(s);
    case Flush(ans) => FlushKeepsLow(s, ans);
    case Write(w, n) => WriteKeepsLow(s, w, n);
    case Take => TakeKeepsLow(s);
    case _ => OthersKeepLow(s, e);
  }

  lemma PostGrowsLow(s: State, v: nat)
    requires Can(s, Post(v))
    ensures LowQueue(Do(s, Post(v))) == LowQueue(s) + OnlyLow([s.pcs[v].p])
  {
    var p := s.pcs[v].p;
    var q := Held(s.sock) + s.pipe;
    assert Held(s.sock) + (s.pipe + [p]) == q + [p];
    OnlyLowConcat(q, [p]);
    hide OnlyLow, Pkts, Line, Held;
    Joined(OnlyLow(s.done) + (OnlyLow(Pkts(Line(s.ls))) + OnlyLow(Pkts(s.ls.low))), OnlyLow(q), OnlyLow([p]));
  }

  /** Apart from a post, a step leaves a worker's low-priority packet in its hand or fills the hand. */
  lemma OwnLowKept(s: State, e: Event, w: nat)
    requires Can(s, e) && !e.Post? && w < |s.pcs| == |s.sentLow|
    requires e.Write? ==> s.pcs[e.w].p.high
    ensures var t := Do(s, e);
      && |t.pcs| == |s.pcs| && |t.sentLow| == |s.sentLow|
      && exists more :: OwnLow(t, w) == OwnLow(s, w) + more && t.sentLow[w] == s.sentLow[w] + more
  {
    hide FlushLists, Merge, Append, Blocks, AllSound, Line;
    var t := Do(s, e);
    var more := if e.Submit? && e.w == w && !e.p.high then [e.p] else [];
    assert OwnLow(t, w) == OwnLow(s, w) + more && t.sentLow[w] == s.sentLow[w] + more;
  }

  lemma LowOrderKept(s: State, e: Event, w: nat)
    requires Inv(s) && w < |s.pcs| == |s.sentLow| && InOrderLow(s, w) && Can(s, e)
    ensures var t := Do(s, e); |t.pcs| == |t.sentLow| == |s.pcs| && InOrderLow(t, w)
  {
    hide From, LowQueue, OnlyLow, OnWire;
    ForgetWire(s);
    var t := Do(s, e);
    if e.Post? {
      PostGrowsLow(s, e.w);
      FromConcat(w, LowQueue(s), OnlyLow([s.pcs[e.w].p]));
      OnlyLowOne(s.pcs[e.w].p);
      FromSingle(w, s.pcs[e.w].p);
      hide Inv;
    } else {
      LowQueueKept(s, e);
      if e.Write? {
        LockedHigh(s, e.w, e.n);
      }
      OwnLowKept(s, e, w);
      hide Do, Inv;
      var more :| OwnLow(t, w) == OwnLow(s, w) + more && t.sentLow[w] == s.sentLow[w] + more;
      assert From(w, LowQueue(s)) + (OwnLow(s, w) + more) == (From(w, LowQueue(s)) + OwnLow(s, w)) + more;
    }
  }

  lemma FromSingle(w: nat, p: Packet)
    ensures From(w, [p]) == (if p.sender == w then [p] else []) && From(w, []) == []
  {
    assert [p][..0] == [];
  }

  /** The low-priority packets of every worker are in the order of submission, over every interleaving. */
  lemma {:induction false} LowOrderHolds(n: nat, evs: seq<Event>)
    ensures var s := After(n, evs);
      |s.sentLow| == |s.pcs| && forall w :: 0 <= w < |s.pcs| ==> InOrderLow(s, w)
  {
    if evs == [] {
      InitLow(n);
    } else {
      var s, e := After(n, evs[..|evs|-1]), evs[|evs|-1];
      LowOrderHolds(n, evs[..|evs|-1]);
      IntegrityHolds(n, evs[..|evs|-1]);
      hide InOrderLow, Inv, Do;
      if Can(s, e) {
        SamePool(s, e);
        forall w | 0 <= w < |Step(s, e).pcs|
          ensures InOrderLow(Step(s, e), w)
        {
          LowOrderKept(s, e, w);
        }
      }
    }
  }

  lemma InitLow(n: nat)
    ensures var s := Init(n); forall w :: 0 <= w < |s.pcs| ==> InOrderLow(s, w)
  {
    var s := Init(n);
    assert Line(s.ls) == [];
    assert LowQueue(s) == [];
  }

  /** On the wire: the completed low-priority packets of a sender are a prefix of what it sent. */
  lemma LowWirePrefix(n: nat, evs: seq<Event>, w: nat)
    requires w < |After(n, evs).sentLow|
    ensures From(w, OnlyLow(After(n, evs).done)) <= After(n, evs).sentLow[w]
  {
    LowOrderHolds(n, evs);
    var s := After(n, evs);
    hide After, From, OnlyLow, Pkts, Line;
    assert InOrderLow(s, w);
    var a, b := OnlyLow(s.done), (OnlyLow(Pkts(Line(s.ls))) + OnlyLow(Pkts(s.ls.low))) + OnlyLow(Held(s.sock) + s.pipe);
    assert LowQueue(s) == a + b;
    FromConcat(w, a, b);
  }

  // ---------------------------------------------------------------- priority

  /** A high-priority packet that waits for the fd has at most one low-priority packet before it. */
  lemma {:induction false} OneLowHolds(n: nat, evs: seq<Event>)
    ensures OneLow(After(n, evs).ls) && |OnlyLow(Pkts(Line(After(n, evs).ls)))| <= 1
  {
    OneLowRun(n, evs);
    OneLowAhead(After(n, evs).ls);
  }

  lemma {:induction false} OneLowRun(n: nat, evs: seq<Event>)
    ensures OneLow(After(n, evs).ls)
  {
    if evs != [] {
      var s, e := After(n, evs[..|evs|-1]), evs[|evs|-1];
      OneLowRun(n, evs[..|evs|-1]);
      IntegrityHolds(n, evs[..|evs|-1]);
      hide After;
      OneLowKept(s, e);
    }
  }

  lemma OneLowKept(s: State, e: Event)
    requires Inv(s) && OneLow(s.ls)
    ensures OneLow(Step(s, e).ls)
  {
    InvWire(s);
    OnWireSound(s.ls, s.wire, s.done);
    hide OnWire, Balanced, FlushLists, Merge, Append, OnlyLow, Pkts;
    if Can(s, e) {
      match e
      case Write(w, n) => LockedHigh(s, w, n);
      case Put => AppendOneLow(s.ls, s.sock.p);
      case Flush(ans) => FlushOneLow(s.ls, ans);
      case _ =>
    }
  }

  // ---------------------------------------------------------------- progress

  function Run(s: State, evs: seq<Event>): State
    decreases |evs|
  {
    if evs == [] then s else Run(Step(s, evs[0]), evs[1..])
  }

  lemma {:induction false} RunConcat(s: State, a: seq<Event>, b: seq<Event>)
    ensures Run(s, a + b) == Run(Run(s, a), b)
    decreases |a|
  {
    hide Step;
    if a == [] {
      assert a + b == b;
    } else {
      RunConcat(Step(s, a[0]), a[1..], b);
      assert (a + b)[1..] == a[1..] + b;
    }
  }

  lemma {:induction false} RunAfter(n: nat, evs: seq<Event>, more: seq<Event>)
    ensures After(n, evs + more) == Run(After(n, evs), more)
    decreases |more|
  {
    hide Step;
    if more == [] {
      assert evs + more == evs;
    } else {
      var longer := evs + [more[0]];
      RunAfter(n, longer, more[1..]);
      assert longer + more[1..] == evs + more;
      assert longer[..|longer|-1] == evs;
      assert After(n, longer) == Step(After(n, evs), more[0]);
    }
  }

  /** Nothing is being sent and no other worker has the lock. */
  predicate Quiet(s: State) {
    s.ls == Lists([], [], 0, None) && s.sending == 0 && s.lock.None?
  }

  /** With nothing in the way a high-priority packet is written by its sender at once, and nothing else changes. */
  lemma DirectSend(s: State, w: nat, p: Packet)
    requires Quiet(s) && p.high && Can(s, Submit(w, p))
    ensures var t := Run(s, [Submit(w, p), Peek(w, false), Peek(w, false), Peek(w, false), Peek(w, false), Lock(w),
                             Read(w), Read(w), Read(w), Read(w), Write(w, |p.data|)]);
      t == s.(wire := s.wire + p.data, done := s.done + [p], sent := s.sent[w := s.sent[w] + [p]], window := [])
  {
    hide Run, Append, FlushLists;
    var sent := s.sent[w := s.sent[w] + [p]];
    var s5 := s.(pcs := s.pcs[w := Peeking(p, 4)], sent := sent);
    var s10 := s.(pcs := s.pcs[w := Checking(p, 4)], sent := sent, lock := Some(w), window := []);
    Submitted(s, w, p);
    Locked(s5, w, p);
    assert s5.pcs[w := Checking(p, 4)] == s.pcs[w := Checking(p, 4)];
    WrittenWhole(s10, w, p);
    assert s10.pcs[w := Idle] == s.pcs;
    hide Step;
    var a := [Submit(w, p), Peek(w, false), Peek(w, false), Peek(w, false), Peek(w, false)];
    var b, c := [Lock(w), Read(w), Read(w), Read(w), Read(w)], [Write(w, |p.data|)];
    RunOne(s10, Write(w, |p.data|));
    RunConcat(s, a, b);
    RunConcat(s, a + b, c);
    assert a + b + c == [Submit(w, p), Peek(w, false), Peek(w, false), Peek(w, false), Peek(w, false), Lock(w),
                         Read(w), Read(w), Read(w), Read(w), Write(w, |p.data|)];
  }

  lemma Submitted(s: State, w: nat, p: Packet)
    requires Quiet(s) && p.high && Can(s, Submit(w, p))
    ensures Run(s, [Submit(w, p), Peek(w, false), Peek(w, false), Peek(w, false), Peek(w, false)])
         == s.(pcs := s.pcs[w := Peeking(p, 4)], sent := s.sent[w := s.sent[w] + [p]])
  {
    var t := s.(pcs := s.pcs[w := Peeking(p, 0)], sent := s.sent[w := s.sent[w] + [p]]);
    assert Step(s, Submit(w, p)) == t;
    PeekThrough(t, w, p, 0, 4);
    hide Step, Can;
    var more := [Peek(w, false), Peek(w, false), Peek(w, false), Peek(w, false)];
    assert seq(4, i => Peek(w, false)) == more;
    RunOne(s, Submit(w, p));
    RunConcat(s, [Submit(w, p)], more);
    hide Run;
    assert [Submit(w, p)] + more == [Submit(w, p), Peek(w, false), Peek(w, false), Peek(w, false), Peek(w, false)];
    assert t.pcs[w := Peeking(p, 4)] == s.pcs[w := Peeking(p, 4)];
  }

  lemma Locked(s: State, w: nat, p: Packet)
    requires Quiet(s) && w < |s.pcs| && s.pcs[w] == Peeking(p, 4)
    ensures Run(s, [Lock(w), Read(w), Read(w), Read(w), Read(w)])
         == s.(pcs := s.pcs[w := Checking(p, 4)], lock := Some(w), window := [])
  {
    var t := s.(pcs := s.pcs[w := Checking(p, 0)], lock := Some(w));
    assert Step(s, Lock(w)) == t;
    ReadsThrough(t, w, p);
    hide Step, Can;
    var more := [Read(w), Read(w), Read(w), Read(w)];
    RunOne(s, Lock(w));
    RunConcat(s, [Lock(w)], more);
    hide Run;
    assert [Lock(w)] + more == [Lock(w), Read(w), Read(w), Read(w), Read(w)];
    assert t.pcs[w := Checking(p, 4)] == s.pcs[w := Checking(p, 4)];
  }

  lemma WrittenWhole(s: State, w: nat, p: Packet)
    requires w < |s.pcs| && s.pcs[w] == Checking(p, 4)
    ensures Step(s, Write(w, |p.data|))
         == s.(wire := s.wire + p.data, done := s.done + [p], lock := None, pcs := s.pcs[w := Idle])
  {
    assert p.data[..|p.data|] == p.data;
  }

  lemma RunOne(s: State, e: Event)
    ensures Run(s, [e]) == Step(s, e)
  {
    assert Run(Step(s, e), [e][1..]) == Step(s, e);
  }

  lemma {:induction false} PeekThrough(s: State, w: nat, p: Packet, k: nat, left: nat)
    requires Quiet(s) && w < |s.pcs| && s.pcs[w] == Peeking(p, k) && k + left == 4
    ensures Run(s, seq(left, i => Peek(w, false))) == s.(pcs := s.pcs[w := Peeking(p, 4)])
    decreases left
  {
    var more := seq(left, i => Peek(w, false));
    if left > 0 {
      var t := s.(pcs := s.pcs[w := Peeking(p, k + 1)]);
      assert Step(s, Peek(w, false)) == t;
      PeekThrough(t, w, p, k + 1, left - 1);
      assert more[1..] == seq(left - 1, i => Peek(w, false)) && more[0] == Peek(w, false);
      assert t.pcs[w := Peeking(p, 4)] == s.pcs[w := Peeking(p, 4)];
      hide Step;
    }
  }

  lemma {:induction false} ReadsThrough(s: State, w: nat, p: Packet)
    requires s.ls == Lists([], [], 0, None) && s.sending == 0 && w < |s.pcs| && s.pcs[w] == Checking(p, 0)
    ensures Run(s, [Read(w), Read(w), Read(w), Read(w)]) == s.(pcs := s.pcs[w := Checking(p, 4)], window := [])
  {
    var t := s.(pcs := s.pcs[w := Checking(p, 1)], window := []);
    assert Step(s, Read(w)) == t;
    ReadThrough(t, w, p, 1, 3);
    hide Step;
    assert seq(3, i => Read(w)) == [Read(w), Read(w), Read(w)];
    RunOne(s, Read(w));
    RunConcat(s, [Read(w)], [Read(w), Read(w), Read(w)]);
    hide Run;
    assert [Read(w)] + [Read(w), Read(w), Read(w)] == [Read(w), Read(w), Read(w), Read(w)];
    assert t.pcs[w := Checking(p, 4)] == s.pcs[w := Checking(p, 4)];
  }

  lemma {:induction false} ReadThrough(s: State, w: nat, p: Packet, k: nat, left: nat)
    requires s.ls == Lists([], [], 0, None) && s.sending == 0
    requires w < |s.pcs| && s.pcs[w] == Checking(p, k) && k > 0 && k + left == 4
    ensures Run(s, seq(left, i => Read(w))) == s.(pcs := s.pcs[w := Checking(p, 4)])
    decreases left
  {
    var more := seq(left, i => Read(w));
    if left > 0 {
      var t := s.(pcs := s.pcs[w := Checking(p, k + 1)]);
      assert Step(s, Read(w)) == t;
      ReadThrough(t, w, p, k + 1, left - 1);
      assert more[1..] == seq(left - 1, i => Read(w)) && more[0] == Read(w);
      assert t.pcs[w := Checking(p, 4)] == s.pcs[w := Checking(p, 4)];
      hide Step;
    }
  }

  /** What the socket thread still has to do with the request it has read and `k` more in the pipe. */
  function Clears(t: Thread, k: nat): seq<Event>
    decreases k, !t.Waiting?
  {
    match t
    case Got(_) => [Put, Drop] + Clears(Waiting, k)
    case Putted => [Drop] + Clears(Waiting, k)
    case Waiting => if k == 0 then [] else [Take, Put, Drop] + Clears(Waiting, k - 1)
  }

  predicate AllIdle(s: State) {
    forall w :: 0 <= w < |s.pcs| ==> s.pcs[w].Idle?
  }

  /** Nothing changed for the workers. */
  predicate SameWorkers(s: State, t: State) {
    t.pcs == s.pcs && t.lock == s.lock && t.sent == s.sent && t.sentLow == s.sentLow
  }

  lemma {:induction false} PipeServed(s: State)
    requires CounterAgrees(s)
    ensures var t := Run(s, Clears(s.sock, |s.pipe|));
      t.pipe == [] && t.sock.Waiting? && SameWorkers(s, t)
    decreases |s.pipe|, match s.sock { case Waiting => 0 case Got(_) => 2 case Putted => 1 }
  {
    hide Append, CountCounted, Step, CounterAgrees, Run;
    match s.sock
    case Got(p) =>
      RequestDone(s);
      PipeServed(Run(s, [Put, Drop]));
      RunConcat(s, [Put, Drop], Clears(Waiting, |s.pipe|));
    case Putted =>
      RequestCounted(s);
      PipeServed(Run(s, [Drop]));
      RunConcat(s, [Drop], Clears(Waiting, |s.pipe|));
    case Waiting =>
      if s.pipe == [] {
        RunNone(s);
      } else {
        RequestTaken(s);
        PipeServed(Run(s, [Take, Put, Drop]));
        RunConcat(s, [Take, Put, Drop], Clears(Waiting, |s.pipe| - 1));
      }
  }

  lemma RunNone(s: State)
    ensures Run(s, []) == s
  {
  }

  lemma RequestTaken(s: State)
    requires CounterAgrees(s) && s.sock.Waiting? && s.pipe != []
    ensures var t := Run(s, [Take, Put, Drop]);
      CounterAgrees(t) && t.pipe == s.pipe[1..] && t.sock.Waiting? && SameWorkers(s, t)
  {
    CounterKept(s, Take);
    var u := Step(s, Take);
    assert u.sock.Got? && u.pipe == s.pipe[1..] && SameWorkers(s, u);
    hide Step, CounterAgrees;
    RequestDone(u);
    RunOne(s, Take);
    RunConcat(s, [Take], [Put, Drop]);
    hide Run;
    assert [Take] + [Put, Drop] == [Take, Put, Drop];
  }

  lemma RequestCounted(s: State)
    requires CounterAgrees(s) && s.sock.Putted?
    ensures s.sending > 0
    ensures var t := Run(s, [Drop]); t == s.(sending := s.sending - 1, sock := Waiting) && CounterAgrees(t)
  {
    RunOne(s, Drop);
    hide Run, CountCounted;
  }

  lemma RequestDone(s: State)
    requires CounterAgrees(s) && s.sock.Got?
    ensures var t := Run(s, [Put, Drop]);
      CounterAgrees(t) && t.pipe == s.pipe && t.sock.Waiting? && SameWorkers(s, t)
  {
    CounterKept(s, Put);
    var u := Step(s, Put);
    assert u.sock.Putted? && u.pipe == s.pipe && SameWorkers(s, u);
    RequestCounted(u);
    hide Step, CounterAgrees;
    RunOne(s, Put);
    RunConcat(s, [Put], [Drop]);
    hide Run;
    assert [Put] + [Drop] == [Put, Drop];
  }

  /** Everything sent is on the wire: each sender's packets of each priority, in its order. */
  ghost predicate AllOut(t: State) {
    && t.ls == Lists([], [], 0, None) && t.pipe == [] && t.sending == 0 && t.wire == Flat(t.done)
    && |t.sent| == |t.sentLow|
    && forall w :: 0 <= w < |t.sent| ==> From(w, OnlyHigh(t.done)) == t.sent[w] && From(w, OnlyLow(t.done)) == t.sentLow[w]
  }

  lemma {:induction false} NoneInHand(s: State)
    requires Inv(s) && AllIdle(s)
    ensures s.lock.None? && CountCounted(s.pcs) == 0 && |s.sent| == |s.pcs| == |s.sentLow|
  {
    NoneCounted(s.pcs);
    hide OnWire;
  }

  /**
    Nothing submitted is lost or held back for good: once the workers are done, the socket thread reads the pipe
    and one flush that the kernel accepts puts on the wire everything that was ever submitted.
   */
  lemma EverythingLeaves(n: nat, evs: seq<Event>, ans: seq<Answer>, size: nat)
    requires AllIdle(After(n, evs))
    ensures var s := After(n, evs);
      var more := evs + Clears(s.sock, |s.pipe|);
      var u, t := After(n, more), After(n, more + [Flush(ans)]);
      && AllSound(Line(u.ls)) && AllSound(u.ls.low)
      && (TakesAll(u.ls, ans, size) ==> AllOut(t) && t.sent == s.sent && t.sentLow == s.sentLow)
  {
    hide After, Run, Clears, AllOut, TakesAll, Inv, AllIdle;
    var s := After(n, evs);
    AlwaysHolds(n, evs);
    ForgetWire(s);
    PipeServed(s);
    var more := Clears(s.sock, |s.pipe|);
    RunAfter(n, evs, more);
    var u := After(n, evs + more);
    AlwaysHolds(n, evs + more);
    InvWire(u);
    OnWireSound(u.ls, u.wire, u.done);
    if TakesAll(u.ls, ans, size) {
      SameIdle(s, u);
      LastFlush(n, evs + more, ans, size);
    }
  }

  /** Such a kernel is always possible. */
  lemma KernelCanAccept(s: Lists)
    requires AllSound(Line(s)) && AllSound(s.low)
    ensures TakesAll(s, seq(|Line(s)| + |s.low|, i => Wrote(Unsent(Line(s)) + Unsent(s.low))), Unsent(Line(s)) + Unsent(s.low))
  {
    var k, size := |Line(s)| + |s.low|, Unsent(Line(s)) + Unsent(s.low);
    WithinUnsent(Line(s));
    WithinUnsent(s.low);
    CountsOnly(k, size);
    hide Unsent, Line, Writes;
  }

  lemma {:induction false} WithinUnsent(l: seq<Buf>)
    requires AllSound(l)
    ensures Within(l, Unsent(l))
  {
    if l != [] {
      WithinUnsent(l[1..]);
      assert forall i :: 1 <= i < |l| ==> l[i] == l[1..][i - 1];
    }
  }

  lemma {:induction false} CountsOnly(k: nat, size: nat)
    ensures Writes(seq(k, i => Wrote(size))) == k
  {
    if k > 0 {
      CountsOnly(k - 1, size);
      assert seq(k, i => Wrote(size))[1..] == seq(k - 1, i => Wrote(size));
    }
  }

  lemma SameIdle(s: State, t: State)
    requires AllIdle(s) && SameWorkers(s, t)
    ensures AllIdle(t)
  {
  }

  lemma LastFlush(n: nat, evs: seq<Event>, ans: seq<Answer>, size: nat)
    requires var s := After(n, evs);
      && AllIdle(s) && s.pipe == [] && s.sock.Waiting? && AllSound(Line(s.ls)) && AllSound(s.ls.low)
      && TakesAll(s.ls, ans, size)
    ensures var s, t := After(n, evs), After(n, evs + [Flush(ans)]);
      AllOut(t) && t.sent == s.sent && t.sentLow == s.sentLow
  {
    var s, t := After(n, evs), After(n, evs + [Flush(ans)]);
    RunAfter(n, evs, [Flush(ans)]);
    RunOne(s, Flush(ans));
    hide After, Run;
    AlwaysHolds(n, evs);
    AlwaysHolds(n, evs + [Flush(ans)]);
    LowOrderHolds(n, evs + [Flush(ans)]);
    NoneInHand(s);
    FlushOut(s, ans, size);
    hide Step, Can, TakesAll, Inv;
    EmptyInOrder(t);
  }

  lemma FlushOut(s: State, ans: seq<Answer>, size: nat)
    requires Inv(s) && AllIdle(s) && s.lock.None? && s.pipe == [] && s.sock.Waiting? && CountCounted(s.pcs) == 0
    requires AllSound(Line(s.ls)) && AllSound(s.ls.low) && TakesAll(s.ls, ans, size)
    ensures var t := Step(s, Flush(ans));
      && t.ls == Lists([], [], 0, None) && t.sending == 0 && t.pipe == [] && t.sock.Waiting? && SameWorkers(s, t)
      && AllIdle(t) && t.wire == Flat(t.done)
  {
    InvWire(s);
    OnWireSound(s.ls, s.wire, s.done);
    BufferTaken(s.ls, s.wire, s.done, ans);
    hide OnWire, Balanced, FlushLists, Merge, TakesAll, CountCounted;
    assert Can(s, Flush(ans));
  }

  lemma EmptyInOrder(t: State)
    requires AllInOrder(t) && |t.sentLow| == |t.pcs| && AllIdle(t)
    requires forall w :: 0 <= w < |t.pcs| ==> InOrderLow(t, w)
    requires t.ls == Lists([], [], 0, None) && t.sending == 0 && t.pipe == [] && t.sock.Waiting? && t.wire == Flat(t.done)
    ensures AllOut(t)
  {
    assert Line(t.ls) == [];
    NoPackets();
    OnlyLowOne(Packet(0, 0, true, []));
    hide From, OnlyHigh, OnlyLow, Pkts, Flat, Line;
    assert Queue(t) == t.done;
    assert LowQueue(t) == OnlyLow(t.done);
    forall w | 0 <= w < |t.sent|
      ensures From(w, OnlyHigh(t.done)) == t.sent[w] && From(w, OnlyLow(t.done)) == t.sentLow[w]
    {
      assert InOrder(t, w) && InOrderLow(t, w);
      assert From(w, OnlyHigh(t.done)) + [] == From(w, OnlyHigh(t.done));
      assert From(w, OnlyLow(t.done)) + [] == From(w, OnlyLow(t.done));
    }
  }
}
