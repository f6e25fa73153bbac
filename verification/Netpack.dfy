/**
  Packet framing of lua-netpack.c: every packet is two length bytes, high byte first, and the data.
  `Decode` reads a whole stream; the class `Queue` works on arbitrary chunks, with hash chains of
  incomplete packets and a growing ring of finished ones.
 */
module Netpack {

  import opened Prelude
  import MQ = MessageQueue

  const QUEUESIZE: nat := 1024
  const HASHSIZE: nat := 4096

  // ---------------------------------------------------------------- the format

  /** Complete packets at the front of a stream, and the bytes after them. */
  datatype Frames = Frames(packs: seq<seq<byte>>, rest: seq<byte>)

  function Size(s: seq<byte>): nat
    requires |s| >= 2
  {
    s[0] as int * 256 + s[1] as int
  }

  function Decode(s: seq<byte>): (f: Frames)
    ensures |f.rest| <= |s|
    decreases |s|
  {
    if Partial(s) then Frames([], s)
    else
      var f := Decode(s[2 + Size(s)..]);
      Frames([s[2..2 + Size(s)]] + f.packs, f.rest)
  }

  /** `lpack`: None when the data is too long for two length bytes. */
  function Encode(data: seq<byte>): (r: Option<seq<byte>>)
    ensures r.None? <==> |data| >= 0x1_0000
  {
    if |data| >= 0x1_0000 then None else Some([|data| / 256, |data| % 256] + data)
  }

  /** Decoding in two parts: what the first part leaves over goes in front of the second. */
  lemma {:induction false} DecodeSplit(a: seq<byte>, b: seq<byte>)
    ensures var f := Decode(a);
      var g := Decode(f.rest + b);
      Decode(a + b) == Frames(f.packs + g.packs, g.rest)
    decreases |a|
  {
    hide Decode, Size;
    if Partial(a) {
      DecodePartial(a);
      assert [] + Decode(a + b).packs == Decode(a + b).packs;
    } else {
      var n := 2 + Size(a);
      assert Size(a + b) == Size(a) && !Partial(a + b) by { SameSize(a, b); }
      assert (a + b)[n..] == a[n..] + b && (a + b)[2..n] == a[2..n];
      DecodeNext(a);
      DecodeNext(a + b);
      DecodeSplit(a[n..], b);
      var f := Decode(a[n..]);
      assert ([a[2..n]] + f.packs) + Decode(f.rest + b).packs == [a[2..n]] + (f.packs + Decode(f.rest + b).packs);
    }
  }

  /** No complete packet at the front. */
  predicate Partial(s: seq<byte>) {
    |s| < 2 || |s| - 2 < Size(s)
  }

  lemma DecodePartial(s: seq<byte>)
    requires Partial(s)
    ensures Decode(s) == Frames([], s)
  {
  }

  lemma DecodeNext(s: seq<byte>)
    requires !Partial(s)
    ensures Decode(s) == Frames([s[2..2 + Size(s)]] + Decode(s[2 + Size(s)..]).packs, Decode(s[2 + Size(s)..]).rest)
  {
  }

  lemma SameSize(a: seq<byte>, b: seq<byte>)
    requires |a| >= 2
    ensures Size(a + b) == Size(a)
  {
  }

  /** What is left over holds no complete packet. */
  lemma {:induction false} RestIsIncomplete(s: seq<byte>)
    ensures Decode(Decode(s).rest) == Frames([], Decode(s).rest)
    decreases |s|
  {
    if !Partial(s) {
      RestIsIncomplete(s[2 + Size(s)..]);
    }
  }

  lemma DecodeFrame(data: seq<byte>, more: seq<byte>)
    requires |data| < 0x1_0000
    ensures Decode(Encode(data).value + more) == Frames([data] + Decode(more).packs, Decode(more).rest)
  {
    var s := Encode(data).value + more;
    assert Size(s) == |data|;
    assert s[2..2 + |data|] == data && s[2 + |data|..] == more;
  }

  function EncodeAll(datas: seq<seq<byte>>): seq<byte>
    requires forall i :: 0 <= i < |datas| ==> |datas[i]| < 0x1_0000
  {
    if datas == [] then [] else Encode(datas[0]).value + EncodeAll(datas[1..])
  }

  /** Packing messages one after the other and decoding the stream gives them back. */
  lemma {:induction false} PackRoundTrip(datas: seq<seq<byte>>)
    requires forall i :: 0 <= i < |datas| ==> |datas[i]| < 0x1_0000
    ensures Decode(EncodeAll(datas)) == Frames(datas, [])
  {
    if datas != [] {
      PackRoundTrip(datas[1..]);
      DecodeFrame(datas[0], EncodeAll(datas[1..]));
      assert [datas[0]] + datas[1..] == datas;
    }
  }

  // ---------------------------------------------------------------- incomplete packets

  datatype Pack = Pack(id: int, data: seq<byte>)

  /** `read` is -1 when only the first length byte, `header`, has come; `buffer` has what has been read. */
  datatype Uncomplete = Uncomplete(id: int, read: int, header: byte, size: nat, buffer: seq<byte>)

  predicate Incomplete(uc: Uncomplete) {
    uc.read == -1 || (uc.read == |uc.buffer| < uc.size < 0x1_0000)
  }

  /** The bytes of the stream that an incomplete packet stands for. */
  function Residue(uc: Uncomplete): seq<byte>
    requires Incomplete(uc)
  {
    if uc.read < 0 then [uc.header] else [uc.size / 256, uc.size % 256] + uc.buffer
  }

  function HashFd(fd: int): nat {
    (fd / 0x100_0000 + fd / 0x1000 + fd) % HASHSIZE
  }

  /** A chain of the hash table: incomplete packets of different sockets that hash to `h`. */
  predicate ChainOk(chain: seq<Uncomplete>, h: nat) {
    && (forall i :: 0 <= i < |chain| ==> Incomplete(chain[i]) && HashFd(chain[i].id) == h)
    && (forall i, j :: 0 <= i < j < |chain| ==> chain[i].id != chain[j].id)
  }

  /** The pending bytes of socket `fd`. */
  function PendingIn(chain: seq<Uncomplete>, fd: int): seq<byte> {
    if chain == [] then []
    else if chain[0].id == fd && Incomplete(chain[0]) then Residue(chain[0])
    else PendingIn(chain[1..], fd)
  }

  lemma {:induction false} PendingAt(chain: seq<Uncomplete>, h: nat, i: nat)
    requires ChainOk(chain, h) && i < |chain|
    ensures PendingIn(chain, chain[i].id) == Residue(chain[i])
  {
    if i > 0 {
      assert ChainOk(chain[1..], h);
      PendingAt(chain[1..], h, i - 1);
    }
  }

  lemma {:induction false} PendingNone(chain: seq<Uncomplete>, fd: int)
    requires forall i :: 0 <= i < |chain| ==> chain[i].id != fd
    ensures PendingIn(chain, fd) == []
  {
    if chain != [] {
      PendingNone(chain[1..], fd);
    }
  }

  /** Removing element `i` leaves the pending bytes of the other sockets alone. */
  lemma {:induction false} PendingRemoved(chain: seq<Uncomplete>, h: nat, i: nat, fd: int)
    requires ChainOk(chain, h) && i < |chain|
    ensures ChainOk(chain[..i] + chain[i + 1..], h)
    ensures PendingIn(chain[..i] + chain[i + 1..], fd) == if fd == chain[i].id then [] else PendingIn(chain, fd)
  {
    var chain' := chain[..i] + chain[i + 1..];
    assert ChainOk(chain', h);
    if fd == chain[i].id {
      PendingNone(chain', fd);
    } else if i == 0 {
      assert chain' == chain[1..];
    } else {
      assert ChainOk(chain[1..], h);
      PendingRemoved(chain[1..], h, i - 1, fd);
      assert chain'[1..] == chain[1..][..i - 1] + chain[1..][i..];
      assert chain'[0] == chain[0];
    }
  }

  lemma PendingInserted(chain: seq<Uncomplete>, h: nat, uc: Uncomplete)
    requires ChainOk(chain, h) && Incomplete(uc) && HashFd(uc.id) == h
    requires forall i :: 0 <= i < |chain| ==> chain[i].id != uc.id
    ensures ChainOk([uc] + chain, h)
    ensures forall fd :: PendingIn([uc] + chain, fd) == if fd == uc.id then Residue(uc) else PendingIn(chain, fd)
  {
    assert ([uc] + chain)[1..] == chain;
  }

  // ---------------------------------------------------------------- struct queue

  datatype Outcome = Quiet | Data(data: seq<byte>) | More

  function Tagged(fd: int, packs: seq<seq<byte>>): seq<Pack> {
    seq(|packs|, i requires 0 <= i < |packs| => Pack(fd, packs[i]))
  }

  class Queue {
    var head: nat
    var tail: nat
    var hash: seq<seq<Uncomplete>>
    var queue: seq<Pack>            // `cap` slots

    ghost predicate Valid() reads this {
      && head < |queue| && tail < |queue|
      && |hash| == HASHSIZE
      && (forall h :: 0 <= h < HASHSIZE ==> ChainOk(hash[h], h))
    }

    /** The finished packets that wait for `lpop`. */
    ghost function Packs(): seq<Pack> requires Valid() reads this { MQ.Ring(queue, head, tail) }

    /** The bytes of socket `fd` that are not part of a finished packet yet. */
    ghost function Pending(fd: int): seq<byte> requires Valid() reads this { PendingIn(hash[HashFd(fd)], fd) }

    /** `get_queue` on the first use. */
    constructor ()
      ensures Valid() && Packs() == [] && forall fd :: Pending(fd) == []
    {
      head, tail := 0, 0;
      hash := seq(HASHSIZE, _ => []);
      queue := seq(QUEUESIZE, _ => Pack(0, []));
    }

    /** `find_uncomplete`: takes the packet of `fd` out of its chain. */
    method FindUncomplete(fd: int) returns (uc: Option<Uncomplete>)
      requires Valid()
      modifies this`hash
      ensures Valid() && Packs() == old(Packs())
      ensures forall fd' :: Pending(fd') == if fd' == fd then [] else old(Pending(fd'))
      ensures uc.Some? ==> uc.value.id == fd && Incomplete(uc.value) && old(Pending(fd)) == Residue(uc.value)
      ensures uc.None? ==> old(Pending(fd)) == []
      ensures forall i :: 0 <= i < |hash[HashFd(fd)]| ==> hash[HashFd(fd)][i].id != fd
    {
      var h := HashFd(fd);
      var chain := hash[h];
      var i := 0;
      while i < |chain|
        invariant 0 <= i <= |chain| && forall j :: 0 <= j < i ==> chain[j].id != fd
      {
        if chain[i].id == fd {
          uc := Some(chain[i]);
          PendingAt(chain, h, i);
          forall fd' ensures PendingIn(chain[..i] + chain[i + 1..], fd') == if fd' == fd then [] else PendingIn(chain, fd') {
            PendingRemoved(chain, h, i, fd');
          }
          PendingRemoved(chain, h, i, fd);
          hash := hash[h := chain[..i] + chain[i + 1..]];
          return;
        }
        i := i + 1;
      }
      PendingNone(chain, fd);
      uc := None;
    }

    /** Puts an incomplete packet at the front of its chain (`save_uncomplete`, or the tail of `filter_data_`). */
    method SaveUncomplete(uc: Uncomplete)
      requires Valid() && Incomplete(uc)
      requires forall i :: 0 <= i < |hash[HashFd(uc.id)]| ==> hash[HashFd(uc.id)][i].id != uc.id
      modifies this`hash
      ensures Valid() && Packs() == old(Packs())
      ensures forall fd :: Pending(fd) == if fd == uc.id then Residue(uc) else old(Pending(fd))
    {
      var h := HashFd(uc.id);
      PendingInserted(hash[h], h, uc);
      hash := hash[h := [uc] + hash[h]];
    }

    /** `expand_queue`: called when the ring is full, so that head and tail meet. */
    method ExpandQueue()
      requires head == tail < |queue| && |hash| == HASHSIZE && forall h :: 0 <= h < HASHSIZE ==> ChainOk(hash[h], h)
      modifies this`head, this`tail, this`queue
      ensures Valid() && Packs() == old(queue[head..] + queue[..head])
    {
      var cap := |queue|;
      var grown, i := seq(cap + QUEUESIZE, _ => Pack(0, [])), 0;
      ghost var whole := queue[head..] + queue[..head];
      while i < cap
        invariant head == old(head) && queue == old(queue) && |hash| == HASHSIZE
        invariant 0 <= i <= cap && |grown| == cap + QUEUESIZE && forall j :: 0 <= j < i ==> grown[j] == whole[j]
      {
        MQ.RingIndex(head, i, cap);
        grown := grown[i := queue[(head + i) % cap]];
        i := i + 1;
      }
      assert grown[0..cap] == whole;
      head, tail, queue := 0, cap, grown;
    }

    /** `push_data`. */
    method PushData(fd: int, data: seq<byte>)
      requires Valid()
      modifies this`head, this`tail, this`queue
      ensures Valid() && Packs() == old(Packs()) + [Pack(fd, data)]
    {
      MQ.RingPush(queue, head, tail, Pack(fd, data));
      queue := queue[tail := Pack(fd, data)];
      tail := tail + 1;
      if tail >= |queue| {
        tail := tail - |queue|;
      }
      if head == tail {
        ExpandQueue();
      }
    }

    /** `lpop`. */
    method Pop() returns (r: Option<Pack>)
      requires Valid()
      modifies this`head
      ensures Valid() && forall fd :: Pending(fd) == old(Pending(fd))
      ensures old(Packs()) == [] ==> r.None? && Packs() == []
      ensures old(Packs()) != [] ==> r == Some(old(Packs())[0]) && Packs() == old(Packs())[1..]
    {
      if head == tail {
        return None;
      }
      r := Some(queue[head]);
      head := head + 1;
      if head >= |queue| {
        head := 0;
      }
    }

    /** `close_uncomplete`. */
    method CloseUncomplete(fd: int)
      requires Valid()
      modifies this`hash
      ensures Valid() && Packs() == old(Packs())
      ensures forall fd' :: Pending(fd') == if fd' == fd then [] else old(Pending(fd'))
    {
      var _ := FindUncomplete(fd);
    }

    /** `push_more`: the rest of a chunk behind a complete packet. */
    method PushMore(fd: int, buffer: seq<byte>)
      requires Valid() && |buffer| > 0
      requires forall i :: 0 <= i < |hash[HashFd(fd)]| ==> hash[HashFd(fd)][i].id != fd
      modifies this
      ensures Valid() && Packs() == old(Packs()) + Tagged(fd, Decode(buffer).packs)
      ensures forall fd' :: Pending(fd') == if fd' == fd then Decode(buffer).rest else old(Pending(fd'))
      decreases |buffer|
    {
      hide MQ.Ring, ChainOk, PendingIn;
      if |buffer| == 1 {
        SaveUncomplete(Uncomplete(fd, -1, buffer[0], 0, []));
        return;
      }
      var size := Size(buffer);
      if |buffer| - 2 < size {
        var uc := Uncomplete(fd, |buffer| - 2, 0, size, buffer[2..]);
        ResidueOf(uc, buffer);
        SaveUncomplete(uc);
        return;
      }
      PushData(fd, buffer[2..2 + size]);
      var tail := buffer[2 + size..];
      TaggedCons(fd, buffer[2..2 + size], Decode(tail).packs);
      if |tail| > 0 {
        ghost var before := Packs();
        PushMore(fd, tail);
        assert Packs() == old(Packs()) + ([Pack(fd, buffer[2..2 + size])] + Tagged(fd, Decode(tail).packs));
      } else {
        PendingNone(hash[HashFd(fd)], fd);
        assert Decode(tail) == Frames([], []);
      }
    }

    /** `filter_data_` on a socket with an incomplete packet. */
    method Fill(uc0: Uncomplete, chunk: seq<byte>) returns (r: Outcome)
      requires Valid() && |chunk| > 0 && Incomplete(uc0)
      requires forall i :: 0 <= i < |hash[HashFd(uc0.id)]| ==> hash[HashFd(uc0.id)][i].id != uc0.id
      modifies this
      ensures Valid() && Filtered(Decode(Residue(uc0) + chunk), uc0.id, r, old(Packs()), Packs())
      ensures forall fd :: Pending(fd) == if fd == uc0.id then Decode(Residue(uc0) + chunk).rest else old(Pending(fd))
    {
      hide MQ.Ring, ChainOk, PendingIn, Residue, Decode, Incomplete;
      var uc, buffer, fd := uc0, chunk, uc0.id;
      FillHeader(uc0, chunk);
      if uc.read < 0 {
        uc := uc.(size := uc.header * 256 + buffer[0], buffer := [], read := 0);
        buffer := buffer[1..];
      }
      var need := uc.size - uc.read;
      FillBody(uc, buffer, Residue(uc0) + chunk);
      if |buffer| < need {
        SaveUncomplete(uc.(buffer := uc.buffer + buffer, read := uc.read + |buffer|));
        return Quiet;
      }
      var data, rest := uc.buffer + buffer[..need], buffer[need..];
      if |rest| == 0 {
        PendingNone(hash[HashFd(fd)], fd);
        EmptyDecode();
        return Data(data);
      }
      MoreThanOne(old(Packs()), fd, data, rest);
      PushData(fd, data);
      PushMore(fd, rest);
      r := More;
    }

    /** `filter_data_`: any non-empty chunk of any socket. */
    method FilterData(fd: int, chunk: seq<byte>) returns (r: Outcome)
      requires Valid() && |chunk| > 0
      modifies this
      ensures Valid() && Filtered(Decode(old(Pending(fd)) + chunk), fd, r, old(Packs()), Packs())
      ensures forall fd' :: Pending(fd') == if fd' == fd then Decode(old(Pending(fd)) + chunk).rest else old(Pending(fd'))
    {
      hide MQ.Ring, ChainOk, PendingIn, Residue, Decode, Incomplete;
      var uc := FindUncomplete(fd);
      if uc.Some? {
        r := Fill(uc.value, chunk);
        return;
      }
      assert [] + chunk == chunk;
      r := FirstChunk(fd, chunk);
    }

    /** `filter_data_` on a socket without one. */
    method FirstChunk(fd: int, chunk: seq<byte>) returns (r: Outcome)
      requires Valid() && |chunk| > 0
      requires forall i :: 0 <= i < |hash[HashFd(fd)]| ==> hash[HashFd(fd)][i].id != fd
      modifies this
      ensures Valid() && Filtered(Decode(chunk), fd, r, old(Packs()), Packs())
      ensures forall fd' :: Pending(fd') == if fd' == fd then Decode(chunk).rest else old(Pending(fd'))
    {
      hide MQ.Ring, ChainOk, PendingIn, Decode;
      if |chunk| == 1 {
        DecodePartial(chunk);
        SaveUncomplete(Uncomplete(fd, -1, chunk[0], 0, []));
        return Quiet;
      }
      var size := Size(chunk);
      if |chunk| - 2 < size {
        var uc := Uncomplete(fd, |chunk| - 2, 0, size, chunk[2..]);
        ResidueOf(uc, chunk);
        DecodePartial(chunk);
        SaveUncomplete(uc);
        return Quiet;
      }
      DecodeNext(chunk);
      EmptyDecode();
      var data, rest := chunk[2..2 + size], chunk[2 + size..];
      if |chunk| - 2 == size {
        PendingNone(hash[HashFd(fd)], fd);
        return Data(data);
      }
      MoreThanOne(old(Packs()), fd, data, rest);
      PushData(fd, data);
      PushMore(fd, rest);
      r := More;
    }
  }

  /** The pending bytes of a packet whose length has just been read. */
  lemma ResidueOf(uc: Uncomplete, s: seq<byte>)
    requires |s| >= 2 && uc.size == Size(s) && uc.read >= 0 && uc.buffer == s[2..] && Incomplete(uc)
    ensures Residue(uc) == s
  {
  }

  lemma TaggedCons(fd: int, p: seq<byte>, ps: seq<seq<byte>>)
    ensures Tagged(fd, [p] + ps) == [Pack(fd, p)] + Tagged(fd, ps)
  {
  }

  // ---------------------------------------------------------------- one chunk

  /** What `filter_data_` must have done with a chunk: the frames of the pending bytes and the chunk. */
  ghost predicate Filtered(f: Frames, fd: int, r: Outcome, before: seq<Pack>, after: seq<Pack>) {
    match r
    case Quiet => f.packs == [] && after == before
    case Data(data) => f == Frames([data], []) && after == before
    case More => |f.packs| > 0 && f != Frames(f.packs[..1], []) && after == before + Tagged(fd, f.packs)
  }

  /** An incomplete packet whose length is known; it may be the whole packet already when it is empty. */
  predicate Sized(uc: Uncomplete) {
    uc.read == |uc.buffer| <= uc.size < 0x1_0000
  }

  lemma FillHeader(uc: Uncomplete, chunk: seq<byte>)
    requires Incomplete(uc) && |chunk| > 0
    ensures uc.read >= 0 ==> Sized(uc) && Residue(uc) + chunk == [uc.size / 256, uc.size % 256] + uc.buffer + chunk
    ensures uc.read < 0 ==>
      var size := uc.header * 256 + chunk[0];
      size < 0x1_0000 && Residue(uc) + chunk == [size / 256, size % 256] + [] + chunk[1..]
  {
  }

  lemma FillBody(uc: Uncomplete, buffer: seq<byte>, s: seq<byte>)
    requires Sized(uc) && s == [uc.size / 256, uc.size % 256] + uc.buffer + buffer
    ensures var need := uc.size - uc.read;
      if |buffer| < need then
        var uc' := uc.(buffer := uc.buffer + buffer, read := uc.read + |buffer|);
        Incomplete(uc') && Residue(uc') == s && Decode(s) == Frames([], s)
      else
        var f := Decode(buffer[need..]);
        Decode(s) == Frames([uc.buffer + buffer[..need]] + f.packs, f.rest)
  {
    var need := uc.size - uc.read;
    assert |s| >= 2 && Size(s) == uc.size;
    if |buffer| >= need {
      assert s[2..2 + uc.size] == uc.buffer + buffer[..need] && s[2 + uc.size..] == buffer[need..];
      DecodeNext(s);
    } else {
      DecodePartial(s);
    }
  }

  lemma EmptyDecode()
    ensures Decode([]) == Frames([], [])
  {
  }

  lemma MoreThanOne(before: seq<Pack>, fd: int, data: seq<byte>, rest: seq<byte>)
    requires |rest| > 0
    ensures var f := Decode(rest);
      Filtered(Frames([data] + f.packs, f.rest), fd, More, before, before + [Pack(fd, data)] + Tagged(fd, f.packs))
  {
    var f := Decode(rest);
    TaggedCons(fd, data, f.packs);
    assert before + [Pack(fd, data)] + Tagged(fd, f.packs) == before + ([Pack(fd, data)] + Tagged(fd, f.packs));
    if f.packs == [] {
      assert f.rest == rest;
    }
  }

  // ---------------------------------------------------------------- whole runs

  /** A chunk of bytes from socket `fd`. */
  datatype Arrival = Arrival(fd: int, chunk: seq<byte>)

  /** Everything that socket `fd` has sent. */
  function Stream(ops: seq<Arrival>, fd: int): seq<byte> {
    if ops == [] then []
    else
      var op := ops[|ops| - 1];
      if op.fd == fd then Stream(ops[..|ops| - 1], fd) + op.chunk else Stream(ops[..|ops| - 1], fd)
  }

  /** The data of the packets of socket `fd`, in order. */
  function PacksOf(log: seq<Pack>, fd: int): seq<seq<byte>> {
    if log == [] then []
    else PacksOf(log[..|log| - 1], fd) + (if log[|log| - 1].id == fd then [log[|log| - 1].data] else [])
  }

  lemma {:induction false} PacksOfConcat(a: seq<Pack>, b: seq<Pack>, fd: int)
    ensures PacksOf(a + b, fd) == PacksOf(a, fd) + PacksOf(b, fd)
  {
    if b == [] {
      assert a + b == a;
    } else {
      var n := |b| - 1;
      assert (a + b)[..|a + b| - 1] == a + b[..n];
      PacksOfConcat(a, b[..n], fd);
    }
  }

  lemma {:induction false} PacksOfTagged(fd: int, packs: seq<seq<byte>>, fd': int)
    ensures PacksOf(Tagged(fd, packs), fd') == if fd' == fd then packs else []
  {
    if packs != [] {
      var n := |packs| - 1;
      assert Tagged(fd, packs)[..n] == Tagged(fd, packs[..n]);
      PacksOfTagged(fd, packs[..n], fd');
      assert packs == packs[..n] + [packs[n]];
    }
  }

  /** Packets and pending bytes are those of the whole streams, however they were cut into chunks. */
  ghost predicate InStep(q: Queue, ops: seq<Arrival>, out: seq<Pack>)
    reads q
  {
    && q.Valid() && q.Packs() == []
    && forall fd :: Decode(Stream(ops, fd)) == Frames(PacksOf(out, fd), q.Pending(fd))
  }

  lemma ArriveStep(ops: seq<Arrival>, n: nat, out: seq<Pack>, pending: seq<byte>, fd: int)
    requires n < |ops| && Decode(Stream(ops[..n], ops[n].fd)) == Frames(PacksOf(out, ops[n].fd), pending)
    ensures var f := Decode(pending + ops[n].chunk);
      var out' := out + Tagged(ops[n].fd, f.packs);
      && (fd == ops[n].fd ==> Decode(Stream(ops[..n + 1], fd)) == Frames(PacksOf(out', fd), f.rest))
      && (fd != ops[n].fd ==> Stream(ops[..n + 1], fd) == Stream(ops[..n], fd) && PacksOf(out', fd) == PacksOf(out, fd))
  {
    hide Decode;
    var f := Decode(pending + ops[n].chunk);
    PacksOfConcat(out, Tagged(ops[n].fd, f.packs), fd);
    PacksOfTagged(ops[n].fd, f.packs, fd);
    assert ops[..n + 1][..n] == ops[..n];
    DecodeSplit(Stream(ops[..n], ops[n].fd), ops[n].chunk);
  }

  /** What a gate delivers for one chunk: the packet returned, or after `More` everything that can be popped. */
  method Deliver(q: Queue, op: Arrival) returns (out: seq<Pack>)
    requires q.Valid() && q.Packs() == [] && |op.chunk| > 0
    modifies q
    ensures q.Valid() && q.Packs() == []
    ensures out == Tagged(op.fd, Decode(old(q.Pending(op.fd)) + op.chunk).packs)
    ensures q.Pending(op.fd) == Decode(old(q.Pending(op.fd)) + op.chunk).rest
    ensures forall fd :: fd != op.fd ==> q.Pending(fd) == old(q.Pending(fd))
  {
    hide Queue.Valid, Queue.Packs, Queue.Pending, Decode;
    var r := q.FilterData(op.fd, op.chunk);
    out := [];
    if r.Data? {
      out := [Pack(op.fd, r.data)];
    } else if r.More? {
      out := PopAll(q);
    }
  }

  method PopAll(q: Queue) returns (out: seq<Pack>)
    requires q.Valid()
    modifies q
    ensures q.Valid() && q.Packs() == [] && out == old(q.Packs()) && forall fd :: q.Pending(fd) == old(q.Pending(fd))
  {
    hide Queue.Valid, Queue.Packs, Queue.Pending;
    out := [];
    while true
      invariant q.Valid() && out + q.Packs() == old(q.Packs()) && forall fd :: q.Pending(fd) == old(q.Pending(fd))
      decreases |q.Packs()|
    {
      ghost var before := q.Packs();
      var p := q.Pop();
      if p.None? {
        break;
      }
      assert before == [before[0]] + before[1..];
      out := out + [p.value];
    }
  }

  /**
    Any interleaving of chunks of any sockets: for each socket the packets delivered are exactly the frames of
    its whole stream, in order, and what is pending is the incomplete rest.
   */
  method Serve(ops: seq<Arrival>) returns (q: Queue, out: seq<Pack>)
    requires forall i :: 0 <= i < |ops| ==> |ops[i].chunk| > 0
    ensures fresh(q) && q.Valid() && q.Packs() == []
    ensures forall fd :: Decode(Stream(ops, fd)) == Frames(PacksOf(out, fd), q.Pending(fd))
  {
    hide Queue.Valid, Queue.Packs, Queue.Pending, Decode, Stream, PacksOf;
    q := new Queue();
    out := [];
    ServeStart(q);
    var n := 0;
    assert ops[..0] == [];
    while n < |ops|
      invariant 0 <= n <= |ops| && fresh(q) && InStep(q, ops[..n], out)
    {
      ghost var pending, before := q.Pending(ops[n].fd), out;
      var packs := Deliver(q, ops[n]);
      out := out + packs;
      forall fd ensures Decode(Stream(ops[..n + 1], fd)) == Frames(PacksOf(out, fd), q.Pending(fd)) {
        ArriveStep(ops, n, before, pending, fd);
      }
      n := n + 1;
    }
    assert ops[..|ops|] == ops;
  }

  lemma ServeStart(q: Queue)
    requires q.Valid() && q.Packs() == [] && forall fd :: q.Pending(fd) == []
    ensures InStep(q, [], [])
  {
    EmptyDecode();
  }
}
