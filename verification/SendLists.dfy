/**
  The TCP send path of socket_server.c for one connected socket: the two write-buffer lists that the
  socket thread drains, the direct-write buffer that workers leave behind, and the code that moves
  buffers between them.  The kernel's answers to `write` are an input, so every partial-write pattern
  is covered.
 */
module SendLists {

  import opened Prelude

  /** A packet; `tag` tells apart the packets one sender submits, `high` is its priority. */
  datatype Packet = Packet(sender: nat, tag: nat, high: bool, data: seq<byte>)

  /** `struct write_buffer`: `off` bytes have been written, so `ptr` is `buffer + off`. */
  datatype Buf = Buf(pkt: Packet, off: nat)

  /** One return of `write`: a byte count (cut to the size asked for), EINTR, or EAGAIN. */
  datatype Answer = Wrote(n: nat) | Interrupted | Again

  /** The write side of `struct socket`. */
  datatype Lists = Lists(high: seq<Buf>, low: seq<Buf>, wbSize: int, dw: Option<Buf>)

  predicate Sound(b: Buf) {
    b.off <= |b.pkt.data|
  }

  function Left(b: Buf): nat
    requires Sound(b)
  {
    |b.pkt.data| - b.off
  }

  predicate AllSound(l: seq<Buf>) {
    forall i :: 0 <= i < |l| ==> Sound(l[i])
  }

  predicate AllFresh(l: seq<Buf>) {
    forall i :: 0 <= i < |l| ==> l[i].off == 0
  }

  /** Unsent bytes of a list. */
  function Unsent(l: seq<Buf>): nat
    requires AllSound(l)
  {
    if l == [] then 0 else Left(l[0]) + Unsent(l[1..])
  }

  lemma {:induction false} UnsentConcat(a: seq<Buf>, b: seq<Buf>)
    requires AllSound(a) && AllSound(b)
    ensures AllSound(a + b) && Unsent(a + b) == Unsent(a) + Unsent(b)
  {
    if a == [] {
      assert a + b == b;
    } else {
      UnsentConcat(a[1..], b);
      assert (a + b)[1..] == a[1..] + b;
    }
  }

  // ---------------------------------------------------------------- what one pass over a list does

  /** The outcome of `send_list_tcp`: the remaining list, the bytes written, the packets completed. */
  datatype Drained = Drained(list: seq<Buf>, bytes: seq<byte>, finished: seq<Packet>, ans: seq<Answer>)

  function Cut(n: nat, b: Buf): (k: nat)
    requires Sound(b)
    ensures k <= Left(b)
  {
    if n <= Left(b) then n else Left(b)
  }

  function Drain(l: seq<Buf>, ans: seq<Answer>): Drained
    requires AllSound(l)
    decreases |ans|
  {
    if l == [] || ans == [] then Drained(l, [], [], ans)
    else
      match ans[0]
      case Interrupted => Drain(l, ans[1..])
      case Again => Drained(l, [], [], ans[1..])
      case Wrote(n) =>
        var b := l[0];
        var k := Cut(n, b);
        var out := b.pkt.data[b.off..b.off + k];
        if k == Left(b) then
          var rest := Drain(l[1..], ans[1..]);
          Drained(rest.list, out + rest.bytes, [b.pkt] + rest.finished, rest.ans)
        else
          Drained([Buf(b.pkt, b.off + k)] + l[1..], out, [], ans[1..])
  }

  function Pkts(l: seq<Buf>): seq<Packet> {
    if l == [] then [] else [l[0].pkt] + Pkts(l[1..])
  }

  function Flat(ps: seq<Packet>): seq<byte> {
    if ps == [] then [] else Flat(ps[..|ps|-1]) + ps[|ps|-1].data
  }

  /** The bytes of the head of a list that are already on the wire. */
  function HeadPart(l: seq<Buf>): seq<byte>
    requires AllSound(l)
  {
    if l == [] then [] else l[0].pkt.data[..l[0].off]
  }

  lemma {:induction false} PktsConcat(a: seq<Buf>, b: seq<Buf>)
    ensures Pkts(a + b) == Pkts(a) + Pkts(b)
  {
    if a == [] {
      assert a + b == b;
    } else {
      PktsConcat(a[1..], b);
      assert (a + b)[1..] == a[1..] + b;
    }
  }

  lemma {:induction false} FlatConcat(a: seq<Packet>, b: seq<Packet>)
    ensures Flat(a + b) == Flat(a) + Flat(b)
  {
    if b == [] {
      assert a + b == a;
    } else {
      var init, last := b[..|b|-1], b[|b|-1];
      FlatConcat(a, init);
      assert (a + b)[..|a + b|-1] == a + init;
      assert Flat(a + b) == Flat(a + init) + last.data;
      assert (Flat(a) + Flat(init)) + last.data == Flat(a) + (Flat(init) + last.data);
    }
  }

  /** A list whose only started buffer, if any, is its head. */
  predicate HeadOnly(l: seq<Buf>) {
    AllSound(l) && forall i :: 1 <= i < |l| ==> l[i].off == 0
  }

  /**
    What one pass may do to a list: packets completed plus packets remaining are the packets there
    were, in order, and the bytes written continue the wire exactly where the head left off.
   */
  ghost predicate Continues(l: seq<Buf>, d: Drained) {
    && HeadOnly(l) && HeadOnly(d.list)
    && d.finished + Pkts(d.list) == Pkts(l)
    && |d.list| <= |l| && |d.finished| == |l| - |d.list|
    && Unsent(l) == |d.bytes| + Unsent(d.list)
    && HeadPart(l) + d.bytes == Flat(d.finished) + HeadPart(d.list)
  }

  lemma {:induction false} DrainContinues(l: seq<Buf>, ans: seq<Answer>)
    requires HeadOnly(l)
    ensures Continues(l, Drain(l, ans))
    decreases |ans|
  {
    hide Continues, HeadOnly;
    if l == [] || ans == [] || ans[0].Again? {
      NothingSent(l, if l == [] || ans == [] then ans else ans[1..]);
    } else if ans[0].Interrupted? {
      DrainContinues(l, ans[1..]);
    } else {
      HeadOnlyTail(l);
      var k := Cut(ans[0].n, l[0]);
      if k == Left(l[0]) {
        DrainContinues(l[1..], ans[1..]);
        WholeHead(l, Drain(l[1..], ans[1..]));
        assert l[0].pkt.data[l[0].off..l[0].off + k] == l[0].pkt.data[l[0].off..];
      } else {
        PartOfHead(l, k, ans[1..]);
      }
    }
  }

  lemma HeadOnlyTail(l: seq<Buf>)
    requires HeadOnly(l) && l != []
    ensures AllSound(l) && HeadOnly(l[1..]) && AllFresh(l[1..])
  {
  }

  lemma NothingSent(l: seq<Buf>, ans: seq<Answer>)
    requires HeadOnly(l)
    ensures Continues(l, Drained(l, [], [], ans))
  {
    assert [] + Pkts(l) == Pkts(l);
  }

  lemma Splice<T>(part: seq<T>, out: seq<T>, data: seq<T>, more: seq<T>, flat: seq<T>, tail: seq<T>)
    requires part + out == data && more == flat + tail
    ensures part + (out + more) == (data + flat) + tail
  {
    assert part + (out + more) == (part + out) + more;
    assert (data + flat) + tail == data + (flat + tail);
  }

  lemma WholeHead(l: seq<Buf>, rest: Drained)
    requires HeadOnly(l) && l != [] && Continues(l[1..], rest)
    ensures Continues(l, Drained(rest.list, l[0].pkt.data[l[0].off..] + rest.bytes,
                                 [l[0].pkt] + rest.finished, rest.ans))
  {
    var b := l[0];
    var out := b.pkt.data[b.off..];
    WholeHeadBytes(l, rest);
    hide Flat, HeadPart;
    assert ([b.pkt] + rest.finished) + Pkts(rest.list) == [b.pkt] + (rest.finished + Pkts(rest.list));
  }

  lemma WholeHeadBytes(l: seq<Buf>, rest: Drained)
    requires HeadOnly(l) && l != [] && Continues(l[1..], rest)
    ensures HeadPart(l) + (l[0].pkt.data[l[0].off..] + rest.bytes)
            == Flat([l[0].pkt] + rest.finished) + HeadPart(rest.list)
  {
    var b := l[0];
    FlatOne(b.pkt);
    FlatConcat([b.pkt], rest.finished);
    assert HeadPart(l) + b.pkt.data[b.off..] == b.pkt.data;
    assert HeadPart(l[1..]) == [];
    hide Flat, HeadPart, Pkts, Unsent;
    assert rest.bytes == Flat(rest.finished) + HeadPart(rest.list);
    Splice(HeadPart(l), b.pkt.data[b.off..], b.pkt.data, rest.bytes, Flat(rest.finished), HeadPart(rest.list));
  }

  lemma FlatOne(p: Packet)
    ensures Flat([p]) == p.data
  {
    assert [p][..0] == [];
  }

  lemma PartOfHead(l: seq<Buf>, k: nat, ans: seq<Answer>)
    requires HeadOnly(l) && l != [] && k < Left(l[0])
    ensures Continues(l, Drained([Buf(l[0].pkt, l[0].off + k)] + l[1..],
                                 l[0].pkt.data[l[0].off..l[0].off + k], [], ans))
  {
    var b := l[0];
    var rest := [Buf(b.pkt, b.off + k)] + l[1..];
    assert rest[1..] == l[1..];
    assert HeadPart(l) + b.pkt.data[b.off..b.off + k] == HeadPart(rest);
  }

  // ---------------------------------------------------------------- when a pass stops

  /** How many of the answers are byte counts; each of them is about the next buffer. */
  function Writes(ans: seq<Answer>): (k: nat)
    ensures k <= |ans|
  {
    if ans == [] then 0 else (if ans[0].Wrote? then 1 else 0) + Writes(ans[1..])
  }

  lemma {:induction false} WritesConcat(a: seq<Answer>, b: seq<Answer>)
    ensures Writes(a + b) == Writes(a) + Writes(b)
  {
    if a == [] {
      assert a + b == b;
    } else {
      WritesConcat(a[1..], b);
      assert (a + b)[1..] == a[1..] + b;
    }
  }

  /** Answer `j` does not end the pass: a retry, or the whole rest of the buffer whose turn it is. */
  predicate GoesOn(l: seq<Buf>, ans: seq<Answer>, j: int)
    requires AllSound(l) && 0 <= j < |ans|
  {
    match ans[j]
    case Interrupted => true
    case Again => false
    case Wrote(n) => Writes(ans[..j]) < |l| && Left(l[Writes(ans[..j])]) <= n
  }

  predicate AllGoOn(l: seq<Buf>, ans: seq<Answer>, u: nat)
    requires AllSound(l) && u <= |ans|
  {
    forall j :: 0 <= j < u ==> GoesOn(l, ans, j)
  }

  /** The answer that ends a pass at buffer `k`, and the list it leaves: advanced, by a short write. */
  predicate Blocked(l: seq<Buf>, k: nat, a: Answer, rest: seq<Buf>)
    requires AllSound(l)
  {
    && k < |l|
    && match a
       case Interrupted => false
       case Again => rest == l[k..]
       case Wrote(n) => n < Left(l[k]) && rest == [Buf(l[k].pkt, l[k].off + n)] + l[k + 1..]
  }

  /** The pass used `u` answers and met no obstacle: the list is empty, or there are no answers left. */
  predicate RanOut(l: seq<Buf>, ans: seq<Answer>, u: nat, rest: seq<Buf>)
    requires u <= |ans|
  {
    && Writes(ans[..u]) <= |l| && rest == l[Writes(ans[..u])..]
    && (if rest == [] then u == 0 || ans[u - 1].Wrote? else u == |ans|)
  }

  /**
    How far a pass gets, told by the answers alone.  Every answer used, but possibly the last, lets it go
    on.  It ends when the list is empty or the answers are used up, and otherwise at an EAGAIN or a short
    write; what remains are the buffers not written whole, the first of them advanced by the short write.
   */
  ghost predicate Exhausts(l: seq<Buf>, ans: seq<Answer>, rest: seq<Buf>, unused: seq<Answer>)
    requires AllSound(l)
  {
    var u := |ans| - |unused|;
    && 0 <= u && unused == ans[u..]
    && ((AllGoOn(l, ans, u) && RanOut(l, ans, u, rest))
        || (u > 0 && AllGoOn(l, ans, u - 1) && Blocked(l, Writes(ans[..u - 1]), ans[u - 1], rest)))
  }

  lemma {:induction false} DrainExhausts(l: seq<Buf>, ans: seq<Answer>)
    requires AllSound(l)
    ensures Exhausts(l, ans, Drain(l, ans).list, Drain(l, ans).ans)
    decreases |ans|
  {
    hide Exhausts, Drain;
    if l == [] || ans == [] || ans[0].Again? || (ans[0].Wrote? && ans[0].n < Left(l[0])) {
      EndsAtOnce(l, ans);
    } else {
      var m := if ans[0].Wrote? then l[1..] else l;
      DrainExhausts(m, ans[1..]);
      DrainNext(l, ans);
      ExhaustsNext(l, ans, Drain(m, ans[1..]).list, Drain(m, ans[1..]).ans);
    }
  }

  lemma EndsAtOnce(l: seq<Buf>, ans: seq<Answer>)
    requires AllSound(l)
    requires l == [] || ans == [] || ans[0].Again? || (ans[0].Wrote? && ans[0].n < Left(l[0]))
    ensures Exhausts(l, ans, Drain(l, ans).list, Drain(l, ans).ans)
  {
    var d := Drain(l, ans);
    WritesNone();
    assert ans[..0] == [] && ans[0..] == ans;
    if l != [] && ans != [] {
      assert d.ans == ans[1..];
      assert Blocked(l, 0, ans[0], d.list);
    }
    hide Drain, Blocked, Writes;
  }

  lemma DrainNext(l: seq<Buf>, ans: seq<Answer>)
    requires AllSound(l) && l != [] && ans != [] && (ans[0].Interrupted? || (ans[0].Wrote? && Left(l[0]) <= ans[0].n))
    ensures var d, r := Drain(l, ans), Drain(if ans[0].Wrote? then l[1..] else l, ans[1..]);
      d.list == r.list && d.ans == r.ans
  {
  }

  lemma WritesNext(ans: seq<Answer>, j: nat)
    requires j < |ans|
    ensures Writes(ans[..j + 1]) == (if ans[0].Wrote? then 1 else 0) + Writes(ans[1..][..j])
  {
    assert ans[..j + 1][1..] == ans[1..][..j];
  }

  lemma GoesOnNext(l: seq<Buf>, ans: seq<Answer>, u: nat)
    requires AllSound(l) && l != [] && ans != [] && (ans[0].Interrupted? || (ans[0].Wrote? && Left(l[0]) <= ans[0].n))
    requires u < |ans| && AllGoOn(if ans[0].Wrote? then l[1..] else l, ans[1..], u)
    ensures AllGoOn(l, ans, u + 1)
  {
    assert ans[..0] == [];
    WritesNone();
    assert GoesOn(l, ans, 0);
    forall j | 1 <= j < u + 1
      ensures GoesOn(l, ans, j)
    {
      WritesNext(ans, j - 1);
      assert GoesOn(if ans[0].Wrote? then l[1..] else l, ans[1..], j - 1);
      hide Writes;
    }
    hide GoesOn;
  }

  /** The first answer was used and the pass went on. */
  lemma ExhaustsNext(l: seq<Buf>, ans: seq<Answer>, rest: seq<Buf>, unused: seq<Answer>)
    requires AllSound(l) && l != [] && ans != [] && (ans[0].Interrupted? || (ans[0].Wrote? && Left(l[0]) <= ans[0].n))
    requires Exhausts(if ans[0].Wrote? then l[1..] else l, ans[1..], rest, unused)
    ensures Exhausts(l, ans, rest, unused)
  {
    hide GoesOn, Writes, RanOut, Blocked, AllGoOn, Left;
    var m := if ans[0].Wrote? then l[1..] else l;
    var u := |ans[1..]| - |unused|;
    assert ans[1..][u..] == ans[u + 1..] == unused;
    if AllGoOn(m, ans[1..], u) && RanOut(m, ans[1..], u, rest) {
      GoesOnNext(l, ans, u);
      RanOutNext(l, ans, u, rest);
    } else {
      GoesOnNext(l, ans, u - 1);
      BlockedLater(l, ans, u, rest);
    }
  }

  lemma BlockedLater(l: seq<Buf>, ans: seq<Answer>, u: nat, rest: seq<Buf>)
    requires AllSound(l) && l != [] && 0 < u < |ans| && !ans[0].Again?
    requires Blocked(if ans[0].Wrote? then l[1..] else l, Writes(ans[1..][..u - 1]), ans[1..][u - 1], rest)
    ensures Blocked(l, Writes(ans[..u]), ans[u], rest)
  {
    WritesNext(ans, u - 1);
    hide Writes;
    if ans[0].Wrote? {
      BlockedNext(l, Writes(ans[1..][..u - 1]), ans[u], rest);
    }
    hide Blocked;
  }

  lemma RanOutNext(l: seq<Buf>, ans: seq<Answer>, u: nat, rest: seq<Buf>)
    requires l != [] && u < |ans| && !ans[0].Again?
    requires RanOut(if ans[0].Wrote? then l[1..] else l, ans[1..], u, rest)
    ensures RanOut(l, ans, u + 1, rest)
  {
    WritesNext(ans, u);
    assert ans[1..][..0] == [];
    WritesNone();
    hide Writes;
  }

  lemma BlockedNext(l: seq<Buf>, k: nat, a: Answer, rest: seq<Buf>)
    requires AllSound(l) && l != [] && Blocked(l[1..], k, a, rest)
    ensures Blocked(l, k + 1, a, rest)
  {
    assert l[1..][k..] == l[k + 1..];
    assert l[1..][k + 1..] == l[k + 2..];
  }

  lemma WritesNone()
    ensures Writes([]) == 0
  {
  }

  /** A kernel that takes whatever it is offered, up to `size` bytes a call; interruptions apart. */
  predicate Accepting(ans: seq<Answer>, size: nat) {
    forall j :: 0 <= j < |ans| ==> ans[j].Interrupted? || (ans[j].Wrote? && size <= ans[j].n)
  }

  predicate Within(l: seq<Buf>, size: nat)
    requires AllSound(l)
  {
    forall i :: 0 <= i < |l| ==> Left(l[i]) <= size
  }

  /** With such a kernel a pass empties the list and uses one byte count for each buffer. */
  lemma AllWritten(l: seq<Buf>, ans: seq<Answer>, size: nat)
    requires AllSound(l) && Within(l, size) && Accepting(ans, size) && Writes(ans) >= |l|
    ensures var d := Drain(l, ans);
      d.list == [] && Accepting(d.ans, size) && Writes(ans) == |l| + Writes(d.ans)
  {
    DrainExhausts(l, ans);
    hide Drain, AllGoOn, Writes, Blocked, RanOut, Within;
    var d := Drain(l, ans);
    var u := |ans| - |d.ans|;
    if !RanOut(l, ans, u, d.list) {
      NeverBlocked(l, Writes(ans[..u - 1]), ans[u - 1], d.list, size);
    }
    EmptiedBy(l, ans, u, d.list);
  }

  lemma NeverBlocked(l: seq<Buf>, k: nat, a: Answer, rest: seq<Buf>, size: nat)
    requires AllSound(l) && Within(l, size) && (a.Interrupted? || (a.Wrote? && size <= a.n))
    ensures !Blocked(l, k, a, rest)
  {
  }

  lemma EmptiedBy(l: seq<Buf>, ans: seq<Answer>, u: nat, rest: seq<Buf>)
    requires u <= |ans| && RanOut(l, ans, u, rest) && Writes(ans) >= |l|
    ensures rest == [] && Writes(ans) == |l| + Writes(ans[u..])
  {
    assert ans == ans[..u] + ans[u..];
    WritesConcat(ans[..u], ans[u..]);
    hide Writes;
    if u == |ans| {
      assert ans[..u] == ans;
    }
  }

  // ---------------------------------------------------------------- send_buffer

  /** The order in which bytes will leave: the direct-write buffer goes before the high list. */
  function Line(s: Lists): seq<Buf> {
    (if s.dw.Some? then [s.dw.value] else []) + s.high
  }

  predicate AllLow(l: seq<Buf>) {
    forall i :: 0 <= i < |l| ==> !l[i].pkt.high
  }

  /**
    The invariant of the write side: only the buffer at the very front may be partly sent, the low
    list is untouched and holds low-priority packets only, and wb_size is the unsent bytes of both lists.
   */
  ghost predicate Balanced(s: Lists) {
    && HeadOnly(Line(s)) && AllSound(s.high) && AllSound(s.low)
    && AllFresh(s.low) && AllLow(s.low)
    && s.wbSize == Unsent(s.high) + Unsent(s.low)
  }

  /** `send_buffer` first puts a pending direct write in front of the high list. */
  function Merge(s: Lists): Lists
    requires AllSound(Line(s))
  {
    match s.dw
    case None => s
    case Some(b) => assert b == Line(s)[0]; Lists([b] + s.high, s.low, s.wbSize + Left(b), None)
  }

  datatype Flushed = Flushed(st: Lists, bytes: seq<byte>, finished: seq<Packet>)

  /** `raise_uncomplete`, when the low list ended on a partly sent head. */
  function Raise(low: seq<Buf>, wbSize: int): Lists {
    if low != [] && low[0].off != 0 then Lists([low[0]], low[1..], wbSize, None)
    else Lists([], low, wbSize, None)
  }

  /** `send_buffer_`: the high list as far as possible, then the low list. */
  function FlushLists(s: Lists, ans: seq<Answer>): Flushed
    requires AllSound(s.high) && AllSound(s.low)
  {
    var d := Drain(s.high, ans);
    if d.list != [] then
      Flushed(s.(high := d.list, wbSize := s.wbSize - |d.bytes|), d.bytes, d.finished)
    else
      var e := Drain(s.low, d.ans);
      Flushed(Raise(e.list, s.wbSize - |d.bytes| - |e.bytes|).(dw := s.dw), d.bytes + e.bytes, d.finished + e.finished)
  }

  lemma MergeBalanced(s: Lists)
    requires Balanced(s)
    ensures AllSound(Line(s))
    ensures Balanced(Merge(s)) && Merge(s).dw.None? && Line(Merge(s)) == Line(s) && Merge(s).low == s.low
  {
    if s.dw.Some? {
      var b := s.dw.value;
      assert Line(s)[0] == b;
      assert ([b] + s.high)[1..] == s.high;
      assert forall i :: 0 <= i < |s.high| ==> Line(s)[i + 1] == s.high[i];
    } else {
      assert Line(s) == s.high;
    }
    assert [] + Merge(s).high == Merge(s).high;
  }

  function OnlyHigh(ps: seq<Packet>): seq<Packet> {
    if ps == [] then []
    else OnlyHigh(ps[..|ps|-1]) + (if ps[|ps|-1].high then [ps[|ps|-1]] else [])
  }

  lemma {:induction false} OnlyHighConcat(a: seq<Packet>, b: seq<Packet>)
    ensures OnlyHigh(a + b) == OnlyHigh(a) + OnlyHigh(b)
  {
    if b == [] {
      assert a + b == a;
    } else {
      var init, last := b[..|b|-1], b[|b|-1];
      OnlyHighConcat(a, init);
      assert (a + b)[..|a + b|-1] == a + init;
      assert OnlyHigh(a + b) == OnlyHigh(a + init) + (if last.high then [last] else []);
    }
  }

  lemma {:induction false} LowPackets(l: seq<Buf>)
    requires AllLow(l)
    ensures OnlyHigh(Pkts(l)) == []
  {
    if l != [] {
      LowPackets(l[1..]);
      OnlyHighConcat([l[0].pkt], Pkts(l[1..]));
      assert [l[0].pkt][..0] == [];
    }
  }

  /** What a flush guarantees: the wire continues, and high-priority packets keep their line. */
  ghost predicate FlushKeeps(s: Lists, f: Flushed) {
    && Balanced(s) && Balanced(f.st) && f.st.dw.None?
    && HeadPart(Line(s)) + f.bytes == Flat(f.finished) + HeadPart(Line(f.st))
    && OnlyHigh(f.finished + Pkts(Line(f.st))) == OnlyHigh(Pkts(Line(s)))
  }

  lemma FlushHighOnly(s: Lists, ans: seq<Answer>)
    requires Balanced(s) && s.dw.None? && Drain(s.high, ans).list != []
    ensures FlushKeeps(s, FlushLists(s, ans))
  {
    assert Line(s) == s.high;
    DrainContinues(s.high, ans);
    var d := Drain(s.high, ans);
    var t := FlushLists(s, ans).st;
    assert Line(t) == d.list;
  }

  lemma FreshHead(l: seq<Buf>)
    requires AllSound(l) && AllFresh(l)
    ensures HeadOnly(l) && HeadPart(l) == []
  {
  }

  /** The part of a drained low list: raising its started head leaves an untouched low list. */
  lemma RaiseBalanced(l: seq<Buf>, wbSize: int)
    requires HeadOnly(l) && AllLow(l) && wbSize == Unsent(l)
    ensures Balanced(Raise(l, wbSize))
    ensures HeadPart(Line(Raise(l, wbSize))) == HeadPart(l)
    ensures OnlyHigh(Pkts(Line(Raise(l, wbSize)))) == []
  {
    var t := Raise(l, wbSize);
    assert Line(t) == t.high;
    LowPackets(t.high);
    if l != [] && l[0].off != 0 {
      assert [l[0]][1..] == [];
      assert Unsent([l[0]]) == Left(l[0]);
    }
  }

  lemma {:induction false} DrainStaysLow(l: seq<Buf>, ans: seq<Answer>)
    requires AllSound(l) && AllLow(l)
    ensures AllLow(Drain(l, ans).list)
    decreases |ans|
  {
    if l != [] && ans != [] {
      match ans[0]
      case Interrupted => DrainStaysLow(l, ans[1..]);
      case Again =>
      case Wrote(n) =>
        if Cut(n, l[0]) == Left(l[0]) {
          DrainStaysLow(l[1..], ans[1..]);
        }
    }
  }

  lemma FlushBoth(s: Lists, ans: seq<Answer>)
    requires Balanced(s) && s.dw.None? && Drain(s.high, ans).list == []
    ensures FlushKeeps(s, FlushLists(s, ans))
  {
    assert Line(s) == s.high;
    var d := Drain(s.high, ans);
    var e := Drain(s.low, d.ans);
    DrainContinues(s.high, ans);
    FreshHead(s.low);
    DrainContinues(s.low, d.ans);
    DrainStaysLow(s.low, d.ans);
    LowPackets(s.low);
    FlushBothBytes(s, d, e);
    FlushBothOrder(s, d, e);
    RaiseBalanced(e.list, Unsent(e.list));
    assert s.wbSize - |d.bytes| - |e.bytes| == Unsent(e.list);
  }

  lemma FlushBothBytes(s: Lists, d: Drained, e: Drained)
    requires Continues(s.high, d) && d.list == [] && Continues(s.low, e) && HeadPart(s.low) == []
    ensures HeadPart(s.high) + (d.bytes + e.bytes) == Flat(d.finished + e.finished) + HeadPart(e.list)
  {
    FlatConcat(d.finished, e.finished);
    hide Flat, Unsent, Pkts;
    assert HeadPart(d.list) == [];
    hide HeadPart;
    assert HeadPart(s.high) + d.bytes == Flat(d.finished);
    assert e.bytes == Flat(e.finished) + HeadPart(e.list);
    Splice(HeadPart(s.high), d.bytes, Flat(d.finished), e.bytes, Flat(e.finished), HeadPart(e.list));
  }

  lemma FlushBothOrder(s: Lists, d: Drained, e: Drained)
    requires Continues(s.high, d) && d.list == [] && Continues(s.low, e) && AllLow(s.low)
    ensures forall rest :: OnlyHigh(rest) == [] ==>
      OnlyHigh((d.finished + e.finished) + rest) == OnlyHigh(Pkts(s.high))
  {
    LowPackets(s.low);
    OnlyHighConcat(e.finished, Pkts(e.list));
    assert d.finished == Pkts(s.high) by { assert d.finished + Pkts(d.list) == d.finished; }
    forall rest | OnlyHigh(rest) == []
      ensures OnlyHigh((d.finished + e.finished) + rest) == OnlyHigh(Pkts(s.high))
    {
      OnlyHighConcat(d.finished + e.finished, rest);
      OnlyHighConcat(d.finished, e.finished);
    }
  }

  /** Packet integrity: for every pattern of partial writes a flush continues the wire packet by packet. */
  lemma FlushContinues(s: Lists, ans: seq<Answer>)
    requires Balanced(s)
    ensures AllSound(Line(s)) && AllSound(Merge(s).high) && AllSound(Merge(s).low)
    ensures FlushKeeps(s, FlushLists(Merge(s), ans))
  {
    MergeBalanced(s);
    if Drain(Merge(s).high, ans).list != [] {
      FlushHighOnly(Merge(s), ans);
    } else {
      FlushBoth(Merge(s), ans);
    }
  }

  lemma DrainPackets(l: seq<Buf>, ans: seq<Answer>)
    requires HeadOnly(l)
    ensures var d := Drain(l, ans); d.finished + Pkts(d.list) == Pkts(l)
  {
    DrainContinues(l, ans);
  }

  /** The packets of both lists leave in line: the high list, then the low list, nothing in between. */
  lemma FlushInLine(s: Lists, ans: seq<Answer>)
    requires Balanced(s)
    ensures AllSound(Line(s)) && AllSound(Merge(s).high) && AllSound(Merge(s).low)
    ensures var f := FlushLists(Merge(s), ans);
      f.finished + (Pkts(Line(f.st)) + Pkts(f.st.low)) == Pkts(Line(s)) + Pkts(s.low)
  {
    MergeBalanced(s);
    var m := Merge(s);
    hide Merge;
    assert Line(m) == m.high;
    FreshHead(m.low);
    MergedInLine(m, ans);
  }

  lemma MergedInLine(m: Lists, ans: seq<Answer>)
    requires m.dw.None? && HeadOnly(m.high) && HeadOnly(m.low)
    ensures AllSound(m.high) && AllSound(m.low)
    ensures var f := FlushLists(m, ans); f.finished + (Pkts(Line(f.st)) + Pkts(f.st.low)) == Pkts(m.high) + Pkts(m.low)
  {
    var d := Drain(m.high, ans);
    var e := Drain(m.low, d.ans);
    DrainPackets(m.high, ans);
    DrainPackets(m.low, d.ans);
    var f := FlushLists(m, ans);
    var wbSize := m.wbSize - |d.bytes| - |e.bytes|;
    RaiseInLine(e.list, wbSize);
    NoPackets();
    hide Drain, Pkts, HeadOnly, AllSound;
    if d.list != [] {
      assert Line(f.st) == d.list;
      Joined(d.finished, Pkts(d.list), Pkts(m.low));
    } else {
      var st := Raise(e.list, wbSize);
      assert Line(f.st) == Line(st) && f.st.low == st.low;
      hide Raise, Line, FlushLists;
      Joined(d.finished, e.finished, Pkts(e.list));
      assert Pkts(m.high) == d.finished + [] == d.finished;
    }
  }

  lemma Joined<T>(a: seq<T>, b: seq<T>, c: seq<T>)
    ensures a + (b + c) == (a + b) + c
  {
  }

  lemma NoPackets()
    ensures Pkts([]) == []
  {
  }

  lemma RaiseInLine(l: seq<Buf>, wbSize: int)
    ensures var st := Raise(l, wbSize); Pkts(Line(st)) + Pkts(st.low) == Pkts(l)
  {
    var st := Raise(l, wbSize);
    assert Line(st) + st.low == l;
    PktsConcat(Line(st), st.low);
  }

  /** The kernel takes everything there is to send. */
  ghost predicate TakesAll(s: Lists, ans: seq<Answer>, size: nat)
    requires AllSound(Line(s)) && AllSound(s.low)
  {
    Within(Line(s), size) && Within(s.low, size) && Accepting(ans, size) && Writes(ans) >= |Line(s)| + |s.low|
  }

  /** A flush that the kernel does not hold up empties both lists: every packet is out, whole and in line. */
  lemma FlushAll(s: Lists, ans: seq<Answer>, size: nat)
    requires Balanced(s) && AllSound(Line(s)) && TakesAll(s, ans, size)
    ensures AllSound(Merge(s).high) && AllSound(Merge(s).low)
    ensures var f := FlushLists(Merge(s), ans);
      && f.st == Lists([], [], 0, None)
      && f.finished == Pkts(Line(s)) + Pkts(s.low)
      && HeadPart(Line(s)) + f.bytes == Flat(Pkts(Line(s)) + Pkts(s.low))
  {
    MergeBalanced(s);
    FlushContinues(s, ans);
    FlushInLine(s, ans);
    var m := Merge(s);
    assert Line(m) == m.high;
    hide Balanced, FlushKeeps, Drain, Merge, AllSound, Line, Within, Accepting, HeadOnly, Unsent;
    AllWritten(m.high, ans, size);
    AllWritten(m.low, Drain(m.high, ans).ans, size);
    var f := FlushLists(m, ans);
    FlushedEmpty(s, m, f);
  }

  lemma FlushedEmpty(s: Lists, m: Lists, f: Flushed)
    requires FlushKeeps(s, f) && f.st.high == [] && f.st.low == [] && AllSound(Line(s)) && AllSound(Line(f.st))
    requires f.finished + (Pkts(Line(f.st)) + Pkts(f.st.low)) == Pkts(Line(s)) + Pkts(s.low)
    ensures f.st == Lists([], [], 0, None) && f.finished == Pkts(Line(s)) + Pkts(s.low)
    ensures HeadPart(Line(s)) + f.bytes == Flat(Pkts(Line(s)) + Pkts(s.low))
  {
    assert Line(f.st) == [];
    assert f.finished + ([] + []) == f.finished;
    assert Flat(f.finished) + [] == Flat(f.finished);
  }

  function OnlyLow(ps: seq<Packet>): seq<Packet> {
    if ps == [] then [] else OnlyLow(ps[..|ps|-1]) + (if ps[|ps|-1].high then [] else [ps[|ps|-1]])
  }

  lemma {:induction false} OnlyLowConcat(a: seq<Packet>, b: seq<Packet>)
    ensures OnlyLow(a + b) == OnlyLow(a) + OnlyLow(b)
  {
    if b == [] {
      assert a + b == a;
    } else {
      var init, last := b[..|b|-1], b[|b|-1];
      OnlyLowConcat(a, init);
      assert (a + b)[..|a + b|-1] == a + init;
      assert OnlyLow(a + b) == OnlyLow(a + init) + (if last.high then [] else [last]);
    }
  }

  lemma OnlyLowOne(p: Packet)
    ensures OnlyLow([p]) == (if p.high then [] else [p]) && OnlyLow([]) == []
  {
    assert [p][..0] == [];
  }

  /** High-priority packets wait behind at most one of low priority: the one whose turn had come, or was raised. */
  predicate OneLow(s: Lists) {
    && (s.dw.Some? ==> s.dw.value.pkt.high)
    && |OnlyLow(Pkts(s.high))| <= 1
  }

  lemma OneLowAhead(s: Lists)
    requires OneLow(s)
    ensures |OnlyLow(Pkts(Line(s)))| <= 1
  {
    if s.dw.Some? {
      PktsConcat([s.dw.value], s.high);
      assert [s.dw.value][1..] == [];
      OnlyLowConcat([s.dw.value.pkt], Pkts(s.high));
      OnlyLowOne(s.dw.value.pkt);
    } else {
      assert Line(s) == s.high;
    }
  }

  lemma FlushOneLow(s: Lists, ans: seq<Answer>)
    requires Balanced(s) && OneLow(s)
    ensures AllSound(Merge(s).high) && AllSound(Merge(s).low)
    ensures OneLow(FlushLists(Merge(s), ans).st)
  {
    MergeBalanced(s);
    OneLowAhead(s);
    var m := Merge(s);
    assert Line(m) == m.high;
    DrainPackets(m.high, ans);
    var d := Drain(m.high, ans);
    OnlyLowConcat(d.finished, Pkts(d.list));
    hide Drain, Balanced, Merge, HeadOnly, AllSound;
    if d.list == [] {
      var e := Drain(m.low, d.ans);
      if e.list != [] {
        assert [e.list[0]][1..] == [];
        OnlyLowOne(e.list[0].pkt);
      }
      NoPackets();
      OnlyLowOne(Packet(0, 0, true, []));
    }
  }

  // ---------------------------------------------------------------- send_socket

  /** `send_socket`: with both lists empty a packet goes to the high list whatever its priority. */
  function Append(s: Lists, p: Packet): Lists {
    if (s.high == [] && s.low == []) || p.high then
      s.(high := s.high + [Buf(p, 0)], wbSize := s.wbSize + |p.data|)
    else
      s.(low := s.low + [Buf(p, 0)], wbSize := s.wbSize + |p.data|)
  }

  lemma OnePacket(p: Packet)
    ensures Pkts([Buf(p, 0)]) == [p] && AllSound([Buf(p, 0)]) && Unsent([Buf(p, 0)]) == |p.data|
    ensures OnlyHigh([p]) == if p.high then [p] else []
  {
    assert [Buf(p, 0)][1..] == [] && [p][..0] == [];
  }

  lemma AppendHigh(s: Lists, p: Packet, t: Lists)
    requires Balanced(s)
    requires t == s.(high := s.high + [Buf(p, 0)], wbSize := s.wbSize + |p.data|)
    ensures Balanced(t) && HeadPart(Line(t)) == HeadPart(Line(s))
    ensures OnlyHigh(Pkts(Line(t))) == OnlyHigh(Pkts(Line(s))) + OnlyHigh([p])
  {
    OnePacket(p);
    UnsentConcat(s.high, [Buf(p, 0)]);
    assert Line(t) == Line(s) + [Buf(p, 0)];
    PktsConcat(Line(s), [Buf(p, 0)]);
    OnlyHighConcat(Pkts(Line(s)), [p]);
    hide OnlyHigh, Pkts, Unsent, Line;
    HeadOnlyGrows(Line(s), Buf(p, 0));
  }

  lemma HeadOnlyGrows(l: seq<Buf>, b: Buf)
    requires HeadOnly(l) && b.off == 0
    ensures HeadOnly(l + [b]) && HeadPart(l + [b]) == HeadPart(l)
  {
  }

  lemma AppendLow(s: Lists, p: Packet, t: Lists)
    requires Balanced(s) && !p.high
    requires t == s.(low := s.low + [Buf(p, 0)], wbSize := s.wbSize + |p.data|)
    ensures Balanced(t) && Line(t) == Line(s)
  {
    OnePacket(p);
    UnsentConcat(s.low, [Buf(p, 0)]);
    hide OnlyHigh, Pkts, Unsent;
  }

  lemma AppendBalanced(s: Lists, p: Packet)
    requires Balanced(s)
    ensures AllSound(Line(s)) && AllSound(Line(Append(s, p)))
    ensures Balanced(Append(s, p)) && HeadPart(Line(Append(s, p))) == HeadPart(Line(s))
    ensures OnlyHigh(Pkts(Line(Append(s, p)))) == OnlyHigh(Pkts(Line(s))) + OnlyHigh([p])
  {
    OnePacket(p);
    if (s.high == [] && s.low == []) || p.high {
      AppendHigh(s, p, Append(s, p));
    } else {
      AppendLow(s, p, Append(s, p));
      hide OnlyHigh, Pkts, Unsent;
      assert OnlyHigh(Pkts(Line(s))) + [] == OnlyHigh(Pkts(Line(s)));
    }
  }

  /** A low-priority packet goes behind all others of its kind, in whichever list. */
  lemma AppendLowInLine(s: Lists, p: Packet)
    ensures var t := Append(s, p);
      OnlyLow(Pkts(Line(t))) + OnlyLow(Pkts(t.low)) == OnlyLow(Pkts(Line(s))) + OnlyLow(Pkts(s.low)) + OnlyLow([p])
  {
    var t := Append(s, p);
    OnlyLowOne(p);
    NoPackets();
    LowBehind(Line(s), p);
    LowBehind(s.low, p);
    hide Pkts, OnlyLow;
    var a, c, m := OnlyLow(Pkts(Line(s))), OnlyLow(Pkts(s.low)), OnlyLow([p]);
    if (s.high == [] && s.low == []) || p.high {
      assert Line(t) == Line(s) + [Buf(p, 0)];
      assert m == [] || c == [];
      hide Line, Append;
      assert a + m + c == a + c + m;
    } else {
      assert Line(t) == Line(s);
      hide Line, Append;
      Joined(a, c, m);
    }
  }

  /** First come, first served while nothing is listed: then a packet of either priority is next in line. */
  lemma AppendFirst(s: Lists, p: Packet)
    ensures var t := Append(s, p);
      && (Pkts(s.high) == Pkts(s.low) == [] || p.high ==>
            Pkts(Line(t)) == Pkts(Line(s)) + [p] && Pkts(t.low) == Pkts(s.low))
      && (!p.high && Pkts(s.high) + Pkts(s.low) != [] ==>
            Pkts(Line(t)) == Pkts(Line(s)) && Pkts(t.low) == Pkts(s.low) + [p])
  {
    OnePacket(p);
    PktsConcat(Line(s), [Buf(p, 0)]);
    PktsConcat(s.low, [Buf(p, 0)]);
    NoPackets();
    assert Line(s.(high := s.high + [Buf(p, 0)])) == Line(s) + [Buf(p, 0)];
  }

  lemma LowBehind(l: seq<Buf>, p: Packet)
    ensures OnlyLow(Pkts(l + [Buf(p, 0)])) == OnlyLow(Pkts(l)) + OnlyLow([p])
  {
    OnePacket(p);
    PktsConcat(l, [Buf(p, 0)]);
    OnlyLowConcat(Pkts(l), [p]);
  }

  lemma AppendOneLow(s: Lists, p: Packet)
    requires OneLow(s)
    ensures OneLow(Append(s, p))
  {
    LowBehind(s.high, p);
    OnlyLowOne(p);
    NoPackets();
    hide OnlyLow, Pkts;
  }

  /** The state of the fd: `done` packets are out completely, then the started part of the front buffer. */
  ghost predicate OnWire(s: Lists, wire: seq<byte>, done: seq<Packet>) {
    && Balanced(s) && AllSound(Line(s))
    && wire == Flat(done) + HeadPart(Line(s))
  }

  lemma OnWireSound(s: Lists, wire: seq<byte>, done: seq<Packet>)
    requires OnWire(s, wire, done)
    ensures Balanced(s) && AllSound(s.high) && AllSound(s.low) && AllSound(Line(s))
    ensures AllFresh(s.low)
  {
  }

  lemma OnWireAppend(s: Lists, wire: seq<byte>, done: seq<Packet>, p: Packet)
    requires OnWire(s, wire, done)
    ensures OnWire(Append(s, p), wire, done)
  {
    AppendBalanced(s, p);
  }

  lemma OnWireFlush(s: Lists, wire: seq<byte>, done: seq<Packet>, ans: seq<Answer>)
    requires OnWire(s, wire, done)
    ensures AllSound(Line(s)) && Balanced(Merge(s)) && AllSound(Merge(s).high) && AllSound(Merge(s).low)
    ensures Merge(s).dw.None?
    ensures var f := FlushLists(Merge(s), ans);
      && OnWire(f.st, wire + f.bytes, done + f.finished)
      && f.st.dw.None?
      && OnlyHigh(f.finished + Pkts(Line(f.st))) == OnlyHigh(Pkts(Line(s)))
  {
    MergeBalanced(s);
    FlushContinues(s, ans);
    FlushWire(wire, done, s, FlushLists(Merge(s), ans));
  }

  // ---------------------------------------------------------------- the code

  /** `send_list_tcp` over the kernel's answers; running out of answers counts as EAGAIN. */
  method SendListTcp(list: seq<Buf>, ans: seq<Answer>) returns (d: Drained)
    requires AllSound(list)
    ensures d == Drain(list, ans) && Exhausts(list, ans, d.list, d.ans)
  {
    hide Exhausts;
    DrainExhausts(list, ans);
    var l, a, bytes, finished := list, ans, [], [];
    while l != [] && a != []
      invariant AllSound(l)
      invariant Drain(list, ans) ==
        var r := Drain(l, a); Drained(r.list, bytes + r.bytes, finished + r.finished, r.ans)
      decreases |a|
    {
      var b := l[0];
      match a[0] {
        case Interrupted =>
          a := a[1..];
        case Again =>
          return Drained(l, bytes, finished, a[1..]);
        case Wrote(n) =>
          var sz := Cut(n, b);
          ghost var r := Drain(l, a);
          var out := b.pkt.data[b.off..b.off + sz];
          if sz != Left(b) {
            return Drained([Buf(b.pkt, b.off + sz)] + l[1..], bytes + out, finished, a[1..]);
          }
          assert bytes + (out + Drain(l[1..], a[1..]).bytes) == (bytes + out) + Drain(l[1..], a[1..]).bytes;
          assert finished + ([b.pkt] + Drain(l[1..], a[1..]).finished)
              == (finished + [b.pkt]) + Drain(l[1..], a[1..]).finished;
          l, a, bytes, finished := l[1..], a[1..], bytes + out, finished + [b.pkt];
      }
    }
    d := Drained(l, bytes, finished, a);
  }

  class Socket {
    var high: seq<Buf>
    var low: seq<Buf>
    var wbSize: int
    var dw: Option<Buf>
    var wire: seq<byte>            // everything `write` has accepted for this fd
    ghost var done: seq<Packet>    // packets written completely, in order of completion

    function View(): Lists
      reads this
    {
      Lists(high, low, wbSize, dw)
    }

    ghost predicate Valid()
      reads this
    {
      OnWire(View(), wire, done)
    }

    constructor ()
      ensures Valid() && View() == Lists([], [], 0, None) && wire == [] && done == []
    {
      high, low, wbSize, dw, wire, done := [], [], 0, None, [], [];
    }

    method RaiseUncomplete()
      requires low != [] && high == []
      modifies this`high, this`low
      ensures high == [old(low)[0]] && low == old(low)[1..]
    {
      var tmp := low[0];
      low := low[1..];
      high := [tmp];
    }

    /** `send_buffer_`; its run-time assertions are asserted here. */
    method SendBufferLocked(ans: seq<Answer>)
      requires Balanced(View()) && AllSound(high) && AllSound(low) && dw.None?
      modifies this
      ensures var f := FlushLists(old(View()), ans);
        View() == f.st && wire == old(wire) + f.bytes && done == old(done) + f.finished
    {
      hide Balanced, Drain, AllSound, AllFresh, Line, FlushLists, Exhausts;
      LowUntouched(View());
      assert !(low != [] && low[0].off != 0);
      FlushEnd(View(), ans);
      FlushCases(View(), ans);
      var d := SendListTcp(high, ans);
      high, wbSize := d.list, wbSize - |d.bytes|;
      wire, done := wire + d.bytes, done + d.finished;
      if high == [] {
        ghost var e := Drain(low, d.ans);
        Joined(old(wire), d.bytes, e.bytes);
        Joined(old(done), d.finished, e.finished);
        SendLow(d.ans);
        if high != [] || low != [] {
          return;
        }
        assert high == [] && low == [] && wbSize == 0;
      }
    }

    /** Steps 2 and 3 of `send_buffer_`: afterwards the high list is not empty only if a started buffer was raised. */
    method SendLow(ans: seq<Answer>)
      requires AllSound(low) && high == []
      modifies this
      ensures var e := Drain(old(low), ans);
        && View() == Raise(e.list, old(wbSize) - |e.bytes|).(dw := old(dw))
        && wire == old(wire) + e.bytes && done == old(done) + e.finished
    {
      hide Drain, AllSound, Exhausts;
      var e := SendListTcp(low, ans);
      low, wbSize := e.list, wbSize - |e.bytes|;
      wire, done := wire + e.bytes, done + e.finished;
      if low != [] && low[0].off != 0 {
        RaiseUncomplete();
      }
    }

    /** `send_buffer`, with the lock taken. */
    method SendBuffer(ans: seq<Answer>)
      requires Valid()
      modifies this
      ensures Valid() && dw.None?
      ensures AllSound(Line(old(View()))) && AllSound(Merge(old(View())).high) && AllSound(Merge(old(View())).low)
      ensures var f := FlushLists(Merge(old(View())), ans);
        View() == f.st && wire == old(wire) + f.bytes && done == old(done) + f.finished
      ensures forall size | TakesAll(old(View()), ans, size) ::
        && View() == Lists([], [], 0, None) && wire == Flat(done)
        && done == old(done) + (Pkts(Line(old(View()))) + Pkts(old(low)))
    {
      hide OnWire, FlushLists, Balanced, TakesAll;
      ghost var s := View();
      BufferTaken(s, wire, done, ans);
      OnWireFlush(s, wire, done, ans);
      if dw.Some? {
        var b := dw.value;
        assert b == Line(s)[0];
        wbSize := wbSize + (|b.pkt.data| - b.off);
        high := [b] + high;
        dw := None;
      }
      assert View() == Merge(s);
      SendBufferLocked(ans);
    }

    /** `send_socket` on a connected socket: the packet joins one of the lists. */
    method SendSocket(p: Packet)
      requires Valid()
      modifies this`high, this`low, this`wbSize
      ensures Valid()
      ensures View() == Append(old(View()), p)
    {
      hide OnWire;
      OnWireAppend(View(), wire, done, p);
      if high == [] && low == [] {
        high := high + [Buf(p, 0)];
      } else if p.high {
        high := high + [Buf(p, 0)];
      } else {
        low := low + [Buf(p, 0)];
      }
      wbSize := wbSize + |p.data|;
    }
  }

  /** The head of the low list is never partly sent on entry to `send_buffer_`. */
  lemma LowUntouched(s: Lists)
    requires Balanced(s)
    ensures s.low != [] ==> s.low[0].off == 0
  {
  }

  lemma FlushCases(s: Lists, ans: seq<Answer>)
    requires AllSound(s.high) && AllSound(s.low)
    ensures var d, f := Drain(s.high, ans), FlushLists(s, ans);
      if d.list != [] then f == Flushed(s.(high := d.list, wbSize := s.wbSize - |d.bytes|), d.bytes, d.finished)
      else
        var e := Drain(s.low, d.ans);
        f == Flushed(Raise(e.list, s.wbSize - |d.bytes| - |e.bytes|).(dw := s.dw), d.bytes + e.bytes, d.finished + e.finished)
  {
    hide Drain, AllSound, Raise;
  }

  lemma BufferTaken(s: Lists, wire: seq<byte>, done: seq<Packet>, ans: seq<Answer>)
    requires OnWire(s, wire, done)
    ensures AllSound(Line(s)) && AllSound(s.low) && AllSound(Merge(s).high) && AllSound(Merge(s).low)
    ensures forall size | TakesAll(s, ans, size) ::
      var f := FlushLists(Merge(s), ans);
      && f.st == Lists([], [], 0, None) && wire + f.bytes == Flat(done + f.finished)
      && f.finished == Pkts(Line(s)) + Pkts(s.low)
  {
    OnWireFlush(s, wire, done, ans);
    OnWireSound(s, wire, done);
    forall size | TakesAll(s, ans, size)
      ensures FlushLists(Merge(s), ans).st == Lists([], [], 0, None)
      ensures FlushLists(Merge(s), ans).finished == Pkts(Line(s)) + Pkts(s.low)
    {
      FlushAll(s, ans, size);
    }
    var f := FlushLists(Merge(s), ans);
    hide FlushLists, Merge, TakesAll, Flat, Pkts;
    if f.st == Lists([], [], 0, None) {
      EmptyLine(f.st);
      assert Flat(done + f.finished) + [] == Flat(done + f.finished);
    }
  }

  lemma EmptyLine(s: Lists)
    requires s == Lists([], [], 0, None)
    ensures Line(s) == [] && HeadPart([]) == []
  {
  }

  /** When a flush empties both lists nothing is left to count. */
  lemma FlushEnd(s: Lists, ans: seq<Answer>)
    requires Balanced(s) && s.dw.None?
    ensures AllSound(s.high) && AllSound(s.low)
    ensures var d := Drain(s.high, ans);
      d.list == [] && Drain(s.low, d.ans).list == [] ==>
        s.wbSize == |d.bytes| + |Drain(s.low, d.ans).bytes|
  {
    assert Line(s) == s.high;
    var d := Drain(s.high, ans);
    DrainContinues(s.high, ans);
    FreshHead(s.low);
    DrainContinues(s.low, d.ans);
  }

  lemma FlushWire(wire: seq<byte>, done: seq<Packet>, s: Lists, f: Flushed)
    requires FlushKeeps(s, f) && AllSound(Line(s)) && wire == Flat(done) + HeadPart(Line(s))
    ensures Balanced(f.st) && f.st.dw.None?
    ensures AllSound(Line(f.st)) && wire + f.bytes == Flat(done + f.finished) + HeadPart(Line(f.st))
  {
    FlatConcat(done, f.finished);
    hide Flat, HeadPart, OnlyHigh, Pkts, Unsent;
    assert wire + f.bytes == Flat(done) + (HeadPart(Line(s)) + f.bytes);
    assert Flat(done) + (Flat(f.finished) + HeadPart(Line(f.st))) == Flat(done + f.finished) + HeadPart(Line(f.st));
  }
}
