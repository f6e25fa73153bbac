/**
  The hierarchical timer wheel of skynet_timer.c: 256 near lists and four levels of 64 far lists,
  indexed by the digits (8+6+6+6+6 bits) of a 32-bit clock that wraps.

  The specification is a queue of (due, event) pairs over an unbounded clock.  The class `Timer`
  carries that queue as a ghost and keeps the wheel in the canonical layout: every pending node sits
  in the list that `add_node` would choose for it now.
 */
module TimerWheel {

  const NEAR: nat := 0x100
  const LEVEL: nat := 0x40
  const WRAP: nat := 0x1_0000_0000
  const MAX_DELAY: nat := 0x7fff_ffff

  datatype Event = Event(handle: nat, session: int)
  datatype Node = Node(expire: nat, event: Event)
  datatype Request = Request(delay: nat, event: Event)
  datatype Pending = Pending(due: nat, event: Event)
  datatype Slot = Near(i: nat) | Far(level: nat, i: nat)
  datatype Wheel = Wheel(near: seq<seq<Node>>, far: seq<seq<seq<Node>>>, time: nat)

  /** `skynet_timeout` hands only `int` delays above zero to `timer_add`. */
  predicate LegalDelay(d: nat) {
    1 <= d <= MAX_DELAY
  }

  predicate ValidSlot(s: Slot) {
    match s
    case Near(i) => i < NEAR
    case Far(l, i) => l < 4 && i < LEVEL
  }

  predicate Shaped(w: Wheel) {
    && |w.near| == NEAR
    && |w.far| == 4
    && (forall l :: 0 <= l < 4 ==> |w.far[l]| == LEVEL)
    && w.time < WRAP
  }

  function ListAt(w: Wheel, s: Slot): seq<Node>
    requires Shaped(w) && ValidSlot(s)
  {
    match s
    case Near(i) => w.near[i]
    case Far(l, i) => w.far[l][i]
  }

  /** Weight of one unit of level `l`: 2^8, 2^14, 2^20, 2^26. */
  function Unit(l: nat): nat
    requires l < 4
  {
    if l == 0 then 0x100 else if l == 1 then 0x4000 else if l == 2 then 0x10_0000 else 0x400_0000
  }

  function Digit(l: nat, c: nat): nat
    requires l < 4
  {
    (c / Unit(l)) % LEVEL
  }

  /** The choice of `add_node` as a function of the quotients of expiry and clock by the five units. */
  function Pick(r: nat, e0: nat, e1: nat, e2: nat, e3: nat, c0: nat, c1: nat, c2: nat, c3: nat): Slot {
    if e0 == c0 then Near(r)
    else if e1 == c1 then Far(0, e0 % LEVEL)
    else if e2 == c2 then Far(1, e1 % LEVEL)
    else if e3 == c3 then Far(2, e2 % LEVEL)
    else Far(3, e3 % LEVEL)
  }

  /** The list that `add_node` selects for expiry `e` when the clock reads `c`. */
  function Place(e: nat, c: nat): Slot {
    Pick(e % NEAR, e / Unit(0), e / Unit(1), e / Unit(2), e / Unit(3),
         c / Unit(0), c / Unit(1), c / Unit(2), c / Unit(3))
  }

  /** The far list that is cascaded when the clock arrives at `c`, a multiple of 256. */
  function CascadeSlot(c: nat): Slot
    requires c % NEAR == 0
  {
    if Digit(0, c) != 0 then Far(0, Digit(0, c))
    else if Digit(1, c) != 0 then Far(1, Digit(1, c))
    else if Digit(2, c) != 0 then Far(2, Digit(2, c))
    else Far(3, Digit(3, c))
  }

  // ---------------------------------------------------------------- filters over lists

  function WithExpire(l: seq<Node>, e: nat): seq<Node> {
    if l == [] then []
    else WithExpire(l[..|l|-1], e) + (if l[|l|-1].expire == e then [l[|l|-1]] else [])
  }

  function PlaceAt(c: nat): nat -> Slot {
    (e: nat) => Place(e, c)
  }

  /** The nodes of `l`, in order, that `place` sends to `s`. */
  function Bound(l: seq<Node>, s: Slot, place: nat -> Slot): seq<Node> {
    if l == [] then []
    else Bound(l[..|l|-1], s, place) + (if place(l[|l|-1].expire) == s then [l[|l|-1]] else [])
  }

  function Nodes(todo: seq<Pending>): seq<Node> {
    if todo == [] then []
    else Nodes(todo[..|todo|-1]) + [Node(todo[|todo|-1].due % WRAP, todo[|todo|-1].event)]
  }

  function DueAt(todo: seq<Pending>, k: nat): seq<Event> {
    if todo == [] then []
    else DueAt(todo[..|todo|-1], k) + (if todo[|todo|-1].due == k then [todo[|todo|-1].event] else [])
  }

  function DueAfter(todo: seq<Pending>, k: nat): seq<Pending> {
    if todo == [] then []
    else DueAfter(todo[..|todo|-1], k) + (if todo[|todo|-1].due > k then [todo[|todo|-1]] else [])
  }

  function Events(l: seq<Node>): seq<Event> {
    if l == [] then [] else Events(l[..|l|-1]) + [l[|l|-1].event]
  }

  lemma {:induction false} WithExpireConcat(a: seq<Node>, b: seq<Node>, e: nat)
    ensures WithExpire(a + b, e) == WithExpire(a, e) + WithExpire(b, e)
  {
    if b == [] {
      assert a + b == a;
    } else {
      WithExpireConcat(a, b[..|b|-1], e);
      assert (a + b)[..|a + b|-1] == a + b[..|b|-1];
    }
  }

  lemma {:induction false} WithExpireAbsent(l: seq<Node>, e: nat)
    ensures WithExpire(l, e) == [] <==> forall n :: n in l ==> n.expire != e
  {
    if l != [] {
      WithExpireAbsent(l[..|l|-1], e);
      assert l == l[..|l|-1] + [l[|l|-1]];
    }
  }

  lemma {:induction false} WithExpireWhole(l: seq<Node>, e: nat)
    requires forall n :: n in l ==> n.expire == e
    ensures WithExpire(l, e) == l
  {
    if l != [] {
      WithExpireWhole(l[..|l|-1], e);
      assert l == l[..|l|-1] + [l[|l|-1]];
    }
  }

  lemma {:induction false} WithExpireBound(l: seq<Node>, s: Slot, place: nat -> Slot, e: nat)
    ensures WithExpire(Bound(l, s, place), e) == if place(e) == s then WithExpire(l, e) else []
  {
    if l != [] {
      var init, last := l[..|l|-1], l[|l|-1];
      WithExpireBound(init, s, place, e);
      if place(last.expire) == s {
        WithExpireConcat(Bound(init, s, place), [last], e);
        assert [last][..0] == [];
      } else {
        assert Bound(l, s, place) == Bound(init, s, place);
      }
    }
  }

  lemma {:induction false} BoundMembers(l: seq<Node>, s: Slot, place: nat -> Slot)
    ensures forall n :: n in Bound(l, s, place) <==> n in l && place(n.expire) == s
  {
    if l != [] {
      BoundMembers(l[..|l|-1], s, place);
      assert l == l[..|l|-1] + [l[|l|-1]];
    }
  }

  // ---------------------------------------------------------------- the layout invariant

  /** Every node sits in the list its expiry selects at the current clock. */
  ghost predicate Canonical(w: Wheel)
    requires Shaped(w)
  {
    forall s, n :: ValidSlot(s) && n in ListAt(w, s) ==> n.expire < WRAP && Place(n.expire, w.time) == s
  }

  /** For each expiry value its one list holds exactly the pending nodes, in the order they were added. */
  ghost predicate Agrees(w: Wheel, p: seq<Node>)
    requires Shaped(w)
  {
    forall e :: 0 <= e < WRAP ==>
      && ValidSlot(Place(e, w.time))
      && WithExpire(ListAt(w, Place(e, w.time)), e) == WithExpire(p, e)
  }

  function Distance(e: nat, c: nat): nat
    requires e < WRAP && c < WRAP
  {
    if e >= c then e - c else e + WRAP - c
  }

  ghost predicate Layout(w: Wheel, p: seq<Node>, lo: nat) {
    && Shaped(w)
    && Canonical(w)
    && Agrees(w, p)
    && forall n :: n in p ==> n.expire < WRAP && lo <= Distance(n.expire, w.time) <= MAX_DELAY
  }

  lemma PlaceValid(e: nat, c: nat)
    requires e < WRAP
    ensures ValidSlot(Place(e, c))
  {
  }

  /** The list that is due is reached by exactly one expiry value, the current time. */
  lemma NearIsNow(e: nat, c: nat)
    requires e < WRAP && c < WRAP
    ensures Place(e, c) == Near(c % NEAR) <==> e == c
  {
  }

  /** A pending expiry is not in the part of the current block that lies behind the clock. */
  lemma BlockStable(u: nat, e: nat, c: nat)
    requires u in {0x100, 0x4000, 0x10_0000, 0x400_0000}
    requires e < WRAP && c + 1 < WRAP && 1 <= Distance(e, c) <= MAX_DELAY
    ensures e / u == c / u ==> (c + 1) / u == c / u
    ensures (c + 1) / u == c / u <==> (c + 1) % u != 0
  {
    BlockEnd8(c);
    BlockEnd14(c);
    BlockEnd20(c);
    BlockEnd26(c);
    NextInBlock(e, c);
  }

  lemma BlockEnd8(c: nat) ensures (c + 1) / 0x100 == c / 0x100 <==> (c + 1) % 0x100 != 0 {}
  lemma BlockEnd14(c: nat) ensures (c + 1) / 0x4000 == c / 0x4000 <==> (c + 1) % 0x4000 != 0 {}
  lemma BlockEnd20(c: nat) ensures (c + 1) / 0x10_0000 == c / 0x10_0000 <==> (c + 1) % 0x10_0000 != 0 {}
  lemma BlockEnd26(c: nat) ensures (c + 1) / 0x400_0000 == c / 0x400_0000 <==> (c + 1) % 0x400_0000 != 0 {}

  /** In the block of the clock a pending expiry lies ahead of it, so that the next tick is still in the block. */
  lemma NextInBlock(e: nat, c: nat)
    requires e < WRAP && c + 1 < WRAP && 1 <= Distance(e, c) <= MAX_DELAY
    ensures e / 0x100 == c / 0x100 ==> (c + 1) / 0x100 == c / 0x100
    ensures e / 0x4000 == c / 0x4000 ==> (c + 1) / 0x4000 == c / 0x4000
    ensures e / 0x10_0000 == c / 0x10_0000 ==> (c + 1) / 0x10_0000 == c / 0x10_0000
    ensures e / 0x400_0000 == c / 0x400_0000 ==> (c + 1) / 0x400_0000 == c / 0x400_0000
  {
    assert e > c || c - e > 0x400_0000;
  }

  lemma UnitsNest(e: nat, d: nat)
    ensures e / 0x100 == d / 0x100 ==> e / 0x4000 == d / 0x4000
    ensures e / 0x4000 == d / 0x4000 ==> e / 0x10_0000 == d / 0x10_0000
    ensures e / 0x10_0000 == d / 0x10_0000 ==> e / 0x400_0000 == d / 0x400_0000
  {
    Quotients(e);
    Quotients(d);
  }

  /** The carry argument on quotients: units up to `k` turn over, units above `k` do not. */
  lemma PickStable(k: nat, r: nat, e0: nat, e1: nat, e2: nat, e3: nat,
                   c0: nat, c1: nat, c2: nat, c3: nat, d0: nat, d1: nat, d2: nat, d3: nat)
    requires k < 4
    requires e0 == d0 ==> e1 == d1
    requires e1 == d1 ==> e2 == d2
    requires e2 == d2 ==> e3 == d3
    requires e0 != c0
    requires if k >= 1 then e1 != c1 else d1 == c1
    requires if k >= 2 then e2 != c2 else d2 == c2
    requires if k >= 3 then e3 != c3 else d3 == c3
    ensures var before := Pick(r, e0, e1, e2, e3, c0, c1, c2, c3);
      || Pick(r, e0, e1, e2, e3, d0, d1, d2, d3) == before
      || before == Far(k, (if k == 0 then d0 else if k == 1 then d1 else if k == 2 then d2 else d3) % LEVEL)
  {
  }

  /** The mixed-radix digits 8+6+6+6+6 of a clock value. */
  lemma Digits(d: nat)
    ensures d % 0x4000 == 0x100 * Digit(0, d) + d % 0x100
    ensures d % 0x10_0000 == 0x4000 * Digit(1, d) + d % 0x4000
    ensures d % 0x400_0000 == 0x10_0000 * Digit(2, d) + d % 0x10_0000
    ensures d < WRAP ==> d == 0x400_0000 * Digit(3, d) + d % 0x400_0000
  {
    Quotients(d);
  }

  lemma CascadeLevel(d: nat)
    requires 0 < d < WRAP && d % NEAR == 0
    ensures d % 0x4000 != 0 ==> CascadeSlot(d) == Far(0, Digit(0, d))
    ensures d % 0x4000 == 0 && d % 0x10_0000 != 0 ==> CascadeSlot(d) == Far(1, Digit(1, d))
    ensures d % 0x10_0000 == 0 && d % 0x400_0000 != 0 ==> CascadeSlot(d) == Far(2, Digit(2, d))
    ensures d % 0x400_0000 == 0 ==> CascadeSlot(d) == Far(3, Digit(3, d)) && Digit(3, d) != 0
  {
    Digits(d);
  }

  /** One round of the loop of `timer_shift`: digit `l` of a clock whose lower digits are all zero. */
  lemma CascadeAt(ct: nat, l: nat)
    requires 0 < ct < WRAP && l < 4 && ct % Unit(l) == 0
    ensures ct % NEAR == 0
    ensures Digit(l, ct) != 0 ==> CascadeSlot(ct) == Far(l, Digit(l, ct))
    ensures Digit(l, ct) == 0 ==> l < 3 && ct % Unit(l + 1) == 0
    ensures l < 3 ==> (ct / Unit(l)) / LEVEL == ct / Unit(l + 1)
  {
    Digits(ct);
    CascadeLevel(ct);
    Quotients(ct);
  }

  lemma CascadeAtZero()
    ensures CascadeSlot(0) == Far(3, 0)
  {
  }

  lemma Quotients(c: nat)
    ensures (c / 0x100) / LEVEL == c / 0x4000
    ensures (c / 0x4000) / LEVEL == c / 0x10_0000
    ensures (c / 0x10_0000) / LEVEL == c / 0x400_0000
  {
  }

  lemma PlaceStableFar(e: nat, c: nat)
    requires e < WRAP && c + 1 < WRAP && 1 <= Distance(e, c) <= MAX_DELAY
    requires (c + 1) % NEAR == 0
    ensures Place(e, c + 1) == Place(e, c) || Place(e, c) == CascadeSlot(c + 1)
  {
    var d := c + 1;
    BlockStable(0x100, e, c);
    BlockStable(0x4000, e, c);
    BlockStable(0x10_0000, e, c);
    BlockStable(0x400_0000, e, c);
    UnitsNest(e, d);
    CascadeLevel(d);
    var k := if d % 0x4000 != 0 then 0 else if d % 0x10_0000 != 0 then 1 else if d % 0x400_0000 != 0 then 2 else 3;
    PickStable(k, e % NEAR, e / 0x100, e / 0x4000, e / 0x10_0000, e / 0x400_0000,
               c / 0x100, c / 0x4000, c / 0x10_0000, c / 0x400_0000,
               d / 0x100, d / 0x4000, d / 0x10_0000, d / 0x400_0000);
  }

  lemma PlaceStableNear(e: nat, c: nat)
    requires e < WRAP && c + 1 < WRAP && 1 <= Distance(e, c) <= MAX_DELAY
    requires (c + 1) % NEAR != 0
    ensures Place(e, c + 1) == Place(e, c)
  {
    BlockStable(0x100, e, c);
    UnitsNest(c + 1, c);
  }

  /** One tick of the clock moves only the expiries that the cascaded list holds. */
  lemma PlaceStable(e: nat, c: nat)
    requires e < WRAP && c < WRAP && 1 <= Distance(e, c) <= MAX_DELAY
    ensures var d := (c + 1) % WRAP;
      Place(e, d) == Place(e, c) || (d % NEAR == 0 && Place(e, c) == CascadeSlot(d))
  {
    hide Place, CascadeSlot;
    if c + 1 == WRAP {
      PlaceStableWrap(e);
    } else if (c + 1) % NEAR == 0 {
      PlaceStableFar(e, c);
    } else {
      PlaceStableNear(e, c);
    }
  }

  lemma PlaceStableWrap(e: nat)
    requires e < MAX_DELAY
    ensures Place(e, 0) == Place(e, WRAP - 1) || Place(e, WRAP - 1) == CascadeSlot(0)
  {
    UnitsNest(e, 0);
    PickStable(3, e % NEAR, e / 0x100, e / 0x4000, e / 0x10_0000, e / 0x400_0000,
               0xff_ffff, 0x3_ffff, 0xfff, 0x3f, 0, 0, 0, 0);
  }

  // ---------------------------------------------------------------- one tick keeps the layout

  lemma Elsewhere(w: Wheel, e: nat, s: Slot)
    requires Shaped(w) && Canonical(w) && ValidSlot(s) && e < WRAP
    requires s != Place(e, w.time)
    ensures WithExpire(ListAt(w, s), e) == []
  {
    WithExpireAbsent(ListAt(w, s), e);
  }

  /** A node found in the wheel has the expiry of some pending node. */
  lemma InWheelIsPending(w: Wheel, p: seq<Node>, lo: nat, s: Slot, n: Node)
    requires Layout(w, p, lo) && ValidSlot(s) && n in ListAt(w, s)
    ensures n.expire < WRAP && Place(n.expire, w.time) == s
    ensures lo <= Distance(n.expire, w.time) <= MAX_DELAY
  {
    WithExpireAbsent(ListAt(w, s), n.expire);
    WithExpireAbsent(p, n.expire);
  }

  /** `move_list` under way: `src` has been emptied and the nodes `done` of it appended where they now belong. */
  ghost predicate Moving(w: Wheel, w': Wheel, src: Slot, done: seq<Node>)
    requires Shaped(w) && Shaped(w') && ValidSlot(src)
  {
    forall s :: ValidSlot(s) ==>
      ListAt(w', s) == (if s == src then [] else ListAt(w, s)) + Bound(done, s, PlaceAt(w'.time))
  }

  /** What `move_list` does to the lists. */
  ghost predicate Cascaded(w: Wheel, w': Wheel, src: Slot)
    requires Shaped(w) && Shaped(w') && ValidSlot(src)
  {
    Moving(w, w', src, ListAt(w, src))
  }

  lemma MovingStart(w: Wheel, w': Wheel, l: nat, i: nat)
    requires Shaped(w) && ValidSlot(Far(l, i)) && w' == w.(far := w.far[l := w.far[l][i := []]])
    ensures Shaped(w') && Moving(w, w', Far(l, i), [])
  {
  }

  lemma MovingStep(w: Wheel, w1: Wheel, w2: Wheel, src: Slot, done: seq<Node>, n: Node)
    requires Shaped(w) && Shaped(w1) && ValidSlot(src) && Moving(w, w1, src, done) && Linked(w1, w2, n)
    ensures Shaped(w2) && Moving(w, w2, src, done + [n])
  {
    var place := PlaceAt(w1.time);
    assert place(n.expire) == Place(n.expire, w1.time);
    assert (done + [n])[..|done|] == done;
    forall s | ValidSlot(s)
      ensures ListAt(w2, s) == (if s == src then [] else ListAt(w, s)) + Bound(done + [n], s, place)
    {
      assert ListAt(w1, s) == (if s == src then [] else ListAt(w, s)) + Bound(done, s, place);
      assert Bound(done + [n], s, place) == Bound(done, s, place) + if place(n.expire) == s then [n] else [];
    }
  }

  lemma CascadeSlotValid(c: nat)
    requires c % NEAR == 0
    ensures ValidSlot(CascadeSlot(c))
  {
  }

  /** What `timer_shift` does to the wheel. */
  ghost predicate Shifted(w: Wheel, w': Wheel) {
    match w'
    case Wheel(near, far, now) =>
      && Shaped(w) && Shaped(w')
      && now == (w.time + 1) % WRAP
      && if now % NEAR == 0 then
           ValidSlot(CascadeSlot(now)) && Cascaded(w, w', CascadeSlot(now))
         else
           near == w.near && far == w.far
  }

  lemma CascadeOrigin(w: Wheel, w': Wheel, src: Slot, s: Slot, n: Node)
    requires Shaped(w) && Shaped(w') && ValidSlot(src) && Cascaded(w, w', src)
    requires ValidSlot(s) && n in ListAt(w', s)
    ensures (n in ListAt(w, src) && Place(n.expire, w'.time) == s) || (s != src && n in ListAt(w, s))
  {
    var arrived := Bound(ListAt(w, src), s, PlaceAt(w'.time));
    assert ListAt(w', s) == (if s == src then [] else ListAt(w, s)) + arrived;
    BoundMembers(ListAt(w, src), s, PlaceAt(w'.time));
    if n in arrived {
      assert PlaceAt(w'.time)(n.expire) == Place(n.expire, w'.time);
    }
  }

  lemma StaysOrCascades(w: Wheel, p: seq<Node>, d: nat, s: Slot, n: Node)
    requires Layout(w, p, 1) && ValidSlot(s) && n in ListAt(w, s) && d == (w.time + 1) % WRAP
    ensures n.expire < WRAP
    ensures Place(n.expire, d) == s || (d % NEAR == 0 && s == CascadeSlot(d))
  {
    InWheelIsPending(w, p, 1, s, n);
    PlaceStable(n.expire, w.time);
  }

  lemma ShiftCanonicalAt(w: Wheel, w': Wheel, p: seq<Node>, s: Slot, n: Node)
    requires Layout(w, p, 1) && Shifted(w, w') && ValidSlot(s) && n in ListAt(w', s)
    ensures n.expire < WRAP && Place(n.expire, w'.time) == s
  {
    if w'.time % NEAR == 0 {
      var src := CascadeSlot(w'.time);
      CascadeOrigin(w, w', src, s, n);
      if s != src && n in ListAt(w, s) {
        StaysOrCascades(w, p, w'.time, s, n);
      } else {
        StaysOrCascades(w, p, w'.time, src, n);
      }
    } else {
      assert ListAt(w', s) == ListAt(w, s);
      StaysOrCascades(w, p, w'.time, s, n);
    }
  }

  lemma ShiftCanonical(w: Wheel, w': Wheel, p: seq<Node>)
    requires Layout(w, p, 1) && Shifted(w, w')
    ensures Canonical(w')
  {
    forall s, n | ValidSlot(s) && n in ListAt(w', s)
      ensures n.expire < WRAP && Place(n.expire, w'.time) == s
    {
      ShiftCanonicalAt(w, w', p, s, n);
    }
  }

  lemma ShiftAgreesAt(w: Wheel, w': Wheel, p: seq<Node>, e: nat)
    requires Layout(w, p, 1) && Shifted(w, w') && e < WRAP
    ensures ValidSlot(Place(e, w'.time))
    ensures WithExpire(ListAt(w', Place(e, w'.time)), e) == WithExpire(p, e)
  {
    PlaceValid(e, w.time);
    PlaceValid(e, w'.time);
    var here, there := Place(e, w.time), Place(e, w'.time);
    WithExpireAbsent(p, e);
    if WithExpire(p, e) != [] {
      PlaceStable(e, w.time);
    }
    if there != here {
      Elsewhere(w, e, there);
    }
    if w'.time % NEAR == 0 {
      var src := CascadeSlot(w'.time);
      var moved := ListAt(w, src);
      if src != here {
        Elsewhere(w, e, src);
      }
      WithExpireConcat(if there == src then [] else ListAt(w, there), Bound(moved, there, PlaceAt(w'.time)), e);
      WithExpireBound(moved, there, PlaceAt(w'.time), e);
      assert PlaceAt(w'.time)(e) == there;
      assert WithExpire(ListAt(w', there), e)
          == (if there == src then [] else WithExpire(ListAt(w, there), e)) + WithExpire(moved, e);
    }
  }

  /** The canonical layout survives every tick, the wrap of the 32-bit clock included. */
  lemma ShiftLayout(w: Wheel, w': Wheel, p: seq<Node>)
    requires Layout(w, p, 1) && Shifted(w, w')
    ensures Layout(w', p, 0)
  {
    ShiftCanonical(w, w', p);
    forall e | 0 <= e < WRAP
      ensures ValidSlot(Place(e, w'.time))
      ensures WithExpire(ListAt(w', Place(e, w'.time)), e) == WithExpire(p, e)
    {
      ShiftAgreesAt(w, w', p, e);
    }
  }

  // ---------------------------------------------------------------- adding and firing

  /** `link` at the place chosen by `add_node`. */
  ghost predicate Linked(w: Wheel, w': Wheel, n: Node) {
    && Shaped(w) && Shaped(w')
    && w'.time == w.time
    && forall s :: ValidSlot(s) ==>
         ListAt(w', s) == if s == Place(n.expire, w.time) then ListAt(w, s) + [n] else ListAt(w, s)
  }

  lemma AddLayout(w: Wheel, w': Wheel, p: seq<Node>, n: Node, lo: nat)
    requires Layout(w, p, lo) && Linked(w, w', n)
    requires n.expire < WRAP && lo <= Distance(n.expire, w.time) <= MAX_DELAY
    ensures Layout(w', p + [n], lo) && w'.time == w.time
  {
    forall e | 0 <= e < WRAP
      ensures ValidSlot(Place(e, w'.time))
      ensures WithExpire(ListAt(w', Place(e, w'.time)), e) == WithExpire(p + [n], e)
    {
      PlaceValid(e, w.time);
      assert (p + [n])[..|p|] == p;
      var l := ListAt(w, Place(e, w.time));
      assert (l + [n])[..|l|] == l;
    }
  }

  function Unexpired(p: seq<Node>, e: nat): seq<Node> {
    if p == [] then []
    else Unexpired(p[..|p|-1], e) + (if p[|p|-1].expire != e then [p[|p|-1]] else [])
  }

  lemma {:induction false} UnexpiredFilter(p: seq<Node>, e: nat, x: nat)
    ensures WithExpire(Unexpired(p, e), x) == if x == e then [] else WithExpire(p, x)
    ensures forall n :: n in Unexpired(p, e) <==> n in p && n.expire != e
  {
    if p != [] {
      var init, last := p[..|p|-1], p[|p|-1];
      UnexpiredFilter(init, e, x);
      assert p == init + [last];
      if last.expire != e {
        var u := Unexpired(init, e);
        assert (u + [last])[..|u|] == u;
      } else {
        assert Unexpired(p, e) == Unexpired(init, e);
      }
    }
  }

  /** Clearing the current near list takes exactly the nodes that expire now, in insertion order. */
  lemma FireLayout(w: Wheel, w': Wheel, p: seq<Node>)
    requires Layout(w, p, 0)
    requires w' == w.(near := w.near[w.time % NEAR := []])
    ensures w.near[w.time % NEAR] == WithExpire(p, w.time)
    ensures Layout(w', Unexpired(p, w.time), 1)
  {
    var now := w.time;
    var due := ListAt(w, Near(now % NEAR));
    forall n | n in due
      ensures n.expire == now
    {
      NearIsNow(n.expire, now);
    }
    NearIsNow(now, now);
    WithExpireWhole(due, now);
    forall s | ValidSlot(s)
      ensures ListAt(w', s) == if s == Near(now % NEAR) then [] else ListAt(w, s)
    {
    }
    forall e | 0 <= e < WRAP
      ensures ValidSlot(Place(e, now))
      ensures WithExpire(ListAt(w', Place(e, now)), e) == WithExpire(Unexpired(p, now), e)
    {
      PlaceValid(e, now);
      NearIsNow(e, now);
      UnexpiredFilter(p, now, e);
    }
    UnexpiredFilter(p, now, 0);
  }

  /** Nothing is due twice: with every pending expiry ahead of the clock the current near list is empty. */
  lemma NothingDue(w: Wheel, p: seq<Node>)
    requires Layout(w, p, 1)
    ensures w.near[w.time % NEAR] == []
  {
    if w.near[w.time % NEAR] != [] {
      var n := ListAt(w, Near(w.time % NEAR))[0];
      InWheelIsPending(w, p, 1, Near(w.time % NEAR), n);
      NearIsNow(n.expire, w.time);
    }
  }

  // ---------------------------------------------------------------- the queue of due times

  predicate Window(todo: seq<Pending>, now: nat, lo: nat) {
    forall i :: 0 <= i < |todo| ==> now + lo <= todo[i].due <= now + MAX_DELAY
  }

  lemma DueDistance(due: nat, now: nat)
    requires now <= due <= now + MAX_DELAY
    ensures Distance(due % WRAP, now % WRAP) == due - now
  {
  }

  /** The 32-bit expiry identifies the due time among the pending requests. */
  lemma {:induction false} ExpireIsDue(todo: seq<Pending>, now: nat)
    requires Window(todo, now, 0)
    ensures Events(WithExpire(Nodes(todo), now % WRAP)) == DueAt(todo, now)
    ensures Unexpired(Nodes(todo), now % WRAP) == Nodes(DueAfter(todo, now))
    ensures Window(DueAfter(todo, now), now, 1)
  {
    if todo != [] {
      var init, x := todo[..|todo|-1], todo[|todo|-1];
      ExpireIsDue(init, now);
      DueDistance(x.due, now);
      var n := Node(x.due % WRAP, x.event);
      assert (Nodes(init) + [n])[..|Nodes(init)|] == Nodes(init);
      if x.due == now {
        var f := WithExpire(Nodes(init), now % WRAP);
        assert (f + [n])[..|f|] == f;
        assert DueAfter(todo, now) == DueAfter(init, now);
      } else {
        assert n.expire != now % WRAP;
        assert WithExpire(Nodes(todo), now % WRAP) == WithExpire(Nodes(init), now % WRAP);
        var d := DueAfter(init, now);
        assert (d + [x])[..|d|] == d;
      }
    }
  }

  lemma EventsLength(l: seq<Node>)
    ensures |Events(l)| == |l|
  {
  }

  lemma {:induction false} DueNoneIsAll(todo: seq<Pending>, now: nat)
    requires Window(todo, now, 0) && DueAt(todo, now) == []
    ensures DueAfter(todo, now) == todo
  {
    if todo != [] {
      var init := todo[..|todo|-1];
      DueNoneIsAll(init, now);
      var x := todo[|todo|-1];
      assert todo == init + [x];
    }
  }

  /** The 32-bit sum of a clock value and a delay. */
  function Wrap(x: nat): nat
    requires x < 2 * WRAP
  {
    if x < WRAP then x else x - WRAP
  }

  lemma ExpiryOf(now: nat, d: nat)
    requires LegalDelay(d)
    ensures Wrap(d + now % WRAP) == (now + d) % WRAP < WRAP
    ensures Distance(Wrap(d + now % WRAP), now % WRAP) == d
  {
  }

  lemma DueLater(todo: seq<Pending>, now: nat, req: Request)
    requires Window(todo, now, 1) && LegalDelay(req.delay)
    ensures var x := Pending(now + req.delay, req.event);
      && Window(todo + [x], now, 1)
      && Nodes(todo + [x]) == Nodes(todo) + [Node(Wrap(req.delay + now % WRAP), req.event)]
  {
    hide Distance, Wrap;
    var x := Pending(now + req.delay, req.event);
    assert (todo + [x])[..|todo|] == todo;
    ExpiryOf(now, req.delay);
  }

  function Scheduled(reqs: seq<Request>, now: nat): seq<Pending> {
    if reqs == [] then []
    else Scheduled(reqs[..|reqs|-1], now) + [Pending(now + reqs[|reqs|-1].delay, reqs[|reqs|-1].event)]
  }

  predicate LegalRequests(reqs: seq<Request>) {
    forall i :: 0 <= i < |reqs| ==> LegalDelay(reqs[i].delay)
  }

  lemma {:induction false} DueNone(todo: seq<Pending>, now: nat)
    requires Window(todo, now, 1)
    ensures DueAt(todo, now) == [] && DueAfter(todo, now) == todo
  {
    if todo != [] {
      var init := todo[..|todo|-1];
      DueNone(init, now);
      var x := todo[|todo|-1];
      assert todo == init + [x];
    }
  }

  // ---------------------------------------------------------------- the wheel represents the queue

  /** The wheel `w` stands for the queue `todo` at tick `now`, every due time at least `lo` ahead. */
  ghost predicate Represents(w: Wheel, now: nat, todo: seq<Pending>, lo: nat) {
    && w.time == now % WRAP
    && Window(todo, now, lo)
    && Layout(w, Nodes(todo), lo)
  }

  lemma EmptyRepresents(w: Wheel)
    requires w == Wheel(seq(NEAR, i => []), seq(4, l => seq(LEVEL, i => [])), 0)
    ensures Represents(w, 0, [], 1)
  {
    forall e | 0 <= e < WRAP
      ensures ValidSlot(Place(e, 0)) && ListAt(w, Place(e, 0)) == []
    {
      PlaceValid(e, 0);
    }
  }

  lemma RepresentsRelax(w: Wheel, now: nat, todo: seq<Pending>)
    requires Represents(w, now, todo, 1)
    ensures Represents(w, now, todo, 0)
    ensures DueAt(todo, now) == [] && DueAfter(todo, now) == todo
  {
    DueNone(todo, now);
  }

  lemma RepresentsShaped(w: Wheel, now: nat, todo: seq<Pending>, lo: nat)
    requires Represents(w, now, todo, lo)
    ensures Shaped(w)
  {
  }

  lemma RepresentsAdd(w: Wheel, w': Wheel, now: nat, todo: seq<Pending>, req: Request)
    requires Represents(w, now, todo, 1) && LegalDelay(req.delay) && w.time < WRAP
    requires Linked(w, w', Node(Wrap(req.delay + w.time), req.event))
    ensures Represents(w', now, todo + [Pending(now + req.delay, req.event)], 1)
  {
    hide Layout, Linked, Window, Distance, Wrap;
    ExpiryOf(now, req.delay);
    DueLater(todo, now, req);
    AddLayout(w, w', Nodes(todo), Node(Wrap(req.delay + w.time), req.event), 1);
  }

  lemma ShiftTime(w: Wheel, w': Wheel, now: nat)
    requires Shifted(w, w') && w.time == now % WRAP
    ensures w'.time == (now + 1) % WRAP
  {
    hide Cascaded, Shaped, CascadeSlot;
  }

  lemma RepresentsShift(w: Wheel, w': Wheel, now: nat, todo: seq<Pending>)
    requires Represents(w, now, todo, 1) && Shifted(w, w')
    ensures Represents(w', now + 1, todo, 0)
  {
    hide Layout, Shifted;
    ShiftTime(w, w', now);
    ShiftLayout(w, w', Nodes(todo));
  }

  lemma RepresentsFire(w: Wheel, w': Wheel, now: nat, todo: seq<Pending>)
    requires Represents(w, now, todo, 0) && Shaped(w)
    requires w' == w.(near := w.near[w.time % NEAR := []])
    ensures Represents(w', now, DueAfter(todo, now), 1)
    ensures Events(w.near[w.time % NEAR]) == DueAt(todo, now)
    ensures |Events(w.near[w.time % NEAR])| == |w.near[w.time % NEAR]|
  {
    FireLayout(w, w', Nodes(todo));
    ExpireIsDue(todo, now);
    EventsLength(w.near[w.time % NEAR]);
  }

  lemma RepresentsIdle(w: Wheel, now: nat, todo: seq<Pending>)
    requires Represents(w, now, todo, 1)
    ensures Shaped(w) && w.near[w.time % NEAR] == []
  {
    NothingDue(w, Nodes(todo));
  }

  /** An empty current list means that nothing is due. */
  lemma RepresentsSkip(w: Wheel, now: nat, todo: seq<Pending>)
    requires Represents(w, now, todo, 0) && Shaped(w) && w.near[w.time % NEAR] == []
    ensures Represents(w, now, todo, 1)
    ensures DueAt(todo, now) == [] && DueAfter(todo, now) == todo
  {
    assert w == w.(near := w.near[w.time % NEAR := []]);
    RepresentsFire(w, w, now, todo);
    DueNoneIsAll(todo, now);
  }

  // ---------------------------------------------------------------- struct timer

  class Timer {
    var near: seq<seq<Node>>
    var far: seq<seq<seq<Node>>>
    var time: nat

    ghost var now: nat            // ticks since the clock started, never wrapping
    ghost var todo: seq<Pending>  // the pending requests in the order they were made

    function View(): Wheel
      reads this
    {
      Wheel(near, far, time)
    }

    ghost predicate Valid()
      reads this
    {
      Represents(View(), now, todo, 1)
    }

    constructor ()
      ensures Valid() && now == 0 && todo == []
    {
      near := seq(NEAR, i => []);
      far := seq(4, l => seq(LEVEL, i => []));
      time := 0;
      now, todo := 0, [];
      new;
      EmptyRepresents(View());
    }

    method Link(s: Slot, node: Node)
      requires Shaped(View()) && ValidSlot(s)
      modifies this`near, this`far
      ensures Shaped(View())
      ensures forall x :: ValidSlot(x) ==>
        ListAt(View(), x) == if x == s then old(ListAt(View(), x)) + [node] else old(ListAt(View(), x))
    {
      match s
      case Near(i) => near := near[i := near[i] + [node]];
      case Far(l, i) => far := far[l := far[l][i := far[l][i] + [node]]];
    }

    method AddNode(node: Node)
      requires Shaped(View())
      modifies this`near, this`far
      ensures Linked(old(View()), View(), node)
    {
      if node.expire / NEAR == time / NEAR {
        Link(Near(node.expire % NEAR), node);
      } else {
        var i, mask := 0, NEAR * LEVEL;
        while i < 3 && node.expire / mask != time / mask
          invariant 0 <= i <= 3
          invariant i < 3 ==> mask == Unit(i + 1)
          invariant forall j :: 1 <= j <= i ==> node.expire / Unit(j) != time / Unit(j)
        {
          mask := mask * LEVEL;
          i := i + 1;
        }
        assert i >= 1 ==> node.expire / Unit(1) != time / Unit(1);
        assert i >= 2 ==> node.expire / Unit(2) != time / Unit(2);
        assert i >= 3 ==> node.expire / Unit(3) != time / Unit(3);
        Link(Far(i, Digit(i, node.expire)), node);
      }
    }

    /** `timer_add`: the expiry wraps at 32 bits, the due time does not. */
    method TimerAdd(req: Request)
      requires Valid() && LegalDelay(req.delay)
      modifies this`near, this`far, this`todo
      ensures Valid()
      ensures todo == old(todo) + [Pending(now + req.delay, req.event)]
    {
      hide Represents, Linked;
      RepresentsShaped(View(), now, todo, 1);
      ghost var w := View();
      var node := Node(Wrap(req.delay + time), req.event);
      AddNode(node);
      RepresentsAdd(w, View(), now, todo, req);
      todo := todo + [Pending(now + req.delay, req.event)];
    }

    method MoveList(level: nat, idx: nat)
      requires Shaped(View()) && ValidSlot(Far(level, idx))
      modifies this`near, this`far
      ensures Shaped(View())
      ensures Cascaded(old(View()), View(), Far(level, idx))
    {
      hide Moving;
      ghost var w := View();
      var current := far[level][idx];
      assert current == ListAt(w, Far(level, idx));
      far := far[level := far[level][idx := []]];
      MovingStart(w, View(), level, idx);
      Relink(current, w, Far(level, idx));
    }

    /** The loop of `move_list` over the nodes taken from the list. */
    method Relink(current: seq<Node>, ghost w: Wheel, ghost src: Slot)
      requires Shaped(View()) && Shaped(w) && ValidSlot(src) && Moving(w, View(), src, [])
      modifies this`near, this`far
      ensures Shaped(View()) && Moving(w, View(), src, current)
    {
      hide Moving, Linked, Shaped, ValidSlot;
      var k := 0;
      assert current[..0] == [];
      while k < |current|
        invariant 0 <= k <= |current| && Shaped(View())
        invariant Moving(w, View(), src, current[..k])
      {
        ghost var before := View();
        AddNode(current[k]);
        MovingStep(w, before, View(), src, current[..k], current[k]);
        assert current[..k+1] == current[..k] + [current[k]];
        k := k + 1;
      }
      assert current[..k] == current;
    }

    method TimerShift()
      requires Shaped(View())
      modifies this`near, this`far, this`time
      ensures Shifted(old(View()), View())
    {
      ghost var w := View();
      time := (time + 1) % WRAP;
      hide Moving, CascadeSlot;
      var ct := time;
      if ct == 0 {
        CascadeAtZero();
        MoveList(3, 0);
      } else {
        var mask, rest, i := NEAR, ct / NEAR, 0;
        while ct % mask == 0
          invariant 0 <= i <= 3
          invariant mask == Unit(i) && rest == ct / mask
          invariant i > 0 ==> ct % mask == 0
          invariant View() == w.(time := ct)
          decreases 4 - i
        {
          CascadeAt(ct, i);
          CascadeSlotValid(ct);
          var idx := rest % LEVEL;
          if idx != 0 {
            MoveList(i, idx);
            return;
          }
          mask := mask * LEVEL;
          rest := rest / LEVEL;
          i := i + 1;
        }
      }
    }

    /**
      `timer_execute`: the due list is taken under the lock and dispatched without it.  `window` are
      the requests other threads make while the lock is released; `late` are those that found it held.
     */
    method TimerExecute(window: seq<Request>) returns (fired: seq<Event>, late: seq<Request>)
      requires Represents(View(), now, todo, 0) && LegalRequests(window)
      modifies this`near, this`far, this`todo
      ensures Valid()
      ensures fired == DueAt(old(todo), now)
      ensures late == if fired == [] then window else []
      ensures todo == DueAfter(old(todo), now) + Scheduled(if fired == [] then [] else window, now)
    {
      hide Represents, DueAt, DueAfter, Layout;
      RepresentsShaped(View(), now, todo, 0);
      fired, late := [], window;
      var idx := time % NEAR;
      while near[idx] != []
        invariant Shaped(View())
        invariant fired == [] ==> late == window && Represents(View(), now, todo, 0) && todo == old(todo)
        invariant fired != [] ==> late == [] && Valid() && near[idx] == []
        invariant fired != [] ==> fired == DueAt(old(todo), now)
        invariant fired != [] ==> todo == DueAfter(old(todo), now) + Scheduled(window, now)
        decreases fired == []
      {
        var current := near[idx];
        RepresentsFire(View(), View().(near := near[idx := []]), now, todo);
        near := near[idx := []];
        todo := DueAfter(todo, now);
        fired, late := Events(current), [];
        ServeWindow(window);
        RepresentsIdle(View(), now, todo);
      }
      if fired == [] {
        RepresentsSkip(View(), now, todo);
      }
    }

    /** Requests that other threads make while the lock is free. */
    method ServeWindow(window: seq<Request>)
      requires Valid() && LegalRequests(window)
      modifies this`near, this`far, this`todo
      ensures Valid()
      ensures todo == old(todo) + Scheduled(window, now)
    {
      hide Represents;
      var k := 0;
      while k < |window|
        invariant 0 <= k <= |window|
        invariant Valid()
        invariant todo == old(todo) + Scheduled(window[..k], now)
      {
        TimerAdd(window[k]);
        assert window[..k+1][..k] == window[..k];
        k := k + 1;
      }
      assert window[..k] == window;
    }

    /** `timer_update`: dispatch what is due, advance the clock by one, dispatch again. */
    method TimerUpdate(window: seq<Request>) returns (fired: seq<Event>, late: seq<Request>)
      requires Valid() && LegalRequests(window)
      modifies this
      ensures Valid() && now == old(now) + 1
      ensures fired == DueAt(old(todo), now)
      ensures late == if fired == [] then window else []
      ensures todo == DueAfter(old(todo), now) + Scheduled(if fired == [] then [] else window, now)
    {
      hide Represents, DueAt, DueAfter, Scheduled, LegalRequests, Shaped;
      RepresentsRelax(View(), now, todo);
      ServedLate([], [], now);
      var none, rest := TimerExecute(window);
      assert todo == old(todo);
      ghost var w := View();
      RepresentsShaped(w, now, todo, 1);
      TimerShift();
      RepresentsShift(w, View(), now, todo);
      now := now + 1;
      fired, late := TimerExecute(rest);
    }
  }

  // ---------------------------------------------------------------- whole runs

  /** One event of a run: a request, or one tick during which other threads may make requests. */
  datatype Op = Add(req: Request) | Update(window: seq<Request>)

  predicate LegalRun(ops: seq<Op>) {
    forall o :: o in ops ==>
      match o
      case Add(r) => LegalDelay(r.delay)
      case Update(w) => LegalRequests(w)
  }

  function Ticks(ops: seq<Op>): nat {
    if ops == [] then 0 else Ticks(ops[..|ops|-1]) + if ops[|ops|-1].Update? then 1 else 0
  }

  /** Every request of a run, in the order made, with the tick it asks for. */
  function Requested(ops: seq<Op>): seq<Pending> {
    if ops == [] then []
    else Requested(ops[..|ops|-1]) +
         match ops[|ops|-1]
         case Add(r) => [Pending(Ticks(ops) + r.delay, r.event)]
         case Update(w) => Scheduled(w, Ticks(ops))
  }

  lemma {:induction false} DueConcat(a: seq<Pending>, b: seq<Pending>, k: nat)
    ensures DueAt(a + b, k) == DueAt(a, k) + DueAt(b, k)
    ensures DueAfter(a + b, k) == DueAfter(a, k) + DueAfter(b, k)
  {
    if b == [] {
      assert a + b == a;
    } else {
      DueConcat(a, b[..|b|-1], k);
      assert (a + b)[..|a + b|-1] == a + b[..|b|-1];
    }
  }

  lemma {:induction false} ScheduledLater(w: seq<Request>, now: nat, k: nat)
    requires LegalRequests(w) && k <= now
    ensures DueAt(Scheduled(w, now), k) == [] && DueAfter(Scheduled(w, now), k) == Scheduled(w, now)
  {
    if w != [] {
      var init := w[..|w|-1];
      ScheduledLater(init, now, k);
      var s := Scheduled(init, now);
      var x := Pending(now + w[|w|-1].delay, w[|w|-1].event);
      assert (s + [x])[..|s|] == s;
    }
  }

  lemma {:induction false} DueAfterTwice(todo: seq<Pending>, j: nat, k: nat)
    requires j <= k
    ensures DueAfter(DueAfter(todo, j), k) == DueAfter(todo, k)
    ensures j < k ==> DueAt(DueAfter(todo, j), k) == DueAt(todo, k)
  {
    if todo != [] {
      var init, x := todo[..|todo|-1], todo[|todo|-1];
      DueAfterTwice(init, j, k);
      var d := DueAfter(init, j);
      if x.due > j {
        assert (d + [x])[..|d|] == d;
      } else {
        assert DueAfter(todo, j) == d;
      }
    }
  }

  /** The state of a run after `ops`: what is still to come and what each tick has dispatched. */
  ghost predicate Progress(ops: seq<Op>, now: nat, todo: seq<Pending>, batches: seq<seq<Event>>) {
    && now == Ticks(ops) == |batches|
    && todo == DueAfter(Requested(ops), now)
    && forall k :: 1 <= k <= now ==> batches[k-1] == DueAt(Requested(ops), k)
  }

  lemma ProgressAdd(ops: seq<Op>, r: Request, now: nat, todo: seq<Pending>, batches: seq<seq<Event>>)
    requires Progress(ops, now, todo, batches) && LegalDelay(r.delay)
    ensures Progress(ops + [Add(r)], now, todo + [Pending(now + r.delay, r.event)], batches)
  {
    assert (ops + [Add(r)])[..|ops|] == ops;
    RequestAdded(Requested(ops), r, now);
  }

  lemma ProgressUpdate(ops: seq<Op>, w: seq<Request>, now: nat, todo: seq<Pending>, batches: seq<seq<Event>>)
    requires Progress(ops, now, todo, batches) && LegalRequests(w)
    ensures Progress(ops + [Update(w)], now + 1, DueAfter(todo, now + 1) + Scheduled(w, now + 1),
                     batches + [DueAt(todo, now + 1)])
  {
    assert (ops + [Update(w)])[..|ops|] == ops;
    TickTaken(Requested(ops), w, now + 1);
  }

  /**
    Exact firing.  Over every run from a fresh wheel, the k-th tick dispatches exactly the requests
    whose delay has then elapsed exactly, each once, in the order they were made.
   */
  method Run(ops: seq<Op>) returns (batches: seq<seq<Event>>)
    requires LegalRun(ops)
    ensures |batches| == Ticks(ops)
    ensures forall k :: 1 <= k <= Ticks(ops) ==> batches[k-1] == DueAt(Requested(ops), k)
  {
    hide Represents, DueAt, DueAfter, Scheduled, Requested, Ticks, Progress, LegalRun;
    var timer := new Timer();
    batches := [];
    ProgressStart();
    for i := 0 to |ops|
      invariant timer.Valid() && fresh(timer)
      invariant Progress(ops[..i], timer.now, timer.todo, batches)
    {
      LegalAt(ops, i);
      match ops[i] {
        case Add(r) =>
          ProgressAdd(ops[..i], r, timer.now, timer.todo, batches);
          timer.TimerAdd(r);
        case Update(w) =>
          ProgressUpdate(ops[..i], w, timer.now, timer.todo, batches);
          ghost var before := timer.todo;
          var fired, late := timer.TimerUpdate(w);
          ServedLate(fired, w, timer.now);
          timer.ServeWindow(late);
          assert timer.todo == DueAfter(before, timer.now) + Scheduled(w, timer.now);
          batches := batches + [fired];
      }
      assert ops[..i+1] == ops[..i] + [ops[i]];
    }
    assert ops[..|ops|] == ops;
    ProgressMeans(ops, timer.now, timer.todo, batches);
  }

  lemma ProgressStart()
    ensures Progress([], 0, [], [])
  {
  }

  lemma ProgressMeans(ops: seq<Op>, now: nat, todo: seq<Pending>, batches: seq<seq<Event>>)
    requires Progress(ops, now, todo, batches)
    ensures |batches| == Ticks(ops)
    ensures forall k :: 1 <= k <= Ticks(ops) ==> batches[k-1] == DueAt(Requested(ops), k)
  {
  }

  lemma LegalAt(ops: seq<Op>, i: nat)
    requires LegalRun(ops) && i < |ops|
    ensures ops[i].Add? ==> LegalDelay(ops[i].req.delay)
    ensures ops[i].Update? ==> LegalRequests(ops[i].window)
    ensures LegalRequests([])
  {
    assert ops[i] in ops;
  }

  lemma ServedLate(fired: seq<Event>, w: seq<Request>, now: nat)
    ensures Scheduled([], now) == []
    ensures Scheduled(if fired == [] then [] else w, now) + Scheduled(if fired == [] then w else [], now)
            == Scheduled(w, now)
  {
  }

  lemma RequestAdded(before: seq<Pending>, r: Request, now: nat)
    requires LegalDelay(r.delay)
    ensures var x := [Pending(now + r.delay, r.event)];
      && DueAfter(before + x, now) == DueAfter(before, now) + x
      && forall k :: 1 <= k <= now ==> DueAt(before + x, k) == DueAt(before, k)
  {
    var x := [Pending(now + r.delay, r.event)];
    assert x[..0] == [];
    forall k | 0 <= k <= now
      ensures DueAfter(before + x, now) == DueAfter(before, now) + x
      ensures DueAt(before + x, k) == DueAt(before, k)
    {
      DueConcat(before, x, now);
      DueConcat(before, x, k);
    }
  }

  lemma TickTaken(before: seq<Pending>, w: seq<Request>, now: nat)
    requires LegalRequests(w) && now >= 1
    ensures DueAt(DueAfter(before, now - 1), now) == DueAt(before + Scheduled(w, now), now)
    ensures DueAfter(DueAfter(before, now - 1), now) + Scheduled(w, now) == DueAfter(before + Scheduled(w, now), now)
    ensures forall k :: 1 <= k <= now ==> DueAt(before + Scheduled(w, now), k) == DueAt(before, k)
  {
    DueAfterTwice(before, now - 1, now);
    forall k | 1 <= k <= now
      ensures DueAt(before + Scheduled(w, now), k) == DueAt(before, k)
      ensures DueAfter(before + Scheduled(w, now), now) == DueAfter(before, now) + Scheduled(w, now)
    {
      DueConcat(before, Scheduled(w, now), k);
      DueConcat(before, Scheduled(w, now), now);
      ScheduledLater(w, now, k);
      ScheduledLater(w, now, now);
    }
  }
}
