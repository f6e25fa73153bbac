/**
  The handle table and the name directory of skynet_handle.c: a power-of-two slot array indexed by the low bits
  of a handle, and an array of names kept in `strcmp` order.
 */
module Handle {

  import opened Prelude

  const HANDLE_MASK: nat := 0xffffff
  const SPACE: nat := 0x100_0000          // HANDLE_MASK + 1
  const DEFAULT_SLOT_SIZE: nat := 4
  const MAX_SLOT_SIZE: nat := 0x4000_0000

  datatype Context = Context(id: int, handle: nat)

  // ---------------------------------------------------------------- powers of two

  lemma Pow2Of24()
    ensures Pow(2, 24) == SPACE
  {
    assert Pow(2, 3) == 2 * Pow(2, 2) && Pow(2, 2) == 2 * Pow(2, 1) && Pow(2, 1) == 2 * Pow(2, 0);
    PowAdd(2, 3, 3);
    PowAdd(2, 6, 6);
    PowAdd(2, 12, 12);
  }

  /** Taking the low bits of the low bits. */
  lemma ModOfMod(a: nat, n: nat, m: nat)
    requires n > 0 && m > 0
    ensures n * m > 0 && (a % (n * m)) % n == a % n
  {
    assert n * m > 0;
    var q, r := a / (n * m), a % (n * m);
    assert a == q * (n * m) + r;
    assert q * (n * m) == (q * m) * n;
    ModAdd(r, q * m, n);
  }

  lemma ModAdd(r: int, k: int, n: nat)
    requires n > 0
    ensures (k * n + r) % n == r % n
  {
    var q, s := r / n, r % n;
    assert r == q * n + s;
    assert k * n + r == (k + q) * n + s by { assert (k + q) * n == k * n + q * n; }
    ModIs((k + q) * n + s, k + q, s, n);
  }

  lemma ModIs(a: int, q: int, s: nat, n: nat)
    requires n > 0 && s < n && a == q * n + s
    ensures a % n == s
  {
    var q', s' := a / n, a % n;
    assert (q - q') * n == s' - s;
    if q > q' {
      MulAtLeast(q - q', n);
    } else if q < q' {
      MulAtMost(q - q', n);
    }
  }

  lemma MulAtLeast(k: int, n: nat)
    requires k >= 1
    ensures k * n >= n
  {
  }

  lemma MulAtMost(k: int, n: nat)
    requires k <= -1
    ensures k * n <= -(n as int)
  {
  }

  /** The slot sizes that occur, all of which divide the handle space. */
  ghost predicate SlotSize(n: nat) {
    exists k: nat :: 2 <= k <= 24 && n == Pow(2, k)
  }

  lemma SlotSizeFacts(n: nat) returns (m: nat)
    requires SlotSize(n)
    ensures 0 < n && 0 < m && n * m == SPACE && n <= SPACE
  {
    var k: nat :| 2 <= k <= 24 && n == Pow(2, k);
    Pow2Of24();
    PowAdd(2, k, 24 - k);
    m := Pow(2, 24 - k);
    PowPositive(2, k);
    PowPositive(2, 24 - k);
    MulAtLeast(m, n);
  }

  lemma SlotSizeDouble(n: nat)
    requires SlotSize(n) && 2 * n - 1 <= HANDLE_MASK
    ensures SlotSize(2 * n)
  {
    var k: nat :| 2 <= k <= 24 && n == Pow(2, k);
    Pow2Of24();
    assert Pow(2, k + 1) == 2 * n;
  }

  // ---------------------------------------------------------------- slots

  /** Every context sits at its handle modulo the size; so no two have the same handle. */
  ghost predicate SlotsOk(slot: seq<Option<Context>>, harbor: nat) {
    && SlotSize(|slot|) && harbor % SPACE == 0
    && (forall i :: 0 <= i < |slot| && slot[i].Some? ==> Home(slot[i].value.handle, |slot|) == i)
    && (forall i :: 0 <= i < |slot| && slot[i].Some? ==> harbor <= slot[i].value.handle < harbor + SPACE)
  }

  function Home(handle: nat, n: nat): nat
    requires n > 0
    ensures Home(handle, n) < n
  {
    handle % n
  }

  /** Who has a handle. */
  function Holder(slot: seq<Option<Context>>, handle: nat): Option<Context>
    requires |slot| > 0
  {
    var c := slot[Home(handle, |slot|)];
    if c.Some? && c.value.handle == handle then c else None
  }

  ghost predicate AllTaken(slot: seq<Option<Context>>) {
    forall i :: 0 <= i < |slot| ==> slot[i].Some?
  }

  /** The handles that are tried from any start on reach every slot. */
  lemma EverySlotTried(index: nat, n: nat, r: nat) returns (i: nat)
    requires r < n
    ensures i < n && Home(index + i, n) == r
  {
    var s := index % n;
    i := if s <= r then r - s else r + n - s;
    var q := index / n;
    assert index == q * n + s;
    if s <= r {
      ModIs(index + i, q, r, n);
    } else {
      assert index + i == (q + 1) * n + r by { assert (q + 1) * n == q * n + n; }
      ModIs(index + i, q + 1, r, n);
    }
  }

  /** The j-th handle tried falls on a slot that is in use. */
  predicate TriedTaken(slot: seq<Option<Context>>, index: nat, j: nat)
    requires |slot| > 0
  {
    slot[Home(index + j, |slot|)].Some?
  }

  lemma MaskedHome(a: nat, harbor: nat, n: nat)
    requires SlotSize(n) && harbor % SPACE == 0
    ensures n > 0 && Home(a % SPACE, n) == Home(a, n) && Home(harbor + a % SPACE, n) == Home(a, n)
  {
    var m := SlotSizeFacts(n);
    ModOfMod(a, n, m);
    var q := harbor / SPACE;
    assert harbor == q * SPACE == (q * m) * n by {
      assert q * (n * m) == (q * m) * n;
    }
    ModAdd(a % SPACE, q * m, n);
  }

  /** Filling an empty slot at home: exactly one handle gets a new holder, and nobody had it. */
  lemma PlaceContext(slot: seq<Option<Context>>, harbor: nat, i: nat, ctx: Context)
    requires SlotsOk(slot, harbor) && i < |slot| && slot[i].None?
    requires |slot| > 0 && Home(ctx.handle, |slot|) == i && harbor <= ctx.handle < harbor + SPACE
    ensures SlotsOk(slot[i := Some(ctx)], harbor) && Holder(slot, ctx.handle).None?
    ensures forall h: nat :: Holder(slot[i := Some(ctx)], h) == if h == ctx.handle then Some(ctx) else Holder(slot, h)
  {
  }

  lemma RemoveContext(slot: seq<Option<Context>>, harbor: nat, handle: nat)
    requires SlotsOk(slot, harbor) && |slot| > 0 && Holder(slot, handle).Some?
    ensures SlotsOk(slot[Home(handle, |slot|) := None], harbor)
    ensures forall h: nat :: Holder(slot[Home(handle, |slot|) := None], h) == if h == handle then None else Holder(slot, h)
  {
  }

  // ---------------------------------------------------------------- which handle is given

  /** A handle in use has the same low bits, in an array of `n` slots. */
  ghost predicate Clashes(slot: seq<Option<Context>>, n: nat, handle: nat)
    requires |slot| > 0 && n > 0
  {
    exists c: nat :: Holder(slot, c).Some? && Home(c, n) == Home(handle, n)
  }

  /** The local handle `j` places after `index`, going round after the last. */
  function Nth(index: nat, j: nat): (h: nat)
    ensures h < SPACE
  {
    (index + j) % SPACE
  }

  /** The first handle from `index` on that does not clash comes after `tried` others. */
  ghost predicate Chosen(slot: seq<Option<Context>>, n: nat, harbor: nat, index: nat, tried: nat)
    requires |slot| > 0
  {
    && tried < n && !Clashes(slot, n, harbor + Nth(index, tried))
    && forall j :: 0 <= j < tried ==> Clashes(slot, n, harbor + Nth(index, j))
  }

  lemma SlotClash(slot: seq<Option<Context>>, harbor: nat, h: nat)
    requires SlotsOk(slot, harbor) && |slot| > 0
    ensures Clashes(slot, |slot|, h) <==> slot[Home(h, |slot|)].Some?
  {
    hide Home, SlotSize;
    var c := slot[Home(h, |slot|)];
    if c.Some? {
      assert Holder(slot, c.value.handle) == c;
    }
  }

  lemma SlotChosen(slot: seq<Option<Context>>, harbor: nat, index: nat, i: nat)
    requires SlotsOk(slot, harbor) && i < |slot| && slot[Home(index + i, |slot|)].None?
    requires forall j :: 0 <= j < i ==> TriedTaken(slot, index, j)
    ensures Chosen(slot, |slot|, harbor, index, i)
  {
    hide Home, SlotsOk, SlotSize, Clashes, Holder;
    ProbeFacts(slot, harbor);
    forall j: nat | j <= i
      ensures Clashes(slot, |slot|, harbor + Nth(index, j)) <==> TriedTaken(slot, index, j)
    {
      SlotClash(slot, harbor, harbor + Nth(index, j));
      MaskedHome(index + j, harbor, |slot|);
    }
  }

  /** Only the handles in use matter. */
  lemma SameChosen(a: seq<Option<Context>>, b: seq<Option<Context>>, n: nat, harbor: nat, index: nat, tried: nat)
    requires |a| > 0 && |b| > 0 && forall h: nat :: Holder(a, h) == Holder(b, h)
    ensures Chosen(a, n, harbor, index, tried) == Chosen(b, n, harbor, index, tried)
  {
    hide Holder, Home, Nth;
    if n > 0 {
      forall h
        ensures Clashes(a, n, h) == Clashes(b, n, h)
      {
      }
    }
  }

  /**
    `skynet_handle_init` starts at 1 to reserve handle 0, but the search goes round: 0 is given exactly when it
    is free and every handle from the index up to the last clashes.
   */
  lemma ZeroIsGiven(slot: seq<Option<Context>>, n: nat, harbor: nat, index: nat, tried: nat)
    requires |slot| > 0 && n <= SPACE && 1 <= index <= SPACE && Chosen(slot, n, harbor, index, tried)
    ensures Nth(index, tried) == 0 <==>
      !Clashes(slot, n, harbor) && forall h: nat :: harbor + index <= h < harbor + SPACE ==> Clashes(slot, n, h)
  {
    hide Clashes, Holder;
    if index + tried < SPACE {
      assert Nth(index, tried) == index + tried;
    } else if index + tried > SPACE {
      assert Nth(index, SPACE - index) == 0;
    } else {
      assert Nth(index, tried) == 0;
      forall h: nat | harbor + index <= h < harbor + SPACE
        ensures Clashes(slot, n, h)
      {
        assert Nth(index, h - harbor - index) == h - harbor;
      }
    }
  }

  // ---------------------------------------------------------------- doubling

  /** The first `i` contexts are in the new array, at home there. */
  ghost predicate Moved(slot: seq<Option<Context>>, grown: seq<Option<Context>>, i: nat) {
    && 0 < |slot| && |grown| == 2 * |slot| && i <= |slot| && AllTaken(slot)
    && (forall j :: 0 <= j < i ==> grown[Home(slot[j].value.handle, |grown|)] == slot[j])
    && (forall h :: 0 <= h < |grown| && grown[h].Some? ==>
          Home(grown[h].value.handle, |grown|) == h && Home(grown[h].value.handle, |slot|) < i
          && grown[h] == slot[Home(grown[h].value.handle, |slot|)])
  }

  lemma HomeOfHome(h: nat, n: nat)
    requires n > 0
    ensures Home(Home(h, 2 * n), n) == Home(h, n)
  {
    ModOfMod(h, n, 2);
  }

  /** No collision: what the assertion in the source demands, and what the step achieves. */
  lemma MoveOne(slot: seq<Option<Context>>, harbor: nat, grown: seq<Option<Context>>, i: nat)
    requires SlotsOk(slot, harbor) && Moved(slot, grown, i) && i < |slot|
    ensures grown[Home(slot[i].value.handle, |grown|)].None?
    ensures Moved(slot, grown[Home(slot[i].value.handle, |grown|) := slot[i]], i + 1)
  {
    hide Home;
    var h := Home(slot[i].value.handle, |grown|);
    assert Home(slot[i].value.handle, |slot|) == i;
    HomeOfHome(slot[i].value.handle, |slot|);
    if grown[h].Some? {
      HomeOfHome(grown[h].value.handle, |slot|);
      assert false;
    }
  }

  lemma AllMoved(slot: seq<Option<Context>>, harbor: nat, grown: seq<Option<Context>>)
    requires SlotsOk(slot, harbor) && Moved(slot, grown, |slot|) && 2 * |slot| - 1 <= HANDLE_MASK
    ensures SlotsOk(grown, harbor) && forall h: nat :: Holder(grown, h) == Holder(slot, h)
  {
    SlotSizeDouble(|slot|);
    forall h: nat
      ensures Holder(grown, h) == Holder(slot, h)
    {
      SameHolder(slot, harbor, grown, h);
    }
  }

  lemma SameHolder(slot: seq<Option<Context>>, harbor: nat, grown: seq<Option<Context>>, h: nat)
    requires SlotsOk(slot, harbor) && Moved(slot, grown, |slot|)
    ensures Holder(grown, h) == Holder(slot, h)
  {
    hide Home;
    var g := grown[Home(h, |grown|)];
    var c := slot[Home(h, |slot|)];
    if c.value.handle == h {
      assert grown[Home(slot[Home(h, |slot|)].value.handle, |grown|)] == c;
    }
  }

  /** The new array is not full: the upper half of the first context's pair is free. */
  lemma DoubledHasRoom(slot: seq<Option<Context>>, harbor: nat, grown: seq<Option<Context>>)
    requires SlotsOk(slot, harbor) && Moved(slot, grown, |slot|)
    ensures !AllTaken(grown)
  {
    hide Home;
    var n := |slot|;
    if AllTaken(grown) {
      assert grown[0].Some? && grown[n].Some?;
      HomeOfHome(grown[0].value.handle, n);
      HomeOfHome(grown[n].value.handle, n);
      Halves(n);
    }
  }

  lemma Halves(n: nat)
    requires n > 0
    ensures Home(0, n) == Home(n, n)
  {
    ModIs(n, 1, 0, n);
    ModIs(0, 0, 0, n);
  }

  // ---------------------------------------------------------------- names

  /** `strcmp` on strings without their terminating zero. */
  function Strcmp(a: seq<nat>, b: seq<nat>): int {
    if a == [] then (if b == [] then 0 else -1)
    else if b == [] then 1
    else if a[0] != b[0] then a[0] - b[0]
    else Strcmp(a[1..], b[1..])
  }

  lemma {:induction false} StrcmpZero(a: seq<nat>, b: seq<nat>)
    ensures Strcmp(a, b) == 0 <==> a == b
  {
    if a != [] && b != [] && a[0] == b[0] {
      StrcmpZero(a[1..], b[1..]);
      assert a == [a[0]] + a[1..] && b == [b[0]] + b[1..];
    }
  }

  lemma {:induction false} StrcmpOpposite(a: seq<nat>, b: seq<nat>)
    ensures Strcmp(a, b) < 0 <==> Strcmp(b, a) > 0
  {
    if a != [] && b != [] && a[0] == b[0] {
      StrcmpOpposite(a[1..], b[1..]);
    }
  }

  lemma {:induction false} StrcmpTransitive(a: seq<nat>, b: seq<nat>, c: seq<nat>)
    requires Strcmp(a, b) < 0 && Strcmp(b, c) < 0
    ensures Strcmp(a, c) < 0
  {
    if a != [] && b != [] && c != [] && a[0] == b[0] == c[0] {
      StrcmpTransitive(a[1..], b[1..], c[1..]);
    }
  }

  datatype Name = Name(name: seq<nat>, handle: nat)

  /** Strictly ascending, hence without duplicates. */
  ghost predicate Sorted(ns: seq<Name>) {
    forall i, j :: 0 <= i < j < |ns| ==> Strcmp(ns[i].name, ns[j].name) < 0
  }

  /** The directory as a finite map: the handle of a name. */
  ghost function Directory(ns: seq<Name>): map<seq<nat>, nat> {
    if ns == [] then map[] else Directory(ns[..|ns| - 1])[ns[|ns| - 1].name := ns[|ns| - 1].handle]
  }

  lemma {:induction false} DirectoryAt(ns: seq<Name>, i: nat)
    requires Sorted(ns) && i < |ns|
    ensures ns[i].name in Directory(ns) && Directory(ns)[ns[i].name] == ns[i].handle
  {
    var n := |ns| - 1;
    if i < n {
      DirectoryAt(ns[..n], i);
      StrcmpZero(ns[i].name, ns[n].name);
    }
  }

  lemma {:induction false} DirectoryOnly(ns: seq<Name>, name: seq<nat>)
    ensures name in Directory(ns) <==> exists i :: 0 <= i < |ns| && ns[i].name == name
  {
    if ns != [] {
      var n := |ns| - 1;
      DirectoryOnly(ns[..n], name);
      if i :| 0 <= i < |ns| && ns[i].name == name {
        if i < n {
          assert ns[..n][i].name == name;
        }
      }
    }
  }

  /** A sorted list with the entries of a map is that map. */
  lemma SameDirectory(ns: seq<Name>, m: map<seq<nat>, nat>)
    requires Sorted(ns)
    requires forall i :: 0 <= i < |ns| ==> ns[i].name in m && m[ns[i].name] == ns[i].handle
    requires forall x :: x in m ==> exists i :: 0 <= i < |ns| && ns[i].name == x
    ensures Directory(ns) == m
  {
    forall x
      ensures x in Directory(ns) <==> x in m
      ensures x in m ==> x in Directory(ns) && Directory(ns)[x] == m[x]
    {
      DirectoryOnly(ns, x);
      if x in m {
        var i :| 0 <= i < |ns| && ns[i].name == x;
        DirectoryAt(ns, i);
      }
    }
  }

  /** Where the two halves of a search interval stand relative to the name. */
  ghost predicate Between(ns: seq<Name>, name: seq<nat>, begin: nat, end: int) {
    && begin <= end + 1 <= |ns|
    && (forall i :: 0 <= i < begin ==> Strcmp(ns[i].name, name) < 0)
    && (forall i :: end < i < |ns| ==> Strcmp(ns[i].name, name) > 0)
  }

  lemma NarrowUp(ns: seq<Name>, name: seq<nat>, begin: nat, end: int, mid: nat)
    requires Sorted(ns) && Between(ns, name, begin, end) && begin <= mid <= end && Strcmp(ns[mid].name, name) < 0
    ensures Between(ns, name, mid + 1, end)
  {
    hide Strcmp;
    forall i | 0 <= i < mid
      ensures Strcmp(ns[i].name, name) < 0
    {
      StrcmpTransitive(ns[i].name, ns[mid].name, name);
    }
  }

  lemma NarrowDown(ns: seq<Name>, name: seq<nat>, begin: nat, end: int, mid: nat)
    requires Sorted(ns) && Between(ns, name, begin, end) && begin <= mid <= end && Strcmp(ns[mid].name, name) > 0
    ensures Between(ns, name, begin, mid - 1)
  {
    hide Strcmp;
    StrcmpOpposite(name, ns[mid].name);
    forall i | mid < i < |ns|
      ensures Strcmp(ns[i].name, name) > 0
    {
      StrcmpTransitive(name, ns[mid].name, ns[i].name);
      StrcmpOpposite(name, ns[i].name);
    }
  }

  lemma NotThere(ns: seq<Name>, name: seq<nat>, begin: nat, end: int)
    requires Between(ns, name, begin, end) && begin > end
    ensures name !in Directory(ns)
  {
    DirectoryOnly(ns, name);
    StrcmpZero(name, name);
  }

  lemma InsertedSorted(ns: seq<Name>, name: seq<nat>, handle: nat, at: nat)
    requires Sorted(ns) && Between(ns, name, at, at - 1)
    ensures Sorted(ns[..at] + [Name(name, handle)] + ns[at..])
  {
    hide Strcmp;
    var ns' := ns[..at] + [Name(name, handle)] + ns[at..];
    forall i, j | 0 <= i < j < |ns'|
      ensures Strcmp(ns'[i].name, ns'[j].name) < 0
    {
      if i == at {
        StrcmpOpposite(name, ns[j - 1].name);
      }
    }
  }

  lemma Inserted(ns: seq<Name>, name: seq<nat>, handle: nat, at: nat)
    requires Sorted(ns) && Between(ns, name, at, at - 1)
    ensures Sorted(ns[..at] + [Name(name, handle)] + ns[at..])
    ensures Directory(ns[..at] + [Name(name, handle)] + ns[at..]) == Directory(ns)[name := handle]
  {
    hide Strcmp, Directory;
    var ns' := ns[..at] + [Name(name, handle)] + ns[at..];
    InsertedSorted(ns, name, handle, at);
    NotThere(ns, name, at, at - 1);
    var m := Directory(ns)[name := handle];
    forall i | 0 <= i < |ns'|
      ensures ns'[i].name in m && m[ns'[i].name] == ns'[i].handle
    {
      if i != at {
        DirectoryAt(ns, if i < at then i else i - 1);
      }
    }
    forall x | x in m
      ensures exists i :: 0 <= i < |ns'| && ns'[i].name == x
    {
      DirectoryOnly(ns, x);
      if x == name {
        assert ns'[at].name == x;
      } else {
        var i :| 0 <= i < |ns| && ns[i].name == x;
        assert ns'[if i < at then i else i + 1].name == x;
      }
    }
    SameDirectory(ns', m);
  }

  /** The entries that do not belong to `handle`, in order. */
  function Without(ns: seq<Name>, handle: nat): seq<Name> {
    if ns == [] then []
    else Without(ns[..|ns| - 1], handle) + (if ns[|ns| - 1].handle == handle then [] else [ns[|ns| - 1]])
  }

  lemma {:induction false} WithoutFrom(ns: seq<Name>, handle: nat, j: nat) returns (i: nat)
    requires j < |Without(ns, handle)|
    ensures i < |ns| && Without(ns, handle)[j] == ns[i] && ns[i].handle != handle
  {
    var n := |ns| - 1;
    if j < |Without(ns[..n], handle)| {
      i := WithoutFrom(ns[..n], handle, j);
    } else {
      i := n;
    }
  }

  lemma {:induction false} WithoutSorted(ns: seq<Name>, handle: nat)
    requires Sorted(ns)
    ensures Sorted(Without(ns, handle))
  {
    if ns != [] {
      var n := |ns| - 1;
      WithoutSorted(ns[..n], handle);
      var w := Without(ns[..n], handle);
      forall j | 0 <= j < |w|
        ensures Strcmp(w[j].name, ns[n].name) < 0
      {
        var i := WithoutFrom(ns[..n], handle, j);
      }
    }
  }

  lemma LastIsNew(ns: seq<Name>)
    requires Sorted(ns) && ns != []
    ensures ns[|ns| - 1].name !in Directory(ns[..|ns| - 1])
  {
    hide Strcmp;
    var n := |ns| - 1;
    DirectoryOnly(ns[..n], ns[n].name);
    StrcmpZero(ns[n].name, ns[n].name);
  }

  /** Removing a handle's entries removes exactly its names from the directory. */
  lemma {:induction false} WithoutDirectory(ns: seq<Name>, handle: nat)
    requires Sorted(ns)
    ensures Directory(Without(ns, handle)) == map x | x in Directory(ns) && Directory(ns)[x] != handle :: Directory(ns)[x]
  {
    if ns != [] {
      var n := |ns| - 1;
      var w := Without(ns[..n], handle);
      WithoutDirectory(ns[..n], handle);
      LastIsNew(ns);
      if ns[n].handle != handle {
        assert (w + [ns[n]])[..|w|] == w;
      } else {
        assert w + [] == w;
      }
    }
  }

  // ---------------------------------------------------------------- struct handle_storage

  datatype NameResult = Taken | Added | OutOfRoom

  class Storage {
    const harbor: nat
    var handleIndex: nat
    var slot: seq<Option<Context>>
    var name: seq<Name>             // `name_cap` entries
    var nameCount: nat

    ghost predicate Valid() reads this {
      && SlotsOk(slot, harbor) && 0 < |slot| && 1 <= handleIndex <= SPACE
      && nameCount <= |name| && 0 < |name| && Sorted(name[..nameCount])
    }

    ghost function Names(): map<seq<nat>, nat> requires Valid() reads this { Directory(name[..nameCount]) }

    /** `skynet_handle_init`. */
    constructor (harborId: nat)
      requires harborId < 256
      ensures Valid() && Names() == map[] && forall h: nat :: Holder(slot, h).None?
      ensures harbor == harborId * SPACE && handleIndex == 1
    {
      harbor := harborId * SPACE;
      handleIndex := 1;
      slot := seq(DEFAULT_SLOT_SIZE, _ => None);
      name := seq(2, _ => Name([], 0));
      nameCount := 0;
      new;
      assert Pow(2, 2) == 2 * Pow(2, 1) && Pow(2, 1) == 2 * Pow(2, 0);
      assert SlotSize(4);
    }

    /**
      `skynet_handle_register`: the first handle from the index on that does not clash, after `tried` others, and
      the index moves past it; at most one doubling; None is the failing assertion when all 2^24 handles are in use.
     */
    method Register(id: int) returns (handle: Option<nat>, ghost tried: nat)
      requires Valid()
      modifies this`slot, this`handleIndex
      ensures Valid()
      ensures handle.Some? ==>
        && Chosen(old(slot), |slot|, harbor, old(handleIndex), tried)
        && handle.value == harbor + Nth(old(handleIndex), tried) && handleIndex == Nth(old(handleIndex), tried) + 1
      ensures handle.None? ==> handleIndex == old(handleIndex)
      ensures handle.Some? ==> harbor <= handle.value < harbor + SPACE && old(Holder(slot, handle.value)).None?
      ensures forall h: nat ::
        Holder(slot, h) == if handle == Some(h) then Some(Context(id, h)) else old(Holder(slot, h))
      ensures handle.None? <==> old(AllTaken(slot) && |slot| == SPACE)
      ensures |slot| == old(if AllTaken(slot) && |slot| < SPACE then 2 * |slot| else |slot|)
    {
      hide Home, SlotsOk, Moved, SlotSize, Sorted, Chosen, Nth;
      while true
        invariant Valid() && nameCount == old(nameCount) && name == old(name) && handleIndex == old(handleIndex)
        invariant forall h: nat :: Holder(slot, h) == old(Holder(slot, h))
        invariant slot == old(slot) || (old(AllTaken(slot)) && |slot| == 2 * |old(slot)| && |old(slot)| < SPACE && !AllTaken(slot))
        decreases AllTaken(slot)
      {
        ghost var before := slot;
        handle, tried := Probe(id);
        if handle.Some? {
          SameChosen(old(slot), before, |slot|, harbor, old(handleIndex), tried);
          return;
        }
        SizesFit(slot, harbor);
        if 2 * |slot| - 1 > HANDLE_MASK {
          return None, 0;
        }
        Grow();
      }
    }

    /** The inner loop: the first free slot, starting at `handle_index`. */
    method Probe(id: int) returns (handle: Option<nat>, ghost tried: nat)
      requires Valid()
      modifies this`slot, this`handleIndex
      ensures Valid() && |slot| == |old(slot)|
      ensures handle.Some? ==>
        && Chosen(old(slot), |slot|, harbor, old(handleIndex), tried)
        && handle.value == harbor + Nth(old(handleIndex), tried) && handleIndex == Nth(old(handleIndex), tried) + 1
      ensures handle.None? ==> handleIndex == old(handleIndex)
      ensures handle.Some? ==> harbor <= handle.value < harbor + SPACE && old(Holder(slot, handle.value)).None?
      ensures forall h: nat ::
        Holder(slot, h) == if handle == Some(h) then Some(Context(id, h)) else old(Holder(slot, h))
      ensures handle.None? <==> old(AllTaken(slot))
      ensures handle.None? ==> slot == old(slot)
    {
      hide Home, SlotsOk, SlotSize, Sorted, Holder, Chosen;
      ProbeFacts(slot, harbor);
      var i := 0;
      while i < |slot|
        invariant 0 <= i <= |slot| && slot == old(slot) && handleIndex == old(handleIndex) && Valid()
        invariant forall j :: 0 <= j < i ==> TriedTaken(slot, handleIndex, j)
      {
        var h := (handleIndex + i) % SPACE;
        MaskedHome(handleIndex + i, harbor, |slot|);
        var hash := Home(h, |slot|);
        if slot[hash].None? {
          var ctx := Context(id, harbor + h);
          SlotChosen(slot, harbor, handleIndex, i);
          PlaceContext(slot, harbor, hash, ctx);
          slot := slot[hash := Some(ctx)];
          handleIndex := h + 1;
          return Some(harbor + h), i;
        }
        i := i + 1;
      }
      forall r | 0 <= r < |slot|
        ensures slot[r].Some?
      {
        var j := EverySlotTried(handleIndex, |slot|, r);
        assert TriedTaken(slot, handleIndex, j);
      }
      handle, tried := None, 0;
    }

    /** The doubling of the slot array; the assertion `new_slot[hash] == NULL` never fails. */
    method Grow()
      requires Valid() && AllTaken(slot) && 2 * |slot| - 1 <= HANDLE_MASK
      modifies this`slot
      ensures Valid() && |slot| == 2 * |old(slot)| && !AllTaken(slot)
      ensures forall h: nat :: Holder(slot, h) == old(Holder(slot, h))
    {
      hide Home, SlotsOk, Moved, SlotSize, Sorted, Holder;
      var grown: seq<Option<Context>> := seq(2 * |slot|, _ => None);
      NothingMoved(slot, grown);
      var i := 0;
      while i < |slot|
        invariant 0 <= i <= |slot| && slot == old(slot) && nameCount == old(nameCount) && name == old(name) && Valid()
        invariant |grown| == 2 * |slot| && Moved(slot, grown, i)
      {
        MoveOne(slot, harbor, grown, i);
        var hash := Home(slot[i].value.handle, 2 * |slot|);
        assert grown[hash].None?;
        grown := grown[hash := slot[i]];
        i := i + 1;
      }
      AllMoved(slot, harbor, grown);
      DoubledHasRoom(slot, harbor, grown);
      slot := grown;
    }

    /** `skynet_handle_grab`. */
    method Grab(handle: nat) returns (ctx: Option<Context>)
      requires Valid()
      ensures ctx == Holder(slot, handle)
      ensures ctx.Some? ==> ctx.value.handle == handle
    {
      ctx := slot[Home(handle, |slot|)];
      if !(ctx.Some? && ctx.value.handle == handle) {
        ctx := None;
      }
    }

    /** `skynet_handle_retire`: the handle and all its names go, nothing else. */
    method Retire(handle: nat) returns (ret: bool)
      requires Valid()
      modifies this`slot, this`name, this`nameCount
      ensures Valid() && |slot| == |old(slot)| && ret == old(Holder(slot, handle)).Some?
      ensures forall h: nat :: Holder(slot, h) == if h == handle then None else old(Holder(slot, h))
      ensures ret ==> Names() == (map x | x in old(Names()) && old(Names())[x] != handle :: old(Names())[x])
      ensures !ret ==> Names() == old(Names())
    {
      hide Home, SlotsOk, SlotSize, Sorted, Directory;
      var ctx := Grab(handle);
      ret := ctx.Some?;
      if ret {
        RemoveContext(slot, harbor, handle);
        slot := slot[Home(handle, |slot|) := None];
        WithoutSorted(name[..nameCount], handle);
        WithoutDirectory(name[..nameCount], handle);
        DropNames(handle);
      }
    }

    /** The compaction loop of `skynet_handle_retire`. */
    method DropNames(handle: nat)
      requires nameCount <= |name|
      modifies this`name, this`nameCount
      ensures nameCount <= |name| == |old(name)| && name[..nameCount] == Without(old(name[..nameCount]), handle)
    {
      hide Sorted, SlotsOk, Dropped, Without;
      ghost var ns := name[..nameCount];
      var i, j, n := 0, 0, nameCount;
      DropStart(ns, name, handle);
      while i < n
        invariant 0 <= j <= i <= n == old(nameCount) == nameCount <= |name| == |old(name)|
        invariant Dropped(ns, name, i, j, handle)
      {
        DropStep(ns, name, i, j, handle);
        if name[i].handle != handle {
          if i != j {
            name := name[j := name[i]];
          }
          j := j + 1;
        }
        i := i + 1;
      }
      DropEnd(ns, name, j, handle);
      nameCount := j;
    }

    /** Binary search: the position of `key`, or where it belongs. */
    method Search(key: seq<nat>) returns (found: bool, at: nat)
      requires Valid()
      ensures found ==> at < nameCount && name[at].name == key
      ensures !found ==> Between(name[..nameCount], key, at, at - 1)
    {
      hide Strcmp, SlotsOk;
      var begin: nat, end: int := 0, nameCount - 1;
      while begin <= end
        invariant Between(name[..nameCount], key, begin, end)
        decreases end - begin + 1
      {
        var mid := (begin + end) / 2;
        var c := Strcmp(name[mid].name, key);
        StrcmpZero(name[mid].name, key);
        if c == 0 {
          return true, mid;
        }
        if c < 0 {
          NarrowUp(name[..nameCount], key, begin, end, mid);
          begin := mid + 1;
        } else {
          NarrowDown(name[..nameCount], key, begin, end, mid);
          end := mid - 1;
        }
      }
      return false, begin;
    }

    /** `skynet_handle_findname`: 0 for an unknown name. */
    method FindName(key: seq<nat>) returns (handle: nat)
      requires Valid()
      ensures handle == if key in Names() then Names()[key] else 0
    {
      hide Strcmp, SlotsOk, Directory;
      var found, at := Search(key);
      if found {
        DirectoryAt(name[..nameCount], at);
        handle := name[at].handle;
      } else {
        NotThere(name[..nameCount], key, at, at as int - 1);
        handle := 0;
      }
    }

    /** `_insert_name`: a name is given once; `OutOfRoom` is the failing assertion on the capacity. */
    method InsertName(key: seq<nat>, handle: nat) returns (r: NameResult)
      requires Valid()
      modifies this`name, this`nameCount
      ensures Valid()
      ensures r.Taken? <==> key in old(Names())
      ensures r.Added? ==> Names() == old(Names())[key := handle]
      ensures !r.Added? ==> Names() == old(Names())
      ensures r.OutOfRoom? <==>
        key !in old(Names()) && old(nameCount == |name| && 2 * |name| > MAX_SLOT_SIZE)
    {
      hide Strcmp, SlotsOk, Directory, Sorted;
      var found, at := Search(key);
      if found {
        DirectoryAt(name[..nameCount], at);
        return Taken;
      }
      NotThere(name[..nameCount], key, at, at as int - 1);
      Inserted(name[..nameCount], key, handle, at);
      if nameCount >= |name| && 2 * |name| > MAX_SLOT_SIZE {
        return OutOfRoom;
      }
      BetweenBound(name[..nameCount], key, at);
      InsertBefore(key, handle, at);
      r := Added;
    }

    /** `_insert_name_before`: into a larger array, or by shifting in place. */
    method InsertBefore(key: seq<nat>, handle: nat, before: nat)
      requires nameCount <= |name| && before <= nameCount && 0 < |name|
      modifies this`name, this`nameCount
      ensures nameCount == old(nameCount) + 1 <= |name|
      ensures |name| == old(if nameCount == |name| then 2 * |name| else |name|)
      ensures name[..nameCount] == old(name[..nameCount])[..before] + [Name(key, handle)] + old(name[..nameCount])[before..]
    {
      ghost var ns := name[..nameCount];
      if nameCount >= |name| {
        CopyApart(before);
      } else {
        ShiftUp(before);
      }
      Splice(ns, name, before, Name(key, handle));
      name := name[before := Name(key, handle)];
      nameCount := nameCount + 1;
    }

    method CopyApart(before: nat)
      requires nameCount <= |name| && before <= nameCount && 0 < |name|
      modifies this`name
      ensures |name| == 2 * |old(name)| && Gap(old(name[..nameCount]), name, before)
    {
      ghost var ns := name[..nameCount];
      var n := seq(2 * |name|, _ => Name([], 0));
      var i := 0;
      while i < before
        invariant 0 <= i <= before && |n| == 2 * |name| && name == old(name)
        invariant forall t :: 0 <= t < i ==> n[t] == ns[t]
      {
        n := n[i := name[i]];
        i := i + 1;
      }
      while i < nameCount
        invariant before <= i <= nameCount && |n| == 2 * |name| && name == old(name)
        invariant forall t :: 0 <= t < before ==> n[t] == ns[t]
        invariant forall t :: before < t <= i ==> n[t] == ns[t - 1]
      {
        n := n[i + 1 := name[i]];
        i := i + 1;
      }
      name := n;
    }

    method ShiftUp(before: nat)
      requires before <= nameCount < |name|
      modifies this`name
      ensures |name| == |old(name)| && Gap(old(name[..nameCount]), name, before)
    {
      ghost var ns := name[..nameCount];
      var i := nameCount;
      while i > before
        invariant before <= i <= nameCount && |name| == |old(name)|
        invariant forall t :: 0 <= t < i ==> name[t] == ns[t]
        invariant forall t :: i < t <= nameCount ==> name[t] == ns[t - 1]
      {
        name := name[i := name[i - 1]];
        i := i - 1;
      }
    }
  }

  // ---------------------------------------------------------------- a run

  datatype Op = Start(id: int) | Stop(handle: nat)

  /** The places in the round of the handles given, counted on without going round; the next try is at `next`. */
  ghost predicate Rising(round: seq<nat>, next: nat, size: nat) {
    && (forall k :: 0 <= k < |round| ==> round[k] >= 1)
    && (forall i, j :: 0 <= i < j < |round| ==> round[i] < round[j] <= round[i] + (j - i) * size)
    && next == (if round == [] then 1 else round[|round| - 1] + 1)
  }

  lemma RisingNext(round: seq<nat>, next: nat, size: nat, tried: nat)
    requires Rising(round, next, size) && tried < size
    ensures Rising(round + [next + tried], next + tried + 1, size)
  {
    var n := |round|;
    forall i | 0 <= i < n
      ensures round[i] < next + tried <= round[i] + (n - i) * size
    {
      assert (n - i) * size == (n - 1 - i) * size + size;
      if i < n - 1 {
        assert round[i] < round[n - 1] <= round[i] + (n - 1 - i) * size;
      }
    }
  }

  lemma RisingWider(round: seq<nat>, next: nat, size: nat, wider: nat)
    requires Rising(round, next, size) && size <= wider
    ensures Rising(round, next, wider)
  {
    forall i, j | 0 <= i < j < |round|
      ensures round[j] <= round[i] + (j - i) * wider
    {
      MulMonotone(j - i, size, wider);
    }
  }

  lemma MulMonotone(k: nat, a: nat, b: nat)
    requires a <= b
    ensures k * a <= k * b
  {
  }

  /** Places with the same handle are a whole round apart. */
  lemma SameAfterRound(a: nat, b: nat, gap: nat)
    requires a < b <= a + gap && a % SPACE == b % SPACE
    ensures b - a >= SPACE && gap >= SPACE
  {
  }

  /** The index after a handle has been given. */
  lemma PlaceOf(next: nat, tried: nat)
    requires next >= 1
    ensures Nth((next - 1) % SPACE + 1, tried) == (next + tried) % SPACE
  {
    var q := (next - 1) / SPACE;
    assert next - 1 == q * SPACE + (next - 1) % SPACE;
    ModAdd((next - 1) % SPACE + 1 + tried, q, SPACE);
  }

  lemma ChosenSoon(slot: seq<Option<Context>>, n: nat, harbor: nat, index: nat, tried: nat)
    requires |slot| > 0 && Chosen(slot, n, harbor, index, tried)
    ensures tried < n
  {
  }

  /**
    Services started and stopped in any order: a handle comes again only after the index has gone round all 2^24
    local handles, so not before 2^24 / `size` services more have been started.
   */
  method Serve(harborId: nat, ops: seq<Op>) returns (handles: seq<nat>, size: nat, ghost round: seq<nat>)
    requires harborId < 256
    ensures |round| == |handles| <= |ops|
    ensures forall k :: 0 <= k < |handles| ==> handles[k] == harborId * SPACE + round[k] % SPACE
    ensures forall i, j :: 0 <= i < j < |handles| ==> 1 <= round[i] < round[j] <= round[i] + (j - i) * size
    ensures forall i, j :: 0 <= i < j < |handles| && handles[i] == handles[j] ==>
      round[j] - round[i] >= SPACE && (j - i) * size >= SPACE
  {
    hide Rising, Chosen, Nth, Holder;
    var s := new Storage(harborId);
    handles, round := [], [];
    ghost var next: nat := 1;
    assert Rising(round, next, |s.slot|) by { NoneGiven(|s.slot|); }
    for k := 0 to |ops|
      invariant s.Valid() && fresh(s) && s.harbor == harborId * SPACE && |round| == |handles| <= k
      invariant Rising(round, next, |s.slot|) && next >= 1 && s.handleIndex == (next - 1) % SPACE + 1
      invariant forall i :: 0 <= i < |handles| ==> handles[i] == harborId * SPACE + round[i] % SPACE
    {
      match ops[k] {
        case Start(id) =>
          ghost var slot, index := s.slot, s.handleIndex;
          var handle: Option<nat>;
          ghost var tried;
          handle, tried := s.Register(id);
          RisingWider(round, next, |slot|, |s.slot|);
          if handle.Some? {
            PlaceOf(next, tried);
            ChosenSoon(slot, |s.slot|, s.harbor, index, tried);
            RisingNext(round, next, |s.slot|, tried);
            handles, round, next := handles + [handle.value], round + [next + tried], next + tried + 1;
          }
        case Stop(handle) =>
          var _ := s.Retire(handle);
      }
    }
    size := |s.slot|;
    RisingApart(harborId, handles, round, next, size);
  }

  lemma NoneGiven(size: nat)
    ensures Rising([], 1, size)
  {
  }

  lemma RisingApart(harborId: nat, handles: seq<nat>, round: seq<nat>, next: nat, size: nat)
    requires Rising(round, next, size) && |round| == |handles|
    requires forall i :: 0 <= i < |handles| ==> handles[i] == harborId * SPACE + round[i] % SPACE
    ensures forall i, j :: 0 <= i < j < |handles| ==> 1 <= round[i] < round[j] <= round[i] + (j - i) * size
    ensures forall i, j :: 0 <= i < j < |handles| && handles[i] == handles[j] ==>
      round[j] - round[i] >= SPACE && (j - i) * size >= SPACE
  {
    forall i, j | 0 <= i < j < |handles| && handles[i] == handles[j]
      ensures round[j] - round[i] >= SPACE && (j - i) * size >= SPACE
    {
      assert round[i] < round[j] <= round[i] + (j - i) * size;
      SameAfterRound(round[i], round[j], (j - i) * size);
    }
  }

  /** After 2^24 - 1 services started and stopped one by one, the next is given the reserved local handle 0. */
  method GoesRound(harborId: nat) returns (handle: Option<nat>)
    requires harborId < 256
    ensures handle == Some(harborId * SPACE)
  {
    hide Chosen, Holder;
    var s := new Storage(harborId);
    for k := 1 to SPACE
      invariant s.Valid() && fresh(s) && s.harbor == harborId * SPACE && s.handleIndex == k
      invariant forall h: nat :: Holder(s.slot, h).None?
    {
      handle := StartOne(s);
      var _ := s.Retire(handle.value);
    }
    handle := StartOne(s);
  }

  /** With nothing in use the index is the next handle. */
  method StartOne(s: Storage) returns (handle: Option<nat>)
    requires s.Valid() && forall h: nat :: Holder(s.slot, h).None?
    modifies s`slot, s`handleIndex
    ensures s.Valid() && handle == Some(s.harbor + old(s.handleIndex) % SPACE)
    ensures s.handleIndex == old(s.handleIndex) % SPACE + 1
    ensures forall h: nat :: Holder(s.slot, h).Some? <==> handle == Some(h)
  {
    hide Chosen, Holder;
    ghost var slot, index := s.slot, s.handleIndex;
    NotAllTaken(slot, s.harbor);
    ghost var tried;
    handle, tried := s.Register(0);
    FirstChosen(slot, |s.slot|, s.harbor, index, tried);
  }

  lemma NotAllTaken(slot: seq<Option<Context>>, harbor: nat)
    requires SlotsOk(slot, harbor) && |slot| > 0 && forall h: nat :: Holder(slot, h).None?
    ensures !AllTaken(slot)
  {
    var h := if slot[0].Some? then slot[0].value.handle else 0;
    assert Holder(slot, h).None?;
  }

  lemma FirstChosen(slot: seq<Option<Context>>, n: nat, harbor: nat, index: nat, tried: nat)
    requires |slot| > 0 && Chosen(slot, n, harbor, index, tried) && forall h: nat :: Holder(slot, h).None?
    ensures tried == 0
  {
    hide Holder;
    assert !Clashes(slot, n, harbor + Nth(index, 0));
  }

  /** The first `i` of the entries `ns` have been compacted into `j`. */
  predicate Dropped(ns: seq<Name>, name: seq<Name>, i: nat, j: nat, handle: nat) {
    && j <= i <= |ns| <= |name| && name[..j] == Without(ns[..i], handle)
    && forall t :: i <= t < |ns| ==> name[t] == ns[t]
  }

  lemma DropStart(ns: seq<Name>, name: seq<Name>, handle: nat)
    requires |ns| <= |name| && ns == name[..|ns|]
    ensures Dropped(ns, name, 0, 0, handle)
  {
  }

  lemma DropStep(ns: seq<Name>, name: seq<Name>, i: nat, j: nat, handle: nat)
    requires Dropped(ns, name, i, j, handle) && i < |ns|
    ensures name[i].handle == handle ==> Dropped(ns, name, i + 1, j, handle)
    ensures name[i].handle != handle ==> Dropped(ns, name[j := name[i]], i + 1, j + 1, handle)
    ensures i == j ==> name[j := name[i]] == name
  {
    assert ns[..i + 1][..i] == ns[..i];
    if name[i].handle != handle {
      assert name[j := name[i]][..j + 1] == name[..j] + [name[i]];
    }
  }

  lemma DropEnd(ns: seq<Name>, name: seq<Name>, j: nat, handle: nat)
    requires Dropped(ns, name, |ns|, j, handle)
    ensures name[..j] == Without(ns, handle)
  {
    assert ns[..|ns|] == ns;
  }

  /** The entries `ns` with a free place at `at`. */
  predicate Gap(ns: seq<Name>, name: seq<Name>, at: nat) {
    && at <= |ns| < |name|
    && (forall t :: 0 <= t < at ==> name[t] == ns[t])
    && (forall t :: at < t <= |ns| ==> name[t] == ns[t - 1])
  }

  lemma Splice(ns: seq<Name>, name: seq<Name>, at: nat, e: Name)
    requires Gap(ns, name, at)
    ensures name[at := e][..|ns| + 1] == ns[..at] + [e] + ns[at..]
  {
  }

  lemma SizesFit(slot: seq<Option<Context>>, harbor: nat)
    requires SlotsOk(slot, harbor)
    ensures |slot| <= SPACE && (|slot| == SPACE || 2 * |slot| <= SPACE)
  {
    var m := SlotSizeFacts(|slot|);
    if m >= 2 {
      MulTwice(|slot|, m);
    }
  }

  lemma MulTwice(n: nat, m: nat)
    requires m >= 2
    ensures n * m >= 2 * n
  {
  }

  lemma ProbeFacts(slot: seq<Option<Context>>, harbor: nat)
    requires SlotsOk(slot, harbor)
    ensures SlotSize(|slot|) && harbor % SPACE == 0
  {
  }

  lemma NothingMoved(slot: seq<Option<Context>>, grown: seq<Option<Context>>)
    requires 0 < |slot| && AllTaken(slot) && |grown| == 2 * |slot| && forall i :: 0 <= i < |grown| ==> grown[i].None?
    ensures Moved(slot, grown, 0)
  {
  }

  lemma BetweenBound(ns: seq<Name>, key: seq<nat>, at: nat)
    requires Between(ns, key, at, at - 1)
    ensures at <= |ns|
  {
  }
}
