/**
  The string map of pbc's map.c: coalesced chaining in one slot array.  A key that finds its home slot taken
  goes to the next free slot and is linked into the chain that runs through its home slot.
 */
module SpMap {

  import opened Prelude

  type Key = string

  const NULL: int := 0

  /** `next` is one more than the index of the next slot of the chain; 0 ends it. */
  datatype Slot = Slot(key: Option<Key>, hash: nat, pointer: int, next: nat)

  const EMPTY: Slot := Slot(None, 0, NULL, 0)

  predicate Used(s: Slot) { s.key.Some? }

  /** `hash & (cap - 1)`; the capacity is a power of two. */
  function Home(hash: nat, cap: nat): nat
    requires cap > 0
    ensures Home(hash, cap) < cap
  {
    hash % cap
  }

  ghost predicate PowerOfTwo(n: nat) {
    n == 1 || (n > 1 && n % 2 == 0 && PowerOfTwo(n / 2))
  }

  // ---------------------------------------------------------------- chains

  /** Links lead to slots in use; unused slots are blank. */
  predicate Linked(slots: seq<Slot>) {
    && (forall i :: 0 <= i < |slots| ==> slots[i].next <= |slots|)
    && (forall i :: 0 <= i < |slots| && slots[i].next > 0 ==> Used(slots[slots[i].next - 1]))
    && (forall i :: 0 <= i < |slots| && !Used(slots[i]) ==> slots[i] == EMPTY)
  }

  /** No chain runs in a circle: `rank` descends along every link. */
  predicate Ranked(slots: seq<Slot>, rank: seq<nat>) {
    && |rank| == |slots|
    && (forall i :: 0 <= i < |slots| && 0 < slots[i].next <= |slots| ==> rank[slots[i].next - 1] < rank[i])
  }

  /** Slot `k` is on the chain from `i`, at most `n` links away. */
  predicate ReachIn(slots: seq<Slot>, i: nat, k: nat, n: nat)
    requires i < |slots| && Linked(slots)
    decreases n
  {
    i == k || (n > 0 && slots[i].next > 0 && ReachIn(slots, slots[i].next - 1, k, n - 1))
  }

  ghost predicate Reach(slots: seq<Slot>, i: nat, k: nat)
    requires i < |slots| && Linked(slots)
  {
    exists n: nat :: ReachIn(slots, i, k, n)
  }

  lemma {:induction false} ReachMore(slots: seq<Slot>, i: nat, k: nat, n: nat, m: nat)
    requires i < |slots| && Linked(slots) && ReachIn(slots, i, k, n) && n <= m
    ensures ReachIn(slots, i, k, m)
    decreases n
  {
    if i != k {
      ReachMore(slots, slots[i].next - 1, k, n - 1, m - 1);
    }
  }

  /** One link further. */
  lemma {:induction false} ReachNext(slots: seq<Slot>, i: nat, k: nat, n: nat)
    requires i < |slots| && k < |slots| && Linked(slots) && ReachIn(slots, i, k, n) && slots[k].next > 0
    ensures ReachIn(slots, i, slots[k].next - 1, n + 1)
    decreases n
  {
    if i != k {
      ReachNext(slots, slots[i].next - 1, k, n - 1);
    }
  }

  /** From a slot that is not the one sought, the search goes on along the link. */
  lemma ReachTail(slots: seq<Slot>, i: nat, k: nat)
    requires i < |slots| && Linked(slots) && Reach(slots, i, k) && i != k
    ensures slots[i].next > 0 && Reach(slots, slots[i].next - 1, k)
  {
    var n: nat :| ReachIn(slots, i, k, n);
    assert ReachIn(slots, slots[i].next - 1, k, n - 1);
  }

  // ---------------------------------------------------------------- two ways to add a slot

  /** A new entry in an unused slot, not linked from anywhere. */
  lemma {:induction false} FillReach(slots: seq<Slot>, e: nat, s: Slot, i: nat, k: nat, n: nat)
    requires Linked(slots) && e < |slots| && !Used(slots[e]) && Used(s) && s.next == 0
    requires i < |slots| && ReachIn(slots, i, k, n)
    ensures Linked(slots[e := s]) && ReachIn(slots[e := s], i, k, n)
    decreases n
  {
    if i != k {
      FillReach(slots, e, s, slots[i].next - 1, k, n - 1);
    }
  }

  /** Slot `e` filled and put into the chain right behind `h`. */
  function Link(slots: seq<Slot>, h: nat, e: nat, key: Key, hash: nat, p: int): (r: seq<Slot>)
    requires h < |slots| && e < |slots|
    ensures |r| == |slots|
  {
    slots[e := Slot(Some(key), hash, p, slots[h].next)][h := slots[h].(next := e + 1)]
  }

  lemma LinkLinked(slots: seq<Slot>, h: nat, e: nat, key: Key, hash: nat, p: int)
    requires Linked(slots) && h < |slots| && e < |slots| && Used(slots[h]) && !Used(slots[e])
    ensures Linked(Link(slots, h, e, key, hash, p))
  {
  }

  /** Everything stays reachable; the detour through `e` costs one link more. */
  lemma {:induction false} LinkReach(slots: seq<Slot>, h: nat, e: nat, key: Key, hash: nat, p: int, i: nat, k: nat, n: nat)
    requires Linked(slots) && h < |slots| && e < |slots| && Used(slots[h]) && !Used(slots[e])
    requires Linked(Link(slots, h, e, key, hash, p))
    requires i < |slots| && ReachIn(slots, i, k, n)
    ensures ReachIn(Link(slots, h, e, key, hash, p), i, k, 2 * n)
    decreases n
  {
    var r := Link(slots, h, e, key, hash, p);
    if i != k {
      var j := slots[i].next - 1;
      LinkReach(slots, h, e, key, hash, p, j, k, n - 1);
      if i == h {
        assert r[h].next == e + 1 && r[e].next == j + 1;
        assert ReachIn(r, e, k, 2 * n - 1);
      } else {
        assert r[i].next == slots[i].next;
        ReachMore(r, j, k, 2 * n - 2, 2 * n - 1);
      }
    }
  }

  function Spread(rank: seq<nat>): (r: seq<nat>)
    ensures |r| == |rank| && forall i :: 0 <= i < |r| ==> r[i] == 2 * rank[i] + 1
  {
    seq(|rank|, i requires 0 <= i < |rank| => 2 * rank[i] + 1)
  }

  lemma LinkRanked(slots: seq<Slot>, rank: seq<nat>, h: nat, e: nat, key: Key, hash: nat, p: int)
    requires Linked(slots) && Ranked(slots, rank) && h < |slots| && e < |slots| && Used(slots[h]) && !Used(slots[e])
    ensures Ranked(Link(slots, h, e, key, hash, p), Spread(rank)[e := 2 * rank[h]])
  {
    var r, rank' := Link(slots, h, e, key, hash, p), Spread(rank)[e := 2 * rank[h]];
    forall i | 0 <= i < |r| && 0 < r[i].next <= |r|
      ensures rank'[r[i].next - 1] < rank'[i]
    {
      if i != h && i != e {
        assert Used(slots[slots[i].next - 1]);
      } else if i == e {
        assert rank[slots[h].next - 1] < rank[h];
      }
    }
  }

  // ---------------------------------------------------------------- entries as a finite map

  ghost function Count(slots: seq<Slot>): nat {
    if slots == [] then 0 else Count(slots[..|slots| - 1]) + (if Used(slots[|slots| - 1]) then 1 else 0)
  }

  lemma {:induction false} CountUpdate(slots: seq<Slot>, e: nat, s: Slot)
    requires e < |slots|
    ensures Count(slots[e := s]) == Count(slots) - (if Used(slots[e]) then 1 else 0) + (if Used(s) then 1 else 0)
  {
    var n := |slots| - 1;
    if e == n {
      assert slots[e := s][..n] == slots[..n];
    } else {
      assert slots[e := s][..n] == slots[..n][e := s];
      CountUpdate(slots[..n], e, s);
    }
  }

  lemma {:induction false} CountFull(slots: seq<Slot>)
    ensures Count(slots) <= |slots|
    ensures Count(slots) == |slots| <==> forall i :: 0 <= i < |slots| ==> Used(slots[i])
  {
    if slots != [] {
      CountFull(slots[..|slots| - 1]);
    }
  }

  lemma {:induction false} CountNone(slots: seq<Slot>)
    requires forall i :: 0 <= i < |slots| ==> !Used(slots[i])
    ensures Count(slots) == 0
  {
    if slots != [] {
      CountNone(slots[..|slots| - 1]);
    }
  }

  predicate DistinctKeys(slots: seq<Slot>) {
    forall i, j :: 0 <= i < j < |slots| && Used(slots[i]) && Used(slots[j]) ==> slots[i].key != slots[j].key
  }

  /** The entries in the slots. */
  ghost function Entries(slots: seq<Slot>): map<Key, int> {
    if slots == [] then map[]
    else
      var s := slots[|slots| - 1];
      var m := Entries(slots[..|slots| - 1]);
      if Used(s) then m[s.key.value := s.pointer] else m
  }

  predicate At(slots: seq<Slot>, key: Key, i: nat) {
    i < |slots| && slots[i].key == Some(key)
  }

  lemma {:induction false} EntryAt(slots: seq<Slot>, key: Key, i: nat)
    requires DistinctKeys(slots) && At(slots, key, i)
    ensures key in Entries(slots) && Entries(slots)[key] == slots[i].pointer
  {
    var n := |slots| - 1;
    if i < n {
      EntryAt(slots[..n], key, i);
    }
  }

  lemma {:induction false} EntryIndex(slots: seq<Slot>, key: Key) returns (i: nat)
    requires key in Entries(slots)
    ensures At(slots, key, i)
  {
    var n := |slots| - 1;
    if slots[n].key == Some(key) {
      i := n;
    } else {
      i := EntryIndex(slots[..n], key);
    }
  }

  /** Slots with the entries of a map are that map. */
  lemma SameEntries(slots: seq<Slot>, m: map<Key, int>)
    requires DistinctKeys(slots)
    requires forall i :: 0 <= i < |slots| && Used(slots[i]) ==> slots[i].key.value in m && m[slots[i].key.value] == slots[i].pointer
    requires forall x :: x in m ==> exists i :: At(slots, x, i)
    ensures Entries(slots) == m
  {
    forall x
      ensures x in Entries(slots) <==> x in m
      ensures x in m ==> x in Entries(slots) && Entries(slots)[x] == m[x]
    {
      if x in m {
        var i :| At(slots, x, i);
        EntryAt(slots, x, i);
      }
      if x in Entries(slots) {
        var i := EntryIndex(slots, x);
      }
    }
  }

  /** Filling slot `e` with a new key; links elsewhere may change. */
  lemma AddEntry(slots: seq<Slot>, r: seq<Slot>, e: nat, key: Key, p: int)
    requires |r| == |slots| && e < |slots| && !Used(slots[e]) && r[e].key == Some(key) && r[e].pointer == p
    requires forall i :: 0 <= i < |slots| && i != e ==> r[i].key == slots[i].key && r[i].pointer == slots[i].pointer
    requires DistinctKeys(slots) && key !in Entries(slots)
    ensures DistinctKeys(r) && Entries(r) == Entries(slots)[key := p]
  {
    forall i | 0 <= i < |slots| && Used(slots[i])
      ensures slots[i].key.value in Entries(slots) && Entries(slots)[slots[i].key.value] == slots[i].pointer
    {
      EntryAt(slots, slots[i].key.value, i);
    }
    assert DistinctKeys(r);
    var m := Entries(slots)[key := p];
    forall x | x in m
      ensures exists i :: At(r, x, i)
    {
      if x == key {
        assert At(r, x, e);
      } else {
        var i := EntryIndex(slots, x);
        assert At(r, x, i);
      }
    }
    SameEntries(r, m);
  }

  // ---------------------------------------------------------------- the invariant of the map

  /** Every key is hashed right, is on the chain from its home slot, and occurs once. */
  ghost predicate MapOk(slots: seq<Slot>, size: nat, f: Key -> nat) {
    && PowerOfTwo(|slots|) && 0 < |slots| && Linked(slots) && Count(slots) == size && DistinctKeys(slots)
    && (forall i :: 0 <= i < |slots| && Used(slots[i]) ==> slots[i].hash == f(slots[i].key.value))
    && (forall i :: 0 <= i < |slots| && Used(slots[i]) ==> AtHome(slots, i))
  }

  ghost predicate AtHome(slots: seq<Slot>, i: nat)
    requires 0 < |slots| && i < |slots| && Linked(slots)
  {
    Used(slots[Home(slots[i].hash, |slots|)]) && Reach(slots, Home(slots[i].hash, |slots|), i)
  }

  /** A key that is not in the map, put into its free home slot. */
  lemma InsertHome(slots: seq<Slot>, size: nat, f: Key -> nat, rank: seq<nat>, key: Key, p: int)
    requires MapOk(slots, size, f) && Ranked(slots, rank) && key !in Entries(slots)
    requires !Used(slots[Home(f(key), |slots|)])
    ensures var r := slots[Home(f(key), |slots|) := Slot(Some(key), f(key), p, 0)];
      MapOk(r, size + 1, f) && Ranked(r, rank) && Entries(r) == Entries(slots)[key := p]
  {
    hide Home, PowerOfTwo, Count, Entries, AtHome, DistinctKeys;
    var e := Home(f(key), |slots|);
    var s := Slot(Some(key), f(key), p, 0);
    var r := slots[e := s];
    CountUpdate(slots, e, s);
    AddEntry(slots, r, e, key, p);
    FillLinked(slots, e, s);
    forall i | 0 <= i < |r| && Used(r[i])
      ensures AtHome(r, i)
    {
      FillHome(slots, e, s, i);
    }
    assert Ranked(r, rank);
    hide Linked, Ranked;
  }

  lemma FillLinked(slots: seq<Slot>, e: nat, s: Slot)
    requires Linked(slots) && e < |slots| && !Used(slots[e]) && Used(s) && s.next == 0
    ensures Linked(slots[e := s])
  {
  }

  lemma FillHome(slots: seq<Slot>, e: nat, s: Slot, i: nat)
    requires 0 < |slots| && Linked(slots) && e < |slots| && !Used(slots[e]) && Used(s) && s.next == 0
    requires i < |slots| && Home(s.hash, |slots|) == e && (i != e ==> AtHome(slots, i)) && Linked(slots[e := s])
    ensures AtHome(slots[e := s], i)
  {
    hide Home;
    if i != e {
      var n: nat :| ReachIn(slots, Home(slots[i].hash, |slots|), i, n);
      FillReach(slots, e, s, Home(slots[i].hash, |slots|), i, n);
    } else {
      assert ReachIn(slots[e := s], e, e, 0);
    }
  }

  /** A key that is not in the map, linked behind a slot of the chain from its home slot. */
  lemma InsertLink(slots: seq<Slot>, size: nat, f: Key -> nat, rank: seq<nat>, key: Key, p: int, h: nat, e: nat)
    requires MapOk(slots, size, f) && Ranked(slots, rank) && key !in Entries(slots)
    requires h < |slots| && e < |slots| && Used(slots[h]) && !Used(slots[e])
    requires Used(slots[Home(f(key), |slots|)]) && Reach(slots, Home(f(key), |slots|), h)
    ensures var r := Link(slots, h, e, key, f(key), p);
      && MapOk(r, size + 1, f) && Entries(r) == Entries(slots)[key := p]
      && Ranked(r, Spread(rank)[e := 2 * rank[h]])
  {
    hide Home, Ranked, Linked, PowerOfTwo, Count, Entries, AtHome, DistinctKeys, Reach;
    var r := Link(slots, h, e, key, f(key), p);
    LinkLinked(slots, h, e, key, f(key), p);
    LinkRanked(slots, rank, h, e, key, f(key), p);
    LinkCount(slots, h, e, key, f(key), p);
    AddEntry(slots, r, e, key, p);
    forall i | 0 <= i < |r| && Used(r[i])
      ensures AtHome(r, i)
    {
      LinkHome(slots, f, key, p, h, e, i);
    }
  }

  lemma LinkCount(slots: seq<Slot>, h: nat, e: nat, key: Key, hash: nat, p: int)
    requires h < |slots| && e < |slots| && Used(slots[h]) && !Used(slots[e])
    ensures Count(Link(slots, h, e, key, hash, p)) == Count(slots) + 1
  {
    var r := Link(slots, h, e, key, hash, p);
    CountUpdate(slots, e, r[e]);
    CountUpdate(slots[e := r[e]], h, r[h]);
    assert r == slots[e := r[e]][h := r[h]];
  }

  lemma LinkHome(slots: seq<Slot>, f: Key -> nat, key: Key, p: int, h: nat, e: nat, i: nat)
    requires 0 < |slots| && Linked(slots) && i < |slots| && h < |slots| && e < |slots| && Used(slots[h]) && !Used(slots[e])
    requires Used(slots[Home(f(key), |slots|)]) && Reach(slots, Home(f(key), |slots|), h)
    requires i != e ==> AtHome(slots, i)
    requires Linked(Link(slots, h, e, key, f(key), p))
    ensures AtHome(Link(slots, h, e, key, f(key), p), i)
  {
    hide Home;
    var r := Link(slots, h, e, key, f(key), p);
    var home := Home(r[i].hash, |slots|);
    if i != e {
      var n: nat :| ReachIn(slots, home, i, n);
      LinkReach(slots, h, e, key, f(key), p, home, i, n);
    } else {
      var n: nat :| ReachIn(slots, home, h, n);
      LinkReach(slots, h, e, key, f(key), p, home, h, n);
      assert r[h].next == e + 1;
      ReachNext(r, home, h, 2 * n);
    }
  }

  /** Storing through the pointer that `query_insert` returns. */
  lemma StoreEntry(slots: seq<Slot>, size: nat, f: Key -> nat, rank: seq<nat>, i: nat, p: int)
    requires MapOk(slots, size, f) && Ranked(slots, rank) && i < |slots| && Used(slots[i])
    ensures var r := slots[i := slots[i].(pointer := p)];
      MapOk(r, size, f) && Ranked(r, rank) && Entries(r) == Entries(slots)[slots[i].key.value := p]
  {
    hide Home, PowerOfTwo, Count, Entries, AtHome, DistinctKeys;
    var r := slots[i := slots[i].(pointer := p)];
    CountUpdate(slots, i, r[i]);
    StoreEntries(slots, i, p);
    StoreLinked(slots, i, p);
    forall k | 0 <= k < |r| && Used(r[k])
      ensures AtHome(r, k)
    {
      StoreHome(slots, i, p, k);
    }
    assert Ranked(r, rank);
    hide Linked, Ranked;
  }

  lemma StoreLinked(slots: seq<Slot>, e: nat, p: int)
    requires Linked(slots) && e < |slots| && Used(slots[e])
    ensures Linked(slots[e := slots[e].(pointer := p)])
  {
  }

  lemma StoreHome(slots: seq<Slot>, e: nat, p: int, k: nat)
    requires 0 < |slots| && Linked(slots) && e < |slots| && Used(slots[e]) && k < |slots| && AtHome(slots, k)
    requires Linked(slots[e := slots[e].(pointer := p)])
    ensures AtHome(slots[e := slots[e].(pointer := p)], k)
  {
    hide Home;
    var n: nat :| ReachIn(slots, Home(slots[k].hash, |slots|), k, n);
    StoreReach(slots, e, p, Home(slots[k].hash, |slots|), k, n);
  }

  lemma {:induction false} StoreReach(slots: seq<Slot>, e: nat, p: int, i: nat, k: nat, n: nat)
    requires Linked(slots) && e < |slots| && Used(slots[e]) && i < |slots| && ReachIn(slots, i, k, n)
    ensures Linked(slots[e := slots[e].(pointer := p)]) && ReachIn(slots[e := slots[e].(pointer := p)], i, k, n)
    decreases n
  {
    if i != k {
      StoreReach(slots, e, p, slots[i].next - 1, k, n - 1);
    }
  }

  lemma StoreEntries(slots: seq<Slot>, i: nat, p: int)
    requires DistinctKeys(slots) && i < |slots| && Used(slots[i])
    ensures var r := slots[i := slots[i].(pointer := p)];
      DistinctKeys(r) && Entries(r) == Entries(slots)[slots[i].key.value := p]
  {
    var r := slots[i := slots[i].(pointer := p)];
    var m := Entries(slots)[slots[i].key.value := p];
    forall k | 0 <= k < |r| && Used(r[k])
      ensures r[k].key.value in m && m[r[k].key.value] == r[k].pointer
    {
      EntryAt(slots, slots[k].key.value, k);
    }
    forall x | x in m
      ensures exists k :: At(r, x, k)
    {
      if x == slots[i].key.value {
        assert At(r, x, i);
      } else {
        var k := EntryIndex(slots, x);
        assert At(r, x, k);
      }
    }
    SameEntries(r, m);
  }

  // ---------------------------------------------------------------- struct map_sp

  /** The first free slot behind `from`, going round. */
  method FreeSlot(slots: seq<Slot>, from: nat) returns (e: nat)
    requires from < |slots| && exists u :: 0 <= u < |slots| && !Used(slots[u])
    ensures e < |slots| && !Used(slots[e])
  {
    var cap := |slots|;
    ghost var u :| 0 <= u < cap && !Used(slots[u]);
    e := if from + 1 == cap then 0 else from + 1;
    while Used(slots[e])
      invariant 0 <= e < cap
      decreases if e <= u then u - e else u + cap - e
    {
      e := if e + 1 == cap then 0 else e + 1;
    }
  }

  /** Where the search for `key` has got to on its chain. */
  ghost predicate Searching(slots: seq<Slot>, f: Key -> nat, key: Key, at: nat) {
    && 0 < |slots| && at < |slots| && Linked(slots) && Used(slots[at])
    && Reach(slots, Home(f(key), |slots|), at)
    && (forall k :: At(slots, key, k) ==> Reach(slots, at, k))
  }

  lemma SearchStart(slots: seq<Slot>, size: nat, f: Key -> nat, key: Key)
    requires MapOk(slots, size, f)
    ensures Used(slots[Home(f(key), |slots|)]) ==> Searching(slots, f, key, Home(f(key), |slots|))
    ensures !Used(slots[Home(f(key), |slots|)]) ==> key !in Entries(slots)
  {
    hide Home;
    var home := Home(f(key), |slots|);
    assert ReachIn(slots, home, home, 0);
    forall k | At(slots, key, k)
      ensures Used(slots[home]) && Reach(slots, home, k)
    {
      assert AtHome(slots, k);
    }
    if key in Entries(slots) {
      var i := EntryIndex(slots, key);
    }
  }

  lemma SearchNext(slots: seq<Slot>, f: Key -> nat, key: Key, at: nat)
    requires Searching(slots, f, key, at) && slots[at].key != Some(key)
    ensures slots[at].next > 0 ==> Searching(slots, f, key, slots[at].next - 1)
    ensures slots[at].next == 0 ==> key !in Entries(slots)
  {
    hide Home;
    forall k | At(slots, key, k)
      ensures slots[at].next > 0 && Reach(slots, slots[at].next - 1, k)
    {
      ReachTail(slots, at, k);
    }
    if slots[at].next > 0 {
      var n: nat :| ReachIn(slots, Home(f(key), |slots|), at, n);
      ReachNext(slots, Home(f(key), |slots|), at, n);
    }
    if key in Entries(slots) {
      var i := EntryIndex(slots, key);
    }
  }

  class Map {
    const f: Key -> nat              // calc_hash
    var size: nat
    var slots: seq<Slot>
    ghost var rank: seq<nat>

    ghost predicate Valid() reads this {
      MapOk(slots, size, f) && Ranked(slots, rank)
    }

    ghost function Contents(): map<Key, int> reads this { Entries(slots) }

    /** `_pbcM_sp_new`. */
    constructor (max: int, f: Key -> nat)
      ensures Valid() && Contents() == map[] && this.f == f && max <= |slots|
    {
      this.f := f;
      var cap := 1;
      while cap < max
        invariant cap >= 1 && PowerOfTwo(cap)
      {
        cap := cap * 2;
      }
      size := 0;
      slots := seq(cap, _ => EMPTY);
      rank := seq(cap, _ => 0);
      new;
      NoEntries(slots);
    }

    /** The first branch of `insert_hash`: there is a free slot. */
    method InsertRoom(key: Key, value: int)
      requires Valid() && key !in Contents() && size < |slots|
      modifies this
      ensures Valid() && Contents() == old(Contents())[key := value] && |slots| == |old(slots)| && size == old(size) + 1
    {
      hide MapOk, Ranked, Home, Entries, Searching;
      SearchStart(slots, size, f, key);
      var h := Home(f(key), |slots|);
      if !Used(slots[h]) {
        InsertHome(slots, size, f, rank, key, value);
        slots := slots[h := Slot(Some(key), f(key), value, 0)];
      } else {
        HasRoom(slots, size, f);
        var e := FreeSlot(slots, h);
        SearchingFacts(slots, f, key, h);
        InsertLink(slots, size, f, rank, key, value, h, e);
        RankedLength(slots, rank);
        rank := Spread(rank)[e := 2 * rank[h]];
        slots := Link(slots, h, e, key, f(key), value);
      }
      size := size + 1;
    }

    /** `insert_hash`, for a key that is not in the map. */
    method Insert(key: Key, value: int)
      requires Valid() && key !in Contents()
      modifies this
      ensures Valid() && Contents() == old(Contents())[key := value]
      ensures |slots| == old(if size < |slots| then |slots| else 2 * |slots|)
    {
      hide MapOk, Ranked, Entries;
      if !(|slots| > size) {
        Rehash();
      }
      InsertRoom(key, value);
    }

    /** `rehash`: twice the slots, the same entries. */
    method Rehash()
      requires Valid() && size >= |slots|
      modifies this
      ensures Valid() && Contents() == old(Contents()) && |slots| == 2 * |old(slots)| && size == old(size) < |slots|
    {
      hide MapOk, Ranked, Entries;
      ghost var size0 := size;
      AllUsed(slots, size, f);
      var was, n := slots, size;
      size := 0;
      slots := seq(2 * |was|, _ => EMPTY);
      rank := seq(2 * |was|, _ => 0);
      StartOver(was, size0, f, slots, rank);
      var i := 0;
      while i < n
        invariant 0 <= i <= n == |was| && Valid() && size == i && |slots| == 2 * |was|
        invariant Contents() == Entries(was[..i])
      {
        NextEntry(was, i);
        InsertRoom(was[i].key.value, was[i].pointer);
        i := i + 1;
      }
      assert was[..n] == was;
    }

    /** The walk along a chain that `query`, `query_insert` and `next` share. */
    method Find(key: Key) returns (found: bool, at: nat)
      requires Valid()
      ensures 0 < |slots| && at < |slots|
      ensures found ==> At(slots, key, at)
      ensures found <==> key in Contents()
      ensures !found ==> if Used(slots[Home(f(key), |slots|)]) then Searching(slots, f, key, at) && slots[at].next == 0
                         else at == Home(f(key), |slots|)
    {
      hide MapOk, Home, Searching, Entries;
      SearchStart(slots, size, f, key);
      at := Home(f(key), |slots|);
      if !Used(slots[at]) {
        return false, at;
      }
      while true
        invariant at < |slots| && Searching(slots, f, key, at)
        decreases rank[at]
      {
        SearchingFacts(slots, f, key, at);
        if slots[at].key == Some(key) {
          EntryHere(slots, size, f, key, at);
          return true, at;
        }
        SearchNext(slots, f, key, at);
        if slots[at].next == 0 {
          return false, at;
        }
        at := slots[at].next - 1;
      }
    }

    /** `_pbcM_sp_query`. */
    method Query(key: Key) returns (p: int)
      requires Valid()
      ensures p == if key in Contents() then Contents()[key] else NULL
    {
      hide MapOk, Ranked, Home, Searching, Entries;
      var found, at := Find(key);
      if found {
        EntryHere(slots, size, f, key, at);
        p := slots[at].pointer;
      } else {
        p := NULL;
      }
    }

    /** `query_insert_hash`: the slot of the key, which is added with a null pointer when it is new. */
    method QueryInsert(key: Key) returns (at: nat)
      requires Valid()
      modifies this
      ensures Valid() && At(slots, key, at)
      ensures Contents() == if key in old(Contents()) then old(Contents()) else old(Contents())[key := NULL]
    {
      hide MapOk, Ranked, Home, Searching, Entries;
      var found;
      found, at := Find(key);
      if found {
        return;
      }
      if |slots| <= size {
        Rehash();
        found, at := Find(key);
      }
      at := AddAt(key, at);
    }

    /** The end of `query_insert_hash`: into the free home slot, or behind the last slot of the chain. */
    method AddAt(key: Key, last: nat) returns (at: nat)
      requires Valid() && size < |slots| && key !in Contents() && last < |slots|
      requires if Used(slots[Home(f(key), |slots|)]) then Searching(slots, f, key, last) else last == Home(f(key), |slots|)
      modifies this
      ensures Valid() && At(slots, key, at) && Contents() == old(Contents())[key := NULL]
    {
      hide MapOk, Ranked, Home, Searching, Entries;
      if !Used(slots[last]) {
        SearchingUsed(slots, f, key, last);
        InsertHome(slots, size, f, rank, key, NULL);
        slots := slots[last := Slot(Some(key), f(key), NULL, 0)];
        at := last;
      } else {
        HasRoom(slots, size, f);
        at := FreeSlot(slots, Home(f(key), |slots|));
        SearchingFacts(slots, f, key, last);
        InsertLink(slots, size, f, rank, key, NULL, last, at);
        RankedLength(slots, rank);
        rank := Spread(rank)[at := 2 * rank[last]];
        slots := Link(slots, last, at, key, f(key), NULL);
      }
      size := size + 1;
    }

    /** The scans of `_find_first` and `_find_next`. */
    method Scan(from: nat) returns (idx: int)
      ensures idx == First(slots, from)
    {
      var i := from;
      while i < |slots|
        invariant from <= i && First(slots, from) == First(slots, i)
        decreases |slots| - i
      {
        if slots[i].pointer != NULL {
          return i;
        }
        i := i + 1;
      }
      idx := -1;
    }

    /** `_pbcM_sp_next`: the first entry, the one behind the slot of `key`, or nothing for an unknown key. */
    method Next(key: Option<Key>) returns (key': Option<Key>, p: int, ghost idx: int)
      requires Valid()
      ensures key.None? ==> idx == First(slots, 0)
      ensures key.Some? ==> forall at: nat :: At(slots, key.value, at) ==> idx == First(slots, at + 1)
      ensures key.Some? && key.value !in Contents() ==> idx == -1
      ensures idx == -1 <==> key'.None?
      ensures key'.Some? ==> idx >= 0 && At(slots, key'.value, idx) && p == slots[idx].pointer
    {
      hide MapOk, Ranked, Entries, Home, Searching, First;
      var i, from := -1, 0;
      if key.None? {
        i := Scan(0);
      } else {
        forall at: nat | At(slots, key.value, at) ensures key.value in Contents() {
          EntryHere(slots, size, f, key.value, at);
        }
        var found, here := Find(key.value);
        if found {
          forall at: nat | At(slots, key.value, at) ensures at == here {
            OneSlot(slots, size, f, key.value, here, at);
          }
          from := here + 1;
          i := Scan(from);
        }
      }
      idx := i;
      if i < 0 {
        return None, NULL, idx;
      }
      ListedStart(slots, size, f);
      FirstUsed(slots, from);
      key', p := slots[i].key, slots[i].pointer;
    }

    /** What a caller does with the pointer returned by `query_insert`. */
    method Store(key: Key, at: nat, p: int)
      requires Valid() && At(slots, key, at)
      modifies this`slots
      ensures Valid() && Contents() == old(Contents())[key := p]
    {
      hide MapOk, Ranked, Entries;
      StoreEntry(slots, size, f, rank, at, p);
      slots := slots[at := slots[at].(pointer := p)];
    }
  }

  // ---------------------------------------------------------------- iteration

  /** The first slot from `i` on with a pointer in it, -1 for none. */
  function First(slots: seq<Slot>, i: nat): (r: int)
    ensures r == -1 || i <= r < |slots|
    decreases |slots| - i
  {
    if i >= |slots| then -1 else if slots[i].pointer != NULL then i else First(slots, i + 1)
  }

  /** Keys and pointers of the slots below `n` that have a pointer, in order. */
  function Listed(slots: seq<Slot>, n: nat): seq<(Key, int)>
    requires n <= |slots|
  {
    if n == 0 then []
    else
      var s := slots[n - 1];
      if Used(s) && s.pointer != NULL then Listed(slots, n - 1) + [(s.key.value, s.pointer)] else Listed(slots, n - 1)
  }

  lemma {:induction false} FirstLists(slots: seq<Slot>, i: nat)
    requires i <= |slots| && Linked(slots)
    ensures var r := First(slots, i);
      if r == -1 then Listed(slots, |slots|) == Listed(slots, i)
      else Used(slots[r]) && Listed(slots, r + 1) == Listed(slots, i) + [(slots[r].key.value, slots[r].pointer)]
    decreases |slots| - i
  {
    if i < |slots| && slots[i].pointer == NULL {
      FirstLists(slots, i + 1);
    }
  }

  lemma {:induction false} FirstUsed(slots: seq<Slot>, i: nat)
    requires Linked(slots)
    ensures First(slots, i) != -1 ==> Used(slots[First(slots, i)])
    decreases |slots| - i
  {
    if i < |slots| && slots[i].pointer == NULL {
      FirstUsed(slots, i + 1);
    }
  }

  /** The list has every entry with a pointer exactly once. */
  lemma {:induction false} ListedOnce(slots: seq<Slot>, n: nat)
    requires DistinctKeys(slots) && n <= |slots|
    ensures forall a, b :: 0 <= a < b < |Listed(slots, n)| ==> Listed(slots, n)[a].0 != Listed(slots, n)[b].0
    ensures forall a :: 0 <= a < |Listed(slots, n)| ==> ListedFrom(slots, n, Listed(slots, n)[a])
    ensures forall i :: 0 <= i < n && Used(slots[i]) && slots[i].pointer != NULL ==>
      (slots[i].key.value, slots[i].pointer) in Listed(slots, n)
  {
    if n > 0 {
      ListedOnce(slots, n - 1);
      var l := Listed(slots, n - 1);
      forall a | 0 <= a < |l|
        ensures ListedFrom(slots, n, l[a])
        ensures Used(slots[n - 1]) ==> l[a].0 != slots[n - 1].key.value
      {
        assert ListedFrom(slots, n - 1, l[a]);
      }
      if Used(slots[n - 1]) && slots[n - 1].pointer != NULL {
        assert ListedFrom(slots, n, (slots[n - 1].key.value, slots[n - 1].pointer));
      }
    }
  }

  predicate ListedFrom(slots: seq<Slot>, n: nat, e: (Key, int)) {
    exists i :: 0 <= i < n && i < |slots| && slots[i].key == Some(e.0) && slots[i].pointer == e.1 && e.1 != NULL
  }

  /** Iterating with `next` from the start visits each entry with a pointer exactly once. */
  method Traverse(m: Map) returns (out: seq<(Key, int)>)
    requires m.Valid()
    ensures forall a, b :: 0 <= a < b < |out| ==> out[a].0 != out[b].0
    ensures forall k, p :: (k, p) in out <==> k in m.Contents() && m.Contents()[k] == p && p != NULL
  {
    hide MapOk, Ranked, Entries, Listed, First, Linked;
    out := [];
    var key: Option<Key> := None;
    ghost var at: nat := 0;
    ListedStart(m.slots, m.size, m.f);
    while true
      invariant at <= |m.slots| && out == Listed(m.slots, at)
      invariant key == None ==> at == 0
      invariant key.Some? ==> 0 < at && At(m.slots, key.value, at - 1)
      decreases |m.slots| - at
    {
      var p;
      ghost var idx;
      FirstLists(m.slots, at);
      key, p, idx := m.Next(key);
      if key.None? {
        break;
      }
      out := out + [(key.value, p)];
      at := idx + 1;
    }
    ListedAll(m.slots, m.size, m.f);
  }

  lemma ListedStart(slots: seq<Slot>, size: nat, f: Key -> nat)
    requires MapOk(slots, size, f)
    ensures Listed(slots, 0) == [] && Linked(slots)
  {
  }

  lemma ListedAll(slots: seq<Slot>, size: nat, f: Key -> nat)
    requires MapOk(slots, size, f)
    ensures var out := Listed(slots, |slots|);
      && (forall a, b :: 0 <= a < b < |out| ==> out[a].0 != out[b].0)
      && (forall k, p :: (k, p) in out <==> k in Entries(slots) && Entries(slots)[k] == p && p != NULL)
  {
    hide AtHome, PowerOfTwo, Linked, Count;
    var out := Listed(slots, |slots|);
    ListedOnce(slots, |slots|);
    forall k, p
      ensures (k, p) in out <==> k in Entries(slots) && Entries(slots)[k] == p && p != NULL
    {
      if (k, p) in out {
        var a :| 0 <= a < |out| && out[a] == (k, p);
        assert ListedFrom(slots, |slots|, out[a]);
        var i :| 0 <= i < |slots| && slots[i].key == Some(k) && slots[i].pointer == p;
        EntryAt(slots, k, i);
      }
      if k in Entries(slots) && Entries(slots)[k] == p && p != NULL {
        var i := EntryIndex(slots, k);
        EntryAt(slots, k, i);
        assert (slots[i].key.value, slots[i].pointer) in out;
      }
    }
  }

  /** A key sits in one slot only. */
  lemma OneSlot(slots: seq<Slot>, size: nat, f: Key -> nat, key: Key, i: nat, j: nat)
    requires MapOk(slots, size, f) && At(slots, key, i) && At(slots, key, j)
    ensures i == j
  {
    hide AtHome, PowerOfTwo, Linked, Count;
    assert i < j || j < i || i == j;
  }

  lemma NoEntries(slots: seq<Slot>)
    requires forall i :: 0 <= i < |slots| ==> slots[i] == EMPTY
    ensures Count(slots) == 0 && Entries(slots) == map[]
  {
    CountNone(slots);
    SameEntries(slots, map[]);
  }

  lemma HasRoom(slots: seq<Slot>, size: nat, f: Key -> nat)
    requires MapOk(slots, size, f) && size < |slots|
    ensures exists u :: 0 <= u < |slots| && !Used(slots[u])
  {
    CountFull(slots);
  }

  lemma AllUsed(slots: seq<Slot>, size: nat, f: Key -> nat)
    requires MapOk(slots, size, f) && size >= |slots|
    ensures size == |slots| && DistinctKeys(slots) && 0 < |slots| && forall i :: 0 <= i < |slots| ==> Used(slots[i])
  {
    CountFull(slots);
  }

  lemma StartOver(was: seq<Slot>, size: nat, f: Key -> nat, slots: seq<Slot>, rank: seq<nat>)
    requires MapOk(was, size, f) && |slots| == |rank| == 2 * |was| && forall i :: 0 <= i < |slots| ==> slots[i] == EMPTY
    ensures MapOk(slots, 0, f) && Ranked(slots, rank) && Entries(slots) == Entries(was[..0])
  {
    NoEntries(slots);
    hide Count, Entries, AtHome;
    assert PowerOfTwo(|slots|);
    hide PowerOfTwo;
    assert Linked(slots) && Ranked(slots, rank);
    assert Entries(was[..0]) == map[] by { NoEntries(was[..0]); }
  }

  lemma NextEntry(was: seq<Slot>, i: nat)
    requires DistinctKeys(was) && i < |was| && Used(was[i])
    ensures was[i].key.value !in Entries(was[..i])
    ensures Entries(was[..i + 1]) == Entries(was[..i])[was[i].key.value := was[i].pointer]
  {
    assert was[..i + 1][..i] == was[..i];
    if was[i].key.value in Entries(was[..i]) {
      var j := EntryIndex(was[..i], was[i].key.value);
    }
  }

  lemma SearchingFacts(slots: seq<Slot>, f: Key -> nat, key: Key, at: nat)
    requires Searching(slots, f, key, at)
    ensures 0 < |slots| && at < |slots| && Linked(slots) && Used(slots[at]) && slots[at].next <= |slots|
    ensures Reach(slots, Home(f(key), |slots|), at)
  {
  }

  lemma SearchingUsed(slots: seq<Slot>, f: Key -> nat, key: Key, at: nat)
    requires 0 < |slots| && at < |slots| && !Used(slots[at])
    ensures !Searching(slots, f, key, at)
  {
  }

  lemma RankedLength(slots: seq<Slot>, rank: seq<nat>)
    requires Ranked(slots, rank)
    ensures |rank| == |slots|
  {
  }

  lemma EntryHere(slots: seq<Slot>, size: nat, f: Key -> nat, key: Key, at: nat)
    requires MapOk(slots, size, f) && At(slots, key, at)
    ensures key in Entries(slots) && Entries(slots)[key] == slots[at].pointer
  {
    EntryAt(slots, key, at);
  }
}
