/**
  The perfect-hash construction of perfect.c.  Keys carry a pair (a, b); the final hash of a key is
  a ^ scramble[val_b].  `Augment` maps one more b by searching an augmenting path and applying it
  speculatively; a collision rolls the whole path back.
 */
module PerfectHash {

  const NONE: int := -1

  const USE_SCRAMBLE: nat := 4096
  const SCRAMBLE_LEN: nat := 65536

  /**
    The fixed part: (a, b) of every key, the keys of each b (`list_b`), `scramble`, `smax`, and whether the
    directives ask for a minimal hash or for slow mode.
   */
  datatype Problem = Problem(
    a: seq<bv32>, b: seq<nat>, lists: seq<seq<nat>>, scramble: seq<bv32>, smax: nat, minimal: bool, slow: bool)

  /** `tabq[t]`: b_q (or NONE), parent_q, newval_q, oldval_q. */
  datatype QNode = QNode(b: int, parent: nat, newval: nat, oldval: nat)

  function KeyCount(p: Problem): nat { |p.a| }
  function BLen(p: Problem): nat { |p.lists| }
  function Limit(p: Problem): nat { if BLen(p) < USE_SCRAMBLE then p.smax else 256 }
  function HighHash(p: Problem): nat { if p.minimal then KeyCount(p) else p.smax }
  predicate Transitive(p: Problem) { p.slow || p.minimal }

  /** `inittab` has put every key in the list of its b, and every hash value that may be tried is defined. */
  predicate WellFormed(p: Problem) {
    && |p.a| == |p.b|
    && (forall k :: 0 <= k < |p.b| ==> p.b[k] < |p.lists| && k in p.lists[p.b[k]])
    && (forall x, j :: 0 <= x < |p.lists| && 0 <= j < |p.lists[x]| ==> p.lists[x][j] < |p.b| && p.b[p.lists[x][j]] == x)
    && (forall x, i, j :: 0 <= x < |p.lists| && 0 <= i < j < |p.lists[x]| ==> p.lists[x][i] != p.lists[x][j])
    && |p.scramble| == SCRAMBLE_LEN && Limit(p) <= SCRAMBLE_LEN
  }

  /** x ^ y, as a table index. */
  function Xor(x: bv32, y: bv32): nat { (x ^ y) as nat }

  function Hash(p: Problem, k: nat, v: nat): nat
    requires k < |p.a| && v < |p.scramble|
  {
    Xor(p.a[k], p.scramble[v])
  }

  /** Value `v` sends every key of `x` below the table size. */
  predicate Fits(p: Problem, x: nat, v: nat)
    requires WellFormed(p)
  {
    && x < BLen(p) && v < |p.scramble|
    && forall j :: 0 <= j < |p.lists[x]| ==> Hash(p, p.lists[x][j], v) < HighHash(p)
  }

  // ---------------------------------------------------------------- inittab

  /** The first `n` keys are in the lists of their b, once each, and nothing else is. */
  predicate Listed(b: seq<nat>, lists: seq<seq<nat>>, n: nat) {
    && n <= |b|
    && (forall k :: 0 <= k < n ==> b[k] < |lists| && k in lists[b[k]])
    && (forall x, j :: 0 <= x < |lists| && 0 <= j < |lists[x]| ==> lists[x][j] < n && b[lists[x][j]] == x)
    && (forall x, i, j :: 0 <= x < |lists| && 0 <= i < j < |lists[x]| ==> lists[x][i] != lists[x][j])
  }

  lemma ListOne(b: seq<nat>, lists: seq<seq<nat>>, n: nat)
    requires Listed(b, lists, n) && n < |b| && b[n] < |lists|
    ensures Listed(b, lists[b[n] := [n] + lists[b[n]]], n + 1)
  {
    var lists' := lists[b[n] := [n] + lists[b[n]]];
    forall k | 0 <= k < n + 1
      ensures k in lists'[b[k]]
    {
      if k == n {
        assert lists'[b[n]][0] == n;
      } else if b[k] == b[n] {
        assert k in lists[b[k]];
        assert lists'[b[n]] == [n] + lists[b[n]];
      }
    }
  }

  lemma ListedIsWellFormed(p: Problem)
    requires |p.a| == |p.b| && Listed(p.b, p.lists, |p.b|) && |p.scramble| == SCRAMBLE_LEN && Limit(p) <= SCRAMBLE_LEN
    ensures WellFormed(p)
  {
  }

  /** Among the first `n` keys no two share (a, b). */
  predicate Distinct(a: seq<bv32>, b: seq<nat>, n: nat)
    requires n <= |a| == |b|
  {
    forall k, k' :: 0 <= k < k' < n ==> a[k] != a[k'] || b[k] != b[k']
  }

  lemma DistinctNext(a: seq<bv32>, b: seq<nat>, n: nat, lists: seq<seq<nat>>)
    requires n < |a| == |b| && Listed(b, lists, n) && b[n] < |lists|
    ensures forall j :: 0 <= j < |lists[b[n]]| ==> lists[b[n]][j] < n
    ensures Distinct(a, b, n + 1) <==>
      Distinct(a, b, n) && forall j :: 0 <= j < |lists[b[n]]| ==> a[lists[b[n]][j]] != a[n]
  {
    var l := lists[b[n]];
    assert forall k :: 0 <= k < n && b[k] == b[n] ==> k in l;
  }

  lemma DistinctPrefix(a: seq<bv32>, b: seq<nat>, n: nat)
    requires n <= |a| == |b| && !Distinct(a, b, n)
    ensures !Distinct(a, b, |a|)
  {
  }

  /** The lists of `inittab`; TRUE exactly when no two keys share (a, b). */
  method InitTab(a: seq<bv32>, b: seq<nat>, blen: nat, complete: bool) returns (nocollision: bool, lists: seq<seq<nat>>)
    requires |a| == |b| && forall k :: 0 <= k < |b| ==> b[k] < blen
    ensures nocollision <==> Distinct(a, b, |a|)
    ensures nocollision || complete ==> |lists| == blen && Listed(b, lists, |b|)
  {
    hide Listed, Distinct;
    nocollision := true;
    lists := seq(blen, _ => []);
    NothingListed(a, b, lists);
    var mykey := 0;
    while mykey < |a|
      invariant 0 <= mykey <= |a| && |lists| == blen && Listed(b, lists, mykey)
      invariant nocollision <==> Distinct(a, b, mykey)
    {
      DistinctNext(a, b, mykey, lists);
      var l := lists[b[mykey]];
      var j := 0;
      while j < |l|
        invariant 0 <= j <= |l|
        invariant nocollision <==> Distinct(a, b, mykey) && forall n :: 0 <= n < j ==> a[l[n]] != a[mykey]
      {
        if a[mykey] == a[l[j]] {
          nocollision := false;
          if !complete {
            DistinctPrefix(a, b, mykey + 1);
            return;
          }
        }
        j := j + 1;
      }
      ListOne(b, lists, mykey);
      lists := lists[b[mykey] := [mykey] + lists[b[mykey]]];
      mykey := mykey + 1;
    }
  }

  lemma NothingListed(a: seq<bv32>, b: seq<nat>, lists: seq<seq<nat>>)
    requires |a| == |b| && forall x :: 0 <= x < |lists| ==> lists[x] == []
    ensures Listed(b, lists, 0) && Distinct(a, b, 0)
  {
  }

  // ---------------------------------------------------------------- the two tables

  predicate Tables(p: Problem, val: seq<nat>, tabh: seq<int>) {
    && WellFormed(p)
    && |val| == BLen(p) && |tabh| == HighHash(p)
    && (forall x :: 0 <= x < |val| ==> Fits(p, x, val[x]))
    && (forall h :: 0 <= h < |tabh| ==> NONE <= tabh[h] < KeyCount(p))
  }

  /** Key `k` sits in the table at its current hash. */
  predicate Sits(p: Problem, val: seq<nat>, tabh: seq<int>, k: nat)
    requires Tables(p, val, tabh) && k < KeyCount(p)
  {
    var v := val[p.b[k]];
    Fits(p, p.b[k], v) && Hash(p, k, v) < |tabh| && tabh[Hash(p, k, v)] == k
  }

  predicate Full(p: Problem, val: seq<nat>, tabh: seq<int>, x: nat)
    requires Tables(p, val, tabh) && x < BLen(p)
  {
    forall j :: 0 <= j < |p.lists[x]| ==> Sits(p, val, tabh, p.lists[x][j])
  }

  /** No table entry is out of date. */
  predicate NoStale(p: Problem, val: seq<nat>, tabh: seq<int>)
    requires Tables(p, val, tabh)
  {
    forall h :: 0 <= h < |tabh| && tabh[h] != NONE ==>
      val[p.b[tabh[h]]] < |p.scramble| && h == Hash(p, tabh[h], val[p.b[tabh[h]]])
  }

  /** The b in `m` are mapped completely and nothing else is in the table. */
  ghost predicate Placed(p: Problem, val: seq<nat>, tabh: seq<int>, m: set<nat>) {
    && Tables(p, val, tabh) && NoStale(p, val, tabh)
    && (forall x :: x in m ==> x < BLen(p) && Full(p, val, tabh, x))
    && (forall h :: 0 <= h < |tabh| && tabh[h] != NONE ==> p.b[tabh[h]] in m)
  }

  predicate Belongs(p: Problem, e: int, x: nat) {
    0 <= e < |p.b| && p.b[e] == x
  }

  /** The table with every entry of a key of `x` removed. */
  function Cleared(p: Problem, tabh: seq<int>, x: nat): (r: seq<int>)
    ensures |r| == |tabh|
  {
    seq(|tabh|, h requires 0 <= h < |tabh| => if Belongs(p, tabh[h], x) then NONE else tabh[h])
  }

  /** Entries of other keys than those of `x` are the same in both tables. */
  predicate SameOutside(p: Problem, t: seq<int>, t': seq<int>, x: nat) {
    && |t'| == |t|
    && (forall h :: 0 <= h < |t| && t'[h] != t[h] ==>
          && (t[h] == NONE || Belongs(p, t[h], x))
          && (t'[h] == NONE || Belongs(p, t'[h], x)))
  }

  /** As `SameOutside`, but entries of other keys may have been overwritten by keys of `x` at their hash `v`. */
  predicate MayOverwrite(p: Problem, t: seq<int>, t': seq<int>, x: nat, v: nat)
    requires WellFormed(p) && v < |p.scramble|
  {
    && |t'| == |t|
    && (forall h :: 0 <= h < |t| && t'[h] != t[h] ==>
          || (t'[h] == NONE && Belongs(p, t[h], x))
          || (Belongs(p, t'[h], x) && t'[h] < |p.a| && h == Hash(p, t'[h], v)))
  }

  predicate Absent(p: Problem, t: seq<int>, x: nat) {
    forall h :: 0 <= h < |t| ==> !Belongs(p, t[h], x)
  }

  /** What the construction is for: the final hash is injective on the keys and below the table size. */
  predicate IsPerfect(p: Problem, val: seq<nat>)
    requires WellFormed(p) && |val| == BLen(p) && forall x :: 0 <= x < |val| ==> val[x] < |p.scramble|
  {
    && (forall k :: 0 <= k < KeyCount(p) ==> Hash(p, k, val[p.b[k]]) < HighHash(p))
    && (forall k, k' :: 0 <= k < k' < KeyCount(p) ==> Hash(p, k, val[p.b[k]]) != Hash(p, k', val[p.b[k']]))
  }

  /** A table in which every b with a key is mapped is a perfect hash. */
  lemma PlacedIsPerfect(p: Problem, val: seq<nat>, tabh: seq<int>, m: set<nat>)
    requires Placed(p, val, tabh, m) && forall x :: 0 <= x < BLen(p) && p.lists[x] != [] ==> x in m
    ensures forall x :: 0 <= x < |val| ==> val[x] < |p.scramble|
    ensures IsPerfect(p, val)
  {
    AllSit(p, val, tabh, m);
    forall k | 0 <= k < KeyCount(p)
      ensures p.b[k] in m && Sits(p, val, tabh, k)
    {
      assert k in p.lists[p.b[k]];
    }
  }

  lemma KeysOf(p: Problem)
    requires WellFormed(p)
    ensures |p.a| == |p.b| && forall k :: 0 <= k < |p.b| ==> p.b[k] < BLen(p)
    ensures forall x, j :: 0 <= x < BLen(p) && 0 <= j < |p.lists[x]| ==> p.lists[x][j] < |p.b| && p.b[p.lists[x][j]] == x
  {
  }

  lemma ClearedFacts(p: Problem, val: seq<nat>, t: seq<int>, x: nat, v: nat)
    requires Tables(p, val, t) && NoStale(p, val, t) && Fits(p, x, v)
    ensures var t', val' := Cleared(p, t, x), val[x := v];
      Tables(p, val', t') && NoStale(p, val', t') && Absent(p, t', x) && SameOutside(p, t, t', x)
  {
    KeysOf(p);
    hide WellFormed;
  }

  lemma FullDistinct(p: Problem, val: seq<nat>, t: seq<int>, x: nat)
    requires Tables(p, val, t) && x < BLen(p) && Full(p, val, t, x)
    ensures val[x] < |p.scramble|
    ensures forall i, j :: 0 <= i < j < |p.lists[x]| ==> Hash(p, p.lists[x][i], val[x]) != Hash(p, p.lists[x][j], val[x])
  {
    forall i, j | 0 <= i < j < |p.lists[x]|
      ensures Hash(p, p.lists[x][i], val[x]) != Hash(p, p.lists[x][j], val[x])
    {
      assert Sits(p, val, t, p.lists[x][i]) && Sits(p, val, t, p.lists[x][j]);
    }
  }

  // ---------------------------------------------------------------- the augmenting path

  /** The spanning tree: parents come first, and every node says how its parent would move and where it was. */
  predicate Tree(p: Problem, q: seq<QNode>, tail: nat, val: seq<nat>, root: nat) {
    && WellFormed(p) && |val| == BLen(p) && root < BLen(p)
    && 1 <= tail <= |q| && q[0].b == root
    && (forall t :: 1 <= t < tail ==> q[t].parent < t && 0 <= q[q[t].parent].b < BLen(p))
    && (forall t :: 1 <= t < tail ==> Fits(p, q[q[t].parent].b, q[t].newval))
    && (forall t :: 1 <= t < tail ==> q[t].oldval == val[q[q[t].parent].b])
  }

  /** The b that move when the path from `child` to the root is applied. */
  ghost function Path(q: seq<QNode>, child: nat): set<int>
    requires child < |q| && forall t :: 1 <= t <= child ==> q[t].parent < t
    decreases child
  {
    if child == 0 then {} else {q[q[child].parent].b} + Path(q, q[child].parent)
  }

  /** Apart from the root, only mapped b are ever reached. */
  ghost predicate Reaches(q: seq<QNode>, tail: nat, root: nat, m: set<nat>) {
    && 1 <= tail <= |q|
    && (forall t :: 1 <= t < tail ==> q[t].parent < t)
    && (forall t :: 1 <= t < tail && q[t].parent != 0 ==> q[q[t].parent].b in m && q[q[t].parent].b != root)
  }

  // ---------------------------------------------------------------- roll-back

  /** Between a failed attempt and its roll-back: nothing is stale and no b off the path was touched. */
  ghost predicate Halfway(p: Problem, val0: seq<nat>, t0: seq<int>, val: seq<nat>, t: seq<int>, path: set<int>) {
    && Tables(p, val, t) && NoStale(p, val, t) && |t| == |t0|
    && |val| == |val0|
    && (forall x :: 0 <= x < |val| && x !in path ==> val[x] == val0[x])
    && (forall h :: 0 <= h < |t| && t[h] != t0[h] ==>
          && (t[h] == NONE || p.b[t[h]] in path)
          && (t0[h] == NONE || (0 <= t0[h] < |p.b| && p.b[t0[h]] in path)))
  }

  /** The b in `r` are back where they were. */
  ghost predicate Restored(p: Problem, val0: seq<nat>, val: seq<nat>, t: seq<int>, r: set<int>, root: nat) {
    && Tables(p, val, t) && |val0| == |val|
    && (forall x :: x in r ==> 0 <= x < |val| && val[x] == val0[x])
    && (forall x :: x in r && x != root ==> Full(p, val, t, x))
  }

  lemma BackStepHalfway(p: Problem, val0: seq<nat>, t0: seq<int>, m: set<nat>, path: set<int>,
                        val: seq<nat>, t: seq<int>, x: nat, t': seq<int>)
    requires Placed(p, val0, t0, m) && Halfway(p, val0, t0, val, t, path) && x in path && x < BLen(p)
    requires Tables(p, val[x := val0[x]], t') && NoStale(p, val[x := val0[x]], t')
    requires val0[x] < |p.scramble| && MayOverwrite(p, t, t', x, val0[x])
    requires x in m || Absent(p, t', x)
    ensures Halfway(p, val0, t0, val[x := val0[x]], t', path)
  {
    AllSit(p, val0, t0, m);
    forall h | 0 <= h < |t'| && t'[h] != t0[h]
      ensures t'[h] == NONE || p.b[t'[h]] in path
      ensures t0[h] == NONE || (0 <= t0[h] < |p.b| && p.b[t0[h]] in path)
    {
    }
  }

  /** Every key of a mapped b sits at its hash. */
  lemma AllSit(p: Problem, val: seq<nat>, t: seq<int>, m: set<nat>)
    requires Placed(p, val, t, m)
    ensures forall k: nat :: k < KeyCount(p) && p.b[k] in m ==> Sits(p, val, t, k)
  {
    forall k: nat | k < KeyCount(p) && p.b[k] in m
      ensures Sits(p, val, t, k)
    {
      assert k in p.lists[p.b[k]];
      assert Full(p, val, t, p.b[k]);
    }
  }

  lemma BackStepRestored(p: Problem, val0: seq<nat>, t0: seq<int>, m: set<nat>, r: set<int>, root: nat,
                         val: seq<nat>, t: seq<int>, x: nat, t': seq<int>)
    requires Placed(p, val0, t0, m) && Restored(p, val0, val, t, r, root) && x < BLen(p)
    requires forall y :: y in r && y != root ==> y in m
    requires Tables(p, val[x := val0[x]], t')
    requires val0[x] < |p.scramble| && MayOverwrite(p, t, t', x, val0[x])
    requires if x == root then Absent(p, t', x) else x in m && Full(p, val[x := val0[x]], t', x)
    ensures Restored(p, val0, val[x := val0[x]], t', r + {x}, root)
  {
    var val' := val[x := val0[x]];
    forall y | y in r && y != root && y != x
      ensures Full(p, val', t', y)
    {
      forall j | 0 <= j < |p.lists[y]|
        ensures Sits(p, val', t', p.lists[y][j])
      {
        StillSits(p, val0, t0, m, val, t, x, t', y, j);
      }
    }
  }

  lemma StillSits(p: Problem, val0: seq<nat>, t0: seq<int>, m: set<nat>, val: seq<nat>, t: seq<int>,
                  x: nat, t': seq<int>, y: nat, j: nat)
    requires Placed(p, val0, t0, m) && Tables(p, val, t) && x < BLen(p) && Tables(p, val[x := val0[x]], t')
    requires y < BLen(p) && y != x && y in m && j < |p.lists[y]| && val[y] == val0[y]
    requires Sits(p, val, t, p.lists[y][j])
    requires val0[x] < |p.scramble| && MayOverwrite(p, t, t', x, val0[x])
    requires x in m || Absent(p, t', x)
    ensures Sits(p, val[x := val0[x]], t', p.lists[y][j])
  {
    AllSit(p, val0, t0, m);
    assert Sits(p, val0, t0, p.lists[y][j]);
  }

  /** When every b of the path is back, both tables are exactly what they were. */
  lemma BackAgain(p: Problem, val0: seq<nat>, t0: seq<int>, m: set<nat>, path: set<int>, root: nat,
                  val: seq<nat>, t: seq<int>)
    requires Placed(p, val0, t0, m) && Halfway(p, val0, t0, val, t, path) && Restored(p, val0, val, t, path, root)
    requires root !in m && Absent(p, t, root) && forall y :: y in path && y != root ==> y in m
    ensures val == val0 && t == t0
  {
    forall x | 0 <= x < |val|
      ensures val[x] == val0[x]
    {
      if x in path {}
    }
    assert val == val0;
    forall h | 0 <= h < |t|
      ensures t[h] == t0[h]
    {
      if t[h] != t0[h] {
        BackAgainAt(p, val0, t0, m, path, root, t, h);
      }
    }
  }

  lemma BackAgainAt(p: Problem, val: seq<nat>, t0: seq<int>, m: set<nat>, path: set<int>, root: nat, t: seq<int>, h: nat)
    requires Placed(p, val, t0, m) && Tables(p, val, t) && NoStale(p, val, t) && Restored(p, val, val, t, path, root)
    requires root !in m && Absent(p, t, root) && forall y :: y in path && y != root ==> y in m
    requires h < |t| == |t0|
    requires t[h] == NONE || p.b[t[h]] in path
    requires t0[h] == NONE || (0 <= t0[h] < |p.b| && p.b[t0[h]] in path)
    ensures t[h] == t0[h]
  {
    AllSit(p, val, t0, m);
    BackInTable(p, val, t, path, root);
    assert !Belongs(p, t[h], root);
  }

  lemma BackInTable(p: Problem, val: seq<nat>, t: seq<int>, path: set<int>, root: nat)
    requires Restored(p, val, val, t, path, root)
    ensures forall k: nat :: k < KeyCount(p) && p.b[k] in path && p.b[k] != root ==> Sits(p, val, t, k)
  {
    forall k: nat | k < KeyCount(p) && p.b[k] in path && p.b[k] != root
      ensures Sits(p, val, t, k)
    {
      assert k in p.lists[p.b[k]];
      assert Full(p, val, t, p.b[k]);
    }
  }

  // ---------------------------------------------------------------- erasing

  /** The first `j` keys of `x` are gone from the table. */
  predicate Erased(p: Problem, t0: seq<int>, t: seq<int>, x: nat, j: nat) {
    && WellFormed(p) && x < BLen(p) && j <= |p.lists[x]| && |t| == |t0|
    && (forall h :: 0 <= h < |t0| ==> t[h] == t0[h] || (t[h] == NONE && Belongs(p, t0[h], x)))
    && (forall i, h :: 0 <= i < j && 0 <= h < |t0| && t0[h] == p.lists[x][i] ==> t[h] == NONE)
  }

  lemma EraseNone(p: Problem, t0: seq<int>, x: nat)
    requires WellFormed(p) && x < BLen(p)
    ensures Erased(p, t0, t0, x, 0)
  {
  }

  lemma EraseOne(p: Problem, val: seq<nat>, t0: seq<int>, t: seq<int>, x: nat, j: nat)
    requires Tables(p, val, t0) && NoStale(p, val, t0) && Erased(p, t0, t, x, j)
    requires x < BLen(p) && j < |p.lists[x]| && Fits(p, x, val[x])
    ensures p.lists[x][j] < |p.a| && Hash(p, p.lists[x][j], val[x]) < |t|
    ensures var k := p.lists[x][j];
      var h := Hash(p, k, val[x]);
      Erased(p, t0, if t[h] == k then t[h := NONE] else t, x, j + 1)
  {
    var k := p.lists[x][j];
    OnlyPlace(p, val, t0, k);
    EraseEffect(p, t0, t, x, j, Hash(p, k, val[x]));
  }

  lemma OnlyPlace(p: Problem, val: seq<nat>, t: seq<int>, k: nat)
    requires Tables(p, val, t) && NoStale(p, val, t) && k < KeyCount(p) && val[p.b[k]] < |p.scramble|
    ensures forall h :: 0 <= h < |t| && t[h] == k ==> h == Hash(p, k, val[p.b[k]])
  {
  }

  lemma EraseEffect(p: Problem, t0: seq<int>, t: seq<int>, x: nat, j: nat, g: nat)
    requires WellFormed(p) && Erased(p, t0, t, x, j) && x < BLen(p) && j < |p.lists[x]| && g < |t|
    requires forall h :: 0 <= h < |t0| && t0[h] == p.lists[x][j] ==> h == g
    ensures Erased(p, t0, if t[g] == p.lists[x][j] then t[g := NONE] else t, x, j + 1)
  {
  }

  lemma ErasedAll(p: Problem, t0: seq<int>, t: seq<int>, x: nat)
    requires WellFormed(p) && x < BLen(p) && Erased(p, t0, t, x, |p.lists[x]|)
    ensures t == Cleared(p, t0, x)
  {
    forall h | 0 <= h < |t0|
      ensures t[h] == Cleared(p, t0, x)[h]
    {
      if Belongs(p, t0[h], x) {
        assert t0[h] in p.lists[p.b[t0[h]]];
      }
    }
  }

  // ---------------------------------------------------------------- one step of `apply`, on values

  /** What `apply` starts from: the root is not mapped yet, and the tree describes the tables as they are. */
  ghost predicate Quest(p: Problem, q: seq<QNode>, tail: nat, val: seq<nat>, t: seq<int>, m: set<nat>, root: nat) {
    && Placed(p, val, t, m) && Tree(p, q, tail, val, root) && Reaches(q, tail, root, m)
    && root !in m && 2 <= tail
  }

  lemma QuestNode(p: Problem, q: seq<QNode>, tail: nat, val: seq<nat>, t: seq<int>, m: set<nat>, root: nat, child: nat)
    requires Quest(p, q, tail, val, t, m, root) && 0 < child < tail
    ensures tail <= |q| && WellFormed(p) && |val| == BLen(p)
    ensures forall t :: 1 <= t < tail ==> q[t].parent < t
    ensures var x := q[q[child].parent].b;
      && 0 <= x < BLen(p) && Path(q, child) == {x} + Path(q, q[child].parent)
      && Fits(p, x, q[child].newval) && q[child].oldval == val[x] && Fits(p, x, val[x])
      && (q[child].parent == 0 <==> x == root)
      && (x != root ==> x in m)
      && (x != root ==> Unshared(p, x, val[x]))
  {
    var x := q[q[child].parent].b;
    if x != root {
      FullDistinct(p, val, t, x);
    }
  }

  /** Under value `v` the keys of `x` have different hashes. */
  predicate Unshared(p: Problem, x: nat, v: nat)
    requires WellFormed(p) && x < BLen(p) && v < |p.scramble|
  {
    forall i, j :: 0 <= i < j < |p.lists[x]| ==> Hash(p, p.lists[x][i], v) != Hash(p, p.lists[x][j], v)
  }

  lemma PathInside(p: Problem, q: seq<QNode>, tail: nat, val: seq<nat>, t: seq<int>, m: set<nat>, root: nat, child: nat)
    requires Quest(p, q, tail, val, t, m, root) && child < tail <= |q|
    requires forall t :: 1 <= t < tail ==> q[t].parent < t
    ensures forall x :: x in Path(q, child) ==> x == root || x in m
    ensures child > 0 ==> root in Path(q, child)
    decreases child
  {
    if child > 0 {
      PathInside(p, q, tail, val, t, m, root, q[child].parent);
    }
  }

  lemma BackStep(p: Problem, val0: seq<nat>, t0: seq<int>, m: set<nat>, path: set<int>, r: set<int>, root: nat,
                 val: seq<nat>, t: seq<int>, x: nat, t': seq<int>)
    requires Placed(p, val0, t0, m) && Halfway(p, val0, t0, val, t, path) && Restored(p, val0, val, t, r, root)
    requires root !in m && (forall y :: y in path ==> y == root || y in m) && r <= path
    requires x < BLen(p) && x in path
    requires val0[x] < |p.scramble| && Tables(p, val[x := val0[x]], t') && NoStale(p, val[x := val0[x]], t')
    requires if x == root then t' == Cleared(p, t, x)
             else MayOverwrite(p, Cleared(p, t, x), t', x, val0[x]) && Full(p, val[x := val0[x]], t', x)
    ensures Halfway(p, val0, t0, val[x := val0[x]], t', path)
    ensures Restored(p, val0, val[x := val0[x]], t', r + {x}, root)
    ensures x == root ==> Absent(p, t', x)
  {
    hide Halfway, Restored, Placed, Full, NoStale;
    UnfoldHalfway(p, val0, t0, val, t, path);
    OverAfterClear(p, t, t', x, val0[x]);
    hide Tables, MayOverwrite, Absent, Cleared;
    BackStepHalfway(p, val0, t0, m, path, val, t, x, t');
    BackStepRestored(p, val0, t0, m, r, root, val, t, x, t');
  }

  lemma OverAfterClear(p: Problem, t: seq<int>, t': seq<int>, x: nat, v: nat)
    requires WellFormed(p) && v < |p.scramble|
    requires t' == Cleared(p, t, x) || MayOverwrite(p, Cleared(p, t, x), t', x, v)
    ensures MayOverwrite(p, t, t', x, v)
    ensures t' == Cleared(p, t, x) ==> Absent(p, t', x)
  {
  }

  lemma UnfoldHalfway(p: Problem, val0: seq<nat>, t0: seq<int>, val: seq<nat>, t: seq<int>, path: set<int>)
    requires Halfway(p, val0, t0, val, t, path)
    ensures Tables(p, val, t) && NoStale(p, val, t) && |val| == |val0| && |t| == |t0|
  {
  }

  /** One b moved forward: the path property is kept, and so is every other b that is completely placed. */
  lemma ForwardStep(p: Problem, val0: seq<nat>, t0: seq<int>, path: set<int>, val: seq<nat>, t: seq<int>,
                    x: nat, v: nat, t': seq<int>)
    requires Halfway(p, val0, t0, val, t, path) && x < BLen(p) && x in path && v < |p.scramble|
    requires Tables(p, val[x := v], t') && NoStale(p, val[x := v], t')
    requires SameOutside(p, Cleared(p, t, x), t', x)
    ensures Halfway(p, val0, t0, val[x := v], t', path)
  {
    hide WellFormed, Fits;
    TableSizes(p, val, t);
    TableSizes(p, val[x := v], t');
    hide Tables, NoStale;
    assert SameOutside(p, t, t', x);
  }

  lemma TableSizes(p: Problem, val: seq<nat>, t: seq<int>)
    requires Tables(p, val, t)
    ensures WellFormed(p) && |val| == BLen(p) && |p.a| == |p.b|
    ensures forall h :: 0 <= h < |t| ==> NONE <= t[h] < |p.b|
  {
  }

  lemma ForwardKeeps(p: Problem, val: seq<nat>, t: seq<int>, x: nat, v: nat, t': seq<int>, y: nat)
    requires Tables(p, val, t) && x < BLen(p) && Tables(p, val[x := v], t') && y < BLen(p) && y != x
    requires SameOutside(p, Cleared(p, t, x), t', x) && Full(p, val, t, y)
    ensures Full(p, val[x := v], t', y)
  {
    forall j | 0 <= j < |p.lists[y]|
      ensures Sits(p, val[x := v], t', p.lists[y][j])
    {
      assert Sits(p, val, t, p.lists[y][j]);
    }
  }

  /** The whole path has been applied without a collision: the root is mapped as well. */
  lemma ForwardDone(p: Problem, val0: seq<nat>, t0: seq<int>, m: set<nat>, path: set<int>, root: nat,
                    val: seq<nat>, t: seq<int>)
    requires Placed(p, val0, t0, m) && Halfway(p, val0, t0, val, t, path) && root < BLen(p) && root in path
    requires forall y :: y in path ==> 0 <= y < BLen(p) && (y == root || y in m)
    requires forall y :: y in path && 0 <= y < BLen(p) ==> Full(p, val, t, y)
    ensures Placed(p, val, t, m + {root})
  {
    hide WellFormed, Fits, Full, Sits;
    TableSizes(p, val0, t0);
    TableSizes(p, val, t);
    forall y | y in m && y !in path
      ensures Full(p, val, t, y)
    {
      Untouched(p, val0, t0, val, t, path, y);
    }
    hide Tables, NoStale;
  }

  /** What the path does not touch stays placed. */
  lemma Untouched(p: Problem, val0: seq<nat>, t0: seq<int>, val: seq<nat>, t: seq<int>, path: set<int>, y: nat)
    requires Tables(p, val0, t0) && Halfway(p, val0, t0, val, t, path) && |val0| == |val|
    requires y < BLen(p) && y !in path && Full(p, val0, t0, y)
    ensures Full(p, val, t, y)
  {
    KeysOf(p);
    hide WellFormed, NoStale;
    forall j | 0 <= j < |p.lists[y]|
      ensures Sits(p, val, t, p.lists[y][j])
    {
      assert Sits(p, val0, t0, p.lists[y][j]);
    }
  }

  // ---------------------------------------------------------------- the search, on values

  /** The b whose key is in the way of key `k` at value `i`. */
  function Hit(p: Problem, t: seq<int>, k: nat, i: nat): int
    requires WellFormed(p) && k < KeyCount(p) && i < |p.scramble|
  {
    var h := Hash(p, k, i);
    if h < |t| && 0 <= t[h] < |p.b| then p.b[t[h]] else NONE
  }

  /** Value `i` suits `x` with `c` the only b in the way (NONE: nothing is), and `c` not explored yet. */
  ghost predicate Suits(p: Problem, t: seq<int>, water: seq<nat>, highwater: nat, x: nat, i: nat, c: int)
    requires WellFormed(p)
  {
    && Fits(p, x, i)
    && (forall j :: 0 <= j < |p.lists[x]| ==> Hit(p, t, p.lists[x][j], i) in {NONE, c})
    && (c != NONE ==> 0 <= c < |water| && water[c] != highwater)
    && (c != NONE ==> exists j :: 0 <= j < |p.lists[x]| && Hit(p, t, p.lists[x][j], i) == c)
  }

  /** As `Suits`, for the first `j` keys of `x`. */
  predicate Scanned(p: Problem, t: seq<int>, water: seq<nat>, highwater: nat, x: nat, i: nat, j: nat, c: int)
    requires WellFormed(p) && x < BLen(p) && i < |p.scramble|
  {
    && j <= |p.lists[x]|
    && (forall n :: 0 <= n < j ==> p.lists[x][n] < KeyCount(p) && Hash(p, p.lists[x][n], i) < HighHash(p))
    && (forall n :: 0 <= n < j ==> Hit(p, t, p.lists[x][n], i) in {NONE, c})
    && (c != NONE ==> 0 <= c < |water| && water[c] != highwater)
    && (c != NONE ==> exists n :: 0 <= n < j && Hit(p, t, p.lists[x][n], i) == c)
  }

  lemma ScanStart(p: Problem, t: seq<int>, water: seq<nat>, highwater: nat, x: nat, i: nat)
    requires WellFormed(p) && x < BLen(p) && i < |p.scramble|
    ensures Scanned(p, t, water, highwater, x, i, 0, NONE)
  {
  }

  /** One key of `x`: where it would go, and who is there. */
  lemma ScanPlace(p: Problem, val: seq<nat>, t: seq<int>, x: nat, i: nat, j: nat)
    requires Tables(p, val, t) && x < BLen(p) && i < |p.scramble| && j < |p.lists[x]|
    ensures p.lists[x][j] < |p.a| && |p.a| == |p.b| && |t| == HighHash(p)
    ensures var h := Hash(p, p.lists[x][j], i);
      && (h < |t| && t[h] == NONE ==> Hit(p, t, p.lists[x][j], i) == NONE)
      && (h < |t| && t[h] != NONE ==> 0 <= t[h] < |p.b| && p.b[t[h]] < BLen(p) && Hit(p, t, p.lists[x][j], i) == p.b[t[h]])
  {
    KeysOf(p);
    TableSizes(p, val, t);
    assert |t| == HighHash(p);
    hide WellFormed, Tables, Hash;
  }

  /** Out of bounds: the value does not fit. */
  lemma ScanOut(p: Problem, t: seq<int>, water: seq<nat>, highwater: nat, x: nat, i: nat, j: nat)
    requires WellFormed(p) && x < BLen(p) && i < |p.scramble| && j < |p.lists[x]| && p.lists[x][j] < |p.a|
    requires Hash(p, p.lists[x][j], i) >= HighHash(p)
    ensures forall d :: !Suits(p, t, water, highwater, x, i, d)
  {
    hide WellFormed, Hash;
  }

  /** Nothing in the way, or again the b that is already in the way, or the first one. */
  lemma ScanOn(p: Problem, t: seq<int>, water: seq<nat>, highwater: nat, x: nat, i: nat, j: nat, c: int, d: int)
    requires WellFormed(p) && x < BLen(p) && i < |p.scramble| && j < |p.lists[x]| && p.lists[x][j] < |p.a|
    requires Scanned(p, t, water, highwater, x, i, j, c) && Hash(p, p.lists[x][j], i) < HighHash(p)
    requires Hit(p, t, p.lists[x][j], i) in {NONE, d}
    requires d == c || (c == NONE && 0 <= d < |water| && water[d] != highwater && Hit(p, t, p.lists[x][j], i) == d)
    ensures Scanned(p, t, water, highwater, x, i, j + 1, d)
  {
    hide WellFormed, Hash, Hit;
    assert d != NONE && d == c ==> exists n :: 0 <= n < j && Hit(p, t, p.lists[x][n], i) == d;
  }

  /** A second b in the way, or one that is explored: no value of `c` will do. */
  lemma ScanStop(p: Problem, t: seq<int>, water: seq<nat>, highwater: nat, x: nat, i: nat, j: nat, c: int, hit: nat)
    requires WellFormed(p) && x < BLen(p) && i < |p.scramble| && j < |p.lists[x]| && p.lists[x][j] < |p.a|
    requires Scanned(p, t, water, highwater, x, i, j, c)
    requires Hit(p, t, p.lists[x][j], i) == hit < |water|
    requires if c == NONE then water[hit] == highwater else c != hit
    ensures forall d :: !Suits(p, t, water, highwater, x, i, d)
  {
    KeysOf(p);
    hide WellFormed, Hash, Hit, Fits;
    if c != NONE {
      var n :| 0 <= n < j && Hit(p, t, p.lists[x][n], i) == c;
    }
  }

  lemma ScanEnd(p: Problem, t: seq<int>, water: seq<nat>, highwater: nat, x: nat, i: nat, c: int)
    requires WellFormed(p) && x < BLen(p) && i < |p.scramble| && Scanned(p, t, water, highwater, x, i, |p.lists[x]|, c)
    ensures Suits(p, t, water, highwater, x, i, c)
  {
    hide WellFormed;
  }

  /** The state of the search: distinct mapped b in the queue below the root, each one marked. */
  ghost predicate Exploring(p: Problem, q: seq<QNode>, tail: nat, val: seq<nat>, t: seq<int>, m: set<nat>,
                            root: nat, water: seq<nat>, highwater: nat) {
    && Placed(p, val, t, m) && Tree(p, q, tail, val, root) && Reaches(q, tail, root, m) && root !in m
    && Marked(q, tail, m, water, highwater, BLen(p))
  }

  lemma ExploringFacts(p: Problem, q: seq<QNode>, tail: nat, val: seq<nat>, t: seq<int>, m: set<nat>,
                       root: nat, water: seq<nat>, highwater: nat)
    requires Exploring(p, q, tail, val, t, m, root, water, highwater)
    ensures WellFormed(p) && Placed(p, val, t, m) && Tables(p, val, t) && |val| == |water| == BLen(p) && |q| == BLen(p) + 1 && 1 <= tail <= BLen(p)
    ensures Limit(p) <= |p.scramble|
    ensures forall s :: 0 <= s < tail ==> 0 <= q[s].b < BLen(p)
  {
  }

  lemma ExploringStart(p: Problem, q: seq<QNode>, val: seq<nat>, t: seq<int>, m: set<nat>,
                       root: nat, water: seq<nat>, highwater: nat)
    requires Placed(p, val, t, m) && root !in m && root < BLen(p) && |water| == BLen(p)
    requires |q| == BLen(p) + 1 && q[0].b == root
    ensures Exploring(p, q, 1, val, t, m, root, water, highwater)
  {
  }

  /** Distinct numbers below `n` are at most `n` many. */
  lemma {:induction false} AtMost(s: seq<int>, n: nat)
    requires forall i :: 0 <= i < |s| ==> 0 <= s[i] < n
    requires forall i, j :: 0 <= i < j < |s| ==> s[i] != s[j]
    ensures |s| <= n
    decreases n
  {
    if |s| > 0 {
      assert 0 <= s[0] < n;
      if k :| 0 <= k < |s| && s[k] == n - 1 {
        var rest := s[..k] + s[k + 1..];
        AtMost(rest, n - 1);
      } else {
        AtMost(s, n - 1);
      }
    }
  }

  lemma TreeGrows(p: Problem, q: seq<QNode>, tail: nat, val: seq<nat>, root: nat, node: QNode)
    requires Tree(p, q, tail, val, root) && |val| == BLen(p) && WellFormed(p)
    requires node.parent < tail < |q| && 0 <= q[node.parent].b < BLen(p)
    requires node.oldval == val[q[node.parent].b] && Fits(p, q[node.parent].b, node.newval)
    ensures Tree(p, q[tail := node], tail, val, root) && Tree(p, q[tail := node], tail + 1, val, root)
  {
    hide WellFormed, Fits;
    var q' := q[tail := node];
    forall t | 1 <= t < tail + 1
      ensures q'[t].parent < t && q'[q'[t].parent].b == q[q'[t].parent].b
      ensures t < tail ==> q'[t] == q[t]
    {
    }
  }

  lemma ReachesGrows(q: seq<QNode>, tail: nat, root: nat, m: set<nat>, node: QNode)
    requires Reaches(q, tail, root, m) && node.parent < tail < |q|
    requires forall s :: 1 <= s < tail ==> q[s].b in m
    requires root !in m
    ensures Reaches(q[tail := node], tail, root, m) && Reaches(q[tail := node], tail + 1, root, m)
  {
  }

  /** The marked nodes below the root. */
  ghost predicate Marked(q: seq<QNode>, tail: nat, m: set<nat>, water: seq<nat>, highwater: nat, n: nat) {
    && 1 <= tail <= n && |q| == n + 1 && |water| == n
    && (forall s :: 0 <= s < tail ==> 0 <= q[s].b < n)
    && (forall s :: 1 <= s < tail ==> q[s].b in m && water[q[s].b] == highwater)
    && (forall s, s' :: 0 <= s < s' < tail ==> q[s].b != q[s'].b)
  }

  lemma MarkedGrows(q: seq<QNode>, tail: nat, m: set<nat>, water: seq<nat>, highwater: nat, n: nat, root: nat, node: QNode)
    requires Marked(q, tail, m, water, highwater, n) && q[0].b == root && root !in m
    requires 0 <= node.b < n && node.b in m && water[node.b] != highwater
    ensures tail + 1 <= n && Marked(q[tail := node], tail + 1, m, water[node.b := highwater], highwater, n)
  {
    assert forall s :: 0 <= s < tail ==> q[s].b != node.b;
    var bs := seq(tail + 1, s requires 0 <= s < tail + 1 => if s < tail then q[s].b else node.b);
    assert forall s :: 0 <= s < tail ==> bs[s] == q[s].b;
    AtMost(bs, n);
  }

  /** A child that was not marked is new, so there is room for it, and for a leaf after it. */
  lemma ExploringChild(p: Problem, q: seq<QNode>, tail: nat, val: seq<nat>, t: seq<int>, m: set<nat>,
                       root: nat, water: seq<nat>, highwater: nat, node: QNode)
    requires Exploring(p, q, tail, val, t, m, root, water, highwater) && |val| == |water| == BLen(p)
    requires node.parent < tail <= |q| && 0 <= q[node.parent].b < BLen(p)
    requires node.oldval == val[q[node.parent].b]
    requires WellFormed(p) && Fits(p, q[node.parent].b, node.newval)
    requires 0 <= node.b < BLen(p) && node.b in m && water[node.b] != highwater
    ensures tail < |q|
    ensures Exploring(p, q[tail := node], tail + 1, val, t, m, root, water[node.b := highwater], highwater)
  {
    hide WellFormed, Fits, Placed;
    assert q[0].b == root && forall s :: 1 <= s < tail ==> q[s].b in m;
    hide Tree;
    MarkedGrows(q, tail, m, water, highwater, BLen(p), root, node);
    TreeGrows(p, q, tail, val, root, node);
    ReachesGrows(q, tail, root, m, node);
  }

  lemma ExploringLeaf(p: Problem, q: seq<QNode>, tail: nat, val: seq<nat>, t: seq<int>, m: set<nat>,
                      root: nat, water: seq<nat>, highwater: nat, node: QNode)
    requires Exploring(p, q, tail, val, t, m, root, water, highwater) && |val| == BLen(p)
    requires node.parent < tail < |q| && 0 <= q[node.parent].b < BLen(p)
    requires node.oldval == val[q[node.parent].b]
    requires WellFormed(p) && Fits(p, q[node.parent].b, node.newval)
    ensures Quest(p, q[tail := node], tail + 1, val, t, m, root)
    ensures Exploring(p, q[tail := node], tail, val, t, m, root, water, highwater)
  {
    hide WellFormed, Fits, Placed, Tree;
    assert forall s :: 1 <= s < tail ==> q[s].b in m;
    TreeGrows(p, q, tail, val, root, node);
    ReachesGrows(q, tail, root, m, node);
    assert Marked(q[tail := node], tail, m, water, highwater, BLen(p));
  }

  /** What is in the way is mapped. */
  lemma HitIsMapped(p: Problem, val: seq<nat>, t: seq<int>, m: set<nat>, water: seq<nat>, highwater: nat,
                    x: nat, i: nat, c: int)
    requires Placed(p, val, t, m) && Suits(p, t, water, highwater, x, i, c) && c != NONE
    ensures 0 <= c < BLen(p) && c in m
  {
  }

  // ---------------------------------------------------------------- when the search is exhausted

  /** Value `i` suits `x` but for the one b in the way, `c`; for NONE the places of all keys of `x` are free. */
  ghost predicate Alone(p: Problem, t: seq<int>, x: nat, i: nat, c: int)
    requires WellFormed(p)
  {
    && Fits(p, x, i)
    && (forall j :: 0 <= j < |p.lists[x]| ==> Hit(p, t, p.lists[x][j], i) in {NONE, c})
    && (c != NONE ==> exists j :: 0 <= j < |p.lists[x]| && Hit(p, t, p.lists[x][j], i) == c)
  }

  /** Whoever alone is in the way of `x` at one of the first `n` values is marked. */
  ghost predicate Explored(p: Problem, t: seq<int>, water: seq<nat>, highwater: nat, x: nat, n: nat)
    requires WellFormed(p)
  {
    forall i: nat, c: int :: i < n && Alone(p, t, x, i, c) && c != NONE ==> 0 <= c < |water| && water[c] == highwater
  }

  predicate MarksGrow(water: seq<nat>, water': seq<nat>, highwater: nat) {
    |water'| == |water| && forall x :: 0 <= x < |water| ==> water'[x] == water[x] || water'[x] == highwater
  }

  /** A mark that was not there before belongs to a node added since. */
  ghost predicate MarksAreNodes(q: seq<QNode>, since: nat, tail: nat, water: seq<nat>, water': seq<nat>, highwater: nat) {
    && since <= tail <= |q| && |water'| == |water|
    && forall x :: 0 <= x < |water| && water'[x] == highwater ==>
         water[x] == highwater || exists s :: since <= s < tail && q[s].b == x
  }

  lemma ExploredKept(p: Problem, t: seq<int>, water: seq<nat>, water': seq<nat>, highwater: nat, x: nat, n: nat)
    requires WellFormed(p) && Explored(p, t, water, highwater, x, n) && MarksGrow(water, water', highwater)
    ensures Explored(p, t, water', highwater, x, n)
  {
    hide WellFormed, Alone;
  }

  /** One more value tried: not suitable, or its child was just marked, or nothing is in the way. */
  lemma ExploredNext(p: Problem, t: seq<int>, water: seq<nat>, water': seq<nat>, highwater: nat, x: nat, i: nat,
                     through: bool, child: int)
    requires WellFormed(p) && Explored(p, t, water, highwater, x, i) && MarksGrow(water, water', highwater)
    requires forall k :: 0 <= k < |t| ==> NONE <= t[k] < |p.b|
    requires |water| == BLen(p)
    requires if through then Suits(p, t, water, highwater, x, i, child)
             else forall c :: !Suits(p, t, water, highwater, x, i, c)
    requires through && child != NONE ==> 0 <= child < |water'| && water'[child] == highwater
    ensures Explored(p, t, water', highwater, x, i + 1)
  {
    forall c: int | Alone(p, t, x, i, c) && c != NONE
      ensures 0 <= c < |water'| && water'[c] == highwater
    {
      AloneOnly(p, t, water, highwater, x, i, through, child, c);
    }
    hide WellFormed, Alone, Suits;
  }

  lemma AloneOnly(p: Problem, t: seq<int>, water: seq<nat>, highwater: nat, x: nat, i: nat, through: bool, child: int, c: int)
    requires WellFormed(p) && Alone(p, t, x, i, c) && c != NONE && |water| == BLen(p)
    requires if through then Suits(p, t, water, highwater, x, i, child)
             else forall c :: !Suits(p, t, water, highwater, x, i, c)
    ensures 0 <= c < |water| && (if through then c == child else water[c] == highwater)
  {
    KeysOf(p);
    hide WellFormed, Fits, Hash;
    var j :| 0 <= j < |p.lists[x]| && Hit(p, t, p.lists[x][j], i) == c;
    if !through {
      assert !Suits(p, t, water, highwater, x, i, c);
    }
  }

  lemma SuitsAlone(p: Problem, t: seq<int>, water: seq<nat>, highwater: nat, x: nat, i: nat)
    requires WellFormed(p)
    ensures Suits(p, t, water, highwater, x, i, NONE) <==> Alone(p, t, x, i, NONE)
  {
  }

  function Index(x: bv32): nat { x as nat }

  lemma IndexBack(x: bv32)
    ensures Index(x) as bv32 == x
  {
  }

  function XorOf(x: bv32, y: bv32): bv32 { x ^ y }

  lemma XorBack(a: bv32, s: bv32)
    ensures XorOf(XorOf(a, s), s) == a
  {
  }

  lemma XorIndex(a: bv32, s: bv32)
    ensures Xor(a, s) == Index(XorOf(a, s))
  {
  }

  lemma XorOnce(a: bv32, b: bv32, s: bv32)
    requires a != b
    ensures Xor(a, s) != Xor(b, s)
  {
    hide *;
    XorIndex(a, s);
    XorIndex(b, s);
    IndexBack(XorOf(a, s));
    IndexBack(XorOf(b, s));
    XorBack(a, s);
    XorBack(b, s);
  }

  /** Keys with different (a, b) never collide among those of one b. */
  lemma DistinctUnshared(p: Problem, x: nat, v: nat)
    requires WellFormed(p) && x < BLen(p) && v < |p.scramble| && Distinct(p.a, p.b, |p.a|)
    ensures Unshared(p, x, v)
  {
    KeysOf(p);
    forall i, j | 0 <= i < j < |p.lists[x]|
      ensures Hash(p, p.lists[x][i], v) != Hash(p, p.lists[x][j], v)
    {
      var k, k' := p.lists[x][i], p.lists[x][j];
      assert k != k' && p.b[k] == p.b[k'];
      hide Xor, WellFormed;
      XorOnce(p.a[k], p.a[k'], p.scramble[v]);
    }
  }

  /** The first `n` nodes are the same. */
  predicate SameNodes(q: seq<QNode>, q': seq<QNode>, n: nat) {
    n <= |q| == |q'| && forall s :: 0 <= s < n ==> q'[s] == q[s]
  }

  /** The first `n` nodes have been explored. */
  ghost predicate AllExplored(p: Problem, t: seq<int>, water: seq<nat>, highwater: nat, q: seq<QNode>, n: nat)
    requires WellFormed(p) && n <= |q|
  {
    forall s :: 0 <= s < n && q[s].b >= 0 ==> Explored(p, t, water, highwater, q[s].b, Limit(p))
  }

  lemma ChildrenStart(p: Problem, q: seq<QNode>, first: nat, water: seq<nat>, t: seq<int>, x: nat, highwater: nat)
    requires WellFormed(p) && first <= |q|
    ensures SameNodes(q, q, first) && MarksGrow(water, water, highwater)
    ensures MarksAreNodes(q, first, first, water, water, highwater)
    ensures Explored(p, t, water, highwater, x, 0)
  {
    hide WellFormed;
  }

  lemma ChildMarked(q: seq<QNode>, first: nat, tail: nat, water0: seq<nat>, water: seq<nat>, highwater: nat, child: QNode)
    requires MarksAreNodes(q, first, tail, water0, water, highwater) && tail < |q| && 0 <= child.b < |water|
    requires MarksGrow(water0, water, highwater)
    ensures MarksAreNodes(q[tail := child], first, tail + 1, water0, water[child.b := highwater], highwater)
    ensures MarksGrow(water0, water[child.b := highwater], highwater)
  {
    var q', w' := q[tail := child], water[child.b := highwater];
    forall x | 0 <= x < |water0| && w'[x] == highwater && water0[x] != highwater
      ensures exists s :: first <= s < tail + 1 && q'[s].b == x
    {
      if x == child.b {
        assert q'[tail].b == x;
      } else {
        var s :| first <= s < tail && q[s].b == x;
        assert q'[s].b == x;
      }
    }
  }

  lemma LeafMarks(q: seq<QNode>, first: nat, tail: nat, water0: seq<nat>, water: seq<nat>, highwater: nat, child: QNode)
    requires MarksAreNodes(q, first, tail, water0, water, highwater) && tail < |q|
    ensures MarksAreNodes(q[tail := child], first, tail, water0, water, highwater)
  {
    var q' := q[tail := child];
    forall x | 0 <= x < |water0| && water[x] == highwater && water0[x] != highwater
      ensures exists s :: first <= s < tail && q'[s].b == x
    {
      var s :| first <= s < tail && q[s].b == x;
      assert q'[s].b == x;
    }
  }

  lemma MarksStep(water: seq<nat>, water': seq<nat>, highwater: nat, child: int, through: bool)
    requires water' == if through && 0 <= child < |water| then water[child := highwater] else water
    ensures MarksGrow(water, water', highwater)
  {
  }

  lemma ValueTried(p: Problem, val: seq<nat>, t: seq<int>, water: seq<nat>, water': seq<nat>, highwater: nat, x: nat,
                   i: nat, through: bool, child: int)
    requires Tables(p, val, t) && |water| == BLen(p) && MarksGrow(water, water', highwater)
    requires Explored(p, t, water, highwater, x, i)
    requires if through then Suits(p, t, water, highwater, x, i, child)
             else forall c :: !Suits(p, t, water, highwater, x, i, c)
    requires through && child != NONE ==> 0 <= child < |water'| && water'[child] == highwater
    ensures Explored(p, t, water', highwater, x, i + 1)
  {
    TableSizes(p, val, t);
    hide Tables, Suits, Explored, MarksGrow;
    ExploredNext(p, t, water, water', highwater, x, i, through, child);
  }

  lemma SuitsOccupied(p: Problem, t: seq<int>, water: seq<nat>, highwater: nat, x: nat, i: nat, c: int)
    requires WellFormed(p)
    ensures Suits(p, t, water, highwater, x, i, c) && c != NONE ==> !Alone(p, t, x, i, NONE)
  {
  }

  lemma SearchStart(p: Problem, q: seq<QNode>, water: seq<nat>, t: seq<int>, highwater: nat)
    requires WellFormed(p) && |q| > 0
    ensures MarksGrow(water, water, highwater) && MarksAreNodes(q, 1, 1, water, water, highwater)
    ensures AllExplored(p, t, water, highwater, q, 0) && Edges(p, t, q, 1)
  {
    hide WellFormed;
  }

  lemma MarksAnyway(w0: seq<nat>, w1: seq<nat>, w2: seq<nat>, highwater: nat)
    requires MarksGrow(w0, w1, highwater) && MarksGrow(w1, w2, highwater)
    ensures MarksGrow(w0, w2, highwater)
  {
  }

  lemma MarksChain(q: seq<QNode>, q': seq<QNode>, tail: nat, tail': nat, w0: seq<nat>, w1: seq<nat>, w2: seq<nat>,
                   highwater: nat)
    requires MarksGrow(w0, w1, highwater) && MarksGrow(w1, w2, highwater) && 1 <= tail <= tail'
    requires MarksAreNodes(q, 1, tail, w0, w1, highwater) && MarksAreNodes(q', tail, tail', w1, w2, highwater)
    requires SameNodes(q, q', tail)
    ensures MarksGrow(w0, w2, highwater) && MarksAreNodes(q', 1, tail', w0, w2, highwater)
  {
    forall x | 0 <= x < |w0| && w2[x] == highwater && w0[x] != highwater
      ensures exists s :: 1 <= s < tail' && q'[s].b == x
    {
      if w1[x] == highwater {
        var s :| 1 <= s < tail && q[s].b == x;
        assert q'[s].b == x;
      } else {
        var s :| tail <= s < tail' && q'[s].b == x;
      }
    }
  }

  lemma AllExploredNext(p: Problem, t: seq<int>, w1: seq<nat>, w2: seq<nat>, highwater: nat, q: seq<QNode>,
                        q': seq<QNode>, tail: nat, n: nat)
    requires WellFormed(p) && n < tail && SameNodes(q, q', tail) && MarksGrow(w1, w2, highwater)
    requires AllExplored(p, t, w1, highwater, q, n) && q'[n].b >= 0
    requires Explored(p, t, w2, highwater, q'[n].b, Limit(p))
    ensures AllExplored(p, t, w2, highwater, q', n + 1)
  {
    hide WellFormed, Explored, MarksGrow;
    forall s | 0 <= s < n && q'[s].b >= 0
      ensures Explored(p, t, w2, highwater, q'[s].b, Limit(p))
    {
      ExploredKept(p, t, w1, w2, highwater, q[s].b, Limit(p));
    }
  }

  lemma RootOf(p: Problem, q: seq<QNode>, tail: nat, val: seq<nat>, t: seq<int>, m: set<nat>, root: nat,
               water: seq<nat>, highwater: nat)
    requires Exploring(p, q, tail, val, t, m, root, water, highwater)
    ensures |q| > 0 && q[0].b == root
    ensures tail <= |q| && forall s, s' :: 0 <= s < s' < tail ==> q[s].b != q[s'].b
  {
  }

  /** Only the places of the first `j` keys of `x` have changed. */
  ghost predicate OnlyNew(p: Problem, t0: seq<int>, t: seq<int>, x: nat, v: nat, j: nat)
    requires WellFormed(p) && x < BLen(p) && v < |p.scramble|
  {
    && |t| == |t0| && j <= |p.lists[x]|
    && forall h :: 0 <= h < |t| && t[h] != t0[h] ==> exists n :: 0 <= n < j && h == Hash(p, p.lists[x][n], v)
  }

  lemma NothingNew(p: Problem, t: seq<int>, x: nat, v: nat)
    requires WellFormed(p) && x < BLen(p) && v < |p.scramble|
    ensures OnlyNew(p, t, t, x, v, 0)
  {
  }

  lemma OneNew(p: Problem, t0: seq<int>, t: seq<int>, x: nat, v: nat, j: nat)
    requires WellFormed(p) && x < BLen(p) && v < |p.scramble| && j < |p.lists[x]| && OnlyNew(p, t0, t, x, v, j)
    requires p.lists[x][j] < |p.a| && Hash(p, p.lists[x][j], v) < |t|
    ensures OnlyNew(p, t0, t[Hash(p, p.lists[x][j], v) := p.lists[x][j]], x, v, j + 1)
  {
    KeysOf(p);
    hide WellFormed, Xor;
    var t' := t[Hash(p, p.lists[x][j], v) := p.lists[x][j]];
    forall h | 0 <= h < |t| && t'[h] != t0[h]
      ensures exists n :: 0 <= n < j + 1 && h == Hash(p, p.lists[x][n], v)
    {
      if t[h] != t0[h] {
        var n :| 0 <= n < j && h == Hash(p, p.lists[x][n], v);
      } else {
        assert h == Hash(p, p.lists[x][j], v);
      }
    }
  }

  /** A place that a key of `x` needs at value `v` is taken, in the table or by another key of `x`. */
  ghost predicate Occupied(p: Problem, t: seq<int>, x: nat, v: nat)
    requires WellFormed(p) && x < BLen(p) && v < |p.scramble|
  {
    exists j :: 0 <= j < |p.lists[x]| && OccupiedAt(p, t, x, v, j)
  }

  ghost predicate OccupiedAt(p: Problem, t: seq<int>, x: nat, v: nat, j: nat)
    requires WellFormed(p) && x < BLen(p) && v < |p.scramble| && j < |p.lists[x]|
  {
    var h := Hash(p, p.lists[x][j], v);
    h < |t| && (t[h] != NONE || exists n :: 0 <= n < j && Hash(p, p.lists[x][n], v) == h)
  }

  lemma WasOccupied(p: Problem, t0: seq<int>, t: seq<int>, x: nat, v: nat, j: nat)
    requires WellFormed(p) && x < BLen(p) && v < |p.scramble| && j < |p.lists[x]| && OnlyNew(p, t0, t, x, v, j)
    requires Hash(p, p.lists[x][j], v) < |t| && t[Hash(p, p.lists[x][j], v)] != NONE
    ensures Occupied(p, t0, x, v)
  {
    KeysOf(p);
    hide WellFormed, Xor;
    assert OccupiedAt(p, t0, x, v, j);
  }

  // ---------------------------------------------------------------- when a path collides with itself

  /** The values after the moves from node `s` up to the root. */
  ghost function PathVal(q: seq<QNode>, s: nat, val: seq<nat>): (r: seq<nat>)
    ensures |r| == |val|
    decreases s
  {
    if s == 0 || s >= |q| || q[s].parent >= s || !(0 <= q[q[s].parent].b < |val|) then val
    else PathVal(q, q[s].parent, val[q[q[s].parent].b := q[s].newval])
  }

  /** The b that these moves change. */
  ghost function Movers(q: seq<QNode>, s: nat): set<int>
    decreases s
  {
    if s == 0 || s >= |q| || q[s].parent >= s then {} else {q[q[s].parent].b} + Movers(q, q[s].parent)
  }

  predicate SameHash(p: Problem, v: seq<nat>, k: nat, k': nat)
    requires WellFormed(p) && k < |p.a| && k' < |p.a| && |v| == BLen(p)
  {
    var x, x' := v[p.b[k]], v[p.b[k']];
    x < |p.scramble| && x' < |p.scramble| && Hash(p, k, x) == Hash(p, k', x')
  }

  /** Under the values `v` two keys of the b in `path` have the same hash. */
  ghost predicate Collides(p: Problem, v: seq<nat>, path: set<int>)
    requires WellFormed(p) && |v| == BLen(p)
  {
    exists k, k' :: 0 <= k < |p.a| && 0 <= k' < |p.a| && k != k' && p.b[k] in path && p.b[k'] in path
                    && SameHash(p, v, k, k')
  }

  /** A tree of different b in which every move finds only the child in its way, and the last one nothing. */
  ghost predicate PathTree(p: Problem, t: seq<int>, q: seq<QNode>, tail: nat)
    requires WellFormed(p)
  {
    && 2 <= tail <= |q| && q[tail - 1].b == NONE
    && (forall s, s' :: 0 <= s < s' < tail - 1 ==> q[s].b != q[s'].b)
    && (forall s :: 1 <= s < tail ==> Edge(p, t, q, s))
  }

  ghost predicate Edge(p: Problem, t: seq<int>, q: seq<QNode>, s: nat)
    requires WellFormed(p) && 1 <= s < |q|
  {
    && q[s].parent < s && 0 <= q[q[s].parent].b < BLen(p)
    && Alone(p, t, q[q[s].parent].b, q[s].newval, q[s].b)
  }

  lemma {:induction false} PathValOutside(q: seq<QNode>, s: nat, val: seq<nat>, y: nat)
    requires y < |val| && y !in Movers(q, s)
    ensures PathVal(q, s, val)[y] == val[y]
    decreases s
  {
    if !(s == 0 || s >= |q| || q[s].parent >= s || !(0 <= q[q[s].parent].b < |val|)) {
      PathValOutside(q, q[s].parent, val[q[q[s].parent].b := q[s].newval], y);
    }
  }

  lemma {:induction false} MoversBefore(q: seq<QNode>, s: nat)
    requires s < |q|
    ensures forall x :: x in Movers(q, s) ==> exists s' :: 0 <= s' < s && q[s'].b == x
    decreases s
  {
    if s > 0 && q[s].parent < s {
      MoversBefore(q, q[s].parent);
    }
  }

  /** Forward, having come up to node `child`: those in `done` have their final values, the rest has not moved. */
  ghost predicate OnWay(p: Problem, q: seq<QNode>, tail: nat, child: nat, val: seq<nat>, t: seq<int>, t0: seq<int>,
                        pv: seq<nat>, done: set<int>) {
    && child < tail <= |q| && PathVal(q, child, val) == pv
    && done + Movers(q, child) == Movers(q, tail - 1) && done !! Movers(q, child)
    && (child == tail - 1 || q[child].b in done)
    && (forall y :: 0 <= y < |val| && y in done ==> val[y] == pv[y])
    && Settled(p, t, t0, done)
  }

  predicate Settled(p: Problem, t: seq<int>, t0: seq<int>, done: set<int>) {
    && |t| == |t0|
    && forall h :: 0 <= h < |t| && 0 <= t[h] < |p.b| && p.b[t[h]] !in done ==> t0[h] == t[h]
  }

  lemma OnWayStart(p: Problem, q: seq<QNode>, tail: nat, val: seq<nat>, t: seq<int>)
    requires 1 <= tail <= |q|
    ensures OnWay(p, q, tail, tail - 1, val, t, t, PathVal(q, tail - 1, val), {})
  {
  }

  /** What one node on the way up is. */
  lemma NodeFacts(p: Problem, t0: seq<int>, q: seq<QNode>, tail: nat, child: nat)
    requires WellFormed(p) && PathTree(p, t0, q, tail) && 0 < child < tail
    ensures q[child].parent < child
    ensures var pb := q[q[child].parent].b;
      && 0 <= pb < BLen(p) && pb !in Movers(q, q[child].parent)
      && Movers(q, child) == {pb} + Movers(q, q[child].parent)
      && Alone(p, t0, pb, q[child].newval, q[child].b)
  {
    assert Edge(p, t0, q, child);
    MoversBefore(q, q[child].parent);
    hide WellFormed, Alone;
  }

  lemma OnWayStep(p: Problem, q: seq<QNode>, tail: nat, child: nat, val: seq<nat>, t: seq<int>, t0: seq<int>,
                  pv: seq<nat>, done: set<int>, t': seq<int>)
    requires WellFormed(p) && PathTree(p, t0, q, tail) && 0 < child && OnWay(p, q, tail, child, val, t, t0, pv, done)
    requires |val| == BLen(p) && q[child].parent < child && 0 <= q[q[child].parent].b < BLen(p)
    requires SameOutside(p, Cleared(p, t, q[q[child].parent].b), t', q[q[child].parent].b)
    requires forall h :: 0 <= h < |t'| ==> NONE <= t'[h] < |p.b|
    ensures var pb := q[q[child].parent].b;
      OnWay(p, q, tail, q[child].parent, val[pb := q[child].newval], t', t0, pv, done + {pb})
  {
    NodeFacts(p, t0, q, tail, child);
    var up := q[child].parent;
    var pb := q[up].b;
    var val' := val[pb := q[child].newval];
    assert PathVal(q, up, val') == pv;
    PathValOutside(q, up, val', pb);
    SettledStep(p, t, t0, done, pb, t');
    hide WellFormed, PathTree, Settled, PathVal, Movers, Alone;
    assert val'[pb] == pv[pb];
  }

  lemma SettledStep(p: Problem, t: seq<int>, t0: seq<int>, done: set<int>, x: nat, t': seq<int>)
    requires Settled(p, t, t0, done) && SameOutside(p, Cleared(p, t, x), t', x)
    requires forall h :: 0 <= h < |t'| ==> NONE <= t'[h] < |p.b|
    ensures Settled(p, t', t0, done + {x})
  {
    forall h | 0 <= h < |t'| && 0 <= t'[h] < |p.b| && p.b[t'[h]] !in done + {x}
      ensures t0[h] == t'[h]
    {
      assert t'[h] == Cleared(p, t, x)[h];
    }
  }

  /** A key that finds its place taken there collides with a key of the path in the end. */
  lemma OnWayStuck(p: Problem, q: seq<QNode>, tail: nat, child: nat, val: seq<nat>, t: seq<int>, t0: seq<int>,
                   pv: seq<nat>, done: set<int>)
    requires WellFormed(p) && PathTree(p, t0, q, tail) && 0 < child && OnWay(p, q, tail, child, val, t, t0, pv, done)
    requires Tables(p, val, t) && NoStale(p, val, t) && q[child].newval < |p.scramble| && |pv| == BLen(p)
    requires q[child].parent < child && 0 <= q[q[child].parent].b < BLen(p)
    requires var pb := q[q[child].parent].b; Occupied(p, Cleared(p, t, pb), pb, q[child].newval)
    ensures Collides(p, pv, Movers(q, tail - 1))
  {
    KeysOf(p);
    NodeFacts(p, t0, q, tail, child);
    var up, v := q[child].parent, q[child].newval;
    var pb := q[up].b;
    PathValOutside(q, up, val[pb := v], pb);
    assert pv[pb] == v;
    var j :| 0 <= j < |p.lists[pb]| && OccupiedAt(p, Cleared(p, t, pb), pb, v, j);
    var k := p.lists[pb][j];
    assert pb in Movers(q, tail - 1);
    var h := Hash(p, k, v);
    if n :| 0 <= n < j && Hash(p, p.lists[pb][n], v) == h {
      SameB(p, pv, pb, n, j);
      assert p.b[p.lists[pb][n]] in Movers(q, tail - 1) && SameHash(p, pv, p.lists[pb][n], k);
    } else {
      var k' := t[h];
      hide PathVal, Movers;
      Occupant(p, q, tail, child, val, t, t0, pv, done, pb, v, j);
      assert SameHash(p, pv, k', k);
    }
  }

  lemma SameB(p: Problem, v: seq<nat>, x: nat, n: nat, j: nat)
    requires WellFormed(p) && |v| == BLen(p) && x < BLen(p) && n < j < |p.lists[x]| && v[x] < |p.scramble|
    requires Hash(p, p.lists[x][n], v[x]) == Hash(p, p.lists[x][j], v[x])
    ensures p.lists[x][n] < |p.a| && p.lists[x][j] < |p.a| && p.lists[x][n] != p.lists[x][j]
    ensures SameHash(p, v, p.lists[x][n], p.lists[x][j])
  {
  }

  /** Who is there: a key that has moved already, since at first only the child's b was in the way. */
  lemma Occupant(p: Problem, q: seq<QNode>, tail: nat, child: nat, val: seq<nat>, t: seq<int>, t0: seq<int>,
                 pv: seq<nat>, done: set<int>, pb: nat, v: nat, j: nat)
    requires WellFormed(p) && PathTree(p, t0, q, tail) && 0 < child && OnWay(p, q, tail, child, val, t, t0, pv, done)
    requires Tables(p, val, t) && NoStale(p, val, t) && v < |p.scramble| && |pv| == BLen(p)
    requires pb < BLen(p) && j < |p.lists[pb]| && Alone(p, t0, pb, v, q[child].b) && pv[pb] == v
    requires p.lists[pb][j] < |p.a|
    requires var h := Hash(p, p.lists[pb][j], v); h < |t| && Cleared(p, t, pb)[h] != NONE
    ensures var k := t[Hash(p, p.lists[pb][j], v)];
      && 0 <= k < |p.a| == |p.b| && p.b[k] in done && k != p.lists[pb][j]
      && SameHash(p, pv, k, p.lists[pb][j])
  {
    KeysOf(p);
    var h := Hash(p, p.lists[pb][j], v);
    var k := t[h];
    assert p.b[k] != pb;
    hide WellFormed, Xor, PathVal, Movers;
    assert t0[h] == k ==> Hit(p, t0, p.lists[pb][j], v) == p.b[k];
    assert p.b[k] in done;
    assert h == Hash(p, k, val[p.b[k]]);
  }

  lemma OnWayEnd(p: Problem, q: seq<QNode>, tail: nat, val: seq<nat>, t: seq<int>, t0: seq<int>, pv: seq<nat>,
                 done: set<int>)
    requires OnWay(p, q, tail, 0, val, t, t0, pv, done)
    ensures val == pv && done == Movers(q, tail - 1)
  {
  }

  lemma PlacedApart(p: Problem, val: seq<nat>, t: seq<int>, m: set<nat>, path: set<int>)
    requires Placed(p, val, t, m) && forall x :: x in path ==> 0 <= x && x as nat in m
    ensures !Collides(p, val, path)
  {
    forall k, k' | 0 <= k < |p.a| && 0 <= k' < |p.a| && k != k' && p.b[k] in path && p.b[k'] in path
      ensures !SameHash(p, val, k, k')
    {
      assert k in p.lists[p.b[k]] && k' in p.lists[p.b[k']];
      assert Sits(p, val, t, k) && Sits(p, val, t, k');
    }
  }

  // ---------------------------------------------------------------- what FALSE means

  /** Giving `x`, the b of node `s`, the value `i` and all above it theirs makes two keys of these collide. */
  ghost predicate PathCollides(p: Problem, val: seq<nat>, q: seq<QNode>, s: nat, i: nat)
    requires WellFormed(p) && |val| == BLen(p) && s < |q| && 0 <= q[s].b < BLen(p)
  {
    Collides(p, PathVal(q, s, val[q[s].b := i]), {q[s].b} + Movers(q, s))
  }

  /** Each of the first `n` values that finds the places of all keys of node `s` free has failed for that reason. */
  ghost predicate Failed(p: Problem, val: seq<nat>, t: seq<int>, q: seq<QNode>, s: nat, n: nat)
    requires WellFormed(p) && |val| == BLen(p) && s < |q| && 0 <= q[s].b < BLen(p)
  {
    forall i: nat :: i < n && Alone(p, t, q[s].b, i, NONE) ==> PathCollides(p, val, q, s, i)
  }

  ghost predicate Edges(p: Problem, t: seq<int>, q: seq<QNode>, n: nat)
    requires WellFormed(p) && n <= |q|
  {
    forall s :: 1 <= s < n ==> Edge(p, t, q, s)
  }

  /** Whoever alone is in the way of node `s` at some value is one of the `n` nodes, or among `stale`. */
  ghost predicate Closed(p: Problem, t: seq<int>, q: seq<QNode>, n: nat, s: nat, stale: set<int>)
    requires WellFormed(p) && s < n <= |q| && 0 <= q[s].b < BLen(p)
  {
    forall i: nat, c: int :: i < Limit(p) && Alone(p, t, q[s].b, i, c) && c != NONE ==>
      c in stale || exists s' :: 0 <= s' < n && q[s'].b == c
  }

  /** The b that carry this mark. */
  function MarkedBefore(water: seq<nat>, highwater: nat): set<int> {
    set x | 0 <= x < |water| && water[x] == highwater
  }

  /**
    The search from `item` is exhausted.  The `n` nodes are a tree of different b below `item`, each edge a value
    with the child alone in the way.  For all of them, or without the transitive closure for `item` only, every
    value has been tried: who alone is in the way is a node, and with nobody in the way the path collides.  Only the
    `stale` ones, marked before the search, are passed over.
   */
  ghost predicate Searched(p: Problem, val: seq<nat>, t: seq<int>, q: seq<QNode>, n: nat, item: nat, stale: set<int>)
    requires WellFormed(p)
  {
    && |val| == BLen(p) && 1 <= n <= |q| && q[0].b == item
    && (forall s :: 0 <= s < n ==> 0 <= q[s].b < BLen(p))
    && (forall s, s' :: 0 <= s < s' < n ==> q[s].b != q[s'].b)
    && Edges(p, t, q, n)
    && forall s :: 0 <= s < n && (Transitive(p) || s == 0) ==>
         Closed(p, t, q, n, s, stale) && Failed(p, val, t, q, s, Limit(p))
  }

  /** With distinct keys, then, no value finds the places of all keys of `item` itself free. */
  lemma NoVacancy(p: Problem, val: seq<nat>, t: seq<int>, q: seq<QNode>, n: nat, item: nat, stale: set<int>, i: nat)
    requires WellFormed(p) && Searched(p, val, t, q, n, item, stale) && Distinct(p.a, p.b, |p.a|) && i < Limit(p)
    ensures !Alone(p, t, item, i, NONE)
  {
    assert Failed(p, val, t, q, 0, Limit(p));
    var v := val[item := i];
    assert PathVal(q, 0, v) == v && Movers(q, 0) == {};
    KeysOf(p);
    hide Failed, Alone, Searched, PathVal, Movers, Distinct;
    DistinctUnshared(p, item, i);
    forall k, k' | 0 <= k < |p.a| && 0 <= k' < |p.a| && k != k' && p.b[k] == item && p.b[k'] == item
      ensures !SameHash(p, v, k, k')
    {
      UnsharedKeys(p, item, i, k, k');
    }
    hide WellFormed, SameHash;
    assert {item} + {} == {item};
    assert !PathCollides(p, val, q, 0, i);
  }

  lemma UnsharedKeys(p: Problem, x: nat, v: nat, k: nat, k': nat)
    requires WellFormed(p) && x < BLen(p) && v < |p.scramble| && Unshared(p, x, v)
    requires k < |p.a| && k' < |p.a| && k != k' && p.b[k] == x && p.b[k'] == x
    ensures Hash(p, k, v) != Hash(p, k', v)
  {
    assert k in p.lists[x] && k' in p.lists[x];
    var i :| 0 <= i < |p.lists[x]| && p.lists[x][i] == k;
    var j :| 0 <= j < |p.lists[x]| && p.lists[x][j] == k';
    assert i < j || j < i;
  }

  lemma {:induction false} SamePath(q: seq<QNode>, q': seq<QNode>, s: nat, val: seq<nat>)
    requires s < |q| == |q'| && forall s' :: 0 <= s' <= s ==> q'[s'] == q[s']
    ensures PathVal(q', s, val) == PathVal(q, s, val) && Movers(q', s) == Movers(q, s)
    decreases s
  {
    if s > 0 && q[s].parent < s {
      SamePath(q, q', q[s].parent, val);
      if 0 <= q[q[s].parent].b < |val| {
        SamePath(q, q', q[s].parent, val[q[q[s].parent].b := q[s].newval]);
      }
    }
  }

  lemma FailedSame(p: Problem, val: seq<nat>, t: seq<int>, q: seq<QNode>, q': seq<QNode>, s: nat, n: nat)
    requires WellFormed(p) && |val| == BLen(p) && s < |q| == |q'| && 0 <= q[s].b < BLen(p)
    requires Failed(p, val, t, q, s, n) && forall s' :: 0 <= s' <= s ==> q'[s'] == q[s']
    ensures Failed(p, val, t, q', s, n)
  {
    hide WellFormed, Alone, Collides, PathVal, Movers;
    forall i: nat | i < n && Alone(p, t, q'[s].b, i, NONE)
      ensures PathCollides(p, val, q', s, i)
    {
      assert PathCollides(p, val, q, s, i);
      SamePath(q, q', s, val[q[s].b := i]);
    }
  }

  lemma FewerEdges(p: Problem, t: seq<int>, q: seq<QNode>, n: nat)
    requires WellFormed(p) && n + 1 <= |q| && Edges(p, t, q, n + 1)
    ensures Edges(p, t, q, n)
  {
    hide WellFormed, Edge;
  }

  lemma NoneFailed(p: Problem, val: seq<nat>, t: seq<int>, q: seq<QNode>)
    requires WellFormed(p) && |val| == BLen(p)
    ensures AllFailed(p, val, t, q, 0)
  {
    hide WellFormed;
  }

  lemma EdgesStart(p: Problem, val: seq<nat>, t: seq<int>, q: seq<QNode>, s: nat)
    requires WellFormed(p) && |val| == BLen(p) && s < |q| && 0 <= q[s].b < BLen(p)
    ensures Failed(p, val, t, q, s, 0)
  {
    hide WellFormed;
  }

  lemma EdgeAdded(p: Problem, t: seq<int>, water: seq<nat>, highwater: nat, q: seq<QNode>, tail: nat, child: QNode)
    requires WellFormed(p) && 1 <= tail < |q| && Edges(p, t, q, tail) && child.parent < tail
    requires 0 <= q[child.parent].b < BLen(p)
    requires Suits(p, t, water, highwater, q[child.parent].b, child.newval, child.b)
    ensures Edges(p, t, q[tail := child], tail + 1)
  {
    var q' := q[tail := child];
    SuitsIsAlone(p, t, water, highwater, q[child.parent].b, child.newval, child.b);
    hide WellFormed, Alone, Suits;
    forall s | 1 <= s < tail + 1
      ensures Edge(p, t, q', s)
    {
      if s < tail {
        assert Edge(p, t, q, s);
      }
    }
  }

  lemma SuitsIsAlone(p: Problem, t: seq<int>, water: seq<nat>, highwater: nat, x: nat, i: nat, c: int)
    requires WellFormed(p) && Suits(p, t, water, highwater, x, i, c)
    ensures Alone(p, t, x, i, c)
  {
  }

  /** A leaf makes a tree that can be applied; what it would collide with is what the new value would. */
  lemma LeafTree(p: Problem, val: seq<nat>, t: seq<int>, q: seq<QNode>, tail: nat, leaf: QNode)
    requires WellFormed(p) && |val| == BLen(p) && 1 <= tail < |q| && leaf.b == NONE && leaf.parent < tail
    requires Edges(p, t, q[tail := leaf], tail + 1) && 0 <= q[leaf.parent].b < BLen(p)
    requires forall s, s' :: 0 <= s < s' < tail ==> q[s].b != q[s'].b
    ensures PathTree(p, t, q[tail := leaf], tail + 1)
    ensures Collides(p, PathVal(q[tail := leaf], tail, val), Movers(q[tail := leaf], tail))
            <==> PathCollides(p, val, q[tail := leaf], leaf.parent, leaf.newval)
  {
    var q' := q[tail := leaf];
    assert q'[tail] == leaf && q'[leaf.parent] == q[leaf.parent];
    hide WellFormed, Alone, Collides;
    assert PathVal(q', tail, val) == PathVal(q', leaf.parent, val[q'[leaf.parent].b := leaf.newval]);
    assert Movers(q', tail) == {q'[leaf.parent].b} + Movers(q', leaf.parent);
  }

  /** One more value of node `s`: nobody was not in the way, or the path has collided. */
  lemma FailedNext(p: Problem, val: seq<nat>, t: seq<int>, water: seq<nat>, highwater: nat, q: seq<QNode>, s: nat, i: nat,
                   through: bool, child: int)
    requires WellFormed(p) && |val| == BLen(p) && s < |q| && 0 <= q[s].b < BLen(p) && Failed(p, val, t, q, s, i)
    requires if through then Suits(p, t, water, highwater, q[s].b, i, child)
             else forall c :: !Suits(p, t, water, highwater, q[s].b, i, c)
    requires through && child == NONE ==> PathCollides(p, val, q, s, i)
    ensures Failed(p, val, t, q, s, i + 1)
  {
    SuitsAlone(p, t, water, highwater, q[s].b, i);
    SuitsOccupied(p, t, water, highwater, q[s].b, i, child);
    hide Suits, Alone, WellFormed, PathCollides;
  }

  /** The first `n` nodes have failed. */
  ghost predicate AllFailed(p: Problem, val: seq<nat>, t: seq<int>, q: seq<QNode>, n: nat)
    requires WellFormed(p) && |val| == BLen(p) && n <= |q|
  {
    forall s :: 0 <= s < n && 0 <= q[s].b < BLen(p) ==> Failed(p, val, t, q, s, Limit(p))
  }

  lemma AllFailedNext(p: Problem, val: seq<nat>, t: seq<int>, q: seq<QNode>, q': seq<QNode>, tail: nat, n: nat)
    requires WellFormed(p) && |val| == BLen(p) && n < tail <= |q| && SameNodes(q, q', tail)
    requires AllFailed(p, val, t, q, n) && 0 <= q'[n].b < BLen(p) && Failed(p, val, t, q', n, Limit(p))
    ensures AllFailed(p, val, t, q', n + 1)
  {
    hide WellFormed, Failed;
    forall s | 0 <= s < n && 0 <= q'[s].b < BLen(p)
      ensures Failed(p, val, t, q', s, Limit(p))
    {
      FailedSame(p, val, t, q, q', s, Limit(p));
    }
  }

  lemma SearchDone(p: Problem, val: seq<nat>, t: seq<int>, water0: seq<nat>, water: seq<nat>, highwater: nat,
                   q: seq<QNode>, tail: nat, n: nat, item: nat)
    requires WellFormed(p) && |val| == BLen(p) && 1 <= tail <= |q| && 1 <= n <= tail
    requires n == tail || (n == 1 && !Transitive(p))
    requires MarksAreNodes(q, 1, tail, water0, water, highwater)
    requires AllExplored(p, t, water, highwater, q, n) && AllFailed(p, val, t, q, n) && q[0].b == item
    requires Edges(p, t, q, tail) && forall s :: 0 <= s < tail ==> 0 <= q[s].b < BLen(p)
    requires forall s, s' :: 0 <= s < s' < tail ==> q[s].b != q[s'].b
    ensures Searched(p, val, t, q, tail, item, MarkedBefore(water0, highwater))
  {
    hide WellFormed, Alone, Failed, Edges;
    forall s | 0 <= s < tail && (Transitive(p) || s == 0)
      ensures Closed(p, t, q, tail, s, MarkedBefore(water0, highwater))
    {
      NodeClosed(p, t, water0, water, highwater, q, tail, s);
    }
  }

  lemma NodeClosed(p: Problem, t: seq<int>, water0: seq<nat>, water: seq<nat>, highwater: nat, q: seq<QNode>, tail: nat,
                   s: nat)
    requires WellFormed(p) && s < tail <= |q| && 0 <= q[s].b < BLen(p)
    requires MarksAreNodes(q, 1, tail, water0, water, highwater)
    requires Explored(p, t, water, highwater, q[s].b, Limit(p))
    ensures Closed(p, t, q, tail, s, MarkedBefore(water0, highwater))
  {
    hide WellFormed, Alone;
    forall i: nat, c: int | i < Limit(p) && Alone(p, t, q[s].b, i, c) && c != NONE
      ensures c in MarkedBefore(water0, highwater) || exists s' :: 0 <= s' < tail && q[s'].b == c
    {
      assert water[c] == highwater;
    }
  }

  /** The b that are mapped when all with more than `j` keys, and those with `j` keys below `i`, are done. */
  ghost function Mapped(p: Problem, j: nat, i: nat): set<nat> {
    set x: nat | x < BLen(p) && (|p.lists[x]| > j || (|p.lists[x]| == j && x < i))
  }

  lemma MappedNext(p: Problem, j: nat, i: nat)
    requires i < BLen(p)
    ensures Mapped(p, j, i + 1) == if |p.lists[i]| == j then Mapped(p, j, i) + {i} else Mapped(p, j, i)
    ensures |p.lists[i]| == j ==> i !in Mapped(p, j, i)
  {
  }

  lemma MappedDown(p: Problem, j: nat)
    requires j > 0
    ensures Mapped(p, j, BLen(p)) == Mapped(p, j - 1, 0)
  {
  }

  lemma EmptyTables(p: Problem, val: seq<nat>, t: seq<int>)
    requires WellFormed(p) && |val| == BLen(p) && forall x :: 0 <= x < |val| ==> Fits(p, x, val[x])
    requires |t| == HighHash(p) && forall h :: 0 <= h < |t| ==> t[h] == NONE
    ensures Placed(p, val, t, {})
  {
  }

  // ---------------------------------------------------------------- struct bstuff, hstuff, qstuff

  class Builder {
    const p: Problem
    var val: seq<nat>      // tabb[].val_b
    var water: seq<nat>    // tabb[].water_b
    var tabh: seq<int>     // tabh[].key_h, NONE for empty
    var tabq: seq<QNode>

    /** The tables as `inittab` leaves them: every val_b and water_b 0. */
    constructor (p: Problem)
      ensures this.p == p && |val| == |water| == BLen(p)
      ensures forall x :: 0 <= x < |val| ==> val[x] == 0 && water[x] == 0
    {
      this.p := p;
      val, water := seq(BLen(p), _ => 0), seq(BLen(p), _ => 0);
      tabh, tabq := [], [];
    }

    /** "erase old hash values": with no stale entries exactly the entries of `pb` go. */
    method Erase(pb: nat)
      requires Tables(p, val, tabh) && NoStale(p, val, tabh) && pb < BLen(p)
      modifies this`tabh
      ensures tabh == Cleared(p, old(tabh), pb)
    {
      hide WellFormed, NoStale, Erased;
      var l, v := p.lists[pb], val[pb];
      ghost var t0 := tabh;
      var j := 0;
      EraseNone(p, t0, pb);
      while j < |l|
        invariant 0 <= j <= |l| && Erased(p, t0, tabh, pb, j)
      {
        assert Fits(p, pb, v);
        EraseOne(p, val, t0, tabh, pb, j);
        var h := Hash(p, l[j], v);
        if tabh[h] == l[j] {
          tabh := tabh[h := NONE];
        }
        j := j + 1;
      }
      ErasedAll(p, t0, tabh, pb);
    }

    /** "set new hash values" going forward: stops at the first occupied place. */
    method PlaceNew(pb: nat) returns (ok: bool)
      requires Tables(p, val, tabh) && NoStale(p, val, tabh) && pb < BLen(p) && Absent(p, tabh, pb)
      modifies this`tabh
      ensures Tables(p, val, tabh) && NoStale(p, val, tabh) && SameOutside(p, old(tabh), tabh, pb)
      ensures ok ==> Full(p, val, tabh, pb)
      ensures !ok ==> Occupied(p, old(tabh), pb, val[pb])
    {
      hide OnlyNew, Occupied;
      var l, v := p.lists[pb], val[pb];
      ghost var t0 := tabh;
      var j := 0;
      NothingNew(p, t0, pb, v);
      while j < |l|
        invariant 0 <= j <= |l| && OnlyNew(p, t0, tabh, pb, v, j)
        invariant Tables(p, val, tabh) && NoStale(p, val, tabh) && SameOutside(p, t0, tabh, pb)
        invariant forall i :: 0 <= i < j ==> Sits(p, val, tabh, l[i])
      {
        assert Fits(p, pb, v);
        var h := Hash(p, l[j], v);
        if tabh[h] != NONE {
          WasOccupied(p, t0, tabh, pb, v, j);
          return false;
        }
        OneNew(p, t0, tabh, pb, v, j);
        PlaceOne(p, val, tabh, t0, pb, j);
        tabh := tabh[h := l[j]];
        j := j + 1;
      }
      ok := true;
    }

    /** "set new hash values" on roll-back: the old places are taken whatever is there. */
    method PlaceOld(pb: nat)
      requires Tables(p, val, tabh) && NoStale(p, val, tabh) && pb < BLen(p)
      requires Unshared(p, pb, val[pb])
      modifies this`tabh
      ensures Tables(p, val, tabh) && NoStale(p, val, tabh) && MayOverwrite(p, old(tabh), tabh, pb, val[pb])
      ensures Full(p, val, tabh, pb)
    {
      hide NoStale, Sits, Unshared;
      var l, v := p.lists[pb], val[pb];
      ghost var t0 := tabh;
      var j := 0;
      assert MayOverwrite(p, t0, tabh, pb, v);
      hide MayOverwrite;
      while j < |l|
        invariant 0 <= j <= |l|
        invariant Tables(p, val, tabh) && NoStale(p, val, tabh) && MayOverwrite(p, t0, tabh, pb, v)
        invariant forall i :: 0 <= i < j ==> Sits(p, val, tabh, l[i])
      {
        assert Fits(p, pb, v);
        hide Tables, WellFormed, Fits;
        PlaceFits(p, val, tabh, pb, j);
        var h := Hash(p, l[j], v);
        PlaceOver(p, val, tabh, t0, pb, j);
        tabh := tabh[h := l[j]];
        j := j + 1;
      }
    }

    /** `apply` with rollback TRUE: wherever the attempt stopped, both tables come back exactly. */
    method Rollback(tail: nat, ghost val0: seq<nat>, ghost t0: seq<int>, ghost m: set<nat>, ghost root: nat)
      requires 2 <= tail <= |tabq| && Quest(p, tabq, tail, val0, t0, m, root)
      requires forall t :: 1 <= t < tail ==> tabq[t].parent < t
      requires Halfway(p, val0, t0, val, tabh, Path(tabq, tail - 1))
      modifies this`val, this`tabh
      ensures val == val0 && tabh == t0
    {
      hide Tables, NoStale, Halfway, Restored, Full, Placed, Absent, Quest, Cleared, MayOverwrite, WellFormed, Fits, Unshared, SameOutside;
      UnfoldQuest(p, tabq, tail, val0, t0, m, root);
      var child := tail - 1;
      ghost var path := Path(tabq, tail - 1);
      ghost var r: set<int> := {};
      QuestNode(p, tabq, tail, val0, t0, m, root, child);
      PathInside(p, tabq, tail, val0, t0, m, root, child);
      UnfoldHalfway(p, val0, t0, val, tabh, path);
      NothingRestored(p, val0, val, tabh, root);
      while child != 0
        invariant 0 <= child < tail && r + Path(tabq, child) == path
        invariant Halfway(p, val0, t0, val, tabh, path) && Restored(p, val0, val, tabh, r, root)
        invariant child == 0 ==> Absent(p, tabh, root)
      {
        QuestNode(p, tabq, tail, val0, t0, m, root, child);
        UnfoldHalfway(p, val0, t0, val, tabh, path);
        var parent := tabq[child].parent;
        var pb := tabq[parent].b;
        ghost var v1, t1 := val, tabh;
        ClearedFacts(p, val, tabh, pb, val0[pb]);
        Erase(pb);
        val := val[pb := tabq[child].oldval];
        if parent != 0 {
          PlaceOld(pb);
        }
        BackStep(p, val0, t0, m, path, r, root, v1, t1, pb, tabh);
        r := r + {pb};
        child := parent;
      }
      BackAgain(p, val0, t0, m, path, root, val, tabh);
    }

    /**
      `apply` with rollback FALSE: either one more b is mapped, all on the path having their new values, or nothing
      has changed, which in a tree as the search builds it happens exactly when the new values collide.
     */
    method Apply(tail: nat, ghost m: set<nat>, ghost root: nat) returns (ok: bool)
      requires Quest(p, tabq, tail, val, tabh, m, root) && tail <= |tabq|
      modifies this`val, this`tabh
      ensures ok ==> Placed(p, val, tabh, m + {root})
      ensures !ok ==> val == old(val) && tabh == old(tabh)
      ensures WellFormed(p) && |old(val)| == BLen(p)
      ensures PathTree(p, old(tabh), tabq, tail) ==>
        && (ok <==> !Collides(p, PathVal(tabq, tail - 1, old(val)), Movers(tabq, tail - 1)))
        && (ok ==> val == PathVal(tabq, tail - 1, old(val)))
    {
      hide Tables, NoStale, Halfway, Restored, Full, Placed, Absent, Quest, Cleared, MayOverwrite, WellFormed, Fits, Unshared, SameOutside, Alone;
      hide OnWay, PathTree, PathVal, Movers, Collides, Occupied;
      ghost var val0, t0 := val, tabh;
      UnfoldQuest(p, tabq, tail, val0, t0, m, root);
      var child := tail - 1;
      QuestNode(p, tabq, tail, val0, t0, m, root, child);
      PathInside(p, tabq, tail, val0, t0, m, root, child);
      ghost var path := Path(tabq, tail - 1);
      ghost var done: set<int> := {};
      ghost var pv := PathVal(tabq, tail - 1, val0);
      ghost var tree := PathTree(p, t0, tabq, tail);
      NothingMoved(p, val0, t0, m, path);
      OnWayStart(p, tabq, tail, val0, t0);
      while child != 0
        invariant 0 <= child < tail && done + Path(tabq, child) == path
        invariant tree ==> OnWay(p, tabq, tail, child, val, tabh, t0, pv, done)
        invariant forall y :: y in done ==> 0 <= y < BLen(p)
        invariant Halfway(p, val0, t0, val, tabh, path) && Tables(p, val, tabh)
        invariant forall y :: y in done && 0 <= y < BLen(p) ==> Full(p, val, tabh, y)
      {
        QuestNode(p, tabq, tail, val0, t0, m, root, child);
        UnfoldHalfway(p, val0, t0, val, tabh, path);
        var parent := tabq[child].parent;
        var pb, v := tabq[parent].b, tabq[child].newval;
        ghost var v1, t1 := val, tabh;
        ClearedFacts(p, val, tabh, pb, v);
        Erase(pb);
        val := val[pb := v];
        var placed := PlaceNew(pb);
        ForwardStep(p, val0, t0, path, v1, t1, pb, v, tabh);
        if !placed {
          if tree {
            OnWayStuck(p, tabq, tail, child, v1, t1, t0, pv, done);
          }
          Rollback(tail, val0, t0, m, root);
          return false;
        }
        forall y | y in done && 0 <= y < BLen(p) && y != pb
          ensures Full(p, val, tabh, y)
        {
          ForwardKeeps(p, v1, t1, pb, v, tabh, y);
        }
        if tree {
          TableSizes(p, val, tabh);
          OnWayStep(p, tabq, tail, child, v1, t1, t0, pv, done, tabh);
        }
        done := done + {pb};
        child := parent;
      }
      ForwardDone(p, val0, t0, m, path, root, val, tabh);
      if tree {
        OnWayEnd(p, tabq, tail, val, tabh, t0, pv, done);
        PlacedApart(p, val, tabh, m + {root}, done);
      }
      ok := true;
    }

    /** The walk over `myb`'s keys for one value: who is in the way, if it is one unexplored b at most. */
    method Scan(myb: nat, i: nat, highwater: nat) returns (through: bool, childb: int)
      requires Tables(p, val, tabh) && myb < BLen(p) && i < |p.scramble| && |water| == BLen(p)
      ensures through ==> Suits(p, tabh, water, highwater, myb, i, childb)
      ensures !through ==> forall c :: !Suits(p, tabh, water, highwater, myb, i, c)
    {
      hide WellFormed, Tables, Suits, Scanned, Hash, Hit;
      var l := p.lists[myb];
      childb := NONE;
      var j := 0;
      TableSizes(p, val, tabh);
      ScanStart(p, tabh, water, highwater, myb, i);
      while j < |l|
        invariant 0 <= j <= |l| && NONE <= childb && Scanned(p, tabh, water, highwater, myb, i, j, childb)
      {
        ScanPlace(p, val, tabh, myb, i, j);
        ghost var before := childb;
        var h := Hash(p, l[j], i);
        if h >= HighHash(p) {
          ScanOut(p, tabh, water, highwater, myb, i, j);
          return false, childb;
        }
        if tabh[h] != NONE {
          var hitb := p.b[tabh[h]];
          if childb != NONE {
            if childb != hitb {
              ScanStop(p, tabh, water, highwater, myb, i, j, before, hitb);
              return false, childb;
            }
          } else {
            childb := hitb;
            if water[childb] == highwater {
              ScanStop(p, tabh, water, highwater, myb, i, j, before, hitb);
              return false, childb;
            }
          }
        }
        ScanOn(p, tabh, water, highwater, myb, i, j, before, childb);
        j := j + 1;
      }
      ScanEnd(p, tabh, water, highwater, myb, i, childb);
      through := true;
    }

    /**
      One node of the spanning tree: its children are added to the tail, and a value with nothing in the way is
      applied.  Unless that succeeds the node is explored.
     */
    method Children(node: nat, first: nat, item: nat, highwater: nat, ghost m: set<nat>) returns (ok: bool, tail: nat)
      requires node < first && Exploring(p, tabq, first, val, tabh, m, item, water, highwater)
      requires WellFormed(p) && first <= |tabq| && Edges(p, tabh, tabq, first)
      modifies this`val, this`water, this`tabh, this`tabq
      ensures |water| == BLen(p) && |tabq| == BLen(p) + 1 && MarksGrow(old(water), water, highwater)
      ensures ok ==> Placed(p, val, tabh, m + {item})
      ensures !ok ==>
        && val == old(val) && tabh == old(tabh)
        && first <= tail <= |tabq| && Exploring(p, tabq, tail, val, tabh, m, item, water, highwater)
        && SameNodes(old(tabq), tabq, first) && Edges(p, tabh, tabq, tail)
        && MarksAreNodes(tabq, first, tail, old(water), water, highwater)
        && |val| == BLen(p) && 0 <= tabq[node].b < BLen(p)
        && Explored(p, tabh, water, highwater, tabq[node].b, Limit(p)) && Failed(p, val, tabh, tabq, node, Limit(p))
    {
      hide Tables, NoStale, Placed, Quest, WellFormed, Fits, Suits, Exploring, Alone, Explored, Unshared;
      hide MarksGrow, MarksAreNodes, Failed, Edges, PathCollides, PathTree, Collides, PathVal, Movers;
      tail := first;
      ExploringFacts(p, tabq, tail, val, tabh, m, item, water, highwater);
      var myb := tabq[node].b;
      ChildrenStart(p, tabq, first, water, tabh, myb, highwater);
      EdgesStart(p, val, tabh, tabq, node);
      var i := 0;
      while i < Limit(p)
        invariant node < first <= tail <= |tabq| && 0 <= i <= Limit(p)
        invariant val == old(val) && tabh == old(tabh)
        invariant Exploring(p, tabq, tail, val, tabh, m, item, water, highwater)
        invariant tabq[node].b == myb && SameNodes(old(tabq), tabq, first) && Edges(p, tabh, tabq, tail)
        invariant MarksGrow(old(water), water, highwater)
        invariant MarksAreNodes(tabq, first, tail, old(water), water, highwater)
        invariant Explored(p, tabh, water, highwater, myb, i) && Failed(p, val, tabh, tabq, node, i)
      {
        ExploringFacts(p, tabq, tail, val, tabh, m, item, water, highwater);
        ghost var q0, w0 := tabq, water;
        var through, childb := Scan(myb, i, highwater);
        if through {
          SuitsFacts(p, val, tabh, m, water, highwater, myb, i, childb);
          var child := QNode(childb, node, i, val[myb]);
          if childb != NONE {
            ExploringChild(p, tabq, tail, val, tabh, m, item, water, highwater, child);
            ChildMarked(q0, first, tail, old(water), water, highwater, child);
            EdgeAdded(p, tabh, water, highwater, tabq, tail, child);
            water := water[childb := highwater];
            tabq := tabq[tail := child];
            tail := tail + 1;
          } else {
            ExploringLeaf(p, tabq, tail, val, tabh, m, item, water, highwater, child);
            LeafMarks(q0, first, tail, old(water), water, highwater, child);
            RootOf(p, tabq, tail, val, tabh, m, item, water, highwater);
            EdgeAdded(p, tabh, water, highwater, tabq, tail, child);
            LeafTree(p, val, tabh, tabq, tail, child);
            tabq := tabq[tail := child];
            var applied := Apply(tail + 1, m, item);
            if applied {
              return true, tail;
            }
            FewerEdges(p, tabh, tabq, tail);
          }
        }
        MarksStep(w0, water, highwater, childb, through);
        ValueTried(p, val, tabh, w0, water, highwater, myb, i, through, childb);
        FailedSame(p, val, tabh, q0, tabq, node, i);
        FailedNext(p, val, tabh, w0, highwater, tabq, node, i, through, childb);
        i := i + 1;
      }
      ExploringFacts(p, tabq, tail, val, tabh, m, item, water, highwater);
      ok := false;
    }

    /**
      `augment`: maps `item` as well, or leaves the hash exactly as it was.  FALSE means that the search from
      `item` is exhausted, but for any b that was marked with `highwater` before.
     */
    method Augment(item: nat, highwater: nat, ghost m: set<nat>) returns (ok: bool, ghost nodes: nat)
      requires Placed(p, val, tabh, m) && item < BLen(p) && item !in m
      requires |water| == BLen(p) && |tabq| == BLen(p) + 1
      modifies this`val, this`water, this`tabh, this`tabq
      ensures |water| == BLen(p) && |tabq| == BLen(p) + 1 && MarksGrow(old(water), water, highwater)
      ensures ok ==> Placed(p, val, tabh, m + {item})
      ensures !ok ==>
        && val == old(val) && tabh == old(tabh) && WellFormed(p)
        && Searched(p, val, tabh, tabq, nodes, item, MarkedBefore(old(water), highwater))
    {
      hide Tables, NoStale, Placed, Quest, WellFormed, Fits, Suits, Exploring, Explored;
      hide MarksGrow, MarksAreNodes, AllExplored, AllFailed, Failed, Edges, Searched;
      tabq := tabq[0 := tabq[0].(b := item)];
      nodes := 0;
      var tail, q := 1, 0;
      ExploringStart(p, tabq, val, tabh, m, item, water, highwater);
      ExploringFacts(p, tabq, tail, val, tabh, m, item, water, highwater);
      SearchStart(p, tabq, water, tabh, highwater);
      NoneFailed(p, val, tabh, tabq);
      while q < tail
        invariant 0 <= q <= tail <= |tabq| && (q == 0 ==> tail == 1)
        invariant val == old(val) && tabh == old(tabh) && |val| == BLen(p)
        invariant Exploring(p, tabq, tail, val, tabh, m, item, water, highwater)
        invariant MarksGrow(old(water), water, highwater)
        invariant MarksAreNodes(tabq, 1, tail, old(water), water, highwater)
        invariant AllExplored(p, tabh, water, highwater, tabq, q) && AllFailed(p, val, tabh, tabq, q)
        invariant Edges(p, tabh, tabq, tail)
        decreases BLen(p) + 1 - q
      {
        ExploringFacts(p, tabq, tail, val, tabh, m, item, water, highwater);
        if !Transitive(p) && q == 1 {
          break;
        }
        ghost var q0, w0, tail0 := tabq, water, tail;
        var applied;
        applied, tail := Children(q, tail, item, highwater, m);
        MarksAnyway(old(water), w0, water, highwater);
        if applied {
          return true, 0;
        }
        ExploringFacts(p, tabq, tail, val, tabh, m, item, water, highwater);
        MarksChain(q0, tabq, tail0, tail, old(water), w0, water, highwater);
        AllExploredNext(p, tabh, w0, water, highwater, q0, tabq, tail0, q);
        AllFailedNext(p, val, tabh, q0, tabq, tail0, q);
        q := q + 1;
      }
      ExploringFacts(p, tabq, tail, val, tabh, m, item, water, highwater);
      nodes := tail;
      RootOf(p, tabq, tail, val, tabh, m, item, water, highwater);
      SearchDone(p, val, tabh, old(water), water, highwater, tabq, tail, q, item);
      ok := false;
    }

    /**
      `perfect`: TRUE means that the final hash is injective on the keys and stays below the table size, FALSE that
      `item` could not be mapped beside those in `m`, the search from it being exhausted but for any b that
      already carried the mark of `item` at the start, from an earlier attempt on the same tables.
     */
    method Perfect() returns (ok: bool, ghost item: nat, ghost m: set<nat>, ghost nodes: nat)
      requires WellFormed(p) && |val| == |water| == BLen(p)
      requires forall x :: 0 <= x < |val| ==> Fits(p, x, val[x])
      modifies this`val, this`water, this`tabh, this`tabq
      ensures Tables(p, val, tabh) && forall x :: 0 <= x < |val| ==> val[x] < |p.scramble|
      ensures ok ==> IsPerfect(p, val)
      ensures !ok ==> Placed(p, val, tabh, m) && item < BLen(p) && item !in m && p.lists[item] != []
      ensures !ok ==> Searched(p, val, tabh, tabq, nodes, item, MarkedBefore(old(water), item + 1))
    {
      hide Tables, NoStale, WellFormed, Fits, Placed, IsPerfect, Searched, MarksGrow, MarksOf, MarkedBefore;
      item, m, nodes := 0, {}, 0;
      tabh := seq(HighHash(p), _ => NONE);
      tabq := seq(BLen(p) + 1, _ => QNode(NONE, 0, 0, 0));
      EmptyTables(p, val, tabh);
      var maxkeys: nat, i := 0, 0;
      while i < BLen(p)
        invariant 0 <= i <= BLen(p)
        invariant forall x :: 0 <= x < i ==> |p.lists[x]| <= maxkeys
      {
        if |p.lists[i]| > maxkeys {
          maxkeys := |p.lists[i]|;
        }
        i := i + 1;
      }
      var j := maxkeys;
      assert Mapped(p, maxkeys, 0) == {};
      NoMarks(water, Mapped(p, j, 0));
      while j > 0
        invariant 0 <= j <= maxkeys && |water| == BLen(p) && |tabq| == BLen(p) + 1
        invariant Placed(p, val, tabh, Mapped(p, j, 0))
        invariant MarksOf(old(water), water, Mapped(p, j, 0))
      {
        i := 0;
        while i < BLen(p)
          invariant 0 <= i <= BLen(p) && |water| == BLen(p) && |tabq| == BLen(p) + 1
          invariant Placed(p, val, tabh, Mapped(p, j, i))
          invariant MarksOf(old(water), water, Mapped(p, j, i))
        {
          MappedNext(p, j, i);
          if |p.lists[i]| == j {
            var mapped;
            ghost var w0 := water;
            mapped, nodes := Augment(i, i + 1, Mapped(p, j, i));
            MarkIsNew(old(water), w0, water, i, Mapped(p, j, i));
            if !mapped {
              item, m := i, Mapped(p, j, i);
              StaleGrows(p, val, tabh, tabq, nodes, i, MarkedBefore(w0, i + 1), MarkedBefore(old(water), i + 1));
              PlacedTables(p, val, tabh, m);
              return false, item, m, nodes;
            }
          }
          i := i + 1;
        }
        MappedDown(p, j);
        j := j - 1;
      }
      PlacedTables(p, val, tabh, Mapped(p, 0, 0));
      PlacedIsPerfect(p, val, tabh, Mapped(p, 0, 0));
      ok := true;
    }
  }

  /** Marks are left by the b mapped so far, one number each. */
  ghost predicate MarksOf(water0: seq<nat>, water: seq<nat>, m: set<nat>) {
    && |water| == |water0|
    && forall x :: 0 <= x < |water| ==> water[x] == water0[x] || (water[x] > 0 && (water[x] - 1) as nat in m)
  }

  lemma NoMarks(water: seq<nat>, m: set<nat>)
    ensures MarksOf(water, water, m)
  {
  }

  /** So the mark of the next b is there only from before, although it need not be higher than all others. */
  lemma MarkIsNew(water0: seq<nat>, water: seq<nat>, water': seq<nat>, i: nat, m: set<nat>)
    requires MarksGrow(water, water', i + 1) && i !in m && MarksOf(water0, water, m)
    ensures MarkedBefore(water, i + 1) <= MarkedBefore(water0, i + 1) && MarksOf(water0, water', m + {i})
  {
  }

  lemma StaleGrows(p: Problem, val: seq<nat>, t: seq<int>, q: seq<QNode>, n: nat, item: nat, stale: set<int>, more: set<int>)
    requires WellFormed(p) && Searched(p, val, t, q, n, item, stale) && stale <= more
    ensures Searched(p, val, t, q, n, item, more)
  {
    hide WellFormed, Alone, Failed, Edges;
    forall s | 0 <= s < n && (Transitive(p) || s == 0)
      ensures Closed(p, t, q, n, s, more)
    {
      assert Closed(p, t, q, n, s, stale);
    }
  }

  lemma PlacedTables(p: Problem, val: seq<nat>, t: seq<int>, m: set<nat>)
    requires Placed(p, val, t, m)
    ensures Tables(p, val, t) && WellFormed(p) && |val| == BLen(p)
    ensures forall x :: 0 <= x < |val| ==> val[x] < |p.scramble|
  {
  }

  lemma SuitsFacts(p: Problem, val: seq<nat>, t: seq<int>, m: set<nat>, water: seq<nat>, highwater: nat,
                   x: nat, i: nat, c: int)
    requires WellFormed(p) && Placed(p, val, t, m) && Suits(p, t, water, highwater, x, i, c) && |water| == BLen(p) == |val|
    ensures Fits(p, x, i)
    ensures c != NONE ==> 0 <= c < BLen(p) && c in m && water[c] != highwater
  {
    if c != NONE {
      HitIsMapped(p, val, t, m, water, highwater, x, i, c);
    }
  }

  lemma UnfoldQuest(p: Problem, q: seq<QNode>, tail: nat, val: seq<nat>, t: seq<int>, m: set<nat>, root: nat)
    requires Quest(p, q, tail, val, t, m, root)
    ensures Placed(p, val, t, m) && Tables(p, val, t) && root !in m && root < BLen(p) && 2 <= tail <= |q|
  {
  }

  lemma NothingRestored(p: Problem, val0: seq<nat>, val: seq<nat>, t: seq<int>, root: nat)
    requires Tables(p, val, t) && |val0| == |val|
    ensures Restored(p, val0, val, t, {}, root)
  {
  }

  lemma NothingMoved(p: Problem, val: seq<nat>, t: seq<int>, m: set<nat>, path: set<int>)
    requires Placed(p, val, t, m)
    ensures Halfway(p, val, t, val, t, path)
  {
  }

  lemma PlaceOne(p: Problem, val: seq<nat>, t: seq<int>, t0: seq<int>, x: nat, j: nat)
    requires Tables(p, val, t) && NoStale(p, val, t) && SameOutside(p, t0, t, x)
    requires x < BLen(p) && j < |p.lists[x]|
    requires forall i :: 0 <= i < j ==> Sits(p, val, t, p.lists[x][i])
    requires Fits(p, x, val[x]) && t[Hash(p, p.lists[x][j], val[x])] == NONE
    ensures var t' := t[Hash(p, p.lists[x][j], val[x]) := p.lists[x][j]];
      && Tables(p, val, t') && NoStale(p, val, t') && SameOutside(p, t0, t', x)
      && forall i :: 0 <= i <= j ==> Sits(p, val, t', p.lists[x][i])
  {
    KeysOf(p);
    hide WellFormed, Xor;
    PlaceSits(p, val, t, x, j);
  }

  /** The key just placed sits, and so do those placed before it, whose hashes differ. */
  lemma PlaceSits(p: Problem, val: seq<nat>, t: seq<int>, x: nat, j: nat)
    requires Tables(p, val, t) && x < BLen(p) && j < |p.lists[x]| && Fits(p, x, val[x])
    requires forall i :: 0 <= i < j ==> Sits(p, val, t, p.lists[x][i])
    requires forall i :: 0 <= i < j ==> Hash(p, p.lists[x][i], val[x]) != Hash(p, p.lists[x][j], val[x])
    ensures var t' := t[Hash(p, p.lists[x][j], val[x]) := p.lists[x][j]];
      Tables(p, val, t') && forall i :: 0 <= i <= j ==> Sits(p, val, t', p.lists[x][i])
  {
    KeysOf(p);
    hide WellFormed, Hash;
  }

  lemma PlaceFits(p: Problem, val: seq<nat>, t: seq<int>, x: nat, j: nat)
    requires Tables(p, val, t) && x < BLen(p) && j < |p.lists[x]| && Fits(p, x, val[x])
    ensures p.lists[x][j] < |p.a| && val[x] < |p.scramble| && Hash(p, p.lists[x][j], val[x]) < |t|
  {
  }

  lemma PlaceOver(p: Problem, val: seq<nat>, t: seq<int>, t0: seq<int>, x: nat, j: nat)
    requires Tables(p, val, t) && NoStale(p, val, t) && x < BLen(p) && j < |p.lists[x]|
    requires val[x] < |p.scramble| && MayOverwrite(p, t0, t, x, val[x])
    requires forall i :: 0 <= i < j ==> Sits(p, val, t, p.lists[x][i])
    requires Unshared(p, x, val[x]) && Fits(p, x, val[x])
    ensures var t' := t[Hash(p, p.lists[x][j], val[x]) := p.lists[x][j]];
      && Tables(p, val, t') && NoStale(p, val, t') && MayOverwrite(p, t0, t', x, val[x])
      && forall i :: 0 <= i <= j ==> Sits(p, val, t', p.lists[x][i])
  {
    KeysOf(p);
    PlaceSits(p, val, t, x, j);
    hide WellFormed, Xor, Sits;
  }

  // ---------------------------------------------------------------- one attempt of findhash

  datatype Attempt = SharedPair | NoMapping | Found(val: seq<nat>)

  /** rsl = a ^ scramble[tab[b]], the hash that the generated code computes. */
  function Final(a: seq<bv32>, b: seq<nat>, scramble: seq<bv32>, val: seq<nat>, k: nat): nat
    requires k < |a| == |b| && b[k] < |val| && val[b[k]] < |scramble|
  {
    Xor(a[k], scramble[val[b[k]]])
  }

  /** What an attempt promises: `Found` only with a perfect hash of the keys into 0..high-1. */
  predicate PerfectFor(a: seq<bv32>, b: seq<nat>, scramble: seq<bv32>, high: nat, val: seq<nat>)
    requires |a| == |b|
  {
    && (forall k :: 0 <= k < |b| ==> b[k] < |val| && val[b[k]] < |scramble|)
    && (forall k :: 0 <= k < |a| ==> Final(a, b, scramble, val, k) < high)
    && (forall k, k' :: 0 <= k < k' < |a| ==> Final(a, b, scramble, val, k) != Final(a, b, scramble, val, k'))
  }

  /** Some b with keys cannot be mapped beside those that are: the search from it is exhausted. */
  ghost predicate Stuck(p: Problem, val: seq<nat>, t: seq<int>, m: set<nat>, item: nat, q: seq<QNode>, nodes: nat) {
    && Placed(p, val, t, m) && item < BLen(p) && item !in m && p.lists[item] != []
    && WellFormed(p) && Searched(p, val, t, q, nodes, item, {})
  }

  /** The lists from the keys, then the mapping on them. */
  method FindHash(a: seq<bv32>, b: seq<nat>, blen: nat, scramble: seq<bv32>, smax: nat, minimal: bool, slow: bool)
    returns (r: Attempt)
    requires |a| == |b| && (forall k :: 0 <= k < |b| ==> b[k] < blen) && |scramble| == SCRAMBLE_LEN && smax <= SCRAMBLE_LEN
    requires forall k :: 0 <= k < |a| ==> Xor(a[k], scramble[0]) < if minimal then |a| else smax
    ensures r.SharedPair? <==> !Distinct(a, b, |a|)
    ensures r.Found? ==> |r.val| == blen && PerfectFor(a, b, scramble, if minimal then |a| else smax, r.val)
    ensures r.NoMapping? ==> exists lists, val, t, m, item, q, nodes ::
      |lists| == blen && Listed(b, lists, |b|)
      && Stuck(Problem(a, b, lists, scramble, smax, minimal, slow), val, t, m, item, q, nodes)
  {
    hide Searched, Placed, Listed, Distinct, WellFormed, IsPerfect, PerfectFor, Tables, Fits, Xor;
    var distinct, lists := InitTab(a, b, blen, false);
    if !distinct {
      return SharedPair;
    }
    var p := Problem(a, b, lists, scramble, smax, minimal, slow);
    ListedIsWellFormed(p);
    var builder := new Builder(p);
    InitialFits(p);
    var ok;
    ghost var fresh0 := builder.water;
    ghost var item, m, nodes;
    ok, item, m, nodes := builder.Perfect();
    if !ok {
      assert MarkedBefore(fresh0, item + 1) == {};
      assert Stuck(p, builder.val, builder.tabh, m, item, builder.tabq, nodes);
      return NoMapping;
    }
    PerfectMeans(p, builder.val, builder.tabh);
    r := Found(builder.val);
  }

  lemma InitialFits(p: Problem)
    requires WellFormed(p) && forall k :: 0 <= k < |p.a| ==> Xor(p.a[k], p.scramble[0]) < HighHash(p)
    ensures forall x :: 0 <= x < BLen(p) ==> Fits(p, x, 0)
  {
    KeysOf(p);
    ScrambleLength(p);
    hide WellFormed, Xor;
    forall x | 0 <= x < BLen(p)
      ensures Fits(p, x, 0)
    {
      forall j | 0 <= j < |p.lists[x]|
        ensures Hash(p, p.lists[x][j], 0) < HighHash(p)
      {
        var k := p.lists[x][j];
        assert Xor(p.a[k], p.scramble[0]) < HighHash(p);
      }
    }
  }

  lemma ScrambleLength(p: Problem)
    requires WellFormed(p)
    ensures |p.scramble| == SCRAMBLE_LEN
  {
  }

  lemma PerfectMeans(p: Problem, val: seq<nat>, t: seq<int>)
    requires Tables(p, val, t) && (forall x :: 0 <= x < |val| ==> val[x] < |p.scramble|) && IsPerfect(p, val)
    ensures |p.a| == |p.b| && |val| == BLen(p) && PerfectFor(p.a, p.b, p.scramble, HighHash(p), val)
  {
    KeysOf(p);
    assert |val| == BLen(p);
    hide WellFormed, Xor, Tables;
    forall k | 0 <= k < |p.a|
      ensures Final(p.a, p.b, p.scramble, val, k) == Hash(p, k, val[p.b[k]])
    {
    }
  }
}
