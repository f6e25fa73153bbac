/**
  The big-integer arithmetic of dtoa.c: little-endian arrays of 32-bit words, of which the first `wds`
  count, in buffers of 2^k words.  `ULong` is 32 and `ULLong` 64 bits wide.
 */
module Bignum {

  import opened Prelude

  const B: nat := 0x1_0000_0000
  const LL: nat := 0x1_0000_0000_0000_0000

  type Word = w: nat | w < B

  /** The number in the first `n` words. */
  function Val(x: seq<Word>, n: nat): nat
    requires n <= |x|
  {
    if n == 0 then 0 else Val(x, n - 1) + x[n - 1] * Pow(B, n - 1)
  }

  // ---------------------------------------------------------------- powers and values

  lemma MulMono(a: int, b: int, c: nat)
    requires a <= b
    ensures a * c <= b * c
  {
  }

  lemma MulLeast(a: nat, b: nat)
    requires b > 0
    ensures a <= a * b && a <= b * a
  {
  }

  lemma {:induction false} ValSame(x: seq<Word>, y: seq<Word>, n: nat)
    requires n <= |x| && n <= |y| && forall i :: 0 <= i < n ==> x[i] == y[i]
    ensures Val(x, n) == Val(y, n)
  {
    if n > 0 {
      ValSame(x, y, n - 1);
    }
  }

  lemma {:induction false} ValBound(x: seq<Word>, n: nat)
    requires n <= |x|
    ensures Val(x, n) < Pow(B, n)
  {
    if n > 0 {
      ValBound(x, n - 1);
      PowPositive(B, n - 1);
      TopBound(Val(x, n - 1), x[n - 1], Pow(B, n - 1));
    }
  }

  lemma TopBound(v: nat, w: Word, p: nat)
    requires v < p
    ensures v + w * p < B * p
  {
    MulMono(w + 1, B, p);
  }

  /** Words that are zero add nothing. */
  lemma {:induction false} ValZeros(x: seq<Word>, m: nat, n: nat)
    requires m <= n <= |x| && forall i :: m <= i < n ==> x[i] == 0
    ensures Val(x, n) == Val(x, m)
  {
    if m < n {
      ValZeros(x, m, n - 1);
    }
  }

  /** The first word at which two numbers differ, from the top, decides. */
  lemma {:induction false} ValLess(x: seq<Word>, y: seq<Word>, i: nat, n: nat)
    requires i < n <= |x| && n <= |y| && x[i] < y[i] && forall j :: i < j < n ==> x[j] == y[j]
    ensures Val(x, n) < Val(y, n)
  {
    if i == n - 1 {
      ValBound(x, i);
      LessTop(Val(x, i), x[i], y[i], Pow(B, i));
    } else {
      ValLess(x, y, i, n - 1);
    }
  }

  lemma LessTop(v: nat, s: nat, t: nat, p: nat)
    requires v < p && s < t
    ensures v + s * p < t * p
  {
    MulMono(s + 1, t, p);
  }

  /** No superfluous leading zero word; zero may have one word or none. */
  predicate Trimmed(x: seq<Word>, wds: nat)
    requires wds <= |x|
  {
    wds > 1 ==> x[wds - 1] != 0
  }

  lemma ValAtLeast(x: seq<Word>, n: nat)
    requires 0 < n <= |x|
    ensures x[n - 1] * Pow(B, n - 1) <= Val(x, n) < (x[n - 1] + 1) * Pow(B, n - 1)
  {
    ValBound(x, n - 1);
    assert (x[n - 1] + 1) * Pow(B, n - 1) == x[n - 1] * Pow(B, n - 1) + Pow(B, n - 1);
  }

  lemma PowMono(b: nat, m: nat, n: nat)
    requires b > 0 && m <= n
    ensures Pow(b, m) <= Pow(b, n)
  {
    PowAdd(b, m, n - m);
    PowPositive(b, m);
    PowPositive(b, n - m);
    MulLeast(Pow(b, m), Pow(b, n - m));
  }

  /** With trimmed numbers the longer one is the larger one. */
  lemma LongerIsMore(x: seq<Word>, m: nat, y: seq<Word>, n: nat)
    requires m < n <= |y| && m <= |x| && 0 < n && y[n - 1] != 0
    ensures Val(x, m) < Val(y, n)
  {
    ValBound(x, m);
    PowMono(B, m, n - 1);
    ValAtLeast(y, n);
    MulLeast(Pow(B, n - 1), y[n - 1]);
  }

  lemma TopNonZero(x: seq<Word>, n: nat)
    requires 0 < n <= |x| && Pow(B, n - 1) <= Val(x, n)
    ensures x[n - 1] != 0
  {
    ValBound(x, n - 1);
  }

  // ---------------------------------------------------------------- one word at a time

  lemma MulCarry(lo: int, carry: int, v: int, m: int, a: int, w: int, p: int, y: int)
    requires lo + carry * p == v * m + a && y == w * m + carry
    ensures lo + (y % B) * p + (y / B) * (B * p) == (v + w * p) * m + a
  {
    assert y * p == (y % B) * p + (y / B) * (B * p) by {
      assert y == y % B + (y / B) * B;
      Distribute(y % B, y / B, B, p);
    }
    assert (w * m + carry) * p == (w * p) * m + carry * p;
    assert (v + w * p) * m == v * m + (w * p) * m;
  }

  lemma Distribute(r: int, q: int, b: int, p: int)
    ensures (r + q * b) * p == r * p + q * (b * p)
  {
  }

  /** Products and carries never leave 64 bits, and the carry stays a word. */
  lemma NoOverflow(w: Word, m: Word, c: Word, carry: Word)
    ensures w * m + c + carry < LL && (w * m + c + carry) / B < B
  {
    MulMono(w, B - 1, m);
    MulMono(m, B - 1, B - 1);
  }

  lemma CarryBelow(w: Word, m: nat, carry: nat)
    requires m < 0x8000_0000 && carry < 0x8000_0000
    ensures w * m + carry < LL && (w * m + carry) / B < 0x8000_0000
  {
    MulMono(w, B - 1, m);
  }

  /** The 64-bit difference of two words and a borrow: its low word, and bit 32 as the new borrow. */
  function Sub64(x: Word, y: Word, borrow: nat): nat { (x - y - borrow + LL) % LL }
  function BorrowOf(d: nat): nat { (d / B) % 2 }

  lemma BorrowStep(x: Word, y: Word, borrow: nat)
    requires borrow <= 1
    ensures var d := Sub64(x, y, borrow);
      BorrowOf(d) <= 1 && (d % B) - BorrowOf(d) * B == x - y - borrow
  {
  }

  lemma DiffBorrow(c: int, borrow: int, va: int, vb: int, p: int, w: int, borrow': int, x: int, y: int)
    requires c - borrow * p == va - vb && w - borrow' * B == x - y - borrow
    ensures (c + w * p) - borrow' * (B * p) == (va + x * p) - (vb + y * p)
  {
    assert (w - borrow' * B) * p == w * p - borrow' * (B * p);
    assert (x - y - borrow) * p == x * p - y * p - borrow * p;
  }

  // ---------------------------------------------------------------- struct Bigint

  class Bigint {
    var k: nat
    var sign: nat
    var wds: nat
    var x: seq<Word>

    /** The buffer holds 2^k words, of which `wds` are in use. */
    predicate Valid() reads this {
      && |x| == Pow(2, k)
      && wds <= |x|
    }

    predicate Trim() requires Valid() reads this { Trimmed(x, wds) }

    function Value(): nat requires Valid() reads this { Val(x, wds) }

    /** `Balloc`: what is in the words is not promised. */
    constructor (k: nat)
      ensures this.k == k && sign == 0 && wds == 0 && Valid()
    {
      this.k, sign, wds := k, 0, 0;
      x := seq(Pow(2, k), _ => 0);
    }
  }

  method I2b(i: nat) returns (b: Bigint)
    requires i < 0x8000_0000
    ensures fresh(b) && b.Valid() && b.Trim() && b.wds == 1 && b.Value() == i
  {
    b := new Bigint(1);
    assert Pow(2, 1) == 2 * Pow(2, 0) == 2;
    b.x := b.x[0 := i];
    b.wds := 1;
    assert Val(b.x, 1) == Val(b.x, 0) + i * Pow(B, 0);
  }

  // ---------------------------------------------------------------- multadd

  /** After `i` words of `multadd`. */
  ghost predicate MultAdding(x0: seq<Word>, x: seq<Word>, i: nat, m: nat, a: nat, carry: nat) {
    && |x| == |x0| && i <= |x|
    && (forall j :: i <= j < |x| ==> x[j] == x0[j])
    && Val(x, i) + carry * Pow(B, i) == Val(x0, i) * m + a
    && carry < 0x8000_0000
  }

  lemma MultAddStep(x0: seq<Word>, x: seq<Word>, i: nat, m: nat, a: nat, carry: nat)
    requires MultAdding(x0, x, i, m, a, carry) && i < |x| && m < 0x8000_0000
    ensures var y := x[i] * m + carry;
      && y < LL && MultAdding(x0, x[i := y % B], i + 1, m, a, y / B)
  {
    var y := x[i] * m + carry;
    CarryBelow(x[i], m, carry);
    ValSame(x, x[i := y % B], i);
    MulCarry(Val(x, i), carry, Val(x0, i), m, a, x[i], Pow(B, i), y);
  }

  lemma MultAddTrim(x0: seq<Word>, x: seq<Word>, n: nat, m: nat, a: nat)
    requires 0 < n <= |x| && MultAdding(x0, x, n, m, a, 0) && Trimmed(x0, n) && m > 0
    ensures Trimmed(x, n)
  {
    if n > 1 {
      ValAtLeast(x0, n);
      MulLeast(Pow(B, n - 1), x0[n - 1]);
      MulLeast(Val(x0, n), m);
      TopNonZero(x, n);
    }
  }

  /** `multadd`: b * m + a, in place; a last carry may need a larger buffer. */
  method MultAdd(b: Bigint, m: nat, a: nat) returns (r: Bigint)
    requires b.Valid() && b.wds >= 1 && m < 0x8000_0000 && a < 0x8000_0000
    modifies b
    ensures r == b || fresh(r)
    ensures r.Valid() && r.wds >= 1 && r.Value() == old(b.Value()) * m + a
    ensures old(b.Trim()) && m > 0 ==> r.Trim()
  {
    hide MultAdding, Val, Pow, Trimmed;
    var wds := b.wds;
    var i: nat, carry: nat := 0, a;
    MultAddInit(b.x, m, a);
    while i < wds
      invariant 0 <= i <= wds == old(b.wds) <= |b.x| == |old(b.x)| && b.wds == wds && b.k == old(b.k)
      invariant MultAdding(old(b.x), b.x, i, m, a, carry)
    {
      MultAddStep(old(b.x), b.x, i, m, a, carry);
      var y := b.x[i] * m + carry;
      carry := y / B;
      b.x := b.x[i := y % B];
      i := i + 1;
    }
    MultAddDone(old(b.x), b.x, wds, m, a, carry);
    r := b;
    if carry != 0 {
      ghost var done := b.x;
      r := AddWord(b, carry);
      MultAddCarry(old(b.x), done, r.x, wds, m, a, carry);
    }
  }

  /** One word more, in a buffer of twice the size when there is no room. */
  method AddWord(b: Bigint, w: Word) returns (r: Bigint)
    requires b.Valid()
    modifies b
    ensures r == b || fresh(r)
    ensures r.Valid() && r.wds == old(b.wds) + 1 && r.x[r.wds - 1] == w
    ensures forall i :: 0 <= i < old(b.wds) ==> r.x[i] == old(b.x[i])
  {
    hide Val, Pow, Trimmed;
    var wds := b.wds;
    r := b;
    Bigger(b.k);
    if wds >= Pow(2, b.k) {
      r := new Bigint(b.k + 1);
      r.sign, r.wds := b.sign, b.wds;
      r.x := b.x[..wds] + r.x[wds..];
    }
    r.x := r.x[wds := w];
    r.wds := wds + 1;
  }

  lemma Bigger(k: nat)
    ensures Pow(2, k + 1) > Pow(2, k)
  {
    PowPositive(2, k);
  }

  lemma MultAddCarry(x0: seq<Word>, done: seq<Word>, x: seq<Word>, n: nat, m: nat, a: nat, carry: Word)
    requires MultAdding(x0, done, n, m, a, carry) && carry != 0
    requires n <= |done| && n < |x| && x[n] == carry && forall i :: 0 <= i < n ==> x[i] == done[i]
    ensures n <= |x0| && Val(x, n + 1) == Val(x0, n) * m + a && Trimmed(x, n + 1)
  {
    ValSame(done, x, n);
  }

  lemma MultAddInit(x: seq<Word>, m: nat, a: nat)
    requires a < 0x8000_0000
    ensures MultAdding(x, x, 0, m, a, a)
  {
  }

  lemma MultAddDone(x0: seq<Word>, x: seq<Word>, n: nat, m: nat, a: nat, carry: nat)
    requires 0 < n <= |x0| && MultAdding(x0, x, n, m, a, carry)
    ensures |x| == |x0| && Val(x, n) + carry * Pow(B, n) == Val(x0, n) * m + a && carry < B
    ensures carry == 0 && Trimmed(x0, n) && m > 0 ==> Trimmed(x, n)
  {
    if carry == 0 && Trimmed(x0, n) && m > 0 {
      MultAddTrim(x0, x, n, m, a);
    }
  }

  // ---------------------------------------------------------------- mult

  /** After `i` words of row `j`, whose multiplier is `y`. */
  ghost predicate InRow(a: seq<Word>, c0: seq<Word>, c: seq<Word>, i: nat, j: nat, y: nat, carry: nat) {
    && |c| == |c0| && j + i <= |c| && i <= |a|
    && (forall t :: j + i <= t < |c| ==> c[t] == c0[t])
    && Val(c, j + i) + carry * Pow(B, j + i) == Val(c0, j + i) + Val(a, i) * y * Pow(B, j)
    && carry < B
  }

  lemma RowCarry(lo: int, carry: int, v: int, va: int, y: int, pj: int, pi: int, w: int, cw: int, z: int)
    requires lo + carry * (pi * pj) == v + va * y * pj && z == w * y + cw + carry
    ensures lo + (z % B) * (pi * pj) + (z / B) * (B * (pi * pj)) == (v + cw * (pi * pj)) + (va + w * pi) * y * pj
  {
    var p := pi * pj;
    assert z * p == (z % B) * p + (z / B) * (B * p) by {
      assert z == z % B + (z / B) * B;
      Distribute(z % B, z / B, B, p);
    }
    assert (w * y + cw + carry) * p == (w * y) * p + cw * p + carry * p;
    assert (va + w * pi) * y * pj == va * y * pj + (w * y) * p;
  }

  lemma RowStep(a: seq<Word>, c0: seq<Word>, c: seq<Word>, i: nat, j: nat, y: Word, carry: nat)
    requires InRow(a, c0, c, i, j, y, carry) && i < |a| && j + i < |c|
    ensures var z := a[i] * y + c[j + i] + carry;
      && z < LL && InRow(a, c0, c[j + i := z % B], i + 1, j, y, z / B)
  {
    var z := a[i] * y + c[j + i] + carry;
    NoOverflow(a[i], y, c[j + i], carry);
    var c' := c[j + i := z % B];
    ValSame(c, c', j + i);
    PowAdd(B, i, j);
    RowCarry(Val(c, j + i), carry, Val(c0, j + i), Val(a, i), y, Pow(B, j), Pow(B, i), a[i], c[j + i], z);
    assert Val(c', j + (i + 1)) == Val(c', j + i) + c'[j + i] * Pow(B, j + i);
    assert Val(c0, j + (i + 1)) == Val(c0, j + i) + c0[j + i] * Pow(B, j + i);
  }

  /** The product of `a` and the first `j` words of `b`, above which there is nothing yet. */
  ghost predicate Rows(a: seq<Word>, wa: nat, b: seq<Word>, j: nat, c: seq<Word>, wc: nat) {
    && wa <= |a| && j <= |b| && wa + j <= wc <= |c|
    && (forall t :: wa + j <= t < wc ==> c[t] == 0)
    && Val(c, wa + j) == Val(a, wa) * Val(b, j)
  }

  lemma RowDone(a: seq<Word>, wa: nat, b: seq<Word>, j: nat, c0: seq<Word>, c: seq<Word>, wc: nat, carry: Word)
    requires Rows(a, wa, b, j, c0, wc) && wa + j < wc && j < |b|
    requires InRow(a[..wa], c0, c, wa, j, b[j], carry)
    ensures Rows(a, wa, b, j + 1, c[wa + j := carry], wc)
  {
    var c' := c[wa + j := carry];
    ValSame(c, c', wa + j);
    ValSame(a[..wa], a, wa);
    assert Val(c', wa + (j + 1)) == Val(c', wa + j) + carry * Pow(B, wa + j);
    Distribute3(Val(a, wa), Val(b, j), b[j], Pow(B, j));
  }

  lemma Distribute3(a: int, v: int, w: int, p: int)
    ensures a * (v + w * p) == a * v + a * w * p
  {
  }

  lemma RowSkip(a: seq<Word>, wa: nat, b: seq<Word>, j: nat, c: seq<Word>, wc: nat)
    requires Rows(a, wa, b, j, c, wc) && wa + j < wc && j < |b| && b[j] == 0
    ensures Rows(a, wa, b, j + 1, c, wc)
  {
    assert Val(c, wa + (j + 1)) == Val(c, wa + j) + c[wa + j] * Pow(B, wa + j);
  }

  lemma RowsStart(a: seq<Word>, wa: nat, b: seq<Word>, c: seq<Word>, wc: nat)
    requires wa <= |a| && wa <= wc <= |c| && forall t :: 0 <= t < wc ==> c[t] == 0
    ensures Rows(a, wa, b, 0, c, wc)
  {
    ValZeros(c, 0, wa);
  }

  lemma RowStart(a: seq<Word>, c: seq<Word>, j: nat, y: nat)
    requires j <= |c|
    ensures InRow(a, c, c, 0, j, y, 0)
  {
  }

  lemma {:induction false} RowsEnd(a: seq<Word>, wa: nat, b: seq<Word>, wb: nat, c: seq<Word>, wc: nat)
    requires Rows(a, wa, b, wb, c, wa + wb) && wc <= wa + wb && forall t :: wc <= t < wa + wb ==> c[t] == 0
    ensures Val(c, wc) == Val(a, wa) * Val(b, wb)
  {
    ValZeros(c, wc, wa + wb);
  }

  /** The inner loop of `mult`. */
  method MultRow(a: Bigint, wa: nat, c: Bigint, j: nat, y: Word)
    requires a.Valid() && c.Valid() && a != c && 0 < wa == a.wds && j + wa < |c.x|
    modifies c`x
    ensures |c.x| == |old(c.x)|
    ensures exists r: seq<Word>, carry: Word :: |r| == |old(c.x)| && InRow(a.x[..wa], old(c.x), r, wa, j, y, carry) && c.x == r[wa + j := carry]
  {
    hide InRow;
    ghost var c0 := c.x;
    var i, carry: nat := 0, 0;
    RowStart(a.x[..wa], c0, j, y);
    while i < wa
      invariant 0 <= i <= wa && |c.x| == |c0| && InRow(a.x[..wa], c0, c.x, i, j, y, carry)
    {
      RowStep(a.x[..wa], c0, c.x, i, j, y, carry);
      var z := a.x[i] * y + c.x[j + i] + carry;
      carry := z / B;
      c.x := c.x[j + i := z % B];
      i := i + 1;
    }
    RowCarryIsWord(a.x[..wa], c0, c.x, wa, j, y, carry);
    ghost var r := c.x;
    c.x := c.x[j + wa := carry];
    assert c.x == r[wa + j := carry];
  }

  lemma RowCarryIsWord(a: seq<Word>, c0: seq<Word>, c: seq<Word>, i: nat, j: nat, y: nat, carry: nat)
    requires InRow(a, c0, c, i, j, y, carry)
    ensures carry < B && |c| == |c0|
  {
  }

  /** The doubled buffer has room for two numbers that fit into the smaller one. */
  lemma Room(k: nat, wa: nat, wb: nat)
    requires wb <= wa <= Pow(2, k)
    ensures wa + wb <= Pow(2, if wa + wb > Pow(2, k) then k + 1 else k)
  {
  }

  /** `mult`: the exact product, in a new buffer that is large enough. */
  method Mult(a0: Bigint, b0: Bigint) returns (c: Bigint)
    requires a0.Valid() && b0.Valid()
    ensures fresh(c) && c.Valid() && c.Value() == a0.Value() * b0.Value()
    ensures c.wds > 0 ==> c.x[c.wds - 1] != 0
  {
    var a, b := a0, b0;
    if a.wds < b.wds {
      a, b := b0, a0;
    }
    var k := a.k;
    Room(k, a.wds, b.wds);
    if a.wds + b.wds > Pow(2, a.k) {
      k := k + 1;
    }
    c := new Bigint(k);
    MultWords(a, b, c);
  }

  method MultWords(a: Bigint, b: Bigint, c: Bigint)
    requires a.Valid() && b.Valid() && c.Valid() && c != a && c != b && b.wds <= a.wds && a.wds + b.wds <= |c.x|
    modifies c
    ensures c.Valid() && c.Value() == a.Value() * b.Value()
    ensures c.wds > 0 ==> c.x[c.wds - 1] != 0
  {
    hide Rows, InRow, Val, Pow;
    var wa, wb := a.wds, b.wds;
    var wc := wa + wb;
    var t := 0;
    while t < wc
      invariant 0 <= t <= wc && |c.x| == |old(c.x)| && c.k == old(c.k) && c.wds == old(c.wds)
      invariant forall s :: 0 <= s < t ==> c.x[s] == 0
    {
      c.x := c.x[t := 0];
      t := t + 1;
    }
    RowsStart(a.x, wa, b.x, c.x, wc);
    var j := 0;
    while j < wb
      invariant 0 <= j <= wb && |c.x| == |old(c.x)| && c.k == old(c.k) && c.wds == old(c.wds)
      invariant Rows(a.x, wa, b.x, j, c.x, wc)
    {
      var y := b.x[j];
      if y != 0 {
        ghost var c0 := c.x;
        MultRow(a, wa, c, j, y);
        ghost var r: seq<Word>, carry: Word :|
          |r| == |c0| && InRow(a.x[..wa], c0, r, wa, j, y, carry) && c.x == r[wa + j := carry];
        RowDone(a.x, wa, b.x, j, c0, r, wc, carry);
      } else {
        RowSkip(a.x, wa, b.x, j, c.x, wc);
      }
      j := j + 1;
    }
    while wc > 0 && c.x[wc - 1] == 0
      invariant 0 <= wc <= wa + wb && forall s :: wc <= s < wa + wb ==> c.x[s] == 0
    {
      wc := wc - 1;
    }
    RowsEnd(a.x, wa, b.x, wb, c.x, wc);
    c.wds := wc;
  }

  // ---------------------------------------------------------------- pow5mult

  /** The list `p5s` of squares: 5^4, 5^8, 5^16, ... */
  class Powers {
    var p5s: seq<Bigint>

    ghost predicate Valid() reads this, p5s {
      forall i :: 0 <= i < |p5s| ==> p5s[i].Valid() && p5s[i].Value() == Pow(5, 4 * Pow(2, i))
    }

    constructor ()
      ensures Valid() && p5s == []
    {
      p5s := [];
    }

    /** `p5->next`, computed by squaring when it is asked for the first time. */
    method Power(i: nat) returns (p5: Bigint)
      requires Valid() && i <= |p5s|
      modifies this
      ensures Valid() && i < |p5s| && p5 == p5s[i] && |old(p5s)| <= |p5s| && old(p5s) == p5s[..|old(p5s)|]
      ensures forall j :: |old(p5s)| <= j < |p5s| ==> fresh(p5s[j])
    {
      if i == |p5s| {
        if i == 0 {
          p5 := I2b(625);
          FirstPower();
        } else {
          p5 := Mult(p5s[i - 1], p5s[i - 1]);
          NextPower(i);
        }
        p5s := p5s + [p5];
      }
      p5 := p5s[i];
    }

    /** `pow5mult`: b * 5^k. */
    method Pow5Mult(b: Bigint, k: nat) returns (r: Bigint)
      requires Valid() && b.Valid() && b.wds >= 1 && b !in p5s
      modifies this, b
      ensures Valid() && |old(p5s)| <= |p5s| && old(p5s) == p5s[..|old(p5s)|]
      ensures r == b || fresh(r)
      ensures r !in p5s && r.Valid() && r.Value() == old(b.Value()) * Pow(5, k)
      ensures old(b.Trim()) ==> r.Trim()
    {
      hide Pow, Val, Bigint.Value, Bigint.Trim, Bigint.Valid;
      r := b;
      var i := k % 4;
      SmallPower(b.Value(), k);
      if i != 0 {
        r := MultAdd(b, [5, 25, 125][i - 1], 0);
      }
      var n := k / 4;
      if n != 0 {
        r := Squares(r, n);
      }
    }

    /** The loop over the bits of `k >> 2`: repeated squaring on the cached list. */
    method Squares(b: Bigint, k: nat) returns (r: Bigint)
      requires Valid() && b.Valid() && b !in p5s && k > 0
      modifies this
      ensures Valid() && |old(p5s)| <= |p5s| && old(p5s) == p5s[..|old(p5s)|]
      ensures fresh(r)
      ensures r !in p5s && r.Valid() && r.Trim() && r.Value() == b.Value() * Pow(Pow(5, 4 * Pow(2, 0)), k)
    {
      hide Pow, Val, Owes, Bigint.Valid, Bigint.Value, Bigint.Trim;
      ghost var target := b.Value() * Pow(Pow(5, 4 * Pow(2, 0)), k);
      r := b;
      var at, n := 0, k;
      OwesStart(b.Value(), k);
      var p5 := Power(0);
      while true
        invariant Valid() && 0 <= at < |p5s| && p5 == p5s[at] && n > 0
        invariant |old(p5s)| <= |p5s| && old(p5s) == p5s[..|old(p5s)|]
        invariant r !in p5s && r.Valid() && (r == b || (fresh(r) && r.Trim())) && Owes(r.Value(), at, n, target)
        decreases n
      {
        OwesHalf(r.Value(), at, n, target);
        if n % 2 == 1 {
          r := Mult(r, p5);
          MultTrims(r);
        }
        n := n / 2;
        if n == 0 {
          break;
        }
        at := at + 1;
        p5 := Power(at);
      }
    }
  }

  lemma MultTrims(c: Bigint)
    requires c.Valid() && (c.wds > 0 ==> c.x[c.wds - 1] != 0)
    ensures c.Trim()
  {
  }

  /** What is still to be multiplied in: the n-th power of the cached number `at`. */
  ghost predicate Owes(v: nat, at: nat, n: nat, target: nat) {
    v * Pow(Pow(5, 4 * Pow(2, at)), n) == target
  }

  lemma OwesStart(v: nat, n: nat)
    ensures Owes(v, 0, n, v * Pow(Pow(5, 4 * Pow(2, 0)), n))
  {
  }

  lemma OwesHalf(v: nat, at: nat, n: nat, target: nat)
    requires Owes(v, at, n, target) && n > 0
    ensures n / 2 > 0 ==> Owes(if n % 2 == 1 then v * Pow(5, 4 * Pow(2, at)) else v, at + 1, n / 2, target)
    ensures n / 2 == 0 ==> v * Pow(5, 4 * Pow(2, at)) == target
  {
    HalveStep(v, Pow(5, 4 * Pow(2, at)), n);
    SquarePower(at);
  }

  lemma FirstPower()
    ensures 625 == Pow(5, 4 * Pow(2, 0))
  {
    assert Pow(2, 0) == 1;
    assert Pow(5, 4) == 5 * Pow(5, 3);
    assert Pow(5, 3) == 5 * Pow(5, 2);
  }

  lemma NextPower(i: nat)
    requires i > 0
    ensures Pow(5, 4 * Pow(2, i - 1)) * Pow(5, 4 * Pow(2, i - 1)) == Pow(5, 4 * Pow(2, i))
  {
    PowAdd(5, 4 * Pow(2, i - 1), 4 * Pow(2, i - 1));
  }

  lemma SquarePower(i: nat)
    ensures Pow(5, 4 * Pow(2, i)) * Pow(5, 4 * Pow(2, i)) == Pow(5, 4 * Pow(2, i + 1))
  {
    NextPower(i + 1);
  }

  lemma SmallPower(v: nat, k: nat)
    ensures k % 4 != 0 ==> v * [5, 25, 125][k % 4 - 1] + 0 == v * Pow(5, k % 4)
    ensures k % 4 == 0 ==> v == v * Pow(5, k % 4)
    ensures v * Pow(5, k % 4) * Pow(Pow(5, 4 * Pow(2, 0)), k / 4) == v * Pow(5, k)
    ensures k / 4 == 0 ==> Pow(5, k % 4) == Pow(5, k)
  {
    assert Pow(5, 0) == 1 && Pow(5, 1) == 5 && Pow(5, 2) == 5 * Pow(5, 1) && Pow(5, 3) == 5 * Pow(5, 2);
    assert Pow(2, 0) == 1;
    PowPow(5, 4, k / 4);
    PowAdd(5, k % 4, 4 * (k / 4));
    Assoc(v, Pow(5, k % 4), Pow(5, 4 * (k / 4)));
  }

  lemma {:induction false} PowSquare(x: nat, n: nat)
    ensures Pow(x, 2 * n) == Pow(x * x, n)
  {
    if n > 0 {
      PowSquare(x, n - 1);
      assert Pow(x, 2 * n) == x * Pow(x, 2 * n - 1) == x * (x * Pow(x, 2 * n - 2));
      Assoc(x, x, Pow(x, 2 * n - 2));
    }
  }

  lemma HalveStep(v: nat, x: nat, n: nat)
    ensures v * Pow(x, n) == (if n % 2 == 1 then v * x else v) * Pow(x * x, n / 2)
    ensures n / 2 == 0 && n > 0 ==> v * Pow(x, n) == v * x
  {
    PowSquare(x, n / 2);
    if n % 2 == 1 {
      assert Pow(x, n) == x * Pow(x, 2 * (n / 2));
      Assoc(v, x, Pow(x, 2 * (n / 2)));
    }
    if n == 1 {
      assert Pow(x, 1) == x * Pow(x, 0) == x;
    }
  }

  // ---------------------------------------------------------------- cmp

  /** `cmp`: the sign of the difference of two trimmed numbers. */
  method Cmp(a: Bigint, b: Bigint) returns (c: int)
    requires a.Valid() && b.Valid() && a.Trim() && b.Trim() && b.wds > 0 && (a.wds > 0 || b.Value() > 0)
    ensures c < 0 <==> a.Value() < b.Value()
    ensures c == 0 <==> a.Value() == b.Value()
    ensures c > 0 <==> a.Value() > b.Value()
  {
    hide Val, Pow;
    var i: int, j: int := a.wds, b.wds;
    if i != j {
      LengthDecides(a.x, i, b.x, j);
      return i - j;
    }
    var n := j;
    while true
      invariant 0 < n <= j && forall t :: n <= t < j ==> a.x[t] == b.x[t]
      decreases n
    {
      n := n - 1;
      if a.x[n] != b.x[n] {
        if a.x[n] < b.x[n] {
          ValLess(a.x, b.x, n, j);
          return -1;
        }
        ValLess(b.x, a.x, n, j);
        return 1;
      }
      if n <= 0 {
        break;
      }
    }
    ValSame(a.x, b.x, j);
    return 0;
  }

  lemma LengthDecides(x: seq<Word>, m: nat, y: seq<Word>, n: nat)
    requires m <= |x| && 0 < n <= |y| && m != n && Trimmed(x, m) && Trimmed(y, n) && (m > 0 || Val(y, n) > 0)
    ensures m < n ==> Val(x, m) < Val(y, n)
    ensures m > n ==> Val(x, m) > Val(y, n)
  {
    if m < n && n > 1 {
      LongerIsMore(x, m, y, n);
    } else if m > n {
      LongerIsMore(y, n, x, m);
    }
  }

  // ---------------------------------------------------------------- diff

  /** After `i` words of `diff`, of which `vb` is the subtrahend so far. */
  ghost predicate Diffing(a: seq<Word>, c: seq<Word>, i: nat, vb: nat, borrow: nat) {
    && i <= |a| && i <= |c| && borrow <= 1
    && Val(c, i) - borrow * Pow(B, i) == Val(a, i) - vb
  }

  lemma DiffStep(a: seq<Word>, c: seq<Word>, i: nat, vb: nat, borrow: nat, y: Word)
    requires Diffing(a, c, i, vb, borrow) && i < |a| && i < |c|
    ensures var d := Sub64(a[i], y, borrow);
      Diffing(a, c[i := d % B], i + 1, vb + y * Pow(B, i), BorrowOf(d))
  {
    var d := Sub64(a[i], y, borrow);
    BorrowStep(a[i], y, borrow);
    ValSame(c, c[i := d % B], i);
    DiffBorrow(Val(c, i), borrow, Val(a, i), vb, Pow(B, i), d % B, BorrowOf(d), a[i], y);
  }

  lemma DiffEnd(a: seq<Word>, c: seq<Word>, n: nat, vb: nat, borrow: nat)
    requires Diffing(a, c, n, vb, borrow) && n <= |a| && n <= |c| && vb < Val(a, n)
    ensures Val(c, n) == Val(a, n) - vb > 0
  {
    ValBound(c, n);
  }

  /** `diff`: the exact absolute difference, with the sign of a - b. */
  method Diff(a0: Bigint, b0: Bigint) returns (c: Bigint)
    requires a0.Valid() && b0.Valid() && a0.Trim() && b0.Trim() && a0.wds > 0 && b0.wds > 0
    ensures fresh(c) && c.Valid() && c.Trim() && c.wds > 0
    ensures c.Value() == if a0.Value() < b0.Value() then b0.Value() - a0.Value() else a0.Value() - b0.Value()
    ensures c.sign == if a0.Value() < b0.Value() then 1 else 0
  {
    var i := Cmp(a0, b0);
    if i == 0 {
      c := new Bigint(0);
      c.x, c.wds := c.x[0 := 0], 1;
      assert Val(c.x, 1) == Val(c.x, 0) + 0 * Pow(B, 0);
      return;
    }
    var a, b := a0, b0;
    if i < 0 {
      a, b := b0, a0;
      i := 1;
    } else {
      i := 0;
    }
    c := new Bigint(a.k);
    c.sign := i;
    DiffWords(a, b, c);
  }

  method DiffWords(a: Bigint, b: Bigint, c: Bigint)
    requires a.Valid() && b.Valid() && c.Valid() && c != a && c != b && c.k == a.k && a.Trim() && b.Trim()
    requires 0 < b.wds && 0 < a.wds && b.Value() < a.Value()
    modifies c`x, c`wds
    ensures c.Valid() && c.Trim() && c.wds > 0 && c.Value() == a.Value() - b.Value()
  {
    hide Diffing, Val, Pow;
    var wa, wb := a.wds, b.wds;
    ShorterIsLess(a.x, wa, b.x, wb);
    var n, borrow: nat := 0, 0;
    DiffStart(a.x, b.x, c.x);
    while n < wb
      invariant 0 <= n <= wb && |c.x| == |old(c.x)| && c.wds == old(c.wds)
      invariant Diffing(a.x, c.x, n, Val(b.x, n), borrow)
    {
      DiffingBorrow(a.x, c.x, n, Val(b.x, n), borrow);
      DiffStep(a.x, c.x, n, Val(b.x, n), borrow, b.x[n]);
      ValNext(b.x, n);
      var y := Sub64(a.x[n], b.x[n], borrow);
      borrow := BorrowOf(y);
      c.x := c.x[n := y % B];
      n := n + 1;
    }
    while n < wa
      invariant wb <= n <= wa && |c.x| == |old(c.x)| && c.wds == old(c.wds)
      invariant Diffing(a.x, c.x, n, Val(b.x, wb), borrow)
    {
      DiffingBorrow(a.x, c.x, n, Val(b.x, wb), borrow);
      DiffStep(a.x, c.x, n, Val(b.x, wb), borrow, 0);
      var y := Sub64(a.x[n], 0, borrow);
      borrow := BorrowOf(y);
      c.x := c.x[n := y % B];
      n := n + 1;
    }
    DiffEnd(a.x, c.x, wa, Val(b.x, wb), borrow);
    SomeWord(c.x, wa);
    while c.x[wa - 1] == 0
      invariant 0 < wa <= a.wds && forall t :: wa <= t < a.wds ==> c.x[t] == 0
      invariant exists t :: 0 <= t < wa && c.x[t] != 0
      decreases wa
    {
      wa := wa - 1;
    }
    ValZeros(c.x, wa, a.wds);
    c.wds := wa;
  }

  lemma DiffStart(a: seq<Word>, b: seq<Word>, c: seq<Word>)
    ensures Diffing(a, c, 0, Val(b, 0), 0)
  {
  }

  lemma DiffingBorrow(a: seq<Word>, c: seq<Word>, i: nat, vb: nat, borrow: nat)
    requires Diffing(a, c, i, vb, borrow)
    ensures borrow <= 1
  {
  }

  lemma ValNext(x: seq<Word>, n: nat)
    requires n < |x|
    ensures Val(x, n + 1) == Val(x, n) + x[n] * Pow(B, n)
  {
  }

  lemma ShorterIsLess(x: seq<Word>, m: nat, y: seq<Word>, n: nat)
    requires 0 < m <= |x| && n <= |y| && Trimmed(y, n) && Val(y, n) < Val(x, m)
    ensures n <= m
  {
    if m < n {
      LongerIsMore(x, m, y, n);
      assert false;
    }
  }

  lemma SomeWord(x: seq<Word>, n: nat)
    requires n <= |x| && Val(x, n) > 0
    ensures exists t :: 0 <= t < n && x[t] != 0
  {
    if forall t :: 0 <= t < n ==> x[t] == 0 {
      ValZeros(x, 0, n);
    }
  }

  // ---------------------------------------------------------------- lshift

  lemma Pow2Of32()
    ensures Pow(2, 32) == B
  {
    assert Pow(2, 4) == 2 * Pow(2, 3) && Pow(2, 3) == 2 * Pow(2, 2) && Pow(2, 2) == 2 * Pow(2, 1);
    assert Pow(2, 1) == 2 * Pow(2, 0) == 2;
    PowAdd(2, 4, 4);
    PowAdd(2, 8, 8);
    PowAdd(2, 16, 16);
  }

  /** After `i` words shifted by `n` words and a factor `s` below 2^32; `z` is what the last word pushed out. */
  ghost predicate Shifting(x: seq<Word>, x1: seq<Word>, i: nat, n: nat, s: nat, z: nat) {
    && i <= |x| && n + i <= |x1| && z < s
    && Val(x1, n + i) + z * Pow(B, n + i) == Val(x, i) * s * Pow(B, n)
  }

  /** The two parts of a shifted word share no bit with each other, nor the low part with what is carried in. */
  lemma ShiftParts(w: Word, s: nat, t: nat, z: nat)
    requires s * t == B && z < s
    ensures t > 0 && (w * s) % B == (w % t) * s && (w * s) / B == w / t < s && (w * s) % B + z < B
  {
    var q, r := w / t, w % t;
    assert w * s == q * B + r * s by {
      assert w == q * t + r;
      assert (q * t + r) * s == q * (s * t) + r * s;
    }
    MulMono(r + 1, t, s);
    assert r * s + s <= B;
    assert q < s by {
      if q >= s {
        MulMono(s, q, t);
      }
    }
  }

  lemma ShiftCarry(lo: int, z: int, v: int, s: int, pi: int, pn: int, w: int, low: int, high: int)
    requires lo + z * (pi * pn) == v * s * pn && w * s == high * B + low
    ensures lo + (low + z) * (pi * pn) + high * (B * (pi * pn)) == (v + w * pi) * s * pn
  {
    var p := pi * pn;
    assert (w * pi) * s * pn == (w * s) * p;
    assert (high * B + low) * p == high * (B * p) + low * p;
    assert (v + w * pi) * s * pn == v * s * pn + (w * pi) * s * pn;
    assert (low + z) * p == low * p + z * p;
  }

  lemma ShiftStep(x: seq<Word>, x1: seq<Word>, i: nat, n: nat, s: nat, t: nat, z: nat)
    requires Shifting(x, x1, i, n, s, z) && i < |x| && n + i < |x1| && s * t == B
    ensures t > 0 && (x[i] * s) % B + z < B
    ensures Shifting(x, x1[n + i := (x[i] * s) % B + z], i + 1, n, s, x[i] / t)
  {
    ShiftParts(x[i], s, t, z);
    var w: Word := (x[i] * s) % B + z;
    var x1' := x1[n + i := w];
    ValSame(x1, x1', n + i);
    PowAdd(B, i, n);
    ShiftCarry(Val(x1, n + i), z, Val(x, i), s, Pow(B, i), Pow(B, n), x[i], (x[i] * s) % B, x[i] / t);
    ValNext(x1', n + i);
    ValNext(x, i);
    assert Pow(B, n + i + 1) == B * Pow(B, n + i);
  }

  lemma ShiftStart(x: seq<Word>, x1: seq<Word>, n: nat, s: nat)
    requires n <= |x1| && s > 0 && forall i :: 0 <= i < n ==> x1[i] == 0
    ensures Shifting(x, x1, 0, n, s, 0)
  {
    ValZeros(x1, 0, n);
  }

  lemma ShiftEnd(x: seq<Word>, x1: seq<Word>, wds: nat, k: nat, z: Word)
    requires Shifting(x, x1, wds, k / 32, Pow(2, k % 32), z) && 0 < wds && k / 32 + wds < |x1|
    ensures var n, x1' := k / 32 + wds + (if z != 0 then 1 else 0), x1[k / 32 + wds := z];
      && Val(x1', n) == Val(x, wds) * Pow(2, k)
      && (x[wds - 1] != 0 ==> x1'[n - 1] != 0)
  {
    var n := k / 32;
    var x1' := x1[n + wds := z];
    ValSame(x1, x1', n + wds);
    ValNext(x1', n + wds);
    WholeShift(Val(x, wds), k);
    if z == 0 && x[wds - 1] != 0 {
      ValAtLeast(x, wds);
      MulLeast(Pow(B, wds - 1), x[wds - 1]);
      ShiftTop(Val(x, wds), wds, n, Pow(2, k % 32));
      TopNonZero(x1', n + wds);
    }
  }

  lemma WholeShift(v: nat, k: nat)
    ensures v * Pow(2, k % 32) * Pow(B, k / 32) == v * Pow(2, k)
  {
    Pow2Of32();
    PowPow(2, 32, k / 32);
    PowAdd(2, k % 32, 32 * (k / 32));
    Assoc(v, Pow(2, k % 32), Pow(B, k / 32));
  }

  lemma ShiftTop(v: nat, wds: nat, n: nat, s: nat)
    requires wds > 0 && v >= Pow(B, wds - 1) && s > 0
    ensures v * s * Pow(B, n) >= Pow(B, n + wds - 1)
  {
    PowAdd(B, wds - 1, n);
    MulLeast(v, s);
    MulMono(Pow(B, wds - 1), v * s, Pow(B, n));
  }

  /** The buffer is doubled until `n1` words fit. */
  method RoomFor(k: nat, n1: nat) returns (k1: nat)
    ensures n1 <= Pow(2, k1)
  {
    k1 := k;
    var i := Pow(2, k);
    PowPositive(2, k);
    while n1 > i
      invariant i == Pow(2, k1) > 0
      decreases n1 - i
    {
      i := 2 * i;
      k1 := k1 + 1;
    }
  }

  /** `lshift`: b * 2^k. */
  method LShift(b: Bigint, k: nat) returns (r: Bigint)
    requires b.Valid() && b.wds > 0
    ensures fresh(r) && r.Valid() && r.wds > 0 && r.Value() == b.Value() * Pow(2, k)
    ensures b.x[b.wds - 1] != 0 ==> r.x[r.wds - 1] != 0
  {
    hide Val, Pow, Shifting;
    var n := k / 32;
    var n1 := n + b.wds + 1;
    var k1 := RoomFor(b.k, n1);
    r := new Bigint(k1);
    var i := 0;
    while i < n
      invariant 0 <= i <= n && |r.x| == Pow(2, k1) && r.k == k1 && fresh(r)
      invariant forall j :: 0 <= j < i ==> r.x[j] == 0
    {
      r.x := r.x[i := 0];
      i := i + 1;
    }
    var z := ShiftWords(b, r, n, k % 32);
    ShiftEnd(b.x, r.x, b.wds, k, z);
    if k % 32 != 0 {
      r.x := r.x[n + b.wds := z];
      if z != 0 {
        n1 := n1 + 1;
      }
    } else {
      ghost var x1 := r.x[n + b.wds := z];
      ValSame(r.x, x1, n + b.wds);
    }
    r.wds := n1 - 1;
  }

  /** The two copying loops of `lshift`. */
  method ShiftWords(b: Bigint, r: Bigint, n: nat, k: nat) returns (z: Word)
    requires b.Valid() && b.wds > 0 && b != r && n + b.wds < |r.x| && k < 32
    requires forall i :: 0 <= i < n ==> r.x[i] == 0
    modifies r`x
    ensures |r.x| == |old(r.x)| && Shifting(b.x, r.x, b.wds, n, Pow(2, k), z)
    ensures k == 0 ==> z == 0
  {
    hide Val, Pow, Shifting;
    var s, t := Pow(2, k), Pow(2, 32 - k);
    assert s * t == B && s > 0 && (k == 0 ==> s == 1) by {
      PowAdd(2, k, 32 - k);
      Pow2Of32();
      PowPositive(2, k);
      PowZero();
    }
    ShiftStart(b.x, r.x, n, s);
    z := 0;
    var i := 0;
    if k != 0 {
      while i < b.wds
        invariant 0 <= i <= b.wds && |r.x| == |old(r.x)| && Shifting(b.x, r.x, i, n, s, z)
      {
        ShiftStep(b.x, r.x, i, n, s, t, z);
        ShiftParts(b.x[i], s, t, 0);
        ShiftFacts(s, t);
        r.x := r.x[n + i := (b.x[i] * s) % B + z];
        z := b.x[i] / t;
        i := i + 1;
      }
    } else {
      while i < b.wds
        invariant 0 <= i <= b.wds && |r.x| == |old(r.x)| && Shifting(b.x, r.x, i, n, 1, 0)
      {
        ShiftStep(b.x, r.x, i, n, 1, B, 0);
        r.x := r.x[n + i := b.x[i]];
        i := i + 1;
      }
    }
  }

  lemma PowZero()
    ensures Pow(2, 0) == 1
  {
  }

  lemma ShiftFacts(s: nat, t: nat)
    requires s * t == B
    ensures s <= B
  {
    if t > 0 {
      MulLeast(s, t);
    }
  }
}
