/**
  Digit generation of dtoa.c with a fixed number of digits: scaling, the quotient step `quorem`, the
  digit loop and the round-off of the last digit.
 */
module Dtoa {

  import opened Prelude
  import opened Bignum

  // ---------------------------------------------------------------- hi0bits and dshift

  /** `hi0bits`: the number of leading zero bits of a 32-bit word. */
  method Hi0Bits(w: Word) returns (k: nat)
    ensures w == 0 ==> k == 32
    ensures w > 0 ==> k < 32 && 0x8000_0000 <= w * Pow(2, k) < B
  {
    hide Pow;
    Doublings();
    var x: Word := w;
    k := 0;
    if x < 0x1_0000 {
      k, x := 16, x * 0x1_0000;
    }
    assert x == w * Pow(2, k);
    MoveLeft(w, k, 8);
    if x < 0x100_0000 {
      k, x := k + 8, x * 0x100;
    }
    assert x == w * Pow(2, k);
    MoveLeft(w, k, 4);
    if x < 0x1000_0000 {
      k, x := k + 4, x * 0x10;
    }
    assert x == w * Pow(2, k);
    MoveLeft(w, k, 2);
    if x < 0x4000_0000 {
      k, x := k + 2, x * 4;
    }
    assert x == w * Pow(2, k);
    MoveLeft(w, k, 1);
    if x < 0x8000_0000 {
      k := k + 1;
      if x < 0x4000_0000 {
        return 32;
      }
    }
  }

  lemma MoveLeft(w: nat, k: nat, d: nat)
    ensures w * Pow(2, k + d) == w * Pow(2, k) * Pow(2, d)
  {
    PowAdd(2, k, d);
    Assoc(w, Pow(2, k), Pow(2, d));
  }

  lemma Doublings()
    ensures Pow(2, 0) == 1 && Pow(2, 1) == 2 && Pow(2, 2) == 4 && Pow(2, 4) == 0x10 && Pow(2, 8) == 0x100 && Pow(2, 16) == 0x1_0000
  {
    assert Pow(2, 1) == 2 * Pow(2, 0);
    assert Pow(2, 2) == 2 * Pow(2, 1);
    PowAdd(2, 2, 2);
    PowAdd(2, 4, 4);
    PowAdd(2, 8, 8);
  }

  /** Numbers whose leading word has exactly four leading zero bits. */
  predicate Divisor(x: seq<Word>, wds: nat) {
    0 < wds <= |x| && 0x800_0000 <= x[wds - 1] < 0x1000_0000
  }

  /** `dshift`: modulo 32, how far S * 2^p2 is from having four leading zero bits in its top word. */
  method DShift(b: Bigint, p2: nat) returns (s: nat)
    requires b.Valid() && b.wds > 0 && b.x[b.wds - 1] != 0
    ensures s < 32
    ensures exists h: nat :: h < 32 && (p2 + s - h + 4) % 32 == 0 && 0x8000_0000 <= b.x[b.wds - 1] * Pow(2, h) < B
  {
    var h := Hi0Bits(b.x[b.wds - 1]);
    var rv: int := h as int - 4;
    if p2 > 0 {
      rv := rv - p2;
    }
    s := rv % 32;
    ShiftResidue(h, p2);
  }

  lemma ShiftResidue(h: nat, p2: nat)
    ensures (p2 + (h - 4 - p2) % 32 - h + 4) % 32 == 0
  {
    var r := (h - 4 - p2) % 32;
    var q := (h - 4 - p2) / 32;
    assert h - 4 - p2 == q * 32 + r;
    assert p2 + r - h + 4 == -q * 32;
  }

  /** A trimmed number that lies between 2^27 and 2^28 times a power of the word base is a divisor. */
  lemma DivisorFromValue(x: seq<Word>, wds: nat, m: nat)
    requires 0 < wds <= |x| && x[wds - 1] != 0
    requires 0x800_0000 * Pow(B, m) <= Val(x, wds) < 0x1000_0000 * Pow(B, m)
    ensures Divisor(x, wds)
  {
    hide Val, Pow;
    var top, p := x[wds - 1], Pow(B, wds - 1);
    ValAtLeast(x, wds);
    PowPositive(B, m);
    PowPositive(B, wds - 1);
    if wds - 1 > m {
      PowMono(B, m + 1, wds - 1);
      PowStep(m);
      MulLeast(p, top);
      assert false;
    } else if wds - 1 < m {
      PowMono(B, wds, m);
      PowStep(wds - 1);
      MulMono(top + 1, B, p);
      assert false;
    } else {
      if top < 0x800_0000 {
        MulMono(top + 1, 0x800_0000, p);
        assert false;
      }
      if top >= 0x1000_0000 {
        MulMono(0x1000_0000, top, p);
        assert false;
      }
    }
  }

  lemma PowStep(m: nat)
    ensures Pow(B, m + 1) == B * Pow(B, m)
  {
  }

  /** Shifting a word with `h` leading zeros to a multiple of 32 bits plus 28 makes the number a divisor. */
  lemma ShiftedBounds(x: seq<Word>, wds: nat, h: nat, s: nat) returns (m: nat)
    requires 0 < wds <= |x| && h < 32 && 0x8000_0000 <= x[wds - 1] * Pow(2, h) < B
    requires (s - h + 4) % 32 == 0
    ensures 0x800_0000 * Pow(B, m) <= Val(x, wds) * Pow(2, s) < 0x1000_0000 * Pow(B, m)
  {
    hide Val, Pow;
    ValAtLeast(x, wds);
    TopShifted(Val(x, wds), x[wds - 1], Pow(B, wds - 1), h);
    var t := (s - h + 4) / 32;
    m := wds - 1 + t;
    ShiftBy(Val(x, wds), h, s, t, wds - 1);
  }

  /** Multiplied by 2^h the number lies between 2^31 and 2^32 times the weight of its top word. */
  lemma TopShifted(v: nat, top: Word, p: nat, h: nat)
    requires top * p <= v < (top + 1) * p && h < 32 && 0x8000_0000 <= top * Pow(2, h) < B
    ensures 0x8000_0000 * p <= v * Pow(2, h) < B * p
  {
    hide Pow;
    var f := Pow(2, h);
    TopFits(top, h);
    PowPositive(2, h);
    Reorder(top, p, f);
    Reorder(top + 1, p, f);
    MulMono(top * p, v, f);
    MulLess(v, (top + 1) * p, f);
    MulMono(0x8000_0000, top * f, p);
    MulMono((top + 1) * f, B, p);
  }

  lemma TopFits(top: nat, h: nat)
    requires h < 32 && top * Pow(2, h) < B
    ensures (top + 1) * Pow(2, h) <= B
  {
    hide Pow;
    PowAdd(2, 32 - h, h);
    Pow2Of32();
    CancelLess(top, Pow(2, 32 - h), Pow(2, h));
    MulMono(top + 1, Pow(2, 32 - h), Pow(2, h));
  }

  lemma Reorder(a: int, p: int, f: int)
    ensures a * p * f == (a * f) * p
  {
  }

  lemma MulLess(a: int, b: int, c: int)
    requires a < b && c > 0
    ensures a * c < b * c
  {
  }

  lemma ShiftBy(v: nat, h: nat, s: nat, t: nat, n: nat)
    requires 0x8000_0000 * Pow(B, n) <= v * Pow(2, h) < B * Pow(B, n) && s + 4 == h + 32 * t
    ensures 0x800_0000 * Pow(B, n + t) <= v * Pow(2, s) < 0x1000_0000 * Pow(B, n + t)
  {
    hide Pow;
    Pow2Of32();
    Doublings();
    PowPow(2, 32, t);
    MoveLeft(v, h, 32 * t);
    MoveLeft(v, s, 4);
    PowAdd(B, n, t);
    PowPositive(B, t);
    MulMono(0x8000_0000 * Pow(B, n), v * Pow(2, h), Pow(B, t));
    MulLess(v * Pow(2, h), B * Pow(B, n), Pow(B, t));
    Assoc(0x8000_0000, Pow(B, n), Pow(B, t));
    Assoc(B, Pow(B, n), Pow(B, t));
  }

  lemma CancelLess(a: int, b: int, c: nat)
    requires a * c < b * c
    ensures a < b
  {
    if b <= a {
      MulMono(b, a, c);
    }
  }

  /** The scaling before the digit loop: the same fraction, with a divisor that `quorem` can use. */
  method Scale(b: Bigint, S: Bigint, b2: nat, s2: nat) returns (b': Bigint, S': Bigint, ghost i: nat)
    requires b.Valid() && S.Valid() && b.wds > 0 && S.wds > 0 && b.x[b.wds - 1] != 0 && S.x[S.wds - 1] != 0 && b != S
    ensures b'.Valid() && S'.Valid() && b' != S' && b'.wds > 0 && b'.x[b'.wds - 1] != 0
    ensures (b' == b || fresh(b')) && (S' == S || fresh(S')) && Divisor(S'.x, S'.wds)
    ensures b'.Value() == b.Value() * Pow(2, b2 + i) && S'.Value() == S.Value() * Pow(2, s2 + i)
  {
    hide Val, Pow, Divisor;
    var n := DShift(S, s2);
    i := n;
    ghost var h: nat :| h < 32 && (s2 + i - h + 4) % 32 == 0 && 0x8000_0000 <= S.x[S.wds - 1] * Pow(2, h) < B;
    b', S' := b, S;
    PowZero();
    if b2 + n > 0 {
      b' := LShift(b, b2 + n);
    }
    if s2 + n > 0 {
      S' := LShift(S, s2 + n);
    }
    ghost var m := ShiftedBounds(S.x, S.wds, h, s2 + i);
    DivisorFromValue(S'.x, S'.wds, m);
    assert b'.Value() == b.Value() * Pow(2, b2 + i);
  }

  // ---------------------------------------------------------------- quorem

  /** After `i` words of subtracting q * S. */
  ghost predicate Subtracting(sx: seq<Word>, x0: seq<Word>, x: seq<Word>, i: nat, q: nat, carry: nat, borrow: nat) {
    && i <= |sx| && i <= |x| == |x0|
    && (forall j :: i <= j < |x| ==> x[j] == x0[j])
    && Val(x, i) + Val(sx, i) * q == Val(x0, i) + (carry + borrow) * Pow(B, i)
    && carry < 16 && borrow <= 1
  }

  lemma SubAlgebra(v: int, vs: int, v0: int, q: int, carry: int, borrow: int, p: int, w: int, x: int,
                   s: int, lo: int, carry': int, borrow': int)
    requires v + vs * q == v0 + (carry + borrow) * p
    requires s * q + carry == carry' * B + lo && w - borrow' * B == x - lo - borrow
    ensures (v + w * p) + (vs + s * p) * q == (v0 + x * p) + (carry' + borrow') * (B * p)
  {
    assert w * p == (x - (s * q + carry - carry' * B) - borrow + borrow' * B) * p;
    assert (x - (s * q + carry - carry' * B) - borrow + borrow' * B) * p
        == x * p - (s * q) * p - carry * p + carry' * (B * p) - borrow * p + borrow' * (B * p);
    assert (vs + s * p) * q == vs * q + (s * q) * p;
    assert (carry + borrow) * p == carry * p + borrow * p;
    assert (carry' + borrow') * (B * p) == carry' * (B * p) + borrow' * (B * p);
  }

  function MulWord(w: Word, q: nat, carry: nat): nat { w * q + carry }

  lemma SubStep(sx: seq<Word>, x0: seq<Word>, x: seq<Word>, i: nat, q: nat, carry: nat, borrow: nat)
    requires Subtracting(sx, x0, x, i, q, carry, borrow) && i < |sx| && i < |x| && q < 16
    ensures var ys := MulWord(sx[i], q, carry);
      var y := Sub64(x[i], ys % B, borrow);
      ys < LL && Subtracting(sx, x0, x[i := y % B], i + 1, q, ys / B, BorrowOf(y))
  {
    var ys := MulWord(sx[i], q, carry);
    var y := Sub64(x[i], ys % B, borrow);
    MulMono(sx[i], B - 1, q);
    BorrowStep(x[i], ys % B, borrow);
    ValSame(x, x[i := y % B], i);
    SubAlgebra(Val(x, i), Val(sx, i), Val(x0, i), q, carry, borrow, Pow(B, i), y % B, x[i],
               sx[i], ys % B, ys / B, BorrowOf(y));
  }

  lemma SubEnd(sx: seq<Word>, x0: seq<Word>, x: seq<Word>, n: nat, q: nat, carry: nat, borrow: nat)
    requires Subtracting(sx, x0, x, n, q, carry, borrow) && n <= |sx| && n <= |x0| && Val(sx, n) * q <= Val(x0, n)
    ensures |x| == |x0| && Val(x, n) == Val(x0, n) - Val(sx, n) * q
    ensures forall j :: n <= j < |x| ==> x[j] == x0[j]
  {
    ValBound(x, n);
    PowPositive(B, n);
    if carry + borrow > 0 {
      MulMono(1, carry + borrow, Pow(B, n));
    }
  }

  lemma SubStart(sx: seq<Word>, x: seq<Word>, q: nat)
    ensures Subtracting(sx, x, x, 0, q, 0, 0)
  {
  }

  /** The subtraction loop, which `quorem` has twice: with the estimated quotient, and with 1. */
  method SubMul(b: Bigint, S: Bigint, q: nat)
    requires b.Valid() && S.Valid() && b != S && b.wds == S.wds && q < 16 && S.Value() * q <= b.Value()
    modifies b`x
    ensures b.Valid() && b.Value() == old(b.Value()) - S.Value() * q
  {
    hide Subtracting, Val, Pow;
    var i, carry: nat, borrow: nat := 0, 0, 0;
    ghost var x0 := b.x;
    SubStart(S.x, b.x, q);
    while i < S.wds
      invariant 0 <= i <= S.wds && |b.x| == |x0| && Subtracting(S.x, x0, b.x, i, q, carry, borrow)
    {
      SubStep(S.x, x0, b.x, i, q, carry, borrow);
      var ys := MulWord(S.x[i], q, carry);
      carry := ys / B;
      var y := Sub64(b.x[i], ys % B, borrow);
      borrow := BorrowOf(y);
      b.x := b.x[i := y % B];
      i := i + 1;
    }
    SubEnd(S.x, x0, b.x, S.wds, q, carry, borrow);
  }

  /** A number without words has a zero in its first word, where the test for zero looks. */
  predicate ZeroWord(b: Bigint)
    reads b
  {
    b.wds == 0 ==> |b.x| > 0 && b.x[0] == 0
  }

  /** `if (!*bxe) ...`: leading zero words are dropped; with a one-word divisor even the last one. */
  method DropZeros(b: Bigint, n0: nat)
    requires b.Valid() && b.wds == n0 + 1
    modifies b`wds
    ensures b.Valid() && b.Value() == old(b.Value()) && b.Trim() && b.wds <= n0 + 1
    ensures b.wds == n0 + 1 || b.x[n0] == 0
    ensures b.wds == n0 + 1 ==> b.x[n0] != 0
    ensures ZeroWord(b)
  {
    if b.x[n0] == 0 {
      var n := n0;
      var e := n0 - 1;
      while e > 0 && b.x[e] == 0
        invariant e == n - 1 && 0 <= n <= n0 && (n == 0 ==> n0 == 0)
        invariant forall j :: n <= j <= n0 ==> b.x[j] == 0
      {
        n := n - 1;
        e := e - 1;
      }
      ValZeros(b.x, n, n0 + 1);
      b.wds := n;
    }
  }

  function Guess(bt: Word, st: Word): nat { bt / (st + 1) }

  /** The estimate from the leading words is the quotient or one less. */
  lemma Estimate(bx: seq<Word>, sx: seq<Word>, n: nat)
    requires 0 < n <= |bx| && n <= |sx| && Divisor(sx, n) && Val(bx, n) < 10 * Val(sx, n)
    ensures var q := Guess(bx[n - 1], sx[n - 1]);
      q <= 9 && Val(sx, n) * q <= Val(bx, n) < Val(sx, n) * q + 2 * Val(sx, n)
  {
    hide Val, Pow;
    var bt, st, p := bx[n - 1], sx[n - 1], Pow(B, n - 1);
    ValAtLeast(bx, n);
    ValAtLeast(sx, n);
    PowPositive(B, n - 1);
    EstimateLow(Val(bx, n), Val(sx, n), bt, st, p);
    EstimateHigh(Val(bx, n), Val(sx, n), bt, st, p);
  }

  lemma EstimateLow(b: nat, s: nat, bt: Word, st: Word, p: nat)
    requires bt * p <= b < (bt + 1) * p && st * p <= s < (st + 1) * p && b < 10 * s
    ensures s * Guess(bt, st) <= b && Guess(bt, st) <= 9
  {
    var q := bt / (st + 1);
    assert q * (st + 1) <= bt by { DivLow(bt, st + 1); }
    MulMono(s, (st + 1) * p, q);
    Reorder(st + 1, p, q);
    Assoc(st + 1, q, p);
    MulMono(q * (st + 1), bt, p);
    assert s * q <= b;
    if q >= 10 {
      MulMono(10, q, s);
    }
  }

  lemma DivLow(a: nat, d: nat)
    requires d > 0
    ensures (a / d) * d <= a < (a / d + 1) * d
  {
    assert a == (a / d) * d + a % d;
  }

  lemma EstimateHigh(b: nat, s: nat, bt: Word, st: Word, p: nat)
    requires bt * p <= b < (bt + 1) * p && st * p <= s && st >= 10 && Guess(bt, st) <= 9
    ensures b < s * Guess(bt, st) + 2 * s
  {
    var q := bt / (st + 1);
    DivLow(bt, st + 1);
    assert bt + 1 <= (q + 1) * (st + 1) == (q + 1) * st + q + 1;
    assert (q + 1) * st + st == (q + 2) * st;
    assert bt + 1 <= st * (q + 2);
    MulMono(bt + 1, st * (q + 2), p);
    Reorder(st, p, q + 2);
    MulMono(st * p, s, q + 2);
    assert s * (q + 2) == s * q + 2 * s;
  }

  lemma DivUnique(b: nat, s: nat, q: nat, r: nat)
    requires s > 0 && b == q * s + r && r < s
    ensures q == b / s && r == b % s
  {
    var q', r' := b / s, b % s;
    assert (q - q') * s == r' - r;
    if q > q' {
      MulMono(1, q - q', s);
    } else if q < q' {
      MulMono(q - q', -1, s);
    }
  }

  /** `quorem`: with such a divisor and a quotient below ten, b becomes b mod S and b / S is returned. */
  method Quorem(b: Bigint, S: Bigint) returns (q: nat)
    requires b.Valid() && S.Valid() && b != S && b.Trim() && ZeroWord(b) && Divisor(S.x, S.wds)
    requires b.Value() < 10 * S.Value()
    modifies b
    ensures b.Valid() && b.Trim() && ZeroWord(b)
    ensures S.Value() > 0 && q == old(b.Value()) / S.Value() && b.Value() == old(b.Value()) % S.Value() && q <= 9
  {
    hide Val, Pow;
    var n := S.wds;
    DivisorPositive(S.x, n);
    if b.wds < n {
      ShortIsLess(b.x, b.wds, S.x, n);
      Below(b.Value(), S.Value());
      return 0;
    }
    NotLonger(b.x, b.wds, S.x, n);
    n := n - 1;
    Estimate(b.x, S.x, n + 1);
    ghost var v, s := b.Value(), S.Value();
    var q0 := Guess(b.x[n], S.x[n]);
    if q0 != 0 {
      SubMul(b, S, q0);
      DropZeros(b, n);
    }
    q := Correct(b, S, n, q0);
    Corrected(v, s, q0, q, b.Value());
  }

  /** The second half of `quorem`: one more subtraction if it is still possible. */
  method Correct(b: Bigint, S: Bigint, n: nat, q0: nat) returns (q: nat)
    requires b.Valid() && S.Valid() && b != S && b.Trim() && ZeroWord(b) && Divisor(S.x, S.wds)
    requires b.wds <= S.wds == n + 1 && b.Value() < 2 * S.Value()
    modifies b
    ensures b.Valid() && b.Trim() && ZeroWord(b)
    ensures if old(b.Value()) >= S.Value() then q == q0 + 1 && b.Value() == old(b.Value()) - S.Value()
            else q == q0 && b.Value() == old(b.Value())
  {
    hide Val, Pow;
    DivisorPositive(S.x, S.wds);
    q := q0;
    var c := Cmp(b, S);
    if c >= 0 {
      q := q + 1;
      SameLength(b.x, b.wds, S.x, S.wds);
      SubMul(b, S, 1);
      DropZeros(b, n);
    }
  }

  lemma Below(b: nat, s: nat)
    requires b < s
    ensures b / s == 0 && b % s == b
  {
    DivUnique(b, s, 0, b);
  }

  lemma Corrected(b: nat, s: nat, q0: nat, q: nat, r: nat)
    requires s * q0 <= b < s * q0 + 2 * s && b < 10 * s
    requires if b - s * q0 >= s then q == q0 + 1 && r == b - s * q0 - s else q == q0 && r == b - s * q0
    ensures s > 0 && q == b / s && r == b % s && q <= 9
  {
    assert s * (q0 + 1) == s * q0 + s;
    assert b == q * s + r;
    DivUnique(b, s, q, r);
    if q >= 10 {
      MulMono(10, q, s);
    }
  }

  lemma DivisorPositive(x: seq<Word>, n: nat)
    requires n <= |x| && Divisor(x, n)
    ensures Val(x, n) > 0 && Trimmed(x, n)
  {
    ValAtLeast(x, n);
    PowPositive(B, n - 1);
    MulLeast(Pow(B, n - 1), x[n - 1]);
  }

  lemma ShortIsLess(x: seq<Word>, m: nat, y: seq<Word>, n: nat)
    requires m < n <= |y| && m <= |x| && Divisor(y, n)
    ensures Val(x, m) < Val(y, n)
  {
    LongerIsMore(x, m, y, n);
  }

  /** Ten times a divisor still fits into its own number of words. */
  lemma NotLonger(x: seq<Word>, m: nat, y: seq<Word>, n: nat)
    requires n <= m <= |x| && n <= |y| && Divisor(y, n) && Trimmed(x, m) && Val(x, m) < 10 * Val(y, n)
    ensures m == n
  {
    if n < m {
      ValAtLeast(x, m);
      MulLeast(Pow(B, m - 1), x[m - 1]);
      PowMono(B, n, m - 1);
      PowStep(n - 1);
      ValAtLeast(y, n);
      MulMono(y[n - 1] + 1, 0x1000_0000, Pow(B, n - 1));
    }
  }

  lemma SameLength(x: seq<Word>, m: nat, y: seq<Word>, n: nat)
    requires m <= n <= |y| && m <= |x| && Divisor(y, n) && Val(x, m) >= Val(y, n)
    ensures m == n
  {
    if m < n {
      ShortIsLess(x, m, y, n);
    }
  }

  // ---------------------------------------------------------------- decimal digits and rounding

  function Num(s: seq<nat>): nat {
    if s == [] then 0 else Num(s[..|s| - 1]) * 10 + s[|s| - 1]
  }

  lemma NumSnoc(s: seq<nat>, dig: nat)
    ensures Num(s + [dig]) == Num(s) * 10 + dig
  {
    assert (s + [dig])[..|s|] == s;
  }

  predicate Digits(s: seq<nat>) {
    forall i :: 0 <= i < |s| ==> s[i] <= 9
  }

  /** `r` is the integer nearest to n / d, and the even one of two that are equally near. */
  predicate Nearest(n: nat, d: nat, r: nat) {
    && -(d as int) <= 2 * (r * d) - 2 * n <= d
    && (2 * (r * d) - 2 * n in {-(d as int), d as int} ==> r % 2 == 0)
  }

  lemma NearestAtMost(n: nat, d: nat, r: nat, r': nat)
    requires d > 0 && Nearest(n, d, r) && Nearest(n, d, r')
    ensures r' <= r
  {
    assert (r + 1) * d == r * d + d && (r + 2) * d == r * d + 2 * d;
    if r' >= r + 2 {
      MulMono(r + 2, r', d);
    }
  }

  /** There is exactly one such integer. */
  lemma NearestUnique(n: nat, d: nat, r: nat, r': nat)
    requires d > 0 && Nearest(n, d, r) && Nearest(n, d, r')
    ensures r == r'
  {
    NearestAtMost(n, d, r, r');
    NearestAtMost(n, d, r', r);
  }

  lemma RoundChoice(n: nat, d: nat, q: nat, rem: nat)
    requires q * d + rem == n && rem < d
    ensures Nearest(n, d, if 2 * rem > d || (2 * rem == d && q % 2 == 1) then q + 1 else q)
  {
    assert (q + 1) * d == q * d + d;
  }

  lemma PowTen(s: nat, t: nat)
    ensures Pow(10, s + 1) == 10 * Pow(10, s)
    ensures Pow(10, s + t) == Pow(10, s) * Pow(10, t)
  {
    PowAdd(10, s, t);
  }

  /** "++*s++" after dropping nines: one unit more in the last place, or a single 1 one place higher. */
  method RoundUp(s: seq<nat>) returns (r: seq<nat>, bump: nat)
    requires |s| > 0 && Digits(s) && s[0] != 0
    ensures bump <= 1 && 0 < |r| <= |s| && Digits(r) && r[0] != 0 && r[|r| - 1] != 0
    ensures bump == 1 ==> r == [1]
    ensures Num(r) * Pow(10, |s| + bump - |r|) == Num(s) + 1
  {
    hide Pow, Num;
    var n := |s|;
    assert s[..n] == s;
    TenToZero();
    while n > 0 && s[n - 1] == 9
      invariant 0 <= n <= |s| && (Num(s[..n]) + 1) * Pow(10, |s| - n) == Num(s) + 1
    {
      NineStep(s, n);
      n := n - 1;
    }
    if n == 0 {
      assert s[..0] == [];
      NumOne();
      return [1], 1;
    }
    RaiseLast(s, n);
    r, bump := s[..n - 1] + [s[n - 1] + 1], 0;
  }

  lemma RaiseLast(s: seq<nat>, n: nat)
    requires 0 < n <= |s|
    ensures Num(s[..n - 1] + [s[n - 1] + 1]) == Num(s[..n]) + 1
  {
    NumSnoc(s[..n - 1], s[n - 1] + 1);
    NumSnoc(s[..n - 1], s[n - 1]);
    assert s[..n] == s[..n - 1] + [s[n - 1]];
  }

  lemma NumOne()
    ensures Num([1]) == 1 && Num([]) == 0
  {
    NumSnoc([], 1);
    assert [] + [1] == [1];
  }

  lemma TenToZero()
    ensures Pow(10, 0) == 1
  {
  }

  lemma NineStep(s: seq<nat>, n: nat)
    requires 0 < n <= |s| && s[n - 1] == 9
    ensures (Num(s[..n]) + 1) * Pow(10, |s| - n) == (Num(s[..n - 1]) + 1) * Pow(10, |s| - (n - 1))
  {
    assert s[..n] == s[..n - 1] + [9];
    NumSnoc(s[..n - 1], 9);
    Assoc(Num(s[..n - 1]) + 1, 10, Pow(10, |s| - n));
  }

  /** "while(*--s == '0')": trailing zeros are dropped. */
  method TrimZeros(s: seq<nat>) returns (r: seq<nat>)
    requires |s| > 0 && Digits(s) && s[0] != 0
    ensures 0 < |r| <= |s| && r == s[..|r|] && r[|r| - 1] != 0
    ensures Num(r) * Pow(10, |s| - |r|) == Num(s)
  {
    hide Pow, Num;
    var n := |s|;
    assert s[..n] == s;
    TenToZero();
    while s[n - 1] == 0
      invariant 0 < n <= |s| && Num(s[..n]) * Pow(10, |s| - n) == Num(s)
      decreases n
    {
      ZeroStep(s, n);
      n := n - 1;
    }
    r := s[..n];
  }

  lemma ZeroStep(s: seq<nat>, n: nat)
    requires 0 < n <= |s| && s[n - 1] == 0
    ensures Num(s[..n]) * Pow(10, |s| - n) == Num(s[..n - 1]) * Pow(10, |s| - (n - 1))
  {
    assert s[..n] == s[..n - 1] + [0];
    NumSnoc(s[..n - 1], 0);
    Assoc(Num(s[..n - 1]), 10, Pow(10, |s| - n));
  }

  // ---------------------------------------------------------------- the digit loop

  /** The digits so far and what remains of the dividend. */
  ghost predicate Produced(s: seq<nat>, rest: nat, v: nat, d: nat) {
    && Digits(s) && (|s| > 0 ==> s[0] != 0)
    && Num(s) * 10 * d + rest == v * Pow(10, |s|)
    && 0 < rest < 10 * d && (s == [] ==> rest >= d)
  }

  lemma {:induction false} DigitStep(s: seq<nat>, rest: nat, v: nat, d: nat, dig: nat, rem: nat)
    requires Produced(s, rest, v, d) && d > 0 && dig == rest / d && rem == rest % d && dig <= 9
    ensures var s' := s + [dig];
      && Digits(s') && s'[0] != 0 && Num(s') * d + rem == v * Pow(10, |s|) && rem < d
      && (rem == 0 ==> dig != 0)
      && (rem > 0 ==> Produced(s', rem * 10 + 0, v, d))
  {
    hide Num, Pow;
    var s' := s + [dig];
    DivParts(rest, d);
    NumSnoc(s, dig);
    OneDigit(Num(s), d, rest, dig, rem, v * Pow(10, |s|));
    PowTen(|s|, 0);
    Ten(Num(s'), d, rem, v, Pow(10, |s|));
  }

  lemma OneDigit(q: nat, d: nat, rest: nat, dig: nat, rem: nat, target: nat)
    requires q * 10 * d + rest == target && rest == dig * d + rem
    ensures (q * 10 + dig) * d + rem == target
    ensures dig == 0 ==> rest == rem
  {
  }

  lemma DivParts(a: nat, d: nat)
    requires d > 0
    ensures a == (a / d) * d + a % d && a % d < d
  {
  }

  lemma Ten(q: nat, d: nat, rem: nat, v: nat, p: nat)
    requires q * d + rem == v * p
    ensures q * 10 * d + rem * 10 == v * (10 * p)
  {
  }

  /** The loop: at most `ilim` digits; it stops early exactly when nothing remains. */
  method Generate(b0: Bigint, S: Bigint, ilim: nat) returns (s: seq<nat>, b: Bigint, exact: bool)
    requires b0.Valid() && S.Valid() && b0 != S && b0.Trim() && b0.wds > 0 && Divisor(S.x, S.wds) && ilim > 0
    requires S.Value() <= b0.Value() < 10 * S.Value()
    modifies b0
    ensures (b == b0 || fresh(b)) && b != S && b.Valid() && b.Trim()
    ensures 0 < |s| <= ilim && Digits(s) && s[0] != 0
    ensures Num(s) * S.Value() + b.Value() == old(b0.Value()) * Pow(10, |s| - 1) && b.Value() < S.Value()
    ensures exact <==> b.Value() == 0
    ensures exact ==> s[|s| - 1] != 0
    ensures !exact ==> |s| == ilim && b.wds > 0
  {
    hide Val, Pow, Num, Produced, Bigint.Trim;
    ghost var v, d := b0.Value(), S.Value();
    b := b0;
    s := [];
    DivisorPositive(S.x, S.wds);
    ProducedStart(v, d);
    var i := 1;
    while true
      invariant 1 <= i <= ilim && |s| == i - 1 && (b == b0 || fresh(b)) && b != S && b.Valid() && b.Trim() && b.wds > 0
      invariant S.Valid() && S.Value() == d && Divisor(S.x, S.wds)
      invariant Produced(s, b.Value(), v, d)
      decreases ilim - i
    {
      ghost var rest := b.Value();
      ProducedBound(s, rest, v, d);
      var dig := Quorem(b, S);
      DigitStep(s, rest, v, d, dig, b.Value());
      s := s + [dig];
      ZeroTest(b);
      if b.x[0] == 0 && b.wds <= 1 {
        return s, b, true;
      }
      if i >= ilim {
        break;
      }
      b := MultAdd(b, 10, 0);
      i := i + 1;
    }
    exact := false;
  }

  lemma ProducedStart(v: nat, d: nat)
    requires 0 < d <= v < 10 * d
    ensures Produced([], v, v, d)
  {
    TenToZero();
  }

  lemma ProducedBound(s: seq<nat>, rest: nat, v: nat, d: nat)
    requires Produced(s, rest, v, d)
    ensures rest < 10 * d
  {
  }

  lemma ZeroTest(b: Bigint)
    requires b.Valid() && b.Trim() && ZeroWord(b)
    ensures |b.x| > 0 && (b.x[0] == 0 && b.wds <= 1 <==> b.Value() == 0)
    ensures b.Value() > 0 ==> b.wds > 0
  {
    if b.wds > 1 {
      ValAtLeast(b.x, b.wds);
      PowPositive(B, b.wds - 1);
      MulLeast(Pow(B, b.wds - 1), b.x[b.wds - 1]);
    } else if b.wds == 1 {
      ValNext(b.x, 0);
      assert Pow(B, 0) == 1;
    }
  }

  /**
    Fixed-precision conversion from 1 <= b/S < 10: the digits, read at their decimal position, are the
    integer nearest to b/S * 10^(ilim-1), ties to even; `k` grows when the rounding carries out.
   */
  method FixedDigits(b0: Bigint, S: Bigint, ilim: nat, k0: int) returns (s: seq<nat>, k: int)
    requires b0.Valid() && S.Valid() && b0 != S && b0.Trim() && b0.wds > 0 && Divisor(S.x, S.wds) && ilim > 0
    requires S.Value() <= b0.Value() < 10 * S.Value()
    modifies b0
    ensures k0 <= k <= k0 + 1 && 0 < |s| <= ilim && Digits(s) && s[0] != 0 && s[|s| - 1] != 0
    ensures Nearest(old(b0.Value()) * Pow(10, ilim - 1), S.Value(), Num(s) * Pow(10, ilim + (k - k0) - |s|))
    ensures k == k0 + 1 ==> s == [1]
  {
    hide Val, Pow, Num, Nearest, Bigint.Trim;
    ghost var v, d := b0.Value(), S.Value();
    DivisorPositive(S.x, S.wds);
    var b, exact;
    s, b, exact := Generate(b0, S, ilim);
    k := k0;
    if exact {
      ExactIsNearest(v, d, s, ilim);
      return;
    }
    ghost var rem := b.Value();
    var dig := s[|s| - 1];
    LastDigit(s);
    RoundChoice(v * Pow(10, ilim - 1), d, Num(s), rem);
    NonZeroTop(b);
    b := LShift(b, 1);
    Two();
    MultTrims(b);
    MultTrimsDivisor(S);
    var j := Cmp(b, S);
    if j > 0 || (j == 0 && dig % 2 == 1) {
      var bump;
      s, bump := RoundUp(s);
      k := k + bump;
    } else {
      s := TrimZeros(s);
    }
  }

  lemma Two()
    ensures Pow(2, 1) == 2
  {
    Doublings();
  }

  lemma {:induction false} LastDigit(s: seq<nat>)
    requires |s| > 0
    ensures Num(s) % 2 == s[|s| - 1] % 2
  {
    Parity(Num(s[..|s| - 1]), s[|s| - 1]);
  }

  lemma Parity(a: nat, x: nat)
    ensures (a * 10 + x) % 2 == x % 2
  {
  }

  lemma NonZeroTop(b: Bigint)
    requires b.Valid() && b.Trim() && b.wds > 0 && b.Value() > 0
    ensures b.x[b.wds - 1] != 0
  {
    if b.wds == 1 {
      ValNext(b.x, 0);
    }
  }

  lemma MultTrimsDivisor(S: Bigint)
    requires S.Valid() && Divisor(S.x, S.wds)
    ensures S.Trim() && S.wds > 0
  {
  }

  lemma ExactIsNearest(v: nat, d: nat, s: seq<nat>, ilim: nat)
    requires 0 < |s| <= ilim && Num(s) * d == v * Pow(10, |s| - 1) && d > 0
    ensures Nearest(v * Pow(10, ilim - 1), d, Num(s) * Pow(10, ilim - |s|))
  {
    PowAdd(10, |s| - 1, ilim - |s|);
    Assoc(v, Pow(10, |s| - 1), Pow(10, ilim - |s|));
    Reorder(Num(s), d, Pow(10, ilim - |s|));
  }

  // ---------------------------------------------------------------- the whole conversion

  lemma NearestScaled(n: nat, d: nat, f: nat, r: nat)
    requires f > 0 && Nearest(n * f, d * f, r)
    ensures Nearest(n, d, r)
  {
    var e := 2 * (r * d) - 2 * n;
    assert 2 * (r * (d * f)) - 2 * (n * f) == e * f;
    CancelLeast(e, d, f);
    CancelLeast(-(d as int), e, f);
    assert -(d as int) * f == -(d * f);
    assert e == d ==> e * f == d * f;
    assert e == -(d as int) ==> e * f == -(d * f);
  }

  lemma CancelLeast(a: int, b: int, c: nat)
    requires c > 0
    ensures a * c <= b * c ==> a <= b
  {
    if a > b {
      MulLess(b, a, c);
    }
  }

  lemma ScaleOrder(n: nat, d: nat, f: nat)
    requires f > 0
    ensures n * f < d * f <==> n < d
    ensures 10 * (n * f) == (10 * n) * f
  {
    if n < d {
      MulLess(n, d, f);
    } else {
      MulMono(d, n, f);
    }
  }

  /**
    The rounded result for n/d, when the decimal exponent may have been guessed one too large.  With `ilim`
    positive it has that many digits; otherwise the place to round to lies in front of the first digit, and
    nothing or a single 1 is left.
   */
  ghost predicate Rounded(n: nat, d: nat, ilim0: int, ilim1: int, ndigits: int, k0: int, s: seq<nat>, k: int) {
    var low := n < d;
    var num, ilim, guess := if low then 10 * n else n, if low then ilim1 else ilim0, if low then k0 - 1 else k0;
    if ilim > 0 then
      && 0 < |s| <= ilim && Digits(s) && s[0] != 0 && s[|s| - 1] != 0
      && guess <= k <= guess + 1
      && Nearest(num * Pow(10, ilim - 1), d, Num(s) * Pow(10, ilim + (k - guess) - |s|))
    else
      && (s == [] || s == [1])
      && k == (if s == [] then -1 - ndigits else guess + 1)
      && Nearest(num, d * Pow(10, 1 - ilim), |s|)
  }

  /** The branch "no digits, fcvt style" and its alternative. */
  method FewDigits(b: Bigint, S: Bigint, ilim: int, ndigits: int, k0: int) returns (s: seq<nat>, k: int)
    requires b.Valid() && S.Valid() && b != S && b.Trim() && b.wds > 0 && S.Trim() && S.wds > 0 && ilim <= 0
    requires 0 < S.Value() <= b.Value() < 10 * S.Value()
    modifies S
    ensures s == [] || s == [1]
    ensures k == if s == [] then -1 - ndigits else k0 + 1
    ensures Nearest(b.Value(), old(S.Value()) * Pow(10, 1 - ilim), |s|)
  {
    hide Val, Pow, Nearest, Bigint.Trim;
    s, k := [], -1 - ndigits;
    FewNearest(b.Value(), S.Value(), ilim);
    if ilim < 0 {
      return;
    }
    var S5 := MultAdd(S, 5, 0);
    var c := Cmp(b, S5);
    if c > 0 {
      s, k := [1], k0 + 1;
    }
  }

  lemma FewNearest(n: nat, d: nat, ilim: int)
    requires 0 < d <= n < 10 * d && ilim <= 0
    ensures ilim < 0 || n <= 5 * d ==> Nearest(n, d * Pow(10, 1 - ilim), 0)
    ensures ilim == 0 && n > 5 * d ==> Nearest(n, d * Pow(10, 1 - ilim), 1)
  {
    TenToZero();
    PowTen(0, 0);
    if ilim < 0 {
      PowMono(10, 2, 1 - ilim);
      PowTen(1, 0);
      MulMono(100, Pow(10, 1 - ilim), d);
    }
  }

  /** The correction of the exponent ("we botched the k estimate"), then the digits. */
  method CorrectExponent(b0: Bigint, S: Bigint, ilim0: int, ilim1: int, ndigits: int, k0: int) returns (s: seq<nat>, k: int)
    requires b0.Valid() && S.Valid() && b0 != S && b0.Trim() && b0.wds > 0 && Divisor(S.x, S.wds)
    requires b0.Value() < 10 * S.Value() && S.Value() <= 10 * b0.Value()
    modifies b0, S
    ensures Rounded(old(b0.Value()), old(S.Value()), ilim0, ilim1, ndigits, k0, s, k)
  {
    hide Val, Pow, Num, Nearest, Digits, Bigint.Trim;
    DivisorPositive(S.x, S.wds);
    MultTrimsDivisor(S);
    var b, ilim := b0, ilim0;
    k := k0;
    var c := Cmp(b, S);
    if c < 0 {
      k := k - 1;
      b := MultAdd(b, 10, 0);
      ilim := ilim1;
    }
    if ilim <= 0 {
      s, k := FewDigits(b, S, ilim, ndigits, k);
    } else {
      s, k := FixedDigits(b, S, ilim, k);
    }
  }

  lemma RoundedScaled(n: nat, d: nat, f: nat, ilim0: int, ilim1: int, ndigits: int, k0: int, s: seq<nat>, k: int)
    requires f > 0 && Rounded(n * f, d * f, ilim0, ilim1, ndigits, k0, s, k)
    ensures Rounded(n, d, ilim0, ilim1, ndigits, k0, s, k)
  {
    hide Pow, Num, Nearest, Digits;
    ScaleOrder(n, d, f);
    var low := n < d;
    var num, ilim, guess := if low then 10 * n else n, if low then ilim1 else ilim0, if low then k0 - 1 else k0;
    if ilim > 0 {
      Reorder(num, f, Pow(10, ilim - 1));
      NearestScaled(num * Pow(10, ilim - 1), d, f, Num(s) * Pow(10, ilim + (k - guess) - |s|));
    } else {
      Reorder(d, f, Pow(10, 1 - ilim));
      NearestScaled(num, d * Pow(10, 1 - ilim), f, |s|);
    }
  }

  /** From 1/10 <= n/d < 10, with n = b * 2^b2 and d = S * 2^s2, to the correctly rounded digits of n/d. */
  method Convert(b0: Bigint, S0: Bigint, b2: nat, s2: nat, ilim0: int, ilim1: int, ndigits: int, k0: int)
    returns (s: seq<nat>, k: int)
    requires b0.Valid() && S0.Valid() && b0 != S0 && b0.wds > 0 && S0.wds > 0
    requires b0.x[b0.wds - 1] != 0 && S0.x[S0.wds - 1] != 0
    requires b0.Value() * Pow(2, b2) < 10 * (S0.Value() * Pow(2, s2)) && S0.Value() * Pow(2, s2) <= 10 * (b0.Value() * Pow(2, b2))
    modifies b0, S0
    ensures Rounded(old(b0.Value()) * Pow(2, b2), old(S0.Value()) * Pow(2, s2), ilim0, ilim1, ndigits, k0, s, k)
  {
    hide Val, Pow, Divisor, Rounded, Bigint.Trim;
    ghost var n, d := b0.Value() * Pow(2, b2), S0.Value() * Pow(2, s2);
    var b, S, i := Scale(b0, S0, b2, s2);
    PowPositive(2, i);
    MoveLeft(b0.Value(), b2, i);
    MoveLeft(S0.Value(), s2, i);
    ScaleOrder(n, 10 * d, Pow(2, i));
    ScaleOrder(10 * n, d, Pow(2, i));
    ScaleOrder(d, 0, Pow(2, i));
    ScaleOrder(n, 0, Pow(2, i));
    MultTrims(b);
    s, k := CorrectExponent(b, S, ilim0, ilim1, ndigits, k0);
    RoundedScaled(n, d, Pow(2, i), ilim0, ilim1, ndigits, k0, s, k);
  }
}
