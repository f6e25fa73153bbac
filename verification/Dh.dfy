/** The 64-bit Diffie-Hellman arithmetic of lua-crypt.c: products and powers modulo the largest 64-bit prime. */
module Dh {

  import opened Prelude

  const P: nat := 0xffff_ffff_ffff_ffc5
  const U: nat := 0x1_0000_0000_0000_0000     // uint64_t wraps here
  const G: nat := 5

  type u64 = x: int | 0 <= x < U

  // ---------------------------------------------------------------- congruences

  lemma Multiple(x: int, k: int)
    ensures (x + k * P) % P == x % P
  {
  }

  lemma ModLeft(a: int, b: int)
    ensures ((a % P) * b) % P == (a * b) % P
  {
    var q, r := a / P, a % P;
    assert a == r + q * P;
    assert (r + q * P) * b == r * b + (q * b) * P;
    Multiple(r * b, q * b);
  }

  lemma ModBoth(a: int, b: int, c: int, d: int)
    requires a % P == c % P && b % P == d % P
    ensures (a * b) % P == (c * d) % P
  {
    ModLeft(a, b);
    ModLeft(c, b);
    ModLeft(b, c);
    ModLeft(d, c);
    assert a * b == b * a && c * b == b * c && d * c == c * d;
  }

  lemma {:induction false} PowMod(a: nat, b: nat)
    ensures Pow(a % P, b) % P == Pow(a, b) % P
  {
    if b > 0 {
      PowMod(a, b - 1);
      ModBoth(a % P, Pow(a % P, b - 1), a, Pow(a, b - 1));
    }
  }

  // ---------------------------------------------------------------- mul_mod_p

  /** a * 2 - P in 64 bits; the intermediate product may wrap. */
  function DoubleLessP(a: u64): u64 { ((a * 2) % U - P) % U }

  /** One turn of the loop: what is added and doubled differs from the exact numbers by multiples of P. */
  lemma MulStep(m: int, a: int, b: nat, m': int, a': int, e: int, f: int)
    requires m' == (if b % 2 == 1 then m + a else m) - e * P && a' == 2 * a - f * P
    ensures (m' + a' * (b / 2)) % P == (m + a * b) % P
  {
    var h := b / 2;
    assert (2 * a - f * P) * h == 2 * (a * h) - (f * h) * P;
    assert a * b == 2 * (a * h) + (if b % 2 == 1 then a else 0) by {
      assert b == 2 * h + b % 2;
      assert a * (2 * h + b % 2) == 2 * (a * h) + a * (b % 2);
    }
    Multiple(m + a * b, -(e + f * h));
    assert m' + a' * h == m + a * b + -(e + f * h) * P;
  }

  /** mul_mod_p: the product modulo P, with no overflow that matters. */
  method MulModP(a0: u64, b0: u64) returns (m: u64)
    requires a0 <= P
    ensures m == (a0 * b0) % P
  {
    hide Owes, DoubleLessP;
    var a: u64, b: u64 := a0, b0;
    m := 0;
    OwesStart(a, b);
    while b != 0
      invariant a <= P && m < P && Owes(m, a, b, a0 * b0)
      decreases b
    {
      ghost var m1, a1, e, f := m, a, 0, 0;
      if b % 2 == 1 {
        var t := P - a;
        if m >= t {
          m := m - t;
          e := 1;
        } else {
          m := m + a;
        }
      }
      if a >= P - a {
        DoubleExact(a);
        a := DoubleLessP(a);
        f := 1;
      } else {
        a := a * 2;
      }
      OwesNext(m1, a1, b, m, a, e, f, a0 * b0);
      b := b / 2;
    }
    OwesEnd(m, a, a0 * b0);
  }

  /** What has been summed up and what is still to come. */
  ghost predicate Owes(m: int, a: int, b: nat, target: int) {
    (m + a * b) % P == target % P
  }

  lemma OwesStart(a: int, b: nat)
    ensures Owes(0, a, b, a * b)
  {
  }

  lemma OwesEnd(m: nat, a: int, target: int)
    requires Owes(m, a, 0, target) && m < P
    ensures m == target % P
  {
    assert a * 0 == 0;
  }

  lemma OwesNext(m: int, a: int, b: nat, m': int, a': int, e: int, f: int, target: int)
    requires Owes(m, a, b, target)
    requires m' == (if b % 2 == 1 then m + a else m) - e * P && a' == 2 * a - f * P
    ensures Owes(m', a', b / 2, target)
  {
    MulStep(m, a, b, m', a', e, f);
  }

  lemma DoubleExact(a: u64)
    requires P - a <= a <= P
    ensures DoubleLessP(a) == 2 * a - P
  {
  }

  // ---------------------------------------------------------------- pow_mod_p and powmodp

  /** pow_mod_p, which does not end for b = 0. */
  method PowModP(a: u64, b: u64) returns (r: u64)
    requires a <= P && b >= 1
    ensures r <= P && r == if b == 1 then a else Pow(a, b) % P
    decreases b
  {
    if b == 1 {
      return a;
    }
    var t := PowModP(a, b / 2);
    PowHalf(a, b, t);
    t := MulModP(t, t);
    if b % 2 != 0 {
      t := MulModP(t, a);
    }
    r := t;
  }

  lemma PowHalf(a: nat, b: nat, t: nat)
    requires b >= 2 && t == if b / 2 == 1 then a else Pow(a, b / 2) % P
    ensures b % 2 == 0 ==> (t * t) % P == Pow(a, b) % P
    ensures b % 2 == 1 ==> (((t * t) % P) * a) % P == Pow(a, b) % P
  {
    hide Pow;
    var h := b / 2;
    PowOne(a);
    PowAdd(a, h, h);
    assert t % P == Pow(a, h) % P;
    ModBoth(t, t, Pow(a, h), Pow(a, h));
    if b % 2 == 1 {
      PowAdd(a, h + h, 1);
      ModLeft(t * t, a);
      ModBoth(t * t, a, Pow(a, h + h), a);
    }
  }

  lemma PowOne(a: nat)
    ensures Pow(a, 1) == a
  {
    assert Pow(a, 0) == 1;
  }

  /** powmodp: right on all arguments but one, where P itself comes back unreduced. */
  method PowMod64(a: u64, b: u64) returns (r: u64)
    requires b >= 1
    ensures r == Pow(a, b) % P <==> !(a == P && b == 1)
    ensures a == P && b == 1 ==> r == P
  {
    var base := a;
    if base > P {
      base := base % P;
    }
    PowMod(a, b);
    PowOne(a);
    r := PowModP(base, b);
  }

  // ---------------------------------------------------------------- the exchange

  /** What is sent for the exponent x. */
  function Public(x: nat): nat { Pow(G, x) % P }

  /** What is made of a number y that was received. */
  function Shared(y: nat, x: nat): nat { Pow(y, x) % P }

  /** ldhexchange: None for the exponent 0. */
  method Exchange(x: u64) returns (ok: bool, r: u64)
    ensures ok <==> x != 0
    ensures ok ==> r == Public(x)
  {
    if x == 0 {
      return false, 0;
    }
    r := PowMod64(G, x);
    ok := true;
  }

  /** ldhsecret. */
  method Secret(x: u64, y: u64) returns (ok: bool, r: u64)
    ensures ok <==> x != 0 && y != 0
    ensures ok ==> (r == Shared(x, y) <==> !(x == P && y == 1))
    ensures ok && x == P && y == 1 ==> r == P
  {
    if x == 0 || y == 0 {
      return false, 0;
    }
    r := PowMod64(x, y);
    ok := true;
  }

  /** Both sides compute the same secret. */
  lemma SameSecret(x: nat, y: nat)
    ensures Shared(Public(x), y) == Shared(Public(y), x) == Public(x * y)
  {
    PowMod(Pow(G, x), y);
    PowMod(Pow(G, y), x);
    PowPow(G, x, y);
    PowPow(G, y, x);
    assert x * y == y * x;
  }

  /** The inverse of G modulo P. */
  const INVERSE: nat := 7378697629483820623

  lemma {:induction false} PowProduct(a: nat, b: nat, n: nat)
    ensures Pow(a, n) * Pow(b, n) == Pow(a * b, n)
  {
    if n > 0 {
      PowProduct(a, b, n - 1);
      Interleave(a, Pow(a, n - 1), b, Pow(b, n - 1));
    }
  }

  lemma Interleave(a: int, x: int, b: int, y: int)
    ensures (a * x) * (b * y) == (a * b) * (x * y)
  {
  }

  lemma {:induction false} OnePow(n: nat)
    ensures Pow(1, n) == 1
  {
    if n > 0 {
      OnePow(n - 1);
    }
  }

  /** What is exchanged is never 0, so that the other side's `ldhsecret` accepts it. */
  lemma ExchangeIsNonZero(x: nat)
    ensures Public(x) != 0
  {
    PowProduct(G, INVERSE, x);
    PowMod(G * INVERSE, x);
    OnePow(x);
    ModLeft(Pow(G, x), Pow(INVERSE, x));
  }

  /** Both sides of an exchange, with the exponents x and y: nothing is refused and the secrets are equal. */
  method Agree(x: u64, y: u64) returns (ok: bool, ofX: u64, ofY: u64)
    ensures ok <==> x != 0 && y != 0
    ensures ok ==> ofX == ofY == Public(x * y)
  {
    hide Public, Shared;
    ofX, ofY := 0, 0;
    var sentX, sentY;
    ok, sentX := Exchange(x);
    if ok {
      ok, sentY := Exchange(y);
    }
    if ok {
      SameSecret(x, y);
      ExchangeIsNonZero(x);
      ExchangeIsNonZero(y);
      PublicBelow(x);
      PublicBelow(y);
      ok, ofX := Secret(sentY, x);
      var ok';
      ok', ofY := Secret(sentX, y);
    }
  }

  lemma PublicBelow(x: nat)
    ensures Public(x) < P
  {
  }
}
