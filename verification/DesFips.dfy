/**
  The Data Encryption Standard as FIPS 46-3 states it, with its tables, and the proof that the block cipher of
  lua-crypt.c computes it.  Values of up to 64 bits are numbered from 1 at the left, as in the standard.
 */
module DesFips {

  import opened Des

  /** Bit `n` of a value of `w` bits. */
  function Bit(v: bv64, w: bv64, n: bv64): bv64 { (v >> ((w - n) & 0x3F)) & 1 }

  function Row6(v: bv64, w: bv64, a: bv64, b: bv64, c: bv64, d: bv64, e: bv64, f: bv64): bv64 {
    (Bit(v, w, a) << 5) | (Bit(v, w, b) << 4) | (Bit(v, w, c) << 3) | (Bit(v, w, d) << 2) | (Bit(v, w, e) << 1) | (Bit(v, w, f) << 0)
  }

  function Row7(v: bv64, w: bv64, a: bv64, b: bv64, c: bv64, d: bv64, e: bv64, f: bv64, g: bv64): bv64 {
    (Bit(v, w, a) << 6) | (Bit(v, w, b) << 5) | (Bit(v, w, c) << 4) | (Bit(v, w, d) << 3) | (Bit(v, w, e) << 2) | (Bit(v, w, f) << 1) | (Bit(v, w, g) << 0)
  }

  function Row8(v: bv64, w: bv64, a: bv64, b: bv64, c: bv64, d: bv64, e: bv64, f: bv64, g: bv64, h: bv64): bv64 {
    (Bit(v, w, a) << 7) | (Bit(v, w, b) << 6) | (Bit(v, w, c) << 5) | (Bit(v, w, d) << 4) | (Bit(v, w, e) << 3) | (Bit(v, w, f) << 2) | (Bit(v, w, g) << 1) | (Bit(v, w, h) << 0)
  }

  /** IP. */
  function InitialPermutation(v: bv64): bv64 {
    (Row8(v, 64, 58, 50, 42, 34, 26, 18, 10, 2) << 56)
    | (Row8(v, 64, 60, 52, 44, 36, 28, 20, 12, 4) << 48)
    | (Row8(v, 64, 62, 54, 46, 38, 30, 22, 14, 6) << 40)
    | (Row8(v, 64, 64, 56, 48, 40, 32, 24, 16, 8) << 32)
    | (Row8(v, 64, 57, 49, 41, 33, 25, 17, 9, 1) << 24)
    | (Row8(v, 64, 59, 51, 43, 35, 27, 19, 11, 3) << 16)
    | (Row8(v, 64, 61, 53, 45, 37, 29, 21, 13, 5) << 8)
    | (Row8(v, 64, 63, 55, 47, 39, 31, 23, 15, 7) << 0)
  }

  /** The inverse of IP. */
  function InversePermutation(v: bv64): bv64 {
    (Row8(v, 64, 40, 8, 48, 16, 56, 24, 64, 32) << 56)
    | (Row8(v, 64, 39, 7, 47, 15, 55, 23, 63, 31) << 48)
    | (Row8(v, 64, 38, 6, 46, 14, 54, 22, 62, 30) << 40)
    | (Row8(v, 64, 37, 5, 45, 13, 53, 21, 61, 29) << 32)
    | (Row8(v, 64, 36, 4, 44, 12, 52, 20, 60, 28) << 24)
    | (Row8(v, 64, 35, 3, 43, 11, 51, 19, 59, 27) << 16)
    | (Row8(v, 64, 34, 2, 42, 10, 50, 18, 58, 26) << 8)
    | (Row8(v, 64, 33, 1, 41, 9, 49, 17, 57, 25) << 0)
  }

  /** E: 32 bits to 48. */
  function Expansion(v: bv64): bv64 {
    (Row6(v, 32, 32, 1, 2, 3, 4, 5) << 42)
    | (Row6(v, 32, 4, 5, 6, 7, 8, 9) << 36)
    | (Row6(v, 32, 8, 9, 10, 11, 12, 13) << 30)
    | (Row6(v, 32, 12, 13, 14, 15, 16, 17) << 24)
    | (Row6(v, 32, 16, 17, 18, 19, 20, 21) << 18)
    | (Row6(v, 32, 20, 21, 22, 23, 24, 25) << 12)
    | (Row6(v, 32, 24, 25, 26, 27, 28, 29) << 6)
    | (Row6(v, 32, 28, 29, 30, 31, 32, 1) << 0)
  }

  /** P. */
  function PermutationP(v: bv64): bv64 {
    (Row8(v, 32, 16, 7, 20, 21, 29, 12, 28, 17) << 24)
    | (Row8(v, 32, 1, 15, 23, 26, 5, 18, 31, 10) << 16)
    | (Row8(v, 32, 2, 8, 24, 14, 32, 27, 3, 9) << 8)
    | (Row8(v, 32, 19, 13, 30, 6, 22, 11, 4, 25) << 0)
  }

  /** PC-1, left half. */
  function Choice1C(v: bv64): bv64 {
    (Row7(v, 64, 57, 49, 41, 33, 25, 17, 9) << 21)
    | (Row7(v, 64, 1, 58, 50, 42, 34, 26, 18) << 14)
    | (Row7(v, 64, 10, 2, 59, 51, 43, 35, 27) << 7)
    | (Row7(v, 64, 19, 11, 3, 60, 52, 44, 36) << 0)
  }

  /** PC-1, right half. */
  function Choice1D(v: bv64): bv64 {
    (Row7(v, 64, 63, 55, 47, 39, 31, 23, 15) << 21)
    | (Row7(v, 64, 7, 62, 54, 46, 38, 30, 22) << 14)
    | (Row7(v, 64, 14, 6, 61, 53, 45, 37, 29) << 7)
    | (Row7(v, 64, 21, 13, 5, 28, 20, 12, 4) << 0)
  }

  /** PC-2: 56 bits to 48. */
  function Choice2(v: bv64): bv64 {
    (Row6(v, 56, 14, 17, 11, 24, 1, 5) << 42)
    | (Row6(v, 56, 3, 28, 15, 6, 21, 10) << 36)
    | (Row6(v, 56, 23, 19, 12, 4, 26, 8) << 30)
    | (Row6(v, 56, 16, 7, 27, 20, 13, 2) << 24)
    | (Row6(v, 56, 41, 52, 31, 37, 47, 55) << 18)
    | (Row6(v, 56, 30, 40, 51, 45, 33, 48) << 12)
    | (Row6(v, 56, 44, 49, 39, 56, 34, 53) << 6)
    | (Row6(v, 56, 46, 42, 50, 36, 29, 32) << 0)
  }

  /** Entry `col` of a row of sixteen 4-bit entries. */
  function Entry(row: bv64, col: bv64): bv64 {
    var half := if col & 8 == 0 then row >> 32 else row;
    var quarter := if col & 4 == 0 then half >> 16 else half;
    var pair := if col & 2 == 0 then quarter >> 8 else quarter;
    (if col & 1 == 0 then pair >> 4 else pair) & 0xF
  }

  /** A selection function: the row from the two outer bits, the column from the four inner ones. */
  function Select(i: bv64, r0: bv64, r1: bv64, r2: bv64, r3: bv64): bv64 {
    Entry(if i & 0x21 == 0 then r0 else if i & 0x21 == 1 then r1 else if i & 0x21 == 0x20 then r2 else r3, i >> 1)
  }

  function S1(i: bv64): bv64 { Select(i, 0xE4D12FB83A6C5907, 0x0F74E2D1A6CB9538, 0x41E8D62BFC973A50, 0xFC8249175B3EA06D) }
  function S2(i: bv64): bv64 { Select(i, 0xF18E6B34972DC05A, 0x3D47F28EC01A69B5, 0x0E7BA4D158C6932F, 0xD8A13F42B67C05E9) }
  function S3(i: bv64): bv64 { Select(i, 0xA09E63F51DC7B428, 0xD709346A285ECBF1, 0xD6498F30B12C5AE7, 0x1AD069874FE3B52C) }
  function S4(i: bv64): bv64 { Select(i, 0x7DE3069A1285BC4F, 0xD8B56F03472C1AE9, 0xA690CB7DF13E5284, 0x3F06A1D8945BC72E) }
  function S5(i: bv64): bv64 { Select(i, 0x2C417AB6853FD0E9, 0xEB2C47D150FA3986, 0x421BAD78F9C5630E, 0xB8C71E2D6F09A453) }
  function S6(i: bv64): bv64 { Select(i, 0xC1AF92680D34E75B, 0xAF427C9561DE0B38, 0x9EF528C3704A1DB6, 0x432C95FABE17608D) }
  function S7(i: bv64): bv64 { Select(i, 0x4B2EF08D3C975A61, 0xD0B7491AE35C2F86, 0x14BDC37EAF680592, 0x6BD814A7950FE23C) }
  function S8(i: bv64): bv64 { Select(i, 0xD2846FB1A93E50C7, 0x1FD8A374C56B0E92, 0x7B419CE206ADF358, 0x21E74A8DFC90356B) }

  /** Six-bit group `j` of 48 bits, j from 1. */
  function Group(v: bv64, j: bv64): bv64 { (v >> ((48 - 6 * j) & 0x3F)) & 0x3F }

  /** The eight 4-bit results side by side. */
  function Nibbles(a: bv64, b: bv64, c: bv64, d: bv64, e: bv64, f: bv64, g: bv64, h: bv64): bv64 {
    (a << 28) | (b << 24) | (c << 20) | (d << 16) | (e << 12) | (f << 8) | (g << 4) | h
  }

  function Xor64(a: bv64, b: bv64): bv64 { a ^ b }

  /** f(R, K). */
  function CipherFunction(r: bv64, k: bv64): bv64 {
    var e := Xor64(Expansion(r), k);
    PermutationP(Nibbles(S1(Group(e, 1)), S2(Group(e, 2)), S3(Group(e, 3)), S4(Group(e, 4)),
                         S5(Group(e, 5)), S6(Group(e, 6)), S7(Group(e, 7)), S8(Group(e, 8))))
  }

  // ---------------------------------------------------------------- blocks

  /** The 64-bit block of the standard that eight bytes stand for: the first byte is the leftmost. */
  function BlockOf(b: Block): bv64 {
    ((b[0] as bv64) << 56) | ((b[1] as bv64) << 48) | ((b[2] as bv64) << 40) | ((b[3] as bv64) << 32)
    | ((b[4] as bv64) << 24) | ((b[5] as bv64) << 16) | ((b[6] as bv64) << 8) | (b[7] as bv64)
  }

  /** Byte `i` of eight. */
  function Octet(b: Block, i: bv64): bv8 {
    if i == 0 then b[0] else if i == 1 then b[1] else if i == 2 then b[2] else if i == 3 then b[3]
    else if i == 4 then b[4] else if i == 5 then b[5] else if i == 6 then b[6] else b[7]
  }

  /** Bit `n` of the block, from 1 at the left, is bit 7 - (n - 1) mod 8 of byte (n - 1) / 8. */
  lemma BlockBits(b: Block, n: bv64)
    requires 1 <= n <= 64
    ensures Bit(BlockOf(b), 64, n) == (Octet(b, (n - 1) >> 3) as bv64 >> (7 - ((n - 1) & 7))) & 1
  {
  }

  // ---------------------------------------------------------------- how the C code lays it out

  function Wide(x: bv32): bv64 { x as bv64 }

  function Narrow(v: bv64): bv32 { (v & 0xFFFFFFFF) as bv32 }

  function RotateLeft(x: bv32): bv32 { (x << 1) | (x >> 31) }

  function Join(x: bv32, y: bv32): bv64 { Concat(Wide(x), Wide(y)) }

  /** The two words that the code reads are the halves of the block. */
  lemma JoinIsBlock(b: Block)
    ensures Join(GetX(b), GetY(b)) == BlockOf(b)
  {
  }

  /** The words of the state are the halves of the standard, rotated left by one place. */
  lemma IpIsFips(x: bv32, y: bv32, l: bv32, r: bv32)
    requires Ip(x, y) == (RotateLeft(l), RotateLeft(r))
    ensures InitialPermutation(Join(x, y)) == Join(l, r)
  {
  }

  lemma FpIsFips(l: bv32, r: bv32)
    ensures var (a, b) := Fp(RotateLeft(r), RotateLeft(l)); Join(a, b) == InversePermutation(Join(r, l))
  {
  }

  /** A result of S-box number `8 - n / 4`, after P, rotated like the state. */
  function Spread(s: bv64, n: bv64): bv32 { RotateLeft(Narrow(PermutationP(s << (n & 0x1F)))) }

  /** Four bits at four places. */
  function Scatter(s: bv64, a: bv32, b: bv32, c: bv32, d: bv32): bv32 {
    (if s & 8 != 0 then a else 0) | (if s & 4 != 0 then b else 0)
    | (if s & 2 != 0 then c else 0) | (if s & 1 != 0 then d else 0)
  }

  lemma Places1(s: bv64) requires s < 16 ensures Spread(s, 28) == Scatter(s, 0x01000000, 0x00010000, 0x00000400, 0x00000004) {}
  lemma Places2(s: bv64) requires s < 16 ensures Spread(s, 24) == Scatter(s, 0x00100000, 0x00000020, 0x80000000, 0x00008000) {}
  lemma Places3(s: bv64) requires s < 16 ensures Spread(s, 20) == Scatter(s, 0x00000200, 0x00020000, 0x00000008, 0x08000000) {}
  lemma Places4(s: bv64) requires s < 16 ensures Spread(s, 16) == Scatter(s, 0x00000080, 0x00002000, 0x00800000, 0x00000001) {}
  lemma Places5(s: bv64) requires s < 16 ensures Spread(s, 12) == Scatter(s, 0x02000000, 0x00080000, 0x00000100, 0x40000000) {}
  lemma Places6(s: bv64) requires s < 16 ensures Spread(s, 8) == Scatter(s, 0x20000000, 0x00000010, 0x00400000, 0x00004000) {}
  lemma Places7(s: bv64) requires s < 16 ensures Spread(s, 4) == Scatter(s, 0x00000002, 0x00200000, 0x00000800, 0x04000000) {}
  lemma Places8(s: bv64) requires s < 16 ensures Spread(s, 0) == Scatter(s, 0x10000000, 0x00000040, 0x00040000, 0x00001000) {}

  /** Table SB1 is S-box 1 followed by P. */
  lemma Box1(i: bv32)
    requires i < 64
    ensures S1(Wide(i)) < 16 && SB1(i) == Spread(S1(Wide(i)), 28)
  {
    hide Spread;
    Places1(S1(Wide(i)));
  }

  /** Table SB2 is S-box 2 followed by P. */
  lemma Box2(i: bv32)
    requires i < 64
    ensures S2(Wide(i)) < 16 && SB2(i) == Spread(S2(Wide(i)), 24)
  {
    hide Spread;
    Places2(S2(Wide(i)));
  }

  /** Table SB3 is S-box 3 followed by P. */
  lemma Box3(i: bv32)
    requires i < 64
    ensures S3(Wide(i)) < 16 && SB3(i) == Spread(S3(Wide(i)), 20)
  {
    hide Spread;
    Places3(S3(Wide(i)));
  }

  /** Table SB4 is S-box 4 followed by P. */
  lemma Box4(i: bv32)
    requires i < 64
    ensures S4(Wide(i)) < 16 && SB4(i) == Spread(S4(Wide(i)), 16)
  {
    hide Spread;
    Places4(S4(Wide(i)));
  }

  /** Table SB5 is S-box 5 followed by P. */
  lemma Box5(i: bv32)
    requires i < 64
    ensures S5(Wide(i)) < 16 && SB5(i) == Spread(S5(Wide(i)), 12)
  {
    hide Spread;
    Places5(S5(Wide(i)));
  }

  /** Table SB6 is S-box 6 followed by P. */
  lemma Box6(i: bv32)
    requires i < 64
    ensures S6(Wide(i)) < 16 && SB6(i) == Spread(S6(Wide(i)), 8)
  {
    hide Spread;
    Places6(S6(Wide(i)));
  }

  /** Table SB7 is S-box 7 followed by P. */
  lemma Box7(i: bv32)
    requires i < 64
    ensures S7(Wide(i)) < 16 && SB7(i) == Spread(S7(Wide(i)), 4)
  {
    hide Spread;
    Places7(S7(Wide(i)));
  }

  /** Table SB8 is S-box 8 followed by P. */
  lemma Box8(i: bv32)
    requires i < 64
    ensures S8(Wide(i)) < 16 && SB8(i) == Spread(S8(Wide(i)), 0)
  {
    hide Spread;
    Places8(S8(Wide(i)));
  }

  /** The two words of a subkey of 48 bits: the even groups, and the odd ones. */
  function EvenWord(k: bv64): bv32 {
    Narrow((Group(k, 2) << 24) | (Group(k, 4) << 16) | (Group(k, 6) << 8) | Group(k, 8))
  }

  function OddWord(k: bv64): bv32 {
    Narrow((Group(k, 1) << 24) | (Group(k, 3) << 16) | (Group(k, 5) << 8) | Group(k, 7))
  }

  /** The six bits of a word that select from a table. */
  function Six(x: bv32, s: bv32): bv64 { Wide((x >> (s & 0x1F)) & 0x3F) }

  /** The eight indexes of a round are the six-bit groups of E(R) xor K. */
  lemma Index2(r: bv32, k: bv64)
    ensures Six(Xor(EvenWord(k), RotateLeft(r)), 24) == Group(Xor64(Expansion(Wide(r)), k), 2)
  {
  }

  lemma Index4(r: bv32, k: bv64)
    ensures Six(Xor(EvenWord(k), RotateLeft(r)), 16) == Group(Xor64(Expansion(Wide(r)), k), 4)
  {
  }

  lemma Index6(r: bv32, k: bv64)
    ensures Six(Xor(EvenWord(k), RotateLeft(r)), 8) == Group(Xor64(Expansion(Wide(r)), k), 6)
  {
  }

  lemma Index8(r: bv32, k: bv64)
    ensures Six(Xor(EvenWord(k), RotateLeft(r)), 0) == Group(Xor64(Expansion(Wide(r)), k), 8)
  {
    LastIndex(r, k);
    hide EvenWord, RotateLeft, Expansion;
  }

  lemma LastIndex(r: bv32, k: bv64)
    ensures Wide((EvenWord(k) ^ RotateLeft(r)) & 0x3F) == (Expansion(Wide(r)) ^ k) & 0x3F
  {
  }

  lemma Index1(r: bv32, k: bv64)
    ensures Six(Xor(OddWord(k), Quarter(RotateLeft(r))), 24) == Group(Xor64(Expansion(Wide(r)), k), 1)
  {
  }

  lemma Index3(r: bv32, k: bv64)
    ensures Six(Xor(OddWord(k), Quarter(RotateLeft(r))), 16) == Group(Xor64(Expansion(Wide(r)), k), 3)
  {
  }

  lemma Index5(r: bv32, k: bv64)
    ensures Six(Xor(OddWord(k), Quarter(RotateLeft(r))), 8) == Group(Xor64(Expansion(Wide(r)), k), 5)
  {
  }

  lemma Index7(r: bv32, k: bv64)
    ensures Six(Xor(OddWord(k), Quarter(RotateLeft(r))), 0) == Group(Xor64(Expansion(Wide(r)), k), 7)
  {
  }

  lemma SpreadAll(a: bv64, b: bv64, c: bv64, d: bv64, e: bv64, f: bv64, g: bv64, h: bv64)
    requires a < 16 && b < 16 && c < 16 && d < 16 && e < 16 && f < 16 && g < 16 && h < 16
    ensures RotateLeft(Narrow(PermutationP(Nibbles(a, b, c, d, e, f, g, h)))) ==
      XorAll(Spread(h, 0), Spread(f, 8), Spread(d, 16), Spread(b, 24), Spread(g, 4), Spread(e, 12), Spread(c, 20), Spread(a, 28))
  {
  }

  /** The tables LHs and RHs spread four bits over four bytes, in opposite orders. */
  function Up(i: bv32): bv32 { (i & 1) | ((i & 2) << 7) | ((i & 4) << 14) | ((i & 8) << 21) }
  function Down(i: bv32): bv32 { ((i & 1) << 24) | ((i & 2) << 15) | ((i & 4) << 6) | ((i & 8) >> 3) }

  lemma UpIs(i: bv32) ensures LHs(i & 0xF) == Up(i) {}
  lemma DownIs(i: bv32) ensures RHs(i & 0xF) == Down(i) {}

  function LeftBits(x: bv32): bv32 {
    Weave(Up(x), Up(x >> 8), Up(x >> 16), Up(x >> 24), Up(x >> 5), Up(x >> 13), Up(x >> 21), Up(x >> 29))
  }

  function RightBits(y: bv32): bv32 {
    Weave(Down(y >> 1), Down(y >> 9), Down(y >> 17), Down(y >> 25), Down(y >> 4), Down(y >> 12), Down(y >> 20), Down(y >> 28))
  }

  lemma LeftIs(x: bv32)
    ensures LeftHalf(x) == LeftBits(x)
  {
    hide LHs, Up, Weave;
    UpIs(x); UpIs(x >> 8); UpIs(x >> 16); UpIs(x >> 24); UpIs(x >> 5); UpIs(x >> 13); UpIs(x >> 21); UpIs(x >> 29);
  }

  lemma RightIs(y: bv32)
    ensures RightHalf(y) == RightBits(y)
  {
    hide RHs, Down, Weave;
    DownIs(y >> 1); DownIs(y >> 9); DownIs(y >> 17); DownIs(y >> 25);
    DownIs(y >> 4); DownIs(y >> 12); DownIs(y >> 20); DownIs(y >> 28);
  }

  /** Permuted Choice 1 and 2 as the code computes them. */
  lemma Choice1IsFips(x: bv32, y: bv32)
    ensures Wide(LeftHalf(SwapKey(x, y).0)) == Choice1C(Join(x, y))
    ensures Wide(RightHalf(SwapKey(x, y).1)) == Choice1D(Join(x, y))
  {
    hide LeftHalf, RightHalf;
    var (v, w) := SwapKey(x, y);
    LeftIs(v);
    RightIs(w);
    Choice1Left(x, y);
    Choice1Right(x, y);
    hide *;
  }

  lemma Choice1Left(x: bv32, y: bv32)
    ensures var (v, w) := SwapKey(x, y); Wide(LeftBits(v)) == Choice1C(Join(x, y))
  {
  }

  lemma Choice1Right(x: bv32, y: bv32)
    ensures var (v, w) := SwapKey(x, y); Wide(RightBits(w)) == Choice1D(Join(x, y))
  {
  }

  lemma Choice2IsFips(c: bv32, d: bv32)
    requires c < 0x1000_0000 && d < 0x1000_0000
    ensures FirstWord(c, d) == EvenWord(Choice2(Halves(Wide(c), Wide(d))))
    ensures SecondWord(c, d) == OddWord(Choice2(Halves(Wide(c), Wide(d))))
  {
  }

  // ---------------------------------------------------------------- one round

  lemma Masked(t: bv32)
    ensures Wide(t & 0x3F) == Six(t, 0) && Wide((t >> 8) & 0x3F) == Six(t, 8)
    ensures Wide((t >> 16) & 0x3F) == Six(t, 16) && Wide((t >> 24) & 0x3F) == Six(t, 24)
    ensures t & 0x3F < 64 && (t >> 8) & 0x3F < 64 && (t >> 16) & 0x3F < 64 && (t >> 24) & 0x3F < 64
  {
  }

  /** The eight table entries are the eight S-boxes, permuted and rotated. */
  lemma Lookups(t: bv32, u: bv32)
    ensures SB8(t & 0x3F) == Spread(S8(Six(t, 0)), 0) && S8(Six(t, 0)) < 16
    ensures SB6((t >> 8) & 0x3F) == Spread(S6(Six(t, 8)), 8) && S6(Six(t, 8)) < 16
    ensures SB4((t >> 16) & 0x3F) == Spread(S4(Six(t, 16)), 16) && S4(Six(t, 16)) < 16
    ensures SB2((t >> 24) & 0x3F) == Spread(S2(Six(t, 24)), 24) && S2(Six(t, 24)) < 16
    ensures SB7(u & 0x3F) == Spread(S7(Six(u, 0)), 4) && S7(Six(u, 0)) < 16
    ensures SB5((u >> 8) & 0x3F) == Spread(S5(Six(u, 8)), 12) && S5(Six(u, 8)) < 16
    ensures SB3((u >> 16) & 0x3F) == Spread(S3(Six(u, 16)), 20) && S3(Six(u, 16)) < 16
    ensures SB1((u >> 24) & 0x3F) == Spread(S1(Six(u, 24)), 28) && S1(Six(u, 24)) < 16
  {
    hide *;
    Masked(t);
    Masked(u);
    Box8(t & 0x3F); Box6((t >> 8) & 0x3F); Box4((t >> 16) & 0x3F); Box2((t >> 24) & 0x3F);
    Box7(u & 0x3F); Box5((u >> 8) & 0x3F); Box3((u >> 16) & 0x3F); Box1((u >> 24) & 0x3F);
  }

  /** The function of a round is f(R, K) of the standard. */
  lemma FIsFips(r: bv32, k: bv64)
    ensures F(RotateLeft(r), EvenWord(k), OddWord(k)) == RotateLeft(Narrow(CipherFunction(Wide(r), k)))
  {
    hide *;
    var t, u := Xor(EvenWord(k), RotateLeft(r)), Xor(OddWord(k), Quarter(RotateLeft(r)));
    var e := Xor64(Expansion(Wide(r)), k);
    Index1(r, k); Index2(r, k); Index3(r, k); Index4(r, k); Index5(r, k); Index6(r, k); Index7(r, k); Index8(r, k);
    Lookups(t, u);
    SpreadAll(S1(Group(e, 1)), S2(Group(e, 2)), S3(Group(e, 3)), S4(Group(e, 4)),
              S5(Group(e, 5)), S6(Group(e, 6)), S7(Group(e, 7)), S8(Group(e, 8)));
    UnfoldF(RotateLeft(r), EvenWord(k), OddWord(k));
    UnfoldCipher(Wide(r), k);
  }

  lemma UnfoldF(x: bv32, k0: bv32, k1: bv32)
    ensures var t, u := Xor(k0, x), Xor(k1, Quarter(x));
      F(x, k0, k1) == XorAll(SB8(t & 0x3F), SB6((t >> 8) & 0x3F), SB4((t >> 16) & 0x3F), SB2((t >> 24) & 0x3F),
                             SB7(u & 0x3F), SB5((u >> 8) & 0x3F), SB3((u >> 16) & 0x3F), SB1((u >> 24) & 0x3F))
  {
    hide Xor, XorAll, Quarter, SB1, SB2, SB3, SB4, SB5, SB6, SB7, SB8;
  }

  lemma UnfoldCipher(r: bv64, k: bv64)
    ensures var e := Xor64(Expansion(r), k);
      CipherFunction(r, k) == PermutationP(Nibbles(S1(Group(e, 1)), S2(Group(e, 2)), S3(Group(e, 3)), S4(Group(e, 4)),
                                                   S5(Group(e, 5)), S6(Group(e, 6)), S7(Group(e, 7)), S8(Group(e, 8))))
  {
    hide Xor64, Expansion, PermutationP, Nibbles, Group, S1, S2, S3, S4, S5, S6, S7, S8;
  }

  // ---------------------------------------------------------------- the standard's algorithm

  /** Left shifts of the key halves before round `i`, counted from 0. */
  function Shifts(i: nat): bv64 {
    if i == 0 || i == 1 || i == 8 || i == 15 then 1 else 2
  }

  function LeftShift(c: bv64, n: bv64): bv64
    requires n == 1 || n == 2
  {
    if n == 1 then ((c << 1) | (c >> 27)) & 0xFFFFFFF else ((c << 2) | (c >> 26)) & 0xFFFFFFF
  }

  function Shifted(c: bv64, i: nat): bv64 {
    if i == 0 then c else LeftShift(Shifted(c, i - 1), Shifts(i - 1))
  }

  /** KS: the subkey of round `i`. */
  function KeyOf(key: bv64, i: nat): bv64 {
    Choice2(Halves(Shifted(Choice1C(key), i + 1), Shifted(Choice1D(key), i + 1)))
  }

  function Halves(c: bv64, d: bv64): bv64 { (c << 28) | d }

  /** Rounds `i` to 15 on (L, R). */
  function Iterate(l: bv64, r: bv64, key: bv64, i: nat): (bv64, bv64)
    decreases 16 - i
  {
    if i >= 16 then (l, r) else Iterate(r, Xor64(l, CipherFunction(r, KeyOf(key, i))), key, i + 1)
  }

  function UpperHalf(v: bv64): bv64 { v >> 32 }

  function LowerHalf(v: bv64): bv64 { v & 0xFFFFFFFF }

  function Concat(l: bv64, r: bv64): bv64 { (l << 32) | r }

  function Encipher(key: bv64, block: bv64): bv64 {
    var p := InitialPermutation(block);
    var (l, r) := Iterate(UpperHalf(p), LowerHalf(p), key, 0);
    InversePermutation(Concat(r, l))
  }

  // ---------------------------------------------------------------- the code computes it

  lemma TurnOne(c: bv32)
    requires c < 0x1000_0000
    ensures Wide(((c << 1) | (c >> 27)) & 0x0FFFFFFF) == ((Wide(c) << 1) | (Wide(c) >> 27)) & 0xFFFFFFF
  {
  }

  lemma TurnTwo(c: bv32)
    requires c < 0x1000_0000
    ensures Wide(((c << 2) | (c >> 26)) & 0x0FFFFFFF) == ((Wide(c) << 2) | (Wide(c) >> 26)) & 0xFFFFFFF
  {
  }

  lemma TurnSmall(c: bv32, i: nat)
    ensures Turn(c, i) < 0x1000_0000
  {
  }

  lemma TurnIsShift(c: bv32, i: nat)
    requires c < 0x1000_0000
    ensures Turn(c, i) < 0x1000_0000 && Wide(Turn(c, i)) == LeftShift(Wide(c), Shifts(i))
  {
    TurnOne(c);
    TurnTwo(c);
    TurnSmall(c, i);
    hide Wide;
  }

  lemma {:induction false} TurnedIsShifted(c: bv32, i: nat)
    requires c < 0x1000_0000
    ensures Turned(c, i) < 0x1000_0000 && Wide(Turned(c, i)) == Shifted(Wide(c), i)
  {
    hide Turn, LeftShift, Shifts;
    if i > 0 {
      TurnedIsShifted(c, i - 1);
      TurnIsShift(Turned(c, i - 1), i - 1);
    }
  }

  lemma HalvesSmall(x: bv32, y: bv32)
    ensures LeftHalf(x) < 0x1000_0000 && RightHalf(y) < 0x1000_0000
  {
    hide LHs, RHs;
  }

  lemma ScheduleIsFips(key: Block, i: nat)
    ensures var k := KeyOf(BlockOf(key), i);
      SubkeyAt(key, i) == Subkey(EvenWord(k), OddWord(k))
  {
    hide *;
    var x, y := FirstHalf(key), LastHalf(key);
    JoinIsBlock(key);
    UnfoldHalves(key);
    Choice1IsFips(GetX(key), GetY(key));
    HalvesSmall(SwapKey(GetX(key), GetY(key)).0, SwapKey(GetX(key), GetY(key)).1);
    TurnedIsShifted(x, i + 1);
    TurnedIsShifted(y, i + 1);
    Choice2IsFips(Turned(x, i + 1), Turned(y, i + 1));
    UnfoldSubkey(key, i);
    UnfoldKeyOf(BlockOf(key), i);
  }

  lemma UnfoldHalves(key: Block)
    ensures FirstHalf(key) == LeftHalf(SwapKey(GetX(key), GetY(key)).0)
    ensures LastHalf(key) == RightHalf(SwapKey(GetX(key), GetY(key)).1)
  {
    hide LeftHalf, RightHalf, SwapKey, GetX, GetY;
  }

  lemma UnfoldSubkey(key: Block, i: nat)
    ensures var x, y := Turned(FirstHalf(key), i + 1), Turned(LastHalf(key), i + 1);
      SubkeyAt(key, i) == Subkey(FirstWord(x, y), SecondWord(x, y))
  {
    hide Turned, FirstHalf, LastHalf, FirstWord, SecondWord;
  }

  lemma UnfoldKeyOf(key: bv64, i: nat)
    ensures KeyOf(key, i) == Choice2(Halves(Shifted(Choice1C(key), i + 1), Shifted(Choice1D(key), i + 1)))
  {
    hide Choice2, Halves, Shifted, Choice1C, Choice1D;
  }

  lemma RotateXor(a: bv32, b: bv32)
    ensures RotateLeft(Xor(a, b)) == Xor(RotateLeft(a), RotateLeft(b))
  {
  }

  lemma PFits(v: bv64)
    ensures Wide(Narrow(PermutationP(v))) == PermutationP(v)
  {
  }

  lemma CipherFits(r: bv64, k: bv64)
    ensures Wide(Narrow(CipherFunction(r, k))) == CipherFunction(r, k)
  {
    hide *;
    UnfoldCipher(r, k);
    var e := Xor64(Expansion(r), k);
    PFits(Nibbles(S1(Group(e, 1)), S2(Group(e, 2)), S3(Group(e, 3)), S4(Group(e, 4)),
                  S5(Group(e, 5)), S6(Group(e, 6)), S7(Group(e, 7)), S8(Group(e, 8))));
  }

  lemma WideXor(a: bv32, b: bv32)
    ensures Wide(Xor(a, b)) == Xor64(Wide(a), Wide(b))
  {
  }

  lemma UnfoldRound(x: bv32, y: bv32, k: Subkey)
    ensures Round(x, y, k) == Xor(x, F(y, k.k0, k.k1))
  {
    hide Xor, F;
  }

  /** One round of the code is one round of the standard. */
  lemma {:induction false} RoundIsFips(l: bv32, r: bv32, k: bv64) returns (r': bv32)
    ensures Round(RotateLeft(l), RotateLeft(r), Subkey(EvenWord(k), OddWord(k))) == RotateLeft(r')
    ensures Wide(r') == Xor64(Wide(l), CipherFunction(Wide(r), k))
  {
    hide *;
    var c := Narrow(CipherFunction(Wide(r), k));
    r' := Xor(l, c);
    FIsFips(r, k);
    UnfoldRound(RotateLeft(l), RotateLeft(r), Subkey(EvenWord(k), OddWord(k)));
    RotateXor(l, c);
    CipherFits(Wide(r), k);
    WideXor(l, c);
  }

  lemma {:induction false} RoundsAreFips(l: bv32, r: bv32, key: Block, i: nat) returns (l': bv32, r': bv32)
    requires i <= 16
    ensures |Schedule(key)| == 16
    ensures Rounds(RotateLeft(l), RotateLeft(r), Schedule(key)[i..]) == (RotateLeft(l'), RotateLeft(r'))
    ensures Iterate(Wide(l), Wide(r), BlockOf(key), i) == (Wide(l'), Wide(r'))
    decreases 16 - i
  {
    hide *;
    ScheduleItems(key);
    var ks, k := Schedule(key)[i..], BlockOf(key);
    UnfoldRounds(RotateLeft(l), RotateLeft(r), ks);
    UnfoldIterate(Wide(l), Wide(r), k, i);
    if i == 16 {
      l', r' := l, r;
    } else {
      ScheduleIsFips(key, i);
      var m := RoundIsFips(l, r, KeyOf(k, i));
      l', r' := RoundsAreFips(r, m, key, i + 1);
      assert ks[0] == SubkeyAt(key, i) && ks[1..] == Schedule(key)[i + 1..];
    }
  }

  lemma ScheduleItems(key: Block)
    ensures |Schedule(key)| == 16 && forall i :: 0 <= i < 16 ==> Schedule(key)[i] == SubkeyAt(key, i)
  {
    hide SubkeyAt;
  }

  lemma UnfoldRounds(x: bv32, y: bv32, ks: seq<Subkey>)
    ensures Rounds(x, y, ks) == if ks == [] then (x, y) else Rounds(y, Round(x, y, ks[0]), ks[1..])
  {
    hide Round;
  }

  lemma UnfoldIterate(l: bv64, r: bv64, key: bv64, i: nat)
    ensures Iterate(l, r, key, i) ==
      if i >= 16 then (l, r) else Iterate(r, Xor64(l, CipherFunction(r, KeyOf(key, i))), key, i + 1)
  {
    hide Xor64, CipherFunction, KeyOf;
  }

  function RotateRight(x: bv32): bv32 { (x >> 1) | (x << 31) }

  lemma RotateBack(x: bv32)
    ensures RotateLeft(RotateRight(x)) == x
  {
  }

  lemma JoinHalves(l: bv32, r: bv32)
    ensures UpperHalf(Join(l, r)) == Wide(l) && LowerHalf(Join(l, r)) == Wide(r)
  {
  }

  /** For every key and every block the code computes the Data Encryption Standard. */
  lemma {:induction false} CryptIsFips(key: Block, b: Block)
    ensures var c := Crypt(Schedule(key), b);
      BlockOf(c) == Encipher(BlockOf(key), BlockOf(b))
  {
    hide *;
    var (x, y) := Ip(GetX(b), GetY(b));
    var l, r := RotateRight(x), RotateRight(y);
    RotateBack(x);
    RotateBack(y);
    IpIsFips(GetX(b), GetY(b), l, r);
    JoinHalves(l, r);
    var l', r' := RoundsAreFips(l, r, key, 0);
    assert Schedule(key)[0..] == Schedule(key);
    FpIsFips(l', r');
    var (p, q) := Fp(RotateLeft(r'), RotateLeft(l'));
    GetPut(p, q);
    JoinIsBlock(b);
    JoinIsBlock(Put(p, q));
    UnfoldCrypt(Schedule(key), b);
    UnfoldEncipher(BlockOf(key), BlockOf(b));
    UnfoldJoin(r', l');
  }

  lemma UnfoldCrypt(ks: seq<Subkey>, b: Block)
    ensures var (x, y) := Ip(GetX(b), GetY(b));
      var (x', y') := Rounds(x, y, ks);
      var (p, q) := Fp(y', x');
      Crypt(ks, b) == Put(p, q)
  {
    hide Ip, Fp, Rounds, GetX, GetY, Put;
  }

  lemma UnfoldEncipher(key: bv64, block: bv64)
    ensures var p := InitialPermutation(block);
      var (l, r) := Iterate(UpperHalf(p), LowerHalf(p), key, 0);
      Encipher(key, block) == InversePermutation(Concat(r, l))
  {
    hide InitialPermutation, Iterate, UpperHalf, LowerHalf, InversePermutation, Concat;
  }

  lemma UnfoldJoin(x: bv32, y: bv32)
    ensures Join(x, y) == Concat(Wide(x), Wide(y))
  {
    hide Concat, Wide;
  }

  // ---------------------------------------------------------------- texts

  /** Block `i` of a text. */
  function Piece(data: seq<bv8>, i: nat): Block
    requires 8 * i + 8 <= |data|
  {
    data[8 * i..8 * i + 8]
  }

  lemma {:induction false} CryptAllPiece(ks: seq<Subkey>, data: seq<bv8>, i: nat)
    requires |data| % 8 == 0 && 8 * i + 8 <= |data|
    ensures Piece(CryptAll(ks, data), i) == Crypt(ks, Piece(data, i))
    decreases |data|
  {
    hide Crypt, CryptAll, Piece;
    var n := |data| - 8;
    CryptAllLast(ks, data);
    PieceOf(CryptAll(ks, data[..n]), Crypt(ks, data[n..]), i);
    PieceOf(data[..n], data[n..], i);
    assert data == data[..n] + data[n..];
    if 8 * i < n {
      CryptAllPiece(ks, data[..n], i);
    }
  }

  lemma CryptAllLast(ks: seq<Subkey>, data: seq<bv8>)
    requires |data| % 8 == 0 && data != []
    ensures var n := |data| - 8; CryptAll(ks, data) == CryptAll(ks, data[..n]) + Crypt(ks, data[n..])
  {
    hide Crypt;
  }

  lemma PieceOf(a: seq<bv8>, b: Block, i: nat)
    requires |a| % 8 == 0 && 8 * i <= |a|
    ensures Piece(a + b, i) == if 8 * i < |a| then Piece(a, i) else b
  {
  }

  /** Every block of an encoded text is the corresponding block of the padded text, enciphered by the standard. */
  lemma TextIsFips(key: Block, text: seq<bv8>, i: nat)
    requires i < |text| / 8 + 1
    ensures BlockOf(Piece(CryptAll(Schedule(key), Padded(text)), i))
         == Encipher(BlockOf(key), BlockOf(Piece(Padded(text), i)))
  {
    hide Crypt, Schedule, BlockOf, Encipher, CryptAll;
    CryptAllPiece(Schedule(key), Padded(text), i);
    CryptIsFips(key, Piece(Padded(text), i));
  }

  /** Eight bytes make up one block only, so the standard decides every byte of the ciphertext. */
  lemma BlockOnce(a: Block, b: Block)
    requires BlockOf(a) == BlockOf(b)
    ensures a == b
  {
    hide *;
    JoinIsBlock(a);
    JoinIsBlock(b);
    JoinHalves(GetX(a), GetY(a));
    JoinHalves(GetX(b), GetY(b));
    WideOnce(GetX(a), GetX(b));
    WideOnce(GetY(a), GetY(b));
    PutGet(a);
    PutGet(b);
  }

  lemma WideOnce(x: bv32, y: bv32)
    ensures Wide(x) == Wide(y) ==> x == y
  {
  }
}
