/**
  The DES block cipher and the padded string encryption of lua-crypt.c, on 32-bit words.
 */
module Des {

  // ---------------------------------------------------------------- the tables

  function Pick4(i: bv32, a: bv32, b: bv32, c: bv32, d: bv32): bv32 {
    if i & 2 == 0 then (if i & 1 == 0 then a else b) else if i & 1 == 0 then c else d
  }

  /** Entry i mod 16 of sixteen. */
  function Pick16(i: bv32, a0: bv32, a1: bv32, a2: bv32, a3: bv32, b0: bv32, b1: bv32, b2: bv32, b3: bv32,
                  c0: bv32, c1: bv32, c2: bv32, c3: bv32, d0: bv32, d1: bv32, d2: bv32, d3: bv32): bv32 {
    if i & 8 == 0 then (if i & 4 == 0 then Pick4(i, a0, a1, a2, a3) else Pick4(i, b0, b1, b2, b3))
    else if i & 4 == 0 then Pick4(i, c0, c1, c2, c3) else Pick4(i, d0, d1, d2, d3)
  }

  function SB1(i: bv32): bv32 {
    if i & 48 == 0 then Pick16(i,
      0x01010400, 0x00000000, 0x00010000, 0x01010404,
      0x01010004, 0x00010404, 0x00000004, 0x00010000,
      0x00000400, 0x01010400, 0x01010404, 0x00000400,
      0x01000404, 0x01010004, 0x01000000, 0x00000004)
    else if i & 48 == 16 then Pick16(i,
      0x00000404, 0x01000400, 0x01000400, 0x00010400,
      0x00010400, 0x01010000, 0x01010000, 0x01000404,
      0x00010004, 0x01000004, 0x01000004, 0x00010004,
      0x00000000, 0x00000404, 0x00010404, 0x01000000)
    else if i & 48 == 32 then Pick16(i,
      0x00010000, 0x01010404, 0x00000004, 0x01010000,
      0x01010400, 0x01000000, 0x01000000, 0x00000400,
      0x01010004, 0x00010000, 0x00010400, 0x01000004,
      0x00000400, 0x00000004, 0x01000404, 0x00010404)
    else Pick16(i,
      0x01010404, 0x00010004, 0x01010000, 0x01000404,
      0x01000004, 0x00000404, 0x00010404, 0x01010400,
      0x00000404, 0x01000400, 0x01000400, 0x00000000,
      0x00010004, 0x00010400, 0x00000000, 0x01010004)
  }

  function SB2(i: bv32): bv32 {
    if i & 48 == 0 then Pick16(i,
      0x80108020, 0x80008000, 0x00008000, 0x00108020,
      0x00100000, 0x00000020, 0x80100020, 0x80008020,
      0x80000020, 0x80108020, 0x80108000, 0x80000000,
      0x80008000, 0x00100000, 0x00000020, 0x80100020)
    else if i & 48 == 16 then Pick16(i,
      0x00108000, 0x00100020, 0x80008020, 0x00000000,
      0x80000000, 0x00008000, 0x00108020, 0x80100000,
      0x00100020, 0x80000020, 0x00000000, 0x00108000,
      0x00008020, 0x80108000, 0x80100000, 0x00008020)
    else if i & 48 == 32 then Pick16(i,
      0x00000000, 0x00108020, 0x80100020, 0x00100000,
      0x80008020, 0x80100000, 0x80108000, 0x00008000,
      0x80100000, 0x80008000, 0x00000020, 0x80108020,
      0x00108020, 0x00000020, 0x00008000, 0x80000000)
    else Pick16(i,
      0x00008020, 0x80108000, 0x00100000, 0x80000020,
      0x00100020, 0x80008020, 0x80000020, 0x00100020,
      0x00108000, 0x00000000, 0x80008000, 0x00008020,
      0x80000000, 0x80100020, 0x80108020, 0x00108000)
  }

  function SB3(i: bv32): bv32 {
    if i & 48 == 0 then Pick16(i,
      0x00000208, 0x08020200, 0x00000000, 0x08020008,
      0x08000200, 0x00000000, 0x00020208, 0x08000200,
      0x00020008, 0x08000008, 0x08000008, 0x00020000,
      0x08020208, 0x00020008, 0x08020000, 0x00000208)
    else if i & 48 == 16 then Pick16(i,
      0x08000000, 0x00000008, 0x08020200, 0x00000200,
      0x00020200, 0x08020000, 0x08020008, 0x00020208,
      0x08000208, 0x00020200, 0x00020000, 0x08000208,
      0x00000008, 0x08020208, 0x00000200, 0x08000000)
    else if i & 48 == 32 then Pick16(i,
      0x08020200, 0x08000000, 0x00020008, 0x00000208,
      0x00020000, 0x08020200, 0x08000200, 0x00000000,
      0x00000200, 0x00020008, 0x08020208, 0x08000200,
      0x08000008, 0x00000200, 0x00000000, 0x08020008)
    else Pick16(i,
      0x08000208, 0x00020000, 0x08000000, 0x08020208,
      0x00000008, 0x00020208, 0x00020200, 0x08000008,
      0x08020000, 0x08000208, 0x00000208, 0x08020000,
      0x00020208, 0x00000008, 0x08020008, 0x00020200)
  }

  function SB4(i: bv32): bv32 {
    if i & 48 == 0 then Pick16(i,
      0x00802001, 0x00002081, 0x00002081, 0x00000080,
      0x00802080, 0x00800081, 0x00800001, 0x00002001,
      0x00000000, 0x00802000, 0x00802000, 0x00802081,
      0x00000081, 0x00000000, 0x00800080, 0x00800001)
    else if i & 48 == 16 then Pick16(i,
      0x00000001, 0x00002000, 0x00800000, 0x00802001,
      0x00000080, 0x00800000, 0x00002001, 0x00002080,
      0x00800081, 0x00000001, 0x00002080, 0x00800080,
      0x00002000, 0x00802080, 0x00802081, 0x00000081)
    else if i & 48 == 32 then Pick16(i,
      0x00800080, 0x00800001, 0x00802000, 0x00802081,
      0x00000081, 0x00000000, 0x00000000, 0x00802000,
      0x00002080, 0x00800080, 0x00800081, 0x00000001,
      0x00802001, 0x00002081, 0x00002081, 0x00000080)
    else Pick16(i,
      0x00802081, 0x00000081, 0x00000001, 0x00002000,
      0x00800001, 0x00002001, 0x00802080, 0x00800081,
      0x00002001, 0x00002080, 0x00800000, 0x00802001,
      0x00000080, 0x00800000, 0x00002000, 0x00802080)
  }

  function SB5(i: bv32): bv32 {
    if i & 48 == 0 then Pick16(i,
      0x00000100, 0x02080100, 0x02080000, 0x42000100,
      0x00080000, 0x00000100, 0x40000000, 0x02080000,
      0x40080100, 0x00080000, 0x02000100, 0x40080100,
      0x42000100, 0x42080000, 0x00080100, 0x40000000)
    else if i & 48 == 16 then Pick16(i,
      0x02000000, 0x40080000, 0x40080000, 0x00000000,
      0x40000100, 0x42080100, 0x42080100, 0x02000100,
      0x42080000, 0x40000100, 0x00000000, 0x42000000,
      0x02080100, 0x02000000, 0x42000000, 0x00080100)
    else if i & 48 == 32 then Pick16(i,
      0x00080000, 0x42000100, 0x00000100, 0x02000000,
      0x40000000, 0x02080000, 0x42000100, 0x40080100,
      0x02000100, 0x40000000, 0x42080000, 0x02080100,
      0x40080100, 0x00000100, 0x02000000, 0x42080000)
    else Pick16(i,
      0x42080100, 0x00080100, 0x42000000, 0x42080100,
      0x02080000, 0x00000000, 0x40080000, 0x42000000,
      0x00080100, 0x02000100, 0x40000100, 0x00080000,
      0x00000000, 0x40080000, 0x02080100, 0x40000100)
  }

  function SB6(i: bv32): bv32 {
    if i & 48 == 0 then Pick16(i,
      0x20000010, 0x20400000, 0x00004000, 0x20404010,
      0x20400000, 0x00000010, 0x20404010, 0x00400000,
      0x20004000, 0x00404010, 0x00400000, 0x20000010,
      0x00400010, 0x20004000, 0x20000000, 0x00004010)
    else if i & 48 == 16 then Pick16(i,
      0x00000000, 0x00400010, 0x20004010, 0x00004000,
      0x00404000, 0x20004010, 0x00000010, 0x20400010,
      0x20400010, 0x00000000, 0x00404010, 0x20404000,
      0x00004010, 0x00404000, 0x20404000, 0x20000000)
    else if i & 48 == 32 then Pick16(i,
      0x20004000, 0x00000010, 0x20400010, 0x00404000,
      0x20404010, 0x00400000, 0x00004010, 0x20000010,
      0x00400000, 0x20004000, 0x20000000, 0x00004010,
      0x20000010, 0x20404010, 0x00404000, 0x20400000)
    else Pick16(i,
      0x00404010, 0x20404000, 0x00000000, 0x20400010,
      0x00000010, 0x00004000, 0x20400000, 0x00404010,
      0x00004000, 0x00400010, 0x20004010, 0x00000000,
      0x20404000, 0x20000000, 0x00400010, 0x20004010)
  }

  function SB7(i: bv32): bv32 {
    if i & 48 == 0 then Pick16(i,
      0x00200000, 0x04200002, 0x04000802, 0x00000000,
      0x00000800, 0x04000802, 0x00200802, 0x04200800,
      0x04200802, 0x00200000, 0x00000000, 0x04000002,
      0x00000002, 0x04000000, 0x04200002, 0x00000802)
    else if i & 48 == 16 then Pick16(i,
      0x04000800, 0x00200802, 0x00200002, 0x04000800,
      0x04000002, 0x04200000, 0x04200800, 0x00200002,
      0x04200000, 0x00000800, 0x00000802, 0x04200802,
      0x00200800, 0x00000002, 0x04000000, 0x00200800)
    else if i & 48 == 32 then Pick16(i,
      0x04000000, 0x00200800, 0x00200000, 0x04000802,
      0x04000802, 0x04200002, 0x04200002, 0x00000002,
      0x00200002, 0x04000000, 0x04000800, 0x00200000,
      0x04200800, 0x00000802, 0x00200802, 0x04200800)
    else Pick16(i,
      0x00000802, 0x04000002, 0x04200802, 0x04200000,
      0x00200800, 0x00000000, 0x00000002, 0x04200802,
      0x00000000, 0x00200802, 0x04200000, 0x00000800,
      0x04000002, 0x04000800, 0x00000800, 0x00200002)
  }

  function SB8(i: bv32): bv32 {
    if i & 48 == 0 then Pick16(i,
      0x10001040, 0x00001000, 0x00040000, 0x10041040,
      0x10000000, 0x10001040, 0x00000040, 0x10000000,
      0x00040040, 0x10040000, 0x10041040, 0x00041000,
      0x10041000, 0x00041040, 0x00001000, 0x00000040)
    else if i & 48 == 16 then Pick16(i,
      0x10040000, 0x10000040, 0x10001000, 0x00001040,
      0x00041000, 0x00040040, 0x10040040, 0x10041000,
      0x00001040, 0x00000000, 0x00000000, 0x10040040,
      0x10000040, 0x10001000, 0x00041040, 0x00040000)
    else if i & 48 == 32 then Pick16(i,
      0x00041040, 0x00040000, 0x10041000, 0x00001000,
      0x00000040, 0x10040040, 0x00001000, 0x00041040,
      0x10001000, 0x00000040, 0x10000040, 0x10040000,
      0x10040040, 0x10000000, 0x00040000, 0x10001040)
    else Pick16(i,
      0x00000000, 0x10041040, 0x00040040, 0x10000040,
      0x10040000, 0x10001000, 0x10001040, 0x00000000,
      0x10041040, 0x00041000, 0x00041000, 0x00001040,
      0x00001040, 0x00040040, 0x10000000, 0x10041000)
  }

  function LHs(i: bv32): bv32 {
    Pick16(i,
      0x00000000, 0x00000001, 0x00000100, 0x00000101,
      0x00010000, 0x00010001, 0x00010100, 0x00010101,
      0x01000000, 0x01000001, 0x01000100, 0x01000101,
      0x01010000, 0x01010001, 0x01010100, 0x01010101)
  }

  function RHs(i: bv32): bv32 {
    Pick16(i,
      0x00000000, 0x01000000, 0x00010000, 0x01010000,
      0x00000100, 0x01000100, 0x00010100, 0x01010100,
      0x00000001, 0x01000001, 0x00010001, 0x01010001,
      0x00000101, 0x01000101, 0x00010101, 0x01010101)
  }

  // ---------------------------------------------------------------- words and bytes

  type Block = b: seq<bv8> | |b| == 8 witness [0, 0, 0, 0, 0, 0, 0, 0]

  /** GET_UINT32. */
  function Get(b0: bv8, b1: bv8, b2: bv8, b3: bv8): bv32 {
    ((b0 as bv32) << 24) | ((b1 as bv32) << 16) | ((b2 as bv32) << 8) | (b3 as bv32)
  }

  function Byte(n: bv32, shift: nat): bv8
    requires shift < 32
  {
    ((n >> shift) & 0xFF) as bv8
  }

  /** PUT_UINT32, for both words of a block. */
  function Put(x: bv32, y: bv32): Block {
    [Byte(x, 24), Byte(x, 16), Byte(x, 8), Byte(x, 0),
     Byte(y, 24), Byte(y, 16), Byte(y, 8), Byte(y, 0)]
  }

  function GetX(b: Block): bv32 { Get(b[0], b[1], b[2], b[3]) }
  function GetY(b: Block): bv32 { Get(b[4], b[5], b[6], b[7]) }

  lemma PutGet(b: Block)
    ensures Put(GetX(b), GetY(b)) == b
  {
    hide Get, Byte;
    BytesBack(b[0], b[1], b[2], b[3]);
    BytesBack(b[4], b[5], b[6], b[7]);
  }

  lemma BytesBack(b0: bv8, b1: bv8, b2: bv8, b3: bv8)
    ensures var n := Get(b0, b1, b2, b3);
      Byte(n, 24) == b0 && Byte(n, 16) == b1 && Byte(n, 8) == b2 && Byte(n, 0) == b3
  {
  }

  lemma GetPut(x: bv32, y: bv32)
    ensures GetX(Put(x, y)) == x && GetY(Put(x, y)) == y
  {
    WordBack(x);
    WordBack(y);
  }

  lemma WordBack(n: bv32)
    ensures Get(Byte(n, 24), Byte(n, 16), Byte(n, 8), Byte(n, 0)) == n
  {
  }

  // ---------------------------------------------------------------- the block cipher

  /** DES_IP. */
  function Ip(x0: bv32, y0: bv32): (bv32, bv32) {
    var t := ((x0 >> 4) ^ y0) & 0x0F0F0F0F; var y := y0 ^ t; var x := x0 ^ (t << 4);
    var t := ((x >> 16) ^ y) & 0x0000FFFF; var y := y ^ t; var x := x ^ (t << 16);
    var t := ((y >> 2) ^ x) & 0x33333333; var x := x ^ t; var y := y ^ (t << 2);
    var t := ((y >> 8) ^ x) & 0x00FF00FF; var x := x ^ t; var y := y ^ (t << 8);
    var y := (y << 1) | (y >> 31);
    var t := (x ^ y) & 0xAAAAAAAA; var y := y ^ t; var x := x ^ t;
    var x := (x << 1) | (x >> 31);
    (x, y)
  }

  /** DES_FP. */
  function Fp(x0: bv32, y0: bv32): (bv32, bv32) {
    var x := (x0 << 31) | (x0 >> 1);
    var t := (x ^ y0) & 0xAAAAAAAA; var x := x ^ t; var y := y0 ^ t;
    var y := (y << 31) | (y >> 1);
    var t := ((y >> 8) ^ x) & 0x00FF00FF; var x := x ^ t; var y := y ^ (t << 8);
    var t := ((y >> 2) ^ x) & 0x33333333; var x := x ^ t; var y := y ^ (t << 2);
    var t := ((x >> 16) ^ y) & 0x0000FFFF; var y := y ^ t; var x := x ^ (t << 16);
    var t := ((x >> 4) ^ y) & 0x0F0F0F0F; var y := y ^ t; var x := x ^ (t << 4);
    (x, y)
  }

  /** The two permutations undo each other. */
  lemma FpIp(x: bv32, y: bv32)
    ensures var (a, b) := Ip(x, y); Fp(a, b) == (x, y)
  {
  }

  lemma IpFp(x: bv32, y: bv32)
    ensures var (a, b) := Fp(x, y); Ip(a, b) == (x, y)
  {
  }

  function Xor(a: bv32, b: bv32): bv32 { a ^ b }

  function XorAll(a: bv32, b: bv32, c: bv32, d: bv32, e: bv32, f: bv32, g: bv32, h: bv32): bv32 {
    a ^ b ^ c ^ d ^ e ^ f ^ g ^ h
  }

  function Quarter(x: bv32): bv32 { (x << 28) | (x >> 4) }

  /** What DES_ROUND(X,Y) adds to Y, with the two words of a subkey. */
  function F(x: bv32, k0: bv32, k1: bv32): bv32 {
    var t, u := Xor(k0, x), Xor(k1, Quarter(x));
    XorAll(SB8(t & 0x3F), SB6((t >> 8) & 0x3F), SB4((t >> 16) & 0x3F), SB2((t >> 24) & 0x3F),
           SB7(u & 0x3F), SB5((u >> 8) & 0x3F), SB3((u >> 16) & 0x3F), SB1((u >> 24) & 0x3F))
  }

  datatype Subkey = Subkey(k0: bv32, k1: bv32)

  /** DES_ROUND(Y,X): the new X. */
  function Round(x: bv32, y: bv32, k: Subkey): bv32 { Xor(x, F(y, k.k0, k.k1)) }

  lemma RoundTwice(x: bv32, y: bv32, k: Subkey)
    ensures Round(Round(x, y, k), y, k) == x
  {
    hide F;
    Cancels(x, F(y, k.k0, k.k1));
  }

  lemma Cancels(x: bv32, f: bv32)
    ensures Xor(Xor(x, f), f) == x
  {
  }

  /** The rounds, each changing one of the two words in turn; here the word to change next is the first. */
  function Rounds(x: bv32, y: bv32, ks: seq<Subkey>): (bv32, bv32)
    decreases |ks|
  {
    if ks == [] then (x, y) else Rounds(y, Round(x, y, ks[0]), ks[1..])
  }

  /** des_crypt. */
  function Crypt(ks: seq<Subkey>, b: Block): Block {
    var (x, y) := Ip(GetX(b), GetY(b));
    var (x', y') := Rounds(x, y, ks);
    var (a, c) := Fp(y', x');
    Put(a, c)
  }

  function Reversed(ks: seq<Subkey>): (r: seq<Subkey>)
    ensures |r| == |ks| && forall i :: 0 <= i < |ks| ==> r[i] == ks[|ks| - 1 - i]
  {
    seq(|ks|, i requires 0 <= i < |ks| => ks[|ks| - 1 - i])
  }

  lemma {:induction false} RoundsSnoc(x: bv32, y: bv32, ks: seq<Subkey>, k: Subkey)
    ensures var (a, b) := Rounds(x, y, ks); Rounds(x, y, ks + [k]) == (b, Round(a, b, k))
    decreases |ks|
  {
    hide Round;
    if ks == [] {
      assert (ks + [k])[1..] == [];
    } else {
      assert (ks + [k])[1..] == ks[1..] + [k];
      RoundsSnoc(y, Round(x, y, ks[0]), ks[1..], k);
    }
  }

  /** Feistel: with the words swapped, the same rounds with the keys in reverse order lead back. */
  lemma {:induction false} RoundsBack(x: bv32, y: bv32, ks: seq<Subkey>)
    ensures var (a, b) := Rounds(x, y, ks); Rounds(b, a, Reversed(ks)) == (y, x)
    decreases |ks|
  {
    hide Round;
    if ks != [] {
      var k := ks[0];
      var z := Round(x, y, k);
      RoundTwice(x, y, k);
      assert Rounds(x, y, ks) == Rounds(y, z, ks[1..]);
      RoundsBack(y, z, ks[1..]);
      assert Reversed(ks) == Reversed(ks[1..]) + [k];
      hide Rounds, Reversed;
      var (a, b) := Rounds(y, z, ks[1..]);
      RoundsSnoc(b, a, Reversed(ks[1..]), k);
    }
  }

  /** Decryption is encryption with the subkeys in reverse order, for any subkeys. */
  lemma CryptBack(ks: seq<Subkey>, b: Block)
    ensures Crypt(Reversed(ks), Crypt(ks, b)) == b
  {
    hide Ip, Fp, Rounds, GetX, GetY, Put, Reversed;
    var (x, y) := Ip(GetX(b), GetY(b));
    var (x', y') := Rounds(x, y, ks);
    var (a, c) := Fp(y', x');
    GetPut(a, c);
    IpFp(y', x');
    RoundsBack(x, y, ks);
    FpIp(GetX(b), GetY(b));
    PutGet(b);
  }

  // ---------------------------------------------------------------- the key schedule

  /** The two swaps that begin Permuted Choice 1. */
  function SwapKey(x0: bv32, y0: bv32): (bv32, bv32) {
    var t := ((y0 >> 4) ^ x0) & 0x0F0F0F0F; var x := x0 ^ t; var y := y0 ^ (t << 4);
    var t := (y ^ x) & 0x10101010; var x := x ^ t; var y := y ^ t;
    (x, y)
  }

  function Weave(a: bv32, b: bv32, c: bv32, d: bv32, e: bv32, f: bv32, g: bv32, h: bv32): bv32 {
    ((a << 3) | (b << 2) | (c << 1) | d | (e << 7) | (f << 6) | (g << 5) | (h << 4)) & 0x0FFFFFFF
  }

  function LeftHalf(x: bv32): bv32 {
    Weave(LHs(x & 0xF), LHs((x >> 8) & 0xF), LHs((x >> 16) & 0xF), LHs((x >> 24) & 0xF),
          LHs((x >> 5) & 0xF), LHs((x >> 13) & 0xF), LHs((x >> 21) & 0xF), LHs((x >> 29) & 0xF))
  }

  function RightHalf(y: bv32): bv32 {
    Weave(RHs((y >> 1) & 0xF), RHs((y >> 9) & 0xF), RHs((y >> 17) & 0xF), RHs((y >> 25) & 0xF),
          RHs((y >> 4) & 0xF), RHs((y >> 12) & 0xF), RHs((y >> 20) & 0xF), RHs((y >> 28) & 0xF))
  }

  /** Both halves move left by one place in rounds 0, 1, 8 and 15, by two in the others. */
  function Turn(x: bv32, i: nat): bv32 {
    if i < 2 || i == 8 || i == 15 then ((x << 1) | (x >> 27)) & 0x0FFFFFFF
    else ((x << 2) | (x >> 26)) & 0x0FFFFFFF
  }

  function FirstWord(x: bv32, y: bv32): bv32 {
    ((x << 4) & 0x24000000) | ((x << 28) & 0x10000000)
    | ((x << 14) & 0x08000000) | ((x << 18) & 0x02080000)
    | ((x << 6) & 0x01000000) | ((x << 9) & 0x00200000)
    | ((x >> 1) & 0x00100000) | ((x << 10) & 0x00040000)
    | ((x << 2) & 0x00020000) | ((x >> 10) & 0x00010000)
    | ((y >> 13) & 0x00002000) | ((y >> 4) & 0x00001000)
    | ((y << 6) & 0x00000800) | ((y >> 1) & 0x00000400)
    | ((y >> 14) & 0x00000200) | (y & 0x00000100)
    | ((y >> 5) & 0x00000020) | ((y >> 10) & 0x00000010)
    | ((y >> 3) & 0x00000008) | ((y >> 18) & 0x00000004)
    | ((y >> 26) & 0x00000002) | ((y >> 24) & 0x00000001)
  }

  function SecondWord(x: bv32, y: bv32): bv32 {
    ((x << 15) & 0x20000000) | ((x << 17) & 0x10000000)
    | ((x << 10) & 0x08000000) | ((x << 22) & 0x04000000)
    | ((x >> 2) & 0x02000000) | ((x << 1) & 0x01000000)
    | ((x << 16) & 0x00200000) | ((x << 11) & 0x00100000)
    | ((x << 3) & 0x00080000) | ((x >> 6) & 0x00040000)
    | ((x << 15) & 0x00020000) | ((x >> 4) & 0x00010000)
    | ((y >> 2) & 0x00002000) | ((y << 8) & 0x00001000)
    | ((y >> 14) & 0x00000808) | ((y >> 9) & 0x00000400)
    | (y & 0x00000200) | ((y << 7) & 0x00000100)
    | ((y >> 7) & 0x00000020) | ((y >> 3) & 0x00000011)
    | ((y << 2) & 0x00000004) | ((y >> 21) & 0x00000002)
  }

  /** A key half after `n` turns. */
  function Turned(x: bv32, n: nat): bv32 {
    if n == 0 then x else Turn(Turned(x, n - 1), n - 1)
  }

  function FirstHalf(key: Block): bv32 { LeftHalf(SwapKey(GetX(key), GetY(key)).0) }
  function LastHalf(key: Block): bv32 { RightHalf(SwapKey(GetX(key), GetY(key)).1) }

  function SubkeyAt(key: Block, i: nat): Subkey {
    var x, y := Turned(FirstHalf(key), i + 1), Turned(LastHalf(key), i + 1);
    Subkey(FirstWord(x, y), SecondWord(x, y))
  }

  function Schedule(key: Block): seq<Subkey> { seq(16, i requires 0 <= i < 16 => SubkeyAt(key, i)) }

  /** des_main_ks. */
  method MainKs(key: Block) returns (sk: seq<Subkey>)
    ensures sk == Schedule(key)
  {
    hide SwapKey, LeftHalf, RightHalf, Turn, FirstWord, SecondWord, GetX, GetY;
    var (x, y) := SwapKey(GetX(key), GetY(key));
    x, y := LeftHalf(x), RightHalf(y);
    sk := [];
    var i := 0;
    while i < 16
      invariant 0 <= i <= 16 && |sk| == i && x == Turned(FirstHalf(key), i) && y == Turned(LastHalf(key), i)
      invariant forall j :: 0 <= j < i ==> sk[j] == SubkeyAt(key, j)
    {
      x, y := Turn(x, i), Turn(y, i);
      sk := sk + [Subkey(FirstWord(x, y), SecondWord(x, y))];
      i := i + 1;
    }
  }

  // ---------------------------------------------------------------- texts

  /** Block by block. */
  function CryptAll(ks: seq<Subkey>, data: seq<bv8>): (r: seq<bv8>)
    requires |data| % 8 == 0
    ensures |r| == |data|
    decreases |data|
  {
    if data == [] then []
    else
      var n := |data| - 8;
      CryptAll(ks, data[..n]) + Crypt(ks, data[n..])
  }

  lemma {:induction false} CryptAllBack(ks: seq<Subkey>, data: seq<bv8>)
    requires |data| % 8 == 0
    ensures CryptAll(Reversed(ks), CryptAll(ks, data)) == data
    decreases |data|
  {
    hide Crypt, Reversed;
    if data != [] {
      var n := |data| - 8;
      CryptAllBack(ks, data[..n]);
      CryptBack(ks, data[n..]);
      assert CryptAll(ks, data)[..n] == CryptAll(ks, data[..n]);
      assert CryptAll(ks, data)[n..] == Crypt(ks, data[n..]);
    }
  }

  function Zeros(n: nat): (r: seq<bv8>)
    ensures |r| == n && forall i :: 0 <= i < n ==> r[i] == 0
  {
    seq(n, _ => 0)
  }

  /** A text, the byte 0x80, and up to seven zeros. */
  predicate IsPadded(t: seq<bv8>, data: seq<bv8>) {
    && |t| < |data| <= |t| + 8
    && data == t + [0x80] + Zeros(|data| - |t| - 1)
  }

  function Padded(t: seq<bv8>): (r: seq<bv8>)
    ensures |r| == 8 * (|t| / 8 + 1)
  {
    t + [0x80] + Zeros(7 - |t| % 8)
  }

  lemma PaddedIs(t: seq<bv8>)
    ensures IsPadded(t, Padded(t))
  {
  }

  /** The padding can be taken off in one way only. */
  lemma PaddedOnce(t: seq<bv8>, t': seq<bv8>, data: seq<bv8>)
    requires IsPadded(t, data) && IsPadded(t', data)
    ensures t == t'
  {
    PaddedAt(t, data);
    PaddedAt(t', data);
  }

  lemma PaddedAt(t: seq<bv8>, data: seq<bv8>)
    requires IsPadded(t, data)
    ensures data[|t|] == 0x80 && data[..|t|] == t && forall j :: |t| < j < |data| ==> data[j] == 0
  {
    forall j | |t| < j < |data|
      ensures data[j] == 0
    {
      assert data[j] == Zeros(|data| - |t| - 1)[j - |t| - 1];
    }
  }

  datatype Encoded = Cipher(c: seq<bv8>) | BadKey

  /** `OutOfBounds`: the scan for the padding leaves a single block of zeros at its front. */
  datatype Decoded = Text(t: seq<bv8>) | Invalid | OutOfBounds

  /** ldesencode. */
  method DesEncode(key: seq<bv8>, text: seq<bv8>) returns (r: Encoded)
    ensures r.BadKey? <==> |key| != 8
    ensures |key| == 8 ==> r == Cipher(CryptAll(Schedule(key), Padded(text)))
  {
    hide Crypt, Schedule;
    if |key| != 8 {
      return BadKey;
    }
    var sk := MainKs(key);
    var buffer: seq<bv8> := [];
    var i := 0;
    while i < |text| - 7
      invariant 0 <= i <= |text| && i % 8 == 0 && buffer == CryptAll(sk, text[..i])
    {
      CryptNext(sk, text, i);
      buffer := buffer + Crypt(sk, text[i..i + 8]);
      i := i + 8;
    }
    var bytes := |text| - i;
    var tail: seq<bv8>, j := [], 0;
    while j < 8
      invariant 0 <= j <= 8 && |tail| == j
      invariant forall n :: 0 <= n < j ==> tail[n] == if n < bytes then text[i + n] else if n == bytes then 0x80 else 0
    {
      tail := tail + [if j < bytes then text[i + j] else if j == bytes then 0x80 else 0];
      j := j + 1;
    }
    PaddedParts(text, i, tail);
    buffer := buffer + Crypt(sk, tail);
    r := Cipher(buffer);
  }

  lemma CryptNext(ks: seq<Subkey>, text: seq<bv8>, i: nat)
    requires i + 8 <= |text| && i % 8 == 0
    ensures CryptAll(ks, text[..i + 8]) == CryptAll(ks, text[..i]) + Crypt(ks, text[i..i + 8])
  {
    assert text[..i + 8][..i] == text[..i] && text[..i + 8][i..] == text[i..i + 8];
  }

  lemma PaddedParts(text: seq<bv8>, i: nat, tail: Block)
    requires i % 8 == 0 && i <= |text| < i + 8
    requires forall n :: 0 <= n < 8 ==> tail[n] == if n < |text| - i then text[i + n] else if n == |text| - i then 0x80 else 0
    ensures Padded(text)[..i] == text[..i] && Padded(text)[i..] == tail && |Padded(text)| == i + 8
  {
  }

  /**
    ldesdecode: for whatever `ldesencode` makes of a text under the same key it gives that text back, and
    otherwise it accepts exactly the data that is padded after decryption.  It reads in front of its buffer
    exactly when the data is one block that decrypts to zeros.
   */
  method DesDecode(key: seq<bv8>, text: seq<bv8>) returns (r: Decoded)
    ensures |key| != 8 ==> r == Invalid
    ensures |key| == 8 ==> forall t :: text == CryptAll(Schedule(key), Padded(t)) ==> r == Text(t)
    ensures |key| == 8 && |text| % 8 == 0 && text != [] ==>
      forall t :: r == Text(t) <==> IsPadded(t, CryptAll(Reversed(Schedule(key)), text))
    ensures r.OutOfBounds? <==> |key| == 8 && |text| == 8 && CryptAll(Reversed(Schedule(key)), text) == Zeros(8)
  {
    hide Crypt, Schedule, CryptAll, Reversed;
    if |key| != 8 {
      return Invalid;
    }
    var esk := MainKs(key);
    var sk: seq<Subkey>, i := [], 0;
    ScheduleLength(key);
    ReversedFacts(esk);
    while i < 16
      invariant 0 <= i <= 16 && |sk| == i && forall j :: 0 <= j < i ==> sk[j] == esk[15 - j]
    {
      sk := sk + [esk[15 - i]];
      i := i + 1;
    }
    assert sk == Reversed(esk);
    CipherFacts(esk);
    if |text| % 8 != 0 || |text| == 0 {
      return Invalid;
    }
    var buffer: seq<bv8> := [];
    i := 0;
    CryptEmpty(sk, text);
    while i < |text|
      invariant 0 <= i <= |text| && i % 8 == 0 && buffer == CryptAll(sk, text[..i])
    {
      CryptNext(sk, text, i);
      buffer := buffer + Crypt(sk, text[i..i + 8]);
      i := i + 8;
    }
    assert text[..i] == text;
    r := Unpad(buffer);
    forall t | text == CryptAll(esk, Padded(t))
      ensures r == Text(t)
    {
      CryptAllBack(esk, Padded(t));
      PaddedIs(t);
    }
  }

  /** Under every key there is such a block: the encryption of eight zeros. */
  lemma ZeroBlockDecrypts(key: Block)
    ensures var text := CryptAll(Schedule(key), Zeros(8));
      |text| == 8 && CryptAll(Reversed(Schedule(key)), text) == Zeros(8)
  {
    CryptAllBack(Schedule(key), Zeros(8));
  }

  /** It is never the encryption of a text, so that no run of encoding and decoding meets it. */
  lemma ZeroBlockIsNoText(key: Block, t: seq<bv8>)
    ensures CryptAll(Schedule(key), Padded(t)) != CryptAll(Schedule(key), Zeros(8))
  {
    hide *;
    CryptAllBack(Schedule(key), Padded(t));
    CryptAllBack(Schedule(key), Zeros(8));
    PaddedIsNotZero(t);
  }

  lemma PaddedIsNotZero(t: seq<bv8>)
    ensures Padded(t) != Zeros(8)
  {
    PaddedIs(t);
    PaddedAt(t, Padded(t));
    assert |t| < 8 ==> Zeros(8)[|t|] == 0;
  }

  /** No encrypted text is empty or ends inside a block. */
  lemma CipherFacts(ks: seq<Subkey>)
    ensures forall t :: |CryptAll(ks, Padded(t))| > 0 && |CryptAll(ks, Padded(t))| % 8 == 0
  {
    hide CryptAll, Padded;
  }

  lemma CryptEmpty(ks: seq<Subkey>, text: seq<bv8>)
    ensures CryptAll(ks, text[..0]) == []
  {
  }

  lemma ScheduleLength(key: Block)
    ensures |Schedule(key)| == 16
  {
  }

  /** The scan for the padding, from the end. */
  method Unpad(buffer: seq<bv8>) returns (r: Decoded)
    requires |buffer| % 8 == 0 && buffer != []
    ensures forall t :: r == Text(t) <==> IsPadded(t, buffer)
    ensures r.OutOfBounds? <==> buffer == Zeros(8)
  {
    var n := |buffer|;
    var padding, i := 1, n - 1;
    while i >= n - 8
      invariant n - 9 <= i < n && padding == n - i
      invariant forall j :: i < j < n ==> buffer[j] == 0
    {
      if buffer[i] == 0 {
        padding := padding + 1;
      } else if buffer[i] == 0x80 {
        break;
      } else {
        NotPadded(buffer, i);
        return Invalid;
      }
      i := i - 1;
    }
    if padding > 8 {
      AllZeros(buffer);
      return if n == 8 then OutOfBounds else Invalid;
    }
    assert IsPadded(buffer[..i], buffer);
    forall t | IsPadded(t, buffer)
      ensures t == buffer[..i]
    {
      PaddedOnce(t, buffer[..i], buffer);
    }
    r := Text(buffer[..n - padding]);
  }

  lemma NotPadded(data: seq<bv8>, i: nat)
    requires i < |data| && data[i] != 0 && data[i] != 0x80 && forall j :: i < j < |data| ==> data[j] == 0
    ensures forall t :: !IsPadded(t, data)
  {
    forall t
      ensures !IsPadded(t, data)
    {
      if IsPadded(t, data) {
        PaddedAt(t, data);
      }
    }
  }

  lemma AllZeros(data: seq<bv8>)
    requires |data| >= 8 && forall j :: |data| - 8 <= j < |data| ==> data[j] == 0
    ensures forall t :: !IsPadded(t, data)
  {
    forall t
      ensures !IsPadded(t, data)
    {
      if IsPadded(t, data) {
        PaddedAt(t, data);
      }
    }
  }

  lemma ReversedFacts(ks: seq<Subkey>)
    ensures |Reversed(ks)| == |ks| && forall i :: 0 <= i < |ks| ==> Reversed(ks)[i] == ks[|ks| - 1 - i]
  {
  }
}
