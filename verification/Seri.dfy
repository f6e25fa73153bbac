/**
  The serializer of lua-seri.c.  `Bytes` is the wire format and `ParseOne` its reader, both as functions;
  the write and read cursors of the library are the classes `WriteBlock` and `ReadBlock`, whose methods are
  proved against them.
 */
module Seri {

  import opened Prelude

  const TYPE_NIL: nat := 0
  const TYPE_BOOLEAN: nat := 1
  const TYPE_NUMBER: nat := 2
  const TYPE_USERDATA: nat := 3
  const TYPE_SHORT_STRING: nat := 4
  const TYPE_LONG_STRING: nat := 5
  const TYPE_TABLE: nat := 6

  const NUMBER_ZERO: nat := 0
  const NUMBER_BYTE: nat := 1
  const NUMBER_WORD: nat := 2
  const NUMBER_DWORD: nat := 4
  const NUMBER_QWORD: nat := 6
  const NUMBER_REAL: nat := 8

  const MAX_COOKIE: nat := 32
  const MAX_DEPTH: nat := 32
  const BLOCK_SIZE: nat := 128

  /**
    A Lua value.  A table is its array part (the values at 1..n, n its raw length) and its other pairs in
    traversal order.  `Other` stands for functions, threads and full userdata.
   */
  datatype Value =
    | Nil
    | Bool(b: bool)
    | Int(n: int)
    | Real(bits: seq<byte>)
    | Pointer(address: seq<byte>)
    | Str(s: seq<byte>)
    | Table(arr: seq<Value>, pairs: seq<Pair>)
    | Other

  datatype Pair = Pair(key: Value, val: Value)

  /** What Lua guarantees of its values: 64-bit integers, 8-byte reals and addresses, no nil as a key. */
  predicate Lua(v: Value) {
    match v
    case Int(n) => -0x8000_0000_0000_0000 <= n < 0x8000_0000_0000_0000
    case Real(bits) => |bits| == 8
    case Pointer(address) => |address| == 8
    case Str(s) => |s| < 0x8000_0000
    case Table(arr, pairs) =>
      && |arr| < 0x8000_0000
      && (forall i :: 0 <= i < |arr| ==> Lua(arr[i]))
      && (forall i :: 0 <= i < |pairs| ==> !pairs[i].key.Nil? && Lua(pairs[i].key) && Lua(pairs[i].val))
    case _ => true
  }

  /** What `pack_one` accepts at nesting `depth`. */
  predicate Packable(v: Value, depth: nat) {
    && depth <= MAX_DEPTH
    && match v
       case Other => false
       case Table(arr, pairs) =>
         && (forall i :: 0 <= i < |arr| ==> Packable(arr[i], depth + 1))
         && (forall i :: 0 <= i < |pairs| ==> Packable(pairs[i].key, depth + 1) && Packable(pairs[i].val, depth + 1))
       case _ => true
  }

  // ---------------------------------------------------------------- little-endian numbers

  function Le(n: nat, v: nat): (r: seq<byte>)
    ensures |r| == n
  {
    if n == 0 then [] else [v % 256] + Le(n - 1, v / 256)
  }

  function UnLe(b: seq<byte>): nat {
    if b == [] then 0 else b[0] + 256 * UnLe(b[1..])
  }

  lemma {:induction false} LeRoundTrip(n: nat, v: nat)
    requires v < Pow(256, n)
    ensures UnLe(Le(n, v)) == v
  {
    if n > 0 {
      LeRoundTrip(n - 1, v / 256);
      assert Le(n, v)[1..] == Le(n - 1, v / 256);
    }
  }

  /** The least significant byte comes first: a byte put behind counts for all that the bytes before it can hold. */
  lemma {:induction false} UnLeSnoc(a: seq<byte>, x: byte)
    ensures UnLe(a + [x]) == UnLe(a) + x * Pow(256, |a|)
  {
    if a == [] {
      assert [x][1..] == [];
    } else {
      UnLeSnoc(a[1..], x);
      assert (a + [x])[1..] == a[1..] + [x];
      assert 256 * (x * Pow(256, |a| - 1)) == x * Pow(256, |a|);
    }
  }

  lemma Widths()
    ensures Pow(256, 1) == 0x100 && Pow(256, 2) == 0x1_0000 && Pow(256, 4) == 0x1_0000_0000
    ensures Pow(256, 8) == 0x1_0000_0000_0000_0000
  {
    assert Pow(256, 2) == 256 * Pow(256, 1);
    assert Pow(256, 3) == 256 * Pow(256, 2);
    assert Pow(256, 4) == 256 * Pow(256, 3);
    assert Pow(256, 5) == 256 * Pow(256, 4);
    assert Pow(256, 6) == 256 * Pow(256, 5);
    assert Pow(256, 7) == 256 * Pow(256, 6);
  }

  /** Two's complement of width `m`, and back. */
  function Wrap(v: int, m: int): nat requires m > 0 { v % m }
  function Signed(v: nat, m: nat): int { if 2 * v < m then v else v - m }

  // ---------------------------------------------------------------- the wire format

  function Head(t: nat, cookie: nat): (r: byte)
    requires t < 8 && cookie < 32
    ensures r % 8 == t && r / 8 == cookie
  {
    t + 8 * cookie
  }

  /** `wb_integer`. */
  function IntBytes(v: int): seq<byte> {
    if v == 0 then [Head(TYPE_NUMBER, NUMBER_ZERO)]
    else if !(-0x8000_0000 <= v < 0x8000_0000) then
      [Head(TYPE_NUMBER, NUMBER_QWORD)] + Le(8, Wrap(v, 0x1_0000_0000_0000_0000))
    else if v < 0 then [Head(TYPE_NUMBER, NUMBER_DWORD)] + Le(4, Wrap(v, 0x1_0000_0000))
    else if v < 0x100 then [Head(TYPE_NUMBER, NUMBER_BYTE)] + Le(1, v)
    else if v < 0x1_0000 then [Head(TYPE_NUMBER, NUMBER_WORD)] + Le(2, v)
    else [Head(TYPE_NUMBER, NUMBER_DWORD)] + Le(4, v)
  }

  /** `wb_string`. */
  function StrBytes(s: seq<byte>): seq<byte> {
    if |s| < MAX_COOKIE then [Head(TYPE_SHORT_STRING, |s|)] + s
    else if |s| < 0x1_0000 then [Head(TYPE_LONG_STRING, 2)] + (Le(2, |s|) + s)
    else [Head(TYPE_LONG_STRING, 4)] + (Le(4, |s|) + s)
  }

  /** The start of a table: its array size in the cookie, or 31 and the size as an integer. */
  function TableHead(n: nat): seq<byte> {
    if n >= MAX_COOKIE - 1 then [Head(TYPE_TABLE, MAX_COOKIE - 1)] + IntBytes(n)
    else [Head(TYPE_TABLE, n)]
  }

  function Bytes(v: Value): seq<byte>
    decreases v, 1
  {
    match v
    case Nil => [Head(TYPE_NIL, 0)]
    case Bool(b) => [Head(TYPE_BOOLEAN, if b then 1 else 0)]
    case Int(n) => IntBytes(n)
    case Real(bits) => [Head(TYPE_NUMBER, NUMBER_REAL)] + bits
    case Pointer(address) => [Head(TYPE_USERDATA, 0)] + address
    case Str(s) => StrBytes(s)
    case Table(arr, pairs) => TableHead(|arr|) + ArrayBytes(arr) + PairsBytes(pairs) + [Head(TYPE_NIL, 0)]
    case Other => []
  }

  function ArrayBytes(vs: seq<Value>): seq<byte>
    decreases vs, 0
  {
    if vs == [] then [] else ArrayBytes(vs[..|vs| - 1]) + Bytes(vs[|vs| - 1])
  }

  function PairsBytes(ps: seq<Pair>): seq<byte>
    decreases ps, 0
  {
    if ps == [] then []
    else PairsBytes(ps[..|ps| - 1]) + PairBytes(ps[|ps| - 1])
  }

  function PairBytes(p: Pair): seq<byte>
    decreases p, 0
  {
    Bytes(p.key) + Bytes(p.val)
  }

  // ---------------------------------------------------------------- reading it back

  /** The value at the front and what follows it; `Fail` is an invalid stream. */
  datatype Parsed<T> = Fail | Got(val: T, rest: seq<byte>)

  /** `rb_read`. */
  function Take(b: seq<byte>, n: nat): (r: Parsed<seq<byte>>)
    ensures r.Got? ==> n <= |b| && r.val == b[..n] && r.rest == b[n..]
    ensures r.Fail? <==> |b| < n
  {
    if |b| < n then Fail else Got(b[..n], b[n..])
  }

  /** `get_integer`. */
  function ParseInt(b: seq<byte>, cookie: nat): (r: Parsed<int>)
    ensures r.Got? ==> |r.rest| <= |b|
  {
    if cookie == NUMBER_ZERO then Got(0, b)
    else if cookie == NUMBER_BYTE then
      match Take(b, 1) case Fail => Fail case Got(x, rest) => Got(UnLe(x), rest)
    else if cookie == NUMBER_WORD then
      match Take(b, 2) case Fail => Fail case Got(x, rest) => Got(UnLe(x), rest)
    else if cookie == NUMBER_DWORD then
      match Take(b, 4) case Fail => Fail case Got(x, rest) => Got(Signed(UnLe(x), 0x1_0000_0000), rest)
    else if cookie == NUMBER_QWORD then
      match Take(b, 8) case Fail => Fail case Got(x, rest) => Got(Signed(UnLe(x), 0x1_0000_0000_0000_0000), rest)
    else Fail
  }

  /** `get_buffer` after the length. */
  function ParseStr(b: seq<byte>, n: nat): (r: Parsed<Value>)
    ensures r.Got? ==> |r.rest| <= |b|
  {
    match Take(b, n) case Fail => Fail case Got(x, rest) => Got(Str(x), rest)
  }

  function ParseLong(b: seq<byte>, cookie: nat): (r: Parsed<Value>)
    ensures r.Got? ==> |r.rest| <= |b|
  {
    if cookie == 2 then
      match Take(b, 2) case Fail => Fail case Got(x, rest) => ParseStr(rest, UnLe(x))
    else if cookie != 4 then Fail
    else
      match Take(b, 4) case Fail => Fail case Got(x, rest) => ParseStr(rest, UnLe(x))
  }

  /** A C `int` from a 64-bit integer. */
  function ToInt(v: int): int { Signed(Wrap(v, 0x1_0000_0000), 0x1_0000_0000) }

  /** The array size of a table, at the start of `unpack_table`. */
  function ParseSize(b: seq<byte>, cookie: nat): (r: Parsed<int>)
    ensures r.Got? ==> |r.rest| <= |b|
  {
    if cookie != MAX_COOKIE - 1 then Got(cookie, b)
    else if b == [] || b[0] % 8 != TYPE_NUMBER || b[0] / 8 == NUMBER_REAL then Fail
    else
      match ParseInt(b[1..], b[0] / 8) case Fail => Fail case Got(n, rest) => Got(ToInt(n), rest)
  }

  /** `unpack_one` with `push_value`. */
  function ParseOne(b: seq<byte>): (r: Parsed<Value>)
    ensures r.Got? ==> |r.rest| < |b|
    decreases |b|, 0
  {
    if b == [] then Fail else
      var t, cookie, tail := b[0] % 8, b[0] / 8, b[1..];
      if t == TYPE_NIL then Got(Nil, tail)
      else if t == TYPE_BOOLEAN then Got(Bool(cookie != 0), tail)
      else if t == TYPE_NUMBER then
        if cookie == NUMBER_REAL then
          match Take(tail, 8) case Fail => Fail case Got(x, rest) => Got(Real(x), rest)
        else
          match ParseInt(tail, cookie) case Fail => Fail case Got(n, rest) => Got(Int(n), rest)
      else if t == TYPE_USERDATA then
        match Take(tail, 8) case Fail => Fail case Got(x, rest) => Got(Pointer(x), rest)
      else if t == TYPE_SHORT_STRING then ParseStr(tail, cookie)
      else if t == TYPE_LONG_STRING then ParseLong(tail, cookie)
      else if t == TYPE_TABLE then ParseTable(tail, cookie)
      else Fail
  }

  function ParseTable(b: seq<byte>, cookie: nat): (r: Parsed<Value>)
    ensures r.Got? ==> |r.rest| <= |b|
    decreases |b|, 2
  {
    match ParseSize(b, cookie)
    case Fail => Fail
    case Got(n, rest) =>
      match ParseArray(rest, n)
      case Fail => Fail
      case Got(arr, rest') =>
        match ParsePairs(rest')
        case Fail => Fail
        case Got(pairs, rest'') => Got(Table(arr, pairs), rest'')
  }

  /** `n` values; none for a negative number. */
  function ParseArray(b: seq<byte>, n: int): (r: Parsed<seq<Value>>)
    ensures r.Got? ==> |r.rest| <= |b|
    decreases |b|, 1
  {
    if n <= 0 then Got([], b)
    else
      match ParseOne(b)
      case Fail => Fail
      case Got(v, rest) =>
        match ParseArray(rest, n - 1) case Fail => Fail case Got(vs, rest') => Got([v] + vs, rest')
  }

  /** Pairs up to a nil key. */
  function ParsePairs(b: seq<byte>): (r: Parsed<seq<Pair>>)
    ensures r.Got? ==> |r.rest| <= |b|
    decreases |b|, 1
  {
    match ParseOne(b)
    case Fail => Fail
    case Got(k, rest) =>
      if k.Nil? then Got([], rest)
      else
        match ParseOne(rest)
        case Fail => Fail
        case Got(v, rest') =>
          match ParsePairs(rest') case Fail => Fail case Got(ps, rest'') => Got([Pair(k, v)] + ps, rest'')
  }

  /** The loop of `luaseri_unpack`: values up to the end of the buffer. */
  function ParseAll(b: seq<byte>): (r: Parsed<seq<Value>>)
    decreases |b|
  {
    if b == [] then Got([], [])
    else
      match ParseOne(b)
      case Fail => Fail
      case Got(v, rest) => match ParseAll(rest) case Fail => Fail case Got(vs, rest') => Got([v] + vs, rest')
  }

  // ---------------------------------------------------------------- round trips

  lemma Signed32(v: int)
    requires -0x8000_0000 <= v < 0x8000_0000
    ensures Wrap(v, 0x1_0000_0000) < 0x1_0000_0000 && Signed(Wrap(v, 0x1_0000_0000), 0x1_0000_0000) == v
  {
  }

  lemma Signed64(v: int)
    requires Lua(Int(v))
    ensures Wrap(v, 0x1_0000_0000_0000_0000) < 0x1_0000_0000_0000_0000
    ensures Signed(Wrap(v, 0x1_0000_0000_0000_0000), 0x1_0000_0000_0000_0000) == v
  {
  }

  lemma {:induction false} IntTrip(v: int, rest: seq<byte>)
    requires Lua(Int(v))
    ensures IntBytes(v) != []
    ensures var b := IntBytes(v) + rest;
      && b[0] % 8 == TYPE_NUMBER && b[0] / 8 != NUMBER_REAL && ParseInt(b[1..], b[0] / 8) == Got(v, rest)
  {
    hide Le, UnLe, Pow;
    Widths();
    var body := IntBytes(v)[1..];
    assert (IntBytes(v) + rest)[1..] == body + rest;
    if v == 0 {
      assert body + rest == rest;
    } else if !(-0x8000_0000 <= v < 0x8000_0000) {
      Signed64(v);
      Front(8, Wrap(v, 0x1_0000_0000_0000_0000), rest);
    } else if v < 0 {
      Signed32(v);
      Front(4, Wrap(v, 0x1_0000_0000), rest);
    } else if v < 0x100 {
      Front(1, v, rest);
    } else if v < 0x1_0000 {
      Front(2, v, rest);
    } else {
      Front(4, v, rest);
    }
  }

  lemma Front(n: nat, v: nat, rest: seq<byte>)
    requires v < Pow(256, n)
    ensures Take(Le(n, v) + rest, n) == Got(Le(n, v), rest) && UnLe(Le(n, v)) == v
  {
    LeRoundTrip(n, v);
    assert (Le(n, v) + rest)[..n] == Le(n, v) && (Le(n, v) + rest)[n..] == rest;
  }

  lemma StrBody(s: seq<byte>, rest: seq<byte>)
    ensures ParseStr(s + rest, |s|) == Got(Str(s), rest)
  {
    assert (s + rest)[..|s|] == s && (s + rest)[|s|..] == rest;
  }

  lemma {:induction false} StrTrip(s: seq<byte>, rest: seq<byte>)
    requires |s| < 0x8000_0000
    ensures ParseOne(StrBytes(s) + rest) == Got(Str(s), rest)
  {
    hide *;
    if |s| < MAX_COOKIE {
      assert StrBytes(s) == [Head(TYPE_SHORT_STRING, |s|)] + s by { StrForm(s); }
      Peel(Head(TYPE_SHORT_STRING, |s|), s, rest);
      Dispatch(StrBytes(s) + rest);
      StrBody(s, rest);
    } else {
      var n := if |s| < 0x1_0000 then 2 else 4;
      assert StrBytes(s) == [Head(TYPE_LONG_STRING, n)] + (Le(n, |s|) + s) by { StrForm(s); }
      Peel(Head(TYPE_LONG_STRING, n), Le(n, |s|) + s, rest);
      Dispatch(StrBytes(s) + rest);
      assert (Le(n, |s|) + s) + rest == Le(n, |s|) + (s + rest);
      LongTrip(s, n, rest);
    }
  }

  lemma Peel(h: byte, body: seq<byte>, rest: seq<byte>)
    ensures ([h] + body + rest)[0] == h && ([h] + body + rest)[1..] == body + rest
  {
  }

  lemma StrForm(s: seq<byte>)
    ensures |s| < MAX_COOKIE ==> StrBytes(s) == [Head(TYPE_SHORT_STRING, |s|)] + s
    ensures MAX_COOKIE <= |s| < 0x1_0000 ==> StrBytes(s) == [Head(TYPE_LONG_STRING, 2)] + (Le(2, |s|) + s)
    ensures 0x1_0000 <= |s| ==> StrBytes(s) == [Head(TYPE_LONG_STRING, 4)] + (Le(4, |s|) + s)
  {
  }

  lemma {:induction false} LongTrip(s: seq<byte>, n: nat, rest: seq<byte>)
    requires (n == 2 && |s| < 0x1_0000) || (n == 4 && |s| < 0x8000_0000)
    ensures ParseLong(Le(n, |s|) + (s + rest), n) == Got(Str(s), rest)
  {
    hide Le, UnLe, Pow, ParseStr;
    Widths();
    Front(n, |s|, s + rest);
    hide Take;
    StrBody(s, rest);
  }

  /** Where `push_value` goes for the composite types. */
  lemma Dispatch(b: seq<byte>)
    requires b != []
    ensures b[0] % 8 == TYPE_SHORT_STRING ==> ParseOne(b) == ParseStr(b[1..], b[0] / 8)
    ensures b[0] % 8 == TYPE_LONG_STRING ==> ParseOne(b) == ParseLong(b[1..], b[0] / 8)
    ensures b[0] % 8 == TYPE_TABLE ==> ParseOne(b) == ParseTable(b[1..], b[0] / 8)
  {
  }

  lemma SizeTrip(n: nat, rest: seq<byte>)
    requires n < 0x8000_0000
    ensures var b := TableHead(n) + rest; b[0] % 8 == TYPE_TABLE && ParseSize(b[1..], b[0] / 8) == Got(n, rest)
  {
    hide ParseInt, IntBytes;
    var b := TableHead(n) + rest;
    if n >= MAX_COOKIE - 1 {
      assert b[1..] == IntBytes(n) + rest;
      IntTrip(n, rest);
      Signed32(n);
    } else {
      assert b[1..] == rest;
    }
  }

  /** Unpacking what was packed, with anything behind it. */
  lemma {:induction false} RoundTrip(v: Value, depth: nat, rest: seq<byte>)
    requires Lua(v) && Packable(v, depth)
    ensures ParseOne(Bytes(v) + rest) == Got(v, rest)
    decreases v, 1
  {
    var b := Bytes(v) + rest;
    match v
    case Nil => assert b[1..] == rest;
    case Bool(_) => assert b[1..] == rest;
    case Int(n) => IntTrip(n, rest);
    case Real(bits) =>
      assert b[1..] == bits + rest && (bits + rest)[..8] == bits && (bits + rest)[8..] == rest;
    case Pointer(address) =>
      assert b[1..] == address + rest && (address + rest)[..8] == address && (address + rest)[8..] == rest;
    case Str(s) => StrTrip(s, rest);
    case Table(arr, pairs) => TableTrip(arr, pairs, depth, rest);
  }

  lemma {:induction false} TableTrip(arr: seq<Value>, pairs: seq<Pair>, depth: nat, rest: seq<byte>)
    requires Lua(Table(arr, pairs)) && Packable(Table(arr, pairs), depth)
    ensures ParseOne(Bytes(Table(arr, pairs)) + rest) == Got(Table(arr, pairs), rest)
    decreases Table(arr, pairs), 0
  {
    var tail := PairsBytes(pairs) + [Head(TYPE_NIL, 0)] + rest;
    var body := ArrayBytes(arr) + tail;
    var b := Bytes(Table(arr, pairs)) + rest;
    assert b == TableHead(|arr|) + body;
    ArrayTrip(arr, depth + 1, tail);
    PairsTrip(pairs, depth + 1, rest);
    hide *;
    SizeTrip(|arr|, body);
    TableParts(b[1..], b[0] / 8, |arr|, body, arr, tail, pairs, rest);
    Dispatch(b);
  }

  lemma TableParts(b: seq<byte>, cookie: nat, n: nat, body: seq<byte>, arr: seq<Value>, tail: seq<byte>,
                   pairs: seq<Pair>, rest: seq<byte>)
    requires ParseSize(b, cookie) == Got(n, body) && ParseArray(body, n) == Got(arr, tail) && ParsePairs(tail) == Got(pairs, rest)
    ensures ParseTable(b, cookie) == Got(Table(arr, pairs), rest)
  {
    hide ParseSize, ParseArray, ParsePairs;
  }

  lemma {:induction false} ArrayTrip(vs: seq<Value>, depth: nat, rest: seq<byte>)
    requires forall i :: 0 <= i < |vs| ==> Lua(vs[i]) && Packable(vs[i], depth)
    ensures ParseArray(ArrayBytes(vs) + rest, |vs|) == Got(vs, rest)
    decreases vs, 2
  {
    hide ParseOne, Bytes, Lua, Packable;
    if vs == [] {
      assert ArrayBytes(vs) + rest == rest;
    } else {
      ArrayFront(vs);
      var tail := ArrayBytes(vs[1..]) + rest;
      assert ArrayBytes(vs) + rest == Bytes(vs[0]) + tail;
      RoundTrip(vs[0], depth, tail);
      ArrayTrip(vs[1..], depth, rest);
      assert [vs[0]] + vs[1..] == vs;
    }
  }

  lemma {:induction false} ArrayFront(vs: seq<Value>)
    requires vs != []
    ensures ArrayBytes(vs) == Bytes(vs[0]) + ArrayBytes(vs[1..])
  {
    var n := |vs| - 1;
    if n > 0 {
      ArrayFront(vs[..n]);
      assert vs[..n][1..] == vs[1..][..n - 1];
    } else {
      assert vs[..0] == [] && vs[1..] == [];
    }
  }

  lemma {:induction false} PairsTrip(ps: seq<Pair>, depth: nat, rest: seq<byte>)
    requires forall i :: 0 <= i < |ps| ==> !ps[i].key.Nil? && Lua(ps[i].key) && Lua(ps[i].val)
    requires forall i :: 0 <= i < |ps| ==> Packable(ps[i].key, depth) && Packable(ps[i].val, depth)
    ensures ParsePairs(PairsBytes(ps) + [Head(TYPE_NIL, 0)] + rest) == Got(ps, rest)
    decreases ps, 2
  {
    hide ParseOne, Bytes, PairBytes, Lua, Packable;
    if ps == [] {
      NilTrip(rest);
      assert PairsBytes(ps) + [Head(TYPE_NIL, 0)] + rest == [Head(TYPE_NIL, 0)] + rest;
    } else {
      PairsFront(ps);
      var tail := PairsBytes(ps[1..]) + [Head(TYPE_NIL, 0)] + rest;
      PairSplit(ps[0], tail);
      assert PairsBytes(ps) + [Head(TYPE_NIL, 0)] + rest == PairBytes(ps[0]) + tail;
      PairTrip(ps[0], depth, tail);
      PairsTrip(ps[1..], depth, rest);
      assert [ps[0]] + ps[1..] == ps;
      assert Pair(ps[0].key, ps[0].val) == ps[0];
    }
  }

  lemma NilTrip(rest: seq<byte>)
    ensures ParseOne([Head(TYPE_NIL, 0)] + rest) == Got(Nil, rest)
  {
    assert ([Head(TYPE_NIL, 0)] + rest)[1..] == rest;
  }

  lemma PairSplit(p: Pair, tail: seq<byte>)
    ensures PairBytes(p) + tail == Bytes(p.key) + (Bytes(p.val) + tail)
  {
  }

  lemma {:induction false} PairTrip(p: Pair, depth: nat, rest: seq<byte>)
    requires Lua(p.key) && Lua(p.val) && Packable(p.key, depth) && Packable(p.val, depth)
    ensures ParseOne(Bytes(p.key) + (Bytes(p.val) + rest)) == Got(p.key, Bytes(p.val) + rest)
    ensures ParseOne(Bytes(p.val) + rest) == Got(p.val, rest)
    decreases p, 2
  {
    RoundTrip(p.key, depth, Bytes(p.val) + rest);
    RoundTrip(p.val, depth, rest);
  }

  lemma {:induction false} PairsFront(ps: seq<Pair>)
    requires ps != []
    ensures PairsBytes(ps) == PairBytes(ps[0]) + PairsBytes(ps[1..])
  {
    var n := |ps| - 1;
    if n > 0 {
      PairsFront(ps[..n]);
      assert ps[..n][1..] == ps[1..][..n - 1];
    } else {
      assert ps[..0] == [] && ps[1..] == [];
    }
  }

  /** The whole message: for every list of values within the nesting limit, unpacking undoes packing. */
  lemma {:induction false} MessageRoundTrip(vs: seq<Value>)
    requires forall i :: 0 <= i < |vs| ==> Lua(vs[i]) && Packable(vs[i], 0)
    ensures ParseAll(ArrayBytes(vs)) == Got(vs, [])
  {
    if vs != [] {
      ArrayFront(vs);
      RoundTrip(vs[0], 0, ArrayBytes(vs[1..]));
      MessageRoundTrip(vs[1..]);
      assert [vs[0]] + vs[1..] == vs;
    }
  }

  // ---------------------------------------------------------------- no shorter format

  lemma {:induction false} UnLeBound(b: seq<byte>)
    ensures UnLe(b) < Pow(256, |b|)
  {
    if b != [] {
      UnLeBound(b[1..]);
    }
  }

  lemma IntLength(v: int)
    ensures |IntBytes(v)| == if v == 0 then 1 else if 0 < v < 0x100 then 2 else if 0 < v < 0x1_0000 then 3
                             else if -0x8000_0000 <= v < 0x8000_0000 then 5 else 9
  {
    hide Le;
  }

  lemma TakenBound(b: seq<byte>, n: nat)
    ensures Take(b, n).Got? ==> UnLe(Take(b, n).val) < Pow(256, n)
  {
    if n <= |b| {
      UnLeBound(b[..n]);
    }
  }

  /** No bytes that `get_integer` reads as `v` are fewer than those written for `v`. */
  lemma IntShortest(b: seq<byte>, cookie: nat)
    ensures var r := ParseInt(b, cookie); r.Got? ==> |IntBytes(r.val)| <= 1 + |b| - |r.rest|
  {
    Widths();
    TakenBound(b, 1);
    TakenBound(b, 2);
    TakenBound(b, 4);
    var r := ParseInt(b, cookie);
    if r.Got? {
      IntLength(r.val);
    }
    hide IntBytes, UnLe, Pow;
  }

  lemma SizeShortest(b: seq<byte>, cookie: nat)
    requires cookie < 32
    ensures var r := ParseSize(b, cookie);
      r.Got? ==> |TableHead(if r.val < 0 then 0 else r.val)| <= 1 + |b| - |r.rest|
  {
    hide IntBytes, ParseInt;
    var r := ParseSize(b, cookie);
    if cookie == MAX_COOKIE - 1 && r.Got? {
      IntShortest(b[1..], b[0] / 8);
      var k := ParseInt(b[1..], b[0] / 8).val;
      IntLength(k);
      IntLength(if r.val < 0 then 0 else r.val);
    }
  }

  lemma StrShortest(b: seq<byte>, cookie: nat)
    requires cookie < 32
    ensures var r := ParseStr(b, cookie); r.Got? ==> |Bytes(r.val)| <= 1 + |b| - |r.rest|
    ensures var r := ParseLong(b, cookie); r.Got? ==> |Bytes(r.val)| <= 1 + |b| - |r.rest|
  {
    hide Le, UnLe, Pow;
    Widths();
    TakenBound(b, 2);
    TakenBound(b, 4);
  }

  /** The format is the shortest: no bytes that are read as a value are fewer than those written for it. */
  lemma {:induction false} Shortest(b: seq<byte>)
    ensures var r := ParseOne(b); r.Got? ==> |Bytes(r.val)| <= |b| - |r.rest|
    decreases |b|, 0
  {
    hide ParseTable, ParseInt, ParseStr, ParseLong, IntBytes;
    if b != [] {
      var t, cookie, tail := b[0] % 8, b[0] / 8, b[1..];
      IntShortest(tail, cookie);
      StrShortest(tail, cookie);
      if t == TYPE_TABLE {
        TableShortest(tail, cookie);
      }
    }
  }

  lemma {:induction false} TableShortest(b: seq<byte>, cookie: nat)
    requires cookie < 32
    ensures var r := ParseTable(b, cookie); r.Got? ==> |Bytes(r.val)| <= 1 + |b| - |r.rest|
    decreases |b|, 2
  {
    hide ParseOne, ParseSize, ParseArray, ParsePairs, TableHead, ArrayBytes, PairsBytes;
    SizeShortest(b, cookie);
    match ParseSize(b, cookie) {
      case Fail =>
      case Got(n, rest) =>
        ArrayShortest(rest, n);
        match ParseArray(rest, n) {
          case Fail =>
          case Got(arr, rest') => PairsShortest(rest');
        }
    }
  }

  lemma {:induction false} ArrayShortest(b: seq<byte>, n: int)
    ensures var r := ParseArray(b, n);
      r.Got? ==> |r.val| == (if n < 0 then 0 else n) && |ArrayBytes(r.val)| <= |b| - |r.rest|
    decreases |b|, 1
  {
    hide ParseOne, Bytes;
    if n > 0 && ParseOne(b).Got? {
      var v, rest := ParseOne(b).val, ParseOne(b).rest;
      Shortest(b);
      ArrayShortest(rest, n - 1);
      var r := ParseArray(rest, n - 1);
      if r.Got? {
        ArrayFront([v] + r.val);
        assert ([v] + r.val)[1..] == r.val;
      }
    }
  }

  lemma {:induction false} PairsShortest(b: seq<byte>)
    ensures var r := ParsePairs(b); r.Got? ==> |PairsBytes(r.val)| + 1 <= |b| - |r.rest|
    decreases |b|, 1
  {
    hide ParseOne, Bytes;
    Shortest(b);
    if ParseOne(b).Got? && !ParseOne(b).val.Nil? {
      var k, rest := ParseOne(b).val, ParseOne(b).rest;
      Shortest(rest);
      if ParseOne(rest).Got? {
        var v, more := ParseOne(rest).val, ParseOne(rest).rest;
        PairsShortest(more);
        var r := ParsePairs(more);
        if r.Got? {
          PairsFront([Pair(k, v)] + r.val);
          assert ([Pair(k, v)] + r.val)[1..] == r.val;
        }
      }
    }
  }

  // ---------------------------------------------------------------- struct write_block

  function Flat(blocks: seq<seq<byte>>): seq<byte> {
    if blocks == [] then [] else Flat(blocks[..|blocks| - 1]) + blocks[|blocks| - 1]
  }

  /** The bytes written: whole blocks, and the first `ptr` bytes of the last one. */
  function Written(blocks: seq<seq<byte>>, ptr: nat): seq<byte>
    requires blocks != [] && ptr <= |blocks[|blocks| - 1]|
  {
    Flat(blocks[..|blocks| - 1]) + blocks[|blocks| - 1][..ptr]
  }

  /** `memcpy` into a block at `at`. */
  function Patched(block: seq<byte>, at: nat, data: seq<byte>): (r: seq<byte>)
    requires at + |data| <= |block|
    ensures |r| == |block|
  {
    block[..at] + data + block[at + |data|..]
  }

  lemma WriteLast(blocks: seq<seq<byte>>, ptr: nat, data: seq<byte>)
    requires blocks != [] && ptr + |data| <= |blocks[|blocks| - 1]|
    ensures var n := |blocks| - 1;
      Written(blocks[n := Patched(blocks[n], ptr, data)], ptr + |data|) == Written(blocks, ptr) + data
  {
    var n := |blocks| - 1;
    var blocks' := blocks[n := Patched(blocks[n], ptr, data)];
    assert blocks'[..n] == blocks[..n];
    assert blocks'[n][..ptr + |data|] == blocks[n][..ptr] + data;
  }

  lemma NewBlock(blocks: seq<seq<byte>>, block: seq<byte>)
    requires blocks != [] && |blocks[|blocks| - 1]| == BLOCK_SIZE
    ensures Written(blocks + [block], 0) == Written(blocks, BLOCK_SIZE)
  {
    var n := |blocks|;
    assert (blocks + [block])[..n] == blocks;
    assert blocks[n - 1][..BLOCK_SIZE] == blocks[n - 1];
  }

  lemma Join(a: seq<byte>, b: seq<byte>, c: seq<byte>)
    ensures (a + b) + c == a + (b + c)
  {
  }

  lemma JoinAll(a: seq<byte>, b: seq<byte>, c: seq<byte>, d: seq<byte>, e: seq<byte>)
    ensures a + b + c + d + e == a + (b + c + d + e)
  {
    Join(a, b, c);
    Join(a, b + c, d);
    Join(a, b + c + d, e);
  }

  class WriteBlock {
    var blocks: seq<seq<byte>>   // the chain from `head`; `current` is its last block
    var ptr: nat
    var len: nat

    predicate Valid() reads this {
      && blocks != [] && ptr <= BLOCK_SIZE && len == BLOCK_SIZE * (|blocks| - 1) + ptr
      && (forall i :: 0 <= i < |blocks| ==> |blocks[i]| == BLOCK_SIZE)
    }

    function Contents(): seq<byte> requires Valid() reads this { Written(blocks, ptr) }

    constructor ()
      ensures Valid() && Contents() == []
    {
      blocks := [seq(BLOCK_SIZE, _ => 0)];
      ptr, len := 0, 0;
    }

    /** `wb_push`: the bytes follow what was written, across any number of blocks. */
    method Push(buf: seq<byte>)
      requires Valid()
      modifies this
      ensures Valid() && Contents() == old(Contents()) + buf
    {
      hide Written, Patched;
      var data := buf;
      ghost var start := Contents();
      if ptr == BLOCK_SIZE {
        NextBlock();
      }
      while ptr > BLOCK_SIZE - |data|
        invariant Valid() && ptr < BLOCK_SIZE && Contents() + data == start + buf
        decreases |data|
      {
        var copy := BLOCK_SIZE - ptr;
        Join(Contents(), data[..copy], data[copy..]);
        assert data[..copy] + data[copy..] == data;
        Copy(data[..copy]);
        data := data[copy..];
        NextBlock();
      }
      Copy(data);
    }

    /** `memcpy` at the cursor, when there is room. */
    method Copy(data: seq<byte>)
      requires Valid() && ptr + |data| <= BLOCK_SIZE
      modifies this
      ensures Valid() && ptr == old(ptr) + |data| && Contents() == old(Contents()) + data
    {
      hide Written, Patched;
      WriteLast(blocks, ptr, data);
      blocks := blocks[|blocks| - 1 := Patched(blocks[|blocks| - 1], ptr, data)];
      ptr, len := ptr + |data|, len + |data|;
    }

    method NextBlock()
      requires Valid() && ptr == BLOCK_SIZE
      modifies this
      ensures Valid() && ptr == 0 && Contents() == old(Contents())
    {
      hide Written;
      var block := seq(BLOCK_SIZE, _ => 0);
      NewBlock(blocks, block);
      blocks := blocks + [block];
      ptr := 0;
    }

    /** `seri`: the chain copied into one buffer. */
    method Flatten() returns (buffer: seq<byte>)
      requires Valid()
      ensures buffer == Contents()
    {
      buffer := [];
      var b, rest := 0, len;
      while rest > 0
        invariant 0 <= b <= |blocks| && rest == len - BLOCK_SIZE * b && buffer == Flat(blocks[..b])
        invariant b == |blocks| ==> ptr == BLOCK_SIZE
        decreases rest
      {
        if rest >= BLOCK_SIZE {
          assert blocks[..b + 1][..b] == blocks[..b];
          buffer := buffer + blocks[b];
          rest := rest - BLOCK_SIZE;
          b := b + 1;
        } else {
          assert b == |blocks| - 1;
          buffer := buffer + blocks[b][..rest];
          return;
        }
      }
      if b == |blocks| {
        assert blocks[..b] == blocks;
        assert blocks[|blocks| - 1][..ptr] == blocks[|blocks| - 1];
      } else {
        assert b == |blocks| - 1 && ptr == 0;
      }
    }

    /** `pack_one`: appends the format of `v`, or fails exactly for what cannot be packed. */
    method PackOne(v: Value, depth: nat) returns (ok: bool)
      requires Valid() && Lua(v)
      modifies this
      ensures Valid() && (ok <==> Packable(v, depth))
      ensures ok ==> Contents() == old(Contents()) + Bytes(v)
      decreases v, 1
    {
      if depth > MAX_DEPTH {
        return false;
      }
      match v {
        case Nil => Push([Head(TYPE_NIL, 0)]);
        case Bool(b) => Push([Head(TYPE_BOOLEAN, if b then 1 else 0)]);
        case Int(n) => PackInteger(n);
        case Real(bits) => PushTwo([Head(TYPE_NUMBER, NUMBER_REAL)], bits);
        case Pointer(address) => PushTwo([Head(TYPE_USERDATA, 0)], address);
        case Str(s) => PackString(s);
        case Table(arr, pairs) =>
          ok := PackTable(arr, pairs, depth);
          return;
        case Other => return false;
      }
      ok := true;
    }

    method PushTwo(a: seq<byte>, b: seq<byte>)
      requires Valid()
      modifies this
      ensures Valid() && Contents() == old(Contents()) + (a + b)
    {
      Push(a);
      Push(b);
      Join(old(Contents()), a, b);
    }

    /** `wb_integer`. */
    method PackInteger(v: int)
      requires Valid() && Lua(Int(v))
      modifies this
      ensures Valid() && Contents() == old(Contents()) + IntBytes(v)
    {
      hide Le, Written;
      if v == 0 {
        Push([Head(TYPE_NUMBER, NUMBER_ZERO)]);
      } else if !(-0x8000_0000 <= v < 0x8000_0000) {
        PushTwo([Head(TYPE_NUMBER, NUMBER_QWORD)], Le(8, Wrap(v, 0x1_0000_0000_0000_0000)));
      } else if v < 0 {
        PushTwo([Head(TYPE_NUMBER, NUMBER_DWORD)], Le(4, Wrap(v, 0x1_0000_0000)));
      } else if v < 0x100 {
        PushTwo([Head(TYPE_NUMBER, NUMBER_BYTE)], Le(1, v));
      } else if v < 0x1_0000 {
        PushTwo([Head(TYPE_NUMBER, NUMBER_WORD)], Le(2, v));
      } else {
        PushTwo([Head(TYPE_NUMBER, NUMBER_DWORD)], Le(4, v));
      }
    }

    /** `wb_string`. */
    method PackString(s: seq<byte>)
      requires Valid() && |s| < 0x8000_0000
      modifies this
      ensures Valid() && Contents() == old(Contents()) + StrBytes(s)
    {
      hide Le, Written;
      ghost var start := Contents();
      if |s| < MAX_COOKIE {
        Push([Head(TYPE_SHORT_STRING, |s|)]);
        if |s| > 0 {
          Push(s);
        }
        Join(start, [Head(TYPE_SHORT_STRING, |s|)], s);
      } else {
        var n := if |s| < 0x1_0000 then 2 else 4;
        PushTwo([Head(TYPE_LONG_STRING, n)], Le(n, |s|));
        Push(s);
        Join(start, [Head(TYPE_LONG_STRING, n)] + Le(n, |s|), s);
        Join([Head(TYPE_LONG_STRING, n)], Le(n, |s|), s);
      }
    }

    /** `wb_table`: array part, then pairs, then a nil. */
    method PackTable(arr: seq<Value>, pairs: seq<Pair>, depth: nat) returns (ok: bool)
      requires Valid() && Lua(Table(arr, pairs)) && depth <= MAX_DEPTH
      modifies this
      ensures Valid() && (ok <==> Packable(Table(arr, pairs), depth))
      ensures ok ==> Contents() == old(Contents()) + Bytes(Table(arr, pairs))
      decreases Table(arr, pairs), 0
    {
      hide Written, Le, IntBytes, TableHead, ArrayBytes, PairsBytes;
      ghost var start := Contents();
      PackHead(|arr|);
      ok := PackArray(arr, depth + 1);
      if ok {
        ok := PackPairs(pairs, depth + 1);
      }
      if ok {
        Push([Head(TYPE_NIL, 0)]);
        JoinAll(start, TableHead(|arr|), ArrayBytes(arr), PairsBytes(pairs), [Head(TYPE_NIL, 0)]);
      }
    }

    method PackHead(n: nat)
      requires Valid() && n < 0x8000_0000
      modifies this
      ensures Valid() && Contents() == old(Contents()) + TableHead(n)
    {
      hide Written, IntBytes;
      if n >= MAX_COOKIE - 1 {
        Push([Head(TYPE_TABLE, MAX_COOKIE - 1)]);
        PackInteger(n);
        Join(old(Contents()), [Head(TYPE_TABLE, MAX_COOKIE - 1)], IntBytes(n));
      } else {
        Push([Head(TYPE_TABLE, n)]);
      }
    }

    method PackArray(arr: seq<Value>, depth: nat) returns (ok: bool)
      requires Valid() && forall i :: 0 <= i < |arr| ==> Lua(arr[i])
      modifies this
      ensures Valid() && (ok <==> forall i :: 0 <= i < |arr| ==> Packable(arr[i], depth))
      ensures ok ==> Contents() == old(Contents()) + ArrayBytes(arr)
      decreases arr, 2
    {
      hide Written, Bytes, Lua, Packable;
      var i := 0;
      while i < |arr|
        invariant 0 <= i <= |arr| && Valid() && Contents() == old(Contents()) + ArrayBytes(arr[..i])
        invariant forall j :: 0 <= j < i ==> Packable(arr[j], depth)
      {
        ok := PackOne(arr[i], depth);
        if !ok {
          return;
        }
        assert arr[..i + 1][..i] == arr[..i];
        i := i + 1;
      }
      assert arr[..|arr|] == arr;
      ok := true;
    }

    method PackPairs(pairs: seq<Pair>, depth: nat) returns (ok: bool)
      requires Valid() && forall i :: 0 <= i < |pairs| ==> Lua(pairs[i].key) && Lua(pairs[i].val)
      modifies this
      ensures Valid() && (ok <==> forall i :: 0 <= i < |pairs| ==> Packable(pairs[i].key, depth) && Packable(pairs[i].val, depth))
      ensures ok ==> Contents() == old(Contents()) + PairsBytes(pairs)
      decreases pairs, 2
    {
      hide Written, Bytes, PairBytes, Lua, Packable;
      var i := 0;
      while i < |pairs|
        invariant 0 <= i <= |pairs| && Valid() && Contents() == old(Contents()) + PairsBytes(pairs[..i])
        invariant forall j :: 0 <= j < i ==> Packable(pairs[j].key, depth) && Packable(pairs[j].val, depth)
      {
        ok := PackPair(pairs[i], depth);
        if !ok {
          return;
        }
        assert pairs[..i + 1][..i] == pairs[..i];
        i := i + 1;
      }
      assert pairs[..|pairs|] == pairs;
      ok := true;
    }

    method PackPair(p: Pair, depth: nat) returns (ok: bool)
      requires Valid() && Lua(p.key) && Lua(p.val)
      modifies this
      ensures Valid() && (ok <==> Packable(p.key, depth) && Packable(p.val, depth))
      ensures ok ==> Contents() == old(Contents()) + PairBytes(p)
      decreases p, 2
    {
      hide Written, Bytes, Lua, Packable;
      ok := PackOne(p.key, depth);
      if ok {
        ok := PackOne(p.val, depth);
      }
    }
  }

  /** `luaseri_pack`. */
  method Pack(vs: seq<Value>) returns (ok: bool, buffer: seq<byte>)
    requires forall i :: 0 <= i < |vs| ==> Lua(vs[i])
    ensures ok <==> forall i :: 0 <= i < |vs| ==> Packable(vs[i], 0)
    ensures ok ==> buffer == ArrayBytes(vs) && ParseAll(buffer) == Got(vs, [])
  {
    var wb := new WriteBlock();
    ok := wb.PackArray(vs, 0);
    buffer := [];
    if ok {
      buffer := wb.Flatten();
      MessageRoundTrip(vs);
    }
  }

  // ---------------------------------------------------------------- struct read_block

  /** Items read before those of `p`. */
  function Prepend<T>(xs: seq<T>, p: Parsed<seq<T>>): Parsed<seq<T>> {
    match p case Fail => Fail case Got(ys, rest) => Got(xs + ys, rest)
  }

  class ReadBlock {
    var buffer: seq<byte>
    var len: nat
    var ptr: nat

    predicate Valid() reads this { ptr + len == |buffer| }

    function Rest(): seq<byte> requires Valid() reads this { buffer[ptr..] }

    constructor (buffer: seq<byte>)
      ensures Valid() && Rest() == buffer
    {
      this.buffer, len, ptr := buffer, |buffer|, 0;
    }

    /** `rb_read`. */
    method Read(sz: nat) returns (r: Parsed<seq<byte>>)
      requires Valid()
      modifies this
      ensures Valid() && r == Take(old(Rest()), sz) && (r.Got? ==> Rest() == r.rest)
      ensures r.Fail? ==> Rest() == old(Rest())
    {
      if len < sz {
        return Fail;
      }
      var at := ptr;
      ptr, len := ptr + sz, len - sz;
      r := Got(buffer[at..at + sz], buffer[at + sz..]);
      assert buffer[at..][..sz] == buffer[at..at + sz] && buffer[at..][sz..] == buffer[at + sz..];
    }

    /** `get_integer`. */
    method GetInteger(cookie: nat) returns (r: Parsed<int>)
      requires Valid()
      modifies this
      ensures Valid() && r == ParseInt(old(Rest()), cookie) && (r.Got? ==> Rest() == r.rest)
    {
      if cookie == NUMBER_ZERO {
        return Got(0, Rest());
      }
      var sz := if cookie == NUMBER_BYTE then 1 else if cookie == NUMBER_WORD then 2
                else if cookie == NUMBER_DWORD then 4 else if cookie == NUMBER_QWORD then 8 else 0;
      if sz == 0 {
        return Fail;
      }
      var x := Read(sz);
      match x
      case Fail => r := Fail;
      case Got(b, rest) =>
        r := Got(if sz == 4 then Signed(UnLe(b), 0x1_0000_0000)
                 else if sz == 8 then Signed(UnLe(b), 0x1_0000_0000_0000_0000) else UnLe(b), rest);
    }

    /** `unpack_one`. */
    method UnpackOne() returns (r: Parsed<Value>)
      requires Valid()
      modifies this
      ensures Valid() && r == ParseOne(old(Rest())) && (r.Got? ==> Rest() == r.rest)
      decreases |Rest()|, 0
    {
      hide UnLe;
      var h := Read(1);
      if h.Fail? {
        return Fail;
      }
      assert Rest() == old(Rest())[1..];
      var t, cookie := h.val[0] % 8, h.val[0] / 8;
      if t == TYPE_NIL {
        r := Got(Nil, Rest());
      } else if t == TYPE_BOOLEAN {
        r := Got(Bool(cookie != 0), Rest());
      } else if t == TYPE_NUMBER && cookie != NUMBER_REAL {
        var x := GetInteger(cookie);
        r := match x case Fail => Fail case Got(n, rest) => Got(Int(n), rest);
      } else if t == TYPE_NUMBER || t == TYPE_USERDATA {
        var x := Read(8);
        r := match x case Fail => Fail case Got(b, rest) => Got(if t == TYPE_NUMBER then Real(b) else Pointer(b), rest);
      } else if t == TYPE_SHORT_STRING {
        r := GetBuffer(cookie);
      } else if t == TYPE_LONG_STRING {
        r := GetLong(cookie);
      } else if t == TYPE_TABLE {
        r := UnpackTable(cookie);
      } else {
        r := Fail;
      }
    }

    /** `get_buffer`. */
    method GetBuffer(n: nat) returns (r: Parsed<Value>)
      requires Valid()
      modifies this
      ensures Valid() && r == ParseStr(old(Rest()), n) && (r.Got? ==> Rest() == r.rest)
    {
      var x := Read(n);
      r := match x case Fail => Fail case Got(b, rest) => Got(Str(b), rest);
    }

    method GetLong(cookie: nat) returns (r: Parsed<Value>)
      requires Valid()
      modifies this
      ensures Valid() && r == ParseLong(old(Rest()), cookie) && (r.Got? ==> Rest() == r.rest)
    {
      if cookie != 2 && cookie != 4 {
        return Fail;
      }
      var x := Read(cookie);
      if x.Fail? {
        return Fail;
      }
      r := GetBuffer(UnLe(x.val));
    }

    /** `unpack_table`. */
    method UnpackTable(cookie: nat) returns (r: Parsed<Value>)
      requires Valid()
      modifies this
      ensures Valid() && r == ParseTable(old(Rest()), cookie) && (r.Got? ==> Rest() == r.rest)
      decreases |Rest()|, 2
    {
      hide ParseSize, ParseArray, ParsePairs;
      var n := ArraySize(cookie);
      if n.Fail? {
        return Fail;
      }
      var arr := UnpackArray(n.val);
      if arr.Fail? {
        return Fail;
      }
      var pairs := UnpackPairs();
      if pairs.Fail? {
        return Fail;
      }
      r := Got(Table(arr.val, pairs.val), Rest());
    }

    method ArraySize(cookie: nat) returns (r: Parsed<int>)
      requires Valid()
      modifies this
      ensures Valid() && r == ParseSize(old(Rest()), cookie) && (r.Got? ==> Rest() == r.rest)
    {
      if cookie != MAX_COOKIE - 1 {
        return Got(cookie, Rest());
      }
      var h := Read(1);
      if h.Fail? {
        return Fail;
      }
      assert Rest() == old(Rest())[1..];
      if h.val[0] % 8 != TYPE_NUMBER || h.val[0] / 8 == NUMBER_REAL {
        return Fail;
      }
      var x := GetInteger(h.val[0] / 8);
      r := match x case Fail => Fail case Got(n, rest) => Got(ToInt(n), rest);
    }

    method UnpackArray(n: int) returns (r: Parsed<seq<Value>>)
      requires Valid()
      modifies this
      ensures Valid() && r == ParseArray(old(Rest()), n) && (r.Got? ==> Rest() == r.rest)
      decreases |Rest()|, 1
    {
      hide ParseOne;
      ghost var all := ParseArray(Rest(), n);
      var arr: seq<Value>, i := [], 0;
      PrependNone(all);
      while i < n
        invariant 0 <= i && Valid() && |Rest()| <= |old(Rest())| && all == Prepend(arr, ParseArray(Rest(), n - i))
        decreases n - i
      {
        var x := UnpackOne();
        if x.Fail? {
          return Fail;
        }
        PrependOne(arr, x.val, ParseArray(Rest(), n - i - 1));
        arr := arr + [x.val];
        i := i + 1;
      }
      assert arr + [] == arr;
      r := Got(arr, Rest());
    }

    method UnpackPairs() returns (r: Parsed<seq<Pair>>)
      requires Valid()
      modifies this
      ensures Valid() && r == ParsePairs(old(Rest())) && (r.Got? ==> Rest() == r.rest)
      decreases |Rest()|, 1
    {
      hide ParseOne;
      ghost var all := ParsePairs(Rest());
      var pairs: seq<Pair> := [];
      PrependNone(all);
      while true
        invariant Valid() && |Rest()| <= |old(Rest())| && all == Prepend(pairs, ParsePairs(Rest()))
        decreases |Rest()|
      {
        var k := UnpackOne();
        if k.Fail? {
          return Fail;
        }
        if k.val.Nil? {
          assert pairs + [] == pairs;
          return Got(pairs, Rest());
        }
        var v := UnpackOne();
        if v.Fail? {
          return Fail;
        }
        PrependOne(pairs, Pair(k.val, v.val), ParsePairs(Rest()));
        pairs := pairs + [Pair(k.val, v.val)];
      }
    }
  }

  lemma PrependNone<T>(p: Parsed<seq<T>>)
    ensures Prepend([], p) == p
  {
    if p.Got? {
      assert [] + p.val == p.val;
    }
  }

  lemma PrependOne<T>(xs: seq<T>, x: T, p: Parsed<seq<T>>)
    ensures Prepend(xs, Prepend([x], p)) == Prepend(xs + [x], p)
  {
    if p.Got? {
      assert xs + ([x] + p.val) == (xs + [x]) + p.val;
    }
  }

  /** `luaseri_unpack`. */
  method Unpack(buffer: seq<byte>) returns (ok: bool, vs: seq<Value>)
    ensures ok <==> ParseAll(buffer).Got?
    ensures ok ==> ParseAll(buffer) == Got(vs, [])
  {
    hide ParseOne;
    var rb := new ReadBlock(buffer);
    vs := [];
    PrependNone(ParseAll(buffer));
    while rb.len > 0
      invariant rb.Valid() && fresh(rb) && ParseAll(buffer) == Prepend(vs, ParseAll(rb.Rest()))
      decreases |rb.Rest()|
    {
      var x := rb.UnpackOne();
      if x.Fail? {
        return false, vs;
      }
      PrependOne(vs, x.val, ParseAll(rb.Rest()));
      vs := vs + [x.val];
    }
    assert rb.Rest() == [];
    assert vs + [] == vs;
    ok := true;
  }
}
