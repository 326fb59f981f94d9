/** The primitives of the Thrift Binary Protocol that the AST codec is written
    over: fixed-width big-endian integers, length-prefixed strings, and field,
    list and map headers.  A reader gets a suffix of the input and answers with
    the value and the number of bytes it used, or `Bad`. */
module Wire {
  type byte = x: int | 0 <= x < 256
  type Bytes = seq<byte>

  datatype Read<+T> = Got(value: T, used: nat) | Bad

  const STOP: byte := 0
  const BOOL: byte := 2
  const BYTE: byte := 3
  const DOUBLE: byte := 4
  const I16: byte := 6
  const I32: byte := 8
  const I64: byte := 10
  const STRING: byte := 11
  const STRUCT: byte := 12
  const MAP: byte := 13
  const SET: byte := 14
  const LIST: byte := 15

  const TWO_TO_THE_15: int := 0x8000
  const TWO_TO_THE_16: int := 0x1_0000
  const TWO_TO_THE_31: int := 0x8000_0000
  const TWO_TO_THE_32: int := 0x1_0000_0000
  const TWO_TO_THE_63: int := 0x8000_0000_0000_0000
  const TWO_TO_THE_64: int := 0x1_0000_0000_0000_0000

  predicate FitsI16(n: int) { -TWO_TO_THE_15 <= n < TWO_TO_THE_15 }
  predicate FitsI32(n: int) { -TWO_TO_THE_31 <= n < TWO_TO_THE_31 }
  predicate FitsI64(n: int) { -TWO_TO_THE_63 <= n < TWO_TO_THE_63 }

  // ----- big-endian numbers -----

  function Pow256(k: nat): (p: nat)
    ensures p > 0
  {
    if k == 0 then 1 else 256 * Pow256(k - 1)
  }

  /** The `k` low-order bytes of `n`, most significant first. */
  function BigEndian(n: nat, k: nat): (s: Bytes)
    ensures |s| == k
  {
    if k == 0 then [] else BigEndian(n / 256, k - 1) + [n % 256]
  }

  function FromBigEndian(s: Bytes): nat {
    if s == [] then 0 else FromBigEndian(s[..|s| - 1]) * 256 + s[|s| - 1]
  }

  lemma {:induction false} BigEndianRoundTrip(n: nat, k: nat)
    requires n < Pow256(k)
    ensures FromBigEndian(BigEndian(n, k)) == n
  {
    if k > 0 {
      var s := BigEndian(n, k);
      assert s[..|s| - 1] == BigEndian(n / 256, k - 1);
      BigEndianRoundTrip(n / 256, k - 1);
    }
  }

  lemma Pow256Values()
    ensures Pow256(2) == TWO_TO_THE_16 && Pow256(4) == TWO_TO_THE_32 && Pow256(8) == TWO_TO_THE_64
  {
    assert Pow256(1) == 256 * Pow256(0);
    assert Pow256(3) == 256 * Pow256(2);
    assert Pow256(5) == 256 * Pow256(4);
    assert Pow256(6) == 256 * Pow256(5);
    assert Pow256(7) == 256 * Pow256(6);
  }

  /** Two's complement reading of an unsigned number below `2 * half`. */
  function Signed(u: nat, half: nat): int {
    if u < half then u else u - 2 * half
  }

  // ----- writers (the arguments are truncated as the conversions int32(..) and int64(..) do) -----

  function PutI16(n: int): (s: Bytes) ensures |s| == 2 { BigEndian(n % TWO_TO_THE_16, 2) }
  function PutI32(n: int): (s: Bytes) ensures |s| == 4 { BigEndian(n % TWO_TO_THE_32, 4) }
  function PutI64(n: int): (s: Bytes) ensures |s| == 8 { BigEndian(n % TWO_TO_THE_64, 8) }
  function PutString(s: Bytes): Bytes { PutI32(|s|) + s }
  function PutField(ttype: byte, id: int): (s: Bytes) ensures |s| == 3 { [ttype] + PutI16(id) }
  function PutList(elem: byte, n: int): (s: Bytes) ensures |s| == 5 { [elem] + PutI32(n) }
  function PutMap(key: byte, value: byte, n: int): (s: Bytes) ensures |s| == 6 { [key, value] + PutI32(n) }

  // ----- readers -----

  function GetBool(b: Bytes): Read<bool> {
    if |b| < 1 then Bad else Got(b[0] == 1, 1)
  }

  function GetI16(b: Bytes): Read<int> {
    if |b| < 2 then Bad else Got(Signed(FromBigEndian(b[..2]), TWO_TO_THE_15), 2)
  }

  function GetI32(b: Bytes): Read<int> {
    if |b| < 4 then Bad else Got(Signed(FromBigEndian(b[..4]), TWO_TO_THE_31), 4)
  }

  function GetI64(b: Bytes): Read<int> {
    if |b| < 8 then Bad else Got(Signed(FromBigEndian(b[..8]), TWO_TO_THE_63), 8)
  }

  /** A length or an element count: a signed 32-bit number that must not be negative. */
  function GetSize(b: Bytes): (r: Read<nat>)
    ensures r.Got? ==> r.used == 4 <= |b|
  {
    match GetI32(b)
    case Bad => Bad
    case Got(n, l) => if n < 0 then Bad else Got(n, l)
  }

  function GetString(b: Bytes): (r: Read<Bytes>)
    ensures r.Got? ==> 4 <= r.used <= |b|
  {
    match GetSize(b)
    case Bad => Bad
    case Got(n, l) => if |b| < l + n then Bad else Got(b[l..l + n], l + n)
  }

  datatype Header = Header(ttype: byte, id: int)

  /** A stop byte has no field id after it. */
  function GetField(b: Bytes): (r: Read<Header>)
    ensures r.Got? ==> 1 <= r.used <= |b|
  {
    if |b| < 1 then Bad
    else if b[0] == STOP then Got(Header(STOP, 0), 1)
    else match GetI16(b[1..])
      case Bad => Bad
      case Got(id, l) => Got(Header(b[0], id), 1 + l)
  }

  /** Element type and count. */
  function GetList(b: Bytes): (r: Read<(byte, nat)>)
    ensures r.Got? ==> r.used == 5 <= |b|
  {
    if |b| < 1 then Bad
    else match GetSize(b[1..])
      case Bad => Bad
      case Got(n, l) => Got((b[0], n), 1 + l)
  }

  /** Key type, value type and count. */
  function GetMap(b: Bytes): (r: Read<(byte, byte, nat)>)
    ensures r.Got? ==> r.used == 6 <= |b|
  {
    if |b| < 2 then Bad
    else match GetSize(b[2..])
      case Bad => Bad
      case Got(n, l) => Got((b[0], b[1], n), 2 + l)
  }

  // ----- every reader undoes its writer, whatever bytes follow -----

  lemma PrefixOf(a: Bytes, rest: Bytes)
    ensures (a + rest)[..|a|] == a
    ensures (a + rest)[|a|..] == rest
  {
  }

  lemma Regroup(a: Bytes, c: Bytes, d: Bytes, e: Bytes)
    ensures (a + (c + d)) + e == a + (c + (d + e))
    ensures (a + d) + e == a + (d + e)
    ensures a + c == a + (c + [])
  {
  }

  lemma I16RoundTrip(n: int, rest: Bytes)
    requires FitsI16(n)
    ensures GetI16(PutI16(n) + rest) == Got(n, 2)
  {
    Pow256Values();
    BigEndianRoundTrip(n % TWO_TO_THE_16, 2);
    PrefixOf(PutI16(n), rest);
  }

  lemma I32RoundTrip(n: int, rest: Bytes)
    requires FitsI32(n)
    ensures GetI32(PutI32(n) + rest) == Got(n, 4)
  {
    Pow256Values();
    BigEndianRoundTrip(n % TWO_TO_THE_32, 4);
    PrefixOf(PutI32(n), rest);
  }

  lemma I64RoundTrip(n: int, rest: Bytes)
    requires FitsI64(n)
    ensures GetI64(PutI64(n) + rest) == Got(n, 8)
  {
    Pow256Values();
    BigEndianRoundTrip(n % TWO_TO_THE_64, 8);
    PrefixOf(PutI64(n), rest);
  }

  lemma StringRoundTrip(s: Bytes, rest: Bytes)
    requires |s| < TWO_TO_THE_31
    ensures GetString(PutString(s) + rest) == Got(s, 4 + |s|)
  {
    assert PutString(s) + rest == PutI32(|s|) + (s + rest);
    I32RoundTrip(|s|, s + rest);
    assert (PutString(s) + rest)[4..4 + |s|] == s;
  }

  lemma FieldRoundTrip(ttype: byte, id: int, rest: Bytes)
    requires ttype != STOP && FitsI16(id)
    ensures GetField(PutField(ttype, id) + rest) == Got(Header(ttype, id), 3)
  {
    assert (PutField(ttype, id) + rest)[1..] == PutI16(id) + rest;
    I16RoundTrip(id, rest);
  }

  lemma ListRoundTrip(elem: byte, n: nat, rest: Bytes)
    requires n < TWO_TO_THE_31
    ensures GetList(PutList(elem, n) + rest) == Got((elem, n), 5)
  {
    assert (PutList(elem, n) + rest)[1..] == PutI32(n) + rest;
    I32RoundTrip(n, rest);
  }

  lemma MapRoundTrip(key: byte, value: byte, n: nat, rest: Bytes)
    requires n < TWO_TO_THE_31
    ensures GetMap(PutMap(key, value, n) + rest) == Got((key, value, n), 6)
  {
    assert (PutMap(key, value, n) + rest)[2..] == PutI32(n) + rest;
    I32RoundTrip(n, rest);
  }
}
