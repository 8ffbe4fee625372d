/** Fixed-width integers and strings as the bytes a little-endian machine stores. */
module Bytes {
  type Byte = x: int | 0 <= x < 0x100
  type U16 = x: int | 0 <= x < 0x1_0000
  type U32 = x: int | 0 <= x < 0x1_0000_0000
  type Str = seq<Byte>

  function U16Bytes(v: U16): (b: seq<Byte>)
    ensures |b| == 2
  {
    [v % 0x100, v / 0x100]
  }

  function U16Of(b: seq<Byte>): U16
    requires |b| == 2
  {
    var (lo: int, hi: int) := (b[0], b[1]);
    lo + 0x100 * hi
  }

  function U32Bytes(v: U32): (b: seq<Byte>)
    ensures |b| == 4
  {
    U16Bytes(v % 0x1_0000) + U16Bytes(v / 0x1_0000)
  }

  function U32Of(b: seq<Byte>): U32
    requires |b| == 4
  {
    U16Of(b[..2]) + 0x1_0000 * U16Of(b[2..])
  }

  lemma U16RoundTrip(v: U16)
    ensures U16Of(U16Bytes(v)) == v
  {
  }

  lemma U32RoundTrip(v: U32)
    ensures U32Of(U32Bytes(v)) == v
  {
    var b := U32Bytes(v);
    assert b[..2] == U16Bytes(v % 0x1_0000) && b[2..] == U16Bytes(v / 0x1_0000);
  }

  /** The number some bytes stand for, the least significant byte first. */
  function LittleEndian(b: seq<Byte>): nat {
    if b == [] then 0 else b[0] + 0x100 * LittleEndian(b[1..])
  }

  lemma {:induction false} LittleEndianPair(lo: Byte, hi: Byte)
    ensures LittleEndian([lo, hi]) == lo + 0x100 * hi
  {
    var last: seq<Byte> := [hi];
    assert [lo, hi][1..] == last && last[1..] == [];
    assert LittleEndian(last) == hi;
  }

  lemma {:induction false} LittleEndianConcat(a: Byte, b: Byte, rest: seq<Byte>)
    ensures LittleEndian([a, b] + rest) == a + 0x100 * b + 0x1_0000 * LittleEndian(rest)
  {
    assert ([a, b] + rest)[1..] == [b] + rest && ([b] + rest)[1..] == rest;
  }

  /** Numbers are stored and loaded with the least significant byte first. */
  lemma {:induction false} U16IsLittleEndian(v: U16, b: seq<Byte>)
    requires |b| == 2
    ensures LittleEndian(U16Bytes(v)) == v && U16Of(b) == LittleEndian(b)
  {
    LittleEndianPair(v % 0x100, v / 0x100);
    assert b == [b[0], b[1]];
    LittleEndianPair(b[0], b[1]);
  }

  lemma {:induction false} U32IsLittleEndian(v: U32, b: seq<Byte>)
    requires |b| == 4
    ensures LittleEndian(U32Bytes(v)) == v && U32Of(b) == LittleEndian(b)
  {
    var lo, hi := U16Bytes(v % 0x1_0000), U16Bytes(v / 0x1_0000);
    U16IsLittleEndian(v / 0x1_0000, b[2..]);
    U16IsLittleEndian(v % 0x1_0000, b[..2]);
    LittleEndianPair(lo[0], lo[1]);
    LittleEndianConcat(lo[0], lo[1], hi);
    assert U32Bytes(v) == [lo[0], lo[1]] + hi;
    assert b == [b[0], b[1]] + b[2..] && b[..2] == [b[0], b[1]];
    LittleEndianConcat(b[0], b[1], b[2..]);
  }

  /** `n` zero bytes. */
  function Zeros(n: nat): (z: seq<Byte>)
    ensures |z| == n && forall i :: 0 <= i < n ==> z[i] == 0
  {
    seq(n, _ => 0)
  }
}
