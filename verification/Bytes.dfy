/** Machine integers of the wire formats and their big-endian encodings. */
module Bytes {

  const MAX_U32: int := 0xffff_ffff

  type byte = x: int | 0 <= x < 0x100
  type u16 = x: int | 0 <= x < 0x1_0000
  type u32 = x: int | 0 <= x < 0x1_0000_0000
  type i32 = x: int | -0x8000_0000 <= x < 0x8000_0000

  /** A 32-byte fingerprint, hash or bearer token. */
  type Bytes32 = s: seq<byte> | |s| == 32 witness seq(32, i => 0)

  /** An 8-byte USB setup packet. */
  type Bytes8 = s: seq<byte> | |s| == 8 witness seq(8, i => 0)

  function U16Value(b: seq<byte>): u16
    requires |b| == 2
  {
    (b[0] as int) * 0x100 + b[1] as int
  }

  function U16Bytes(x: u16): (b: seq<byte>)
    ensures |b| == 2 && U16Value(b) == x
  {
    [x / 0x100, x % 0x100]
  }

  lemma U16BytesOfValue(b: seq<byte>)
    requires |b| == 2
    ensures U16Bytes(U16Value(b)) == b
  {
    assert U16Bytes(U16Value(b)) == [b[0], b[1]];
  }

  function U32Value(b: seq<byte>): u32
    requires |b| == 4
  {
    (U16Value(b[..2]) as int) * 0x1_0000 + U16Value(b[2..]) as int
  }

  function U32Bytes(x: u32): (b: seq<byte>)
    ensures |b| == 4 && U32Value(b) == x
  {
    var high, low := U16Bytes(x / 0x1_0000), U16Bytes(x % 0x1_0000);
    assert (high + low)[..2] == high && (high + low)[2..] == low;
    high + low
  }

  lemma U32BytesOfValue(b: seq<byte>)
    requires |b| == 4
    ensures U32Bytes(U32Value(b)) == b
  {
    U16BytesOfValue(b[..2]);
    U16BytesOfValue(b[2..]);
    assert U32Value(b) / 0x1_0000 == U16Value(b[..2]);
    assert b == b[..2] + b[2..];
  }

  /** Two's complement reading of a 32-bit word. */
  function SignedOf(x: u32): i32 {
    if x < 0x8000_0000 then x else x - 0x1_0000_0000
  }

  function UnsignedOf(x: i32): (r: u32)
    ensures SignedOf(r) == x
  {
    if x < 0 then x + 0x1_0000_0000 else x
  }

  function I32Value(b: seq<byte>): i32
    requires |b| == 4
  {
    SignedOf(U32Value(b))
  }

  function I32Bytes(x: i32): (b: seq<byte>)
    ensures |b| == 4 && I32Value(b) == x
  {
    U32Bytes(UnsignedOf(x))
  }

  lemma I32BytesOfValue(b: seq<byte>)
    requires |b| == 4
    ensures I32Bytes(I32Value(b)) == b
  {
    U32BytesOfValue(b);
    assert UnsignedOf(SignedOf(U32Value(b))) == U32Value(b);
  }

  /** The concatenation of a list of byte strings. */
  function Concat(parts: seq<seq<byte>>): seq<byte> {
    if parts == [] then [] else parts[0] + Concat(parts[1..])
  }
}
