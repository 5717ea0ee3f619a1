/** Fixed-width integers of the C source and their little-endian byte layout on the bus. */
module Bytes {

  type byte = b: int | 0 <= b < 0x100
  type u16 = v: int | 0 <= v < 0x1_0000
  type u32 = v: int | 0 <= v < 0x1_0000_0000
  type i16 = v: int | -0x8000 <= v < 0x8000
  type i32 = v: int | -0x8000_0000 <= v < 0x8000_0000

  /** The value a receiver assembles from two bytes, low byte first. */
  function FromLE16(b: seq<byte>): u16
    requires |b| == 2
  {
    var lo: int, hi: int := b[0], b[1];
    lo + 0x100 * hi
  }

  /** The value a receiver assembles from four bytes, low byte first. */
  function FromLE32(b: seq<byte>): u32
    requires |b| == 4
  {
    var b0: int, b1: int, b2: int, b3: int := b[0], b[1], b[2], b[3];
    b0 + 0x100 * b1 + 0x1_0000 * b2 + 0x100_0000 * b3
  }

  /** `(uint8_t)v, (uint8_t)(v >> 8)`: a 16-bit value on the bus, low byte first. */
  function LE16(v: u16): (r: seq<byte>)
    ensures |r| == 2 && FromLE16(r) == v
  {
    [v % 0x100, v / 0x100]
  }

  /** `(uint8_t)v, (uint8_t)(v >> 8), (uint8_t)(v >> 16), (uint8_t)(v >> 24)`. */
  function LE32(v: u32): (r: seq<byte>)
    ensures |r| == 4 && FromLE32(r) == v
  {
    DivChain(v);
    [v % 0x100, (v / 0x100) % 0x100, (v / 0x1_0000) % 0x100, v / 0x100_0000]
  }

  /** The byte positions of a 32-bit value: shifting by 8, 16 and 24 bits is repeated division. */
  lemma DivChain(v: u32)
    ensures v / 0x1_0000 == (v / 0x100) / 0x100
    ensures v / 0x100_0000 == (v / 0x1_0000) / 0x100
    ensures v == v % 0x100 + 0x100 * ((v / 0x100) % 0x100) + 0x1_0000 * ((v / 0x1_0000) % 0x100) + 0x100_0000 * (v / 0x100_0000)
  {
    var q1, r0 := v / 0x100, v % 0x100;
    var q2, r1 := q1 / 0x100, q1 % 0x100;
    var q3, r2 := q2 / 0x100, q2 % 0x100;
    assert v == r0 + 0x100 * q1;
    assert q1 == r1 + 0x100 * q2;
    assert q2 == r2 + 0x100 * q3;
    assert v == r0 + 0x100 * r1 + 0x1_0000 * q2;
    assert v == r0 + 0x100 * r1 + 0x1_0000 * r2 + 0x100_0000 * q3;
    assert 0 <= r0 + 0x100 * r1 < 0x1_0000;
    assert v / 0x1_0000 == q2;
    assert 0 <= r0 + 0x100 * r1 + 0x1_0000 * r2 < 0x100_0000;
    assert v / 0x100_0000 == q3;
  }

  /** Splitting is also the inverse of assembling: no two byte pairs give the same value. */
  lemma LE16OfFromLE16(b: seq<byte>)
    requires |b| == 2
    ensures LE16(FromLE16(b)) == b
  {
    var v := FromLE16(b);
    assert v % 0x100 == b[0] && v / 0x100 == b[1];
  }

  lemma LE32OfFromLE32(b: seq<byte>)
    requires |b| == 4
    ensures LE32(FromLE32(b)) == b
  {
    var v := FromLE32(b);
    var b0: int, b1: int, b2: int, b3: int := b[0], b[1], b[2], b[3];
    var hi := b1 + 0x100 * b2 + 0x1_0000 * b3;
    var hi2 := b2 + 0x100 * b3;
    assert v == b0 + 0x100 * hi;
    assert v % 0x100 == b0 && v / 0x100 == hi;
    assert hi % 0x100 == b1 && hi / 0x100 == hi2;
    assert hi2 % 0x100 == b2 && hi2 / 0x100 == b3;
    DivChain(v);
  }

  /** The bit pattern of a signed 16-bit argument: its two bytes are what the source's
      `(uint8_t)x0` and `(uint8_t)(x0 >> 8)` send, with `>>` shifting arithmetically. */
  function U16Of(x: i16): (u: u16)
    ensures LE16(u) == [x % 0x100, (x / 0x100) % 0x100]
    ensures (u < 0x8000) == (x >= 0)
  {
    if x < 0 then x + 0x1_0000 else x
  }

  /** The bit pattern of a signed 32-bit argument, as `(uint8_t)(n >> 8k)` sends it. */
  function U32Of(x: i32): (u: u32)
    ensures LE32(u) == [x % 0x100, (x / 0x100) % 0x100, (x / 0x1_0000) % 0x100, (x / 0x100_0000) % 0x100]
    ensures (u < 0x8000_0000) == (x >= 0)
  {
    if x < 0 then
      var u: u32 := x + 0x1_0000_0000;
      DivChain(u);
      assert u % 0x100 == x % 0x100;
      assert u / 0x100 == x / 0x100 + 0x100_0000;
      assert u / 0x1_0000 == x / 0x1_0000 + 0x1_0000;
      assert u / 0x100_0000 == x / 0x100_0000 + 0x100;
      WrapByte(x / 0x100_0000);
      u
    else
      DivChain(x);
      x
  }

  /** The top byte of a 32-bit two's-complement value. */
  lemma WrapByte(t: int)
    requires -0x80 <= t < 0x80
    ensures (if t < 0 then t + 0x100 else t) == t % 0x100
  {
  }

  /** `n` zero bytes, as sent for padding and for reserved result words. */
  function Zeros(n: nat): (r: seq<byte>)
    ensures |r| == n && forall i :: 0 <= i < n ==> r[i] == 0
  {
    seq(n, _ => 0)
  }
}
