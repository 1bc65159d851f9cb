/** Machine integers of the C++ engine: the 32-bit `int`, `Uint32` and
    bytes, with the two's-complement views the source relies on. */
module Machine {
  const TWO_TO_31: int := 0x8000_0000
  const TWO_TO_32: int := 0x1_0000_0000

  type int32 = x: int | -0x8000_0000 <= x < 0x8000_0000
  type uint32 = x: int | 0 <= x < 0x1_0000_0000
  type byte = x: int | 0 <= x < 0x100

  /** The 32-bit two's-complement wrap of an unbounded integer, as a C
      conversion to `Sint32` does on the targets the engine supports. */
  function WrapInt32(x: int): (r: int32)
    ensures (r - x) % TWO_TO_32 == 0
  {
    var u := x % TWO_TO_32;
    if u < TWO_TO_31 then u else u - TWO_TO_32
  }

  /** The unsigned 32-bit value with the same bits as `x`. */
  function AsUint32(x: int32): (r: uint32)
    ensures r == x || r == x + TWO_TO_32
  {
    if x < 0 then x + TWO_TO_32 else x
  }

  /** Four bytes read as a little-endian `Uint32`. */
  function UInt32LE(b0: byte, b1: byte, b2: byte, b3: byte): (r: uint32)
  {
    b0 + 0x100 * b1 + 0x1_0000 * b2 + 0x100_0000 * b3
  }

  /** Four bytes read as a little-endian `int`. */
  function Int32LE(b0: byte, b1: byte, b2: byte, b3: byte): int32
  {
    var u := UInt32LE(b0, b1, b2, b3);
    if u < TWO_TO_31 then u else u - TWO_TO_32
  }

  /** The four little-endian bytes of a `Uint32`. */
  function UInt32Bytes(u: uint32): (r: seq<byte>)
    ensures |r| == 4
    ensures UInt32LE(r[0], r[1], r[2], r[3]) == u
  {
    var r1 := u / 0x100;
    var r2 := r1 / 0x100;
    assert u == u % 0x100 + 0x100 * r1;
    assert r1 == r1 % 0x100 + 0x100 * r2;
    assert r2 == r2 % 0x100 + 0x100 * (r2 / 0x100);
    [u % 0x100, r1 % 0x100, r2 % 0x100, r2 / 0x100]
  }

  /** The four little-endian bytes of an `int`. */
  function Int32Bytes(x: int32): (r: seq<byte>)
    ensures |r| == 4
    ensures Int32LE(r[0], r[1], r[2], r[3]) == x
  {
    UInt32Bytes(AsUint32(x))
  }
}
