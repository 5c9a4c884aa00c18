/**
 * Fixed-width unsigned integers and their byte layout.
 *
 * `BitConverter` writes and reads in host byte order; the model fixes a
 * little-endian host, the only order the game's targets use.
 */
module Bytes {

  type Byte = b: int | 0 <= b < 0x100
  type UInt16 = n: int | 0 <= n < 0x1_0000
  type UInt32 = n: int | 0 <= n < 0x1_0000_0000

  /** `(ushort)x` in an unchecked context: keeps the low 16 bits. */
  function TruncateToUInt16(x: int): (r: UInt16)
    ensures 0 <= x < 0x1_0000 ==> r == x
  {
    x % 0x1_0000
  }

  /** `BitConverter.GetBytes(ushort)`: the low byte first. */
  function UInt16ToBytes(v: UInt16): (r: seq<Byte>)
    ensures |r| == 2
  {
    [v % 0x100, v / 0x100]
  }

  /** `BitConverter.ToUInt16(buf, offset)` over the two bytes at `offset`. */
  function BytesToUInt16(lo: Byte, hi: Byte): UInt16
  {
    lo + 0x100 * hi
  }

  /**
   * `(int)u` for a `uint` in an unchecked context: the same 32 bits read as
   * two's complement, so values from 2^31 on come out negative.
   */
  function ToInt32(u: UInt32): (r: int)
    ensures -0x8000_0000 <= r < 0x8000_0000
    ensures (r + 0x1_0000_0000) % 0x1_0000_0000 == u
    ensures u < 0x8000_0000 ==> r == u
    ensures r == 0 <==> u == 0
  {
    if u < 0x8000_0000 then u else u - 0x1_0000_0000
  }

  /** Reading back the two bytes written for `v` yields `v`. */
  lemma UInt16RoundTrip(v: UInt16)
    ensures BytesToUInt16(UInt16ToBytes(v)[0], UInt16ToBytes(v)[1]) == v
  {
  }

  /** Writing the value read from two bytes reproduces those bytes. */
  lemma BytesRoundTrip(lo: Byte, hi: Byte)
    ensures UInt16ToBytes(BytesToUInt16(lo, hi)) == [lo, hi]
  {
  }
}
