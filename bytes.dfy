/** Bytes and the fixed-width integer encodings read from them. */
module Bytes {

  type byte = x: int | 0 <= x < 256
  type SByte = x: int | -0x80 <= x < 0x80
  type Int32 = x: int | -0x8000_0000 <= x < 0x8000_0000
  type UInt32 = x: int | 0 <= x < 0x1_0000_0000
  type Int64 = x: int | -0x8000_0000_0000_0000 <= x < 0x8000_0000_0000_0000

  /** Byte order of every multi-byte field of one buffer. */
  datatype Endian = Little | Big

  function Pow256(k: nat): nat
  {
    if k == 0 then 1 else 256 * Pow256(k - 1)
  }

  /** The unsigned value of the `k` bytes at `p`: least significant byte first when `e` is
      Little, last when it is Big. */
  function UnsignedAt(data: seq<byte>, p: nat, k: nat, e: Endian): nat
    requires p + k <= |data|
    decreases k
  {
    if k == 0 then 0
    else if e == Little then data[p] + 256 * UnsignedAt(data, p + 1, k - 1, e)
    else data[p + k - 1] + 256 * UnsignedAt(data, p, k - 1, e)
  }

  /** The two's-complement value of the same `k` bytes. */
  function SignedAt(data: seq<byte>, p: nat, k: nat, e: Endian): int
    requires p + k <= |data|
  {
    var u := UnsignedAt(data, p, k, e);
    if 2 * u >= Pow256(k) then u - Pow256(k) else u
  }

  /** `k` bytes hold fewer than 256^k unsigned values. */
  lemma {:induction false} UnsignedRange(data: seq<byte>, p: nat, k: nat, e: Endian)
    requires p + k <= |data|
    ensures UnsignedAt(data, p, k, e) < Pow256(k)
    decreases k
  {
    if k > 0 {
      if e == Little {
        UnsignedRange(data, p + 1, k - 1, e);
      } else {
        UnsignedRange(data, p, k - 1, e);
      }
    }
  }

  /** The signed reading lies in [-256^k / 2, 256^k / 2) and differs from the unsigned reading
      by 256^k exactly when it is negative. */
  lemma SignedRange(data: seq<byte>, p: nat, k: nat, e: Endian)
    requires p + k <= |data|
    ensures var r := SignedAt(data, p, k, e);
            && 0 <= 2 * r + Pow256(k) && 2 * r < Pow256(k)
            && (r >= 0 ==> r == UnsignedAt(data, p, k, e))
            && (r < 0 ==> r + Pow256(k) == UnsignedAt(data, p, k, e))
  {
    UnsignedRange(data, p, k, e);
  }

  lemma Pow256Widths()
    ensures Pow256(1) == 0x100
    ensures Pow256(4) == 0x1_0000_0000
    ensures Pow256(8) == 0x1_0000_0000_0000_0000
  {
  }

  /** `(sbyte)b`: the byte's bit pattern read as a signed value. */
  function SByteOf(b: byte): (r: SByte)
  {
    if b >= 0x80 then b - 0x100 else b
  }

  /** The byte whose bit pattern `(sbyte)` reads as `v`. */
  function ByteOf(v: SByte): (r: byte)
  {
    if v < 0 then v + 0x100 else v
  }

  /** Reading a byte as `sbyte` loses nothing: every byte value has its own signed value. */
  lemma SByteRoundTrip(b: byte, v: SByte)
    ensures ByteOf(SByteOf(b)) == b
    ensures SByteOf(ByteOf(v)) == v
  {
  }

  /** Four bytes read unsigned stay below 2^32. */
  lemma Below4(data: seq<byte>, p: nat, e: Endian)
    requires p + 4 <= |data|
    ensures UnsignedAt(data, p, 4, e) < 0x1_0000_0000
  {
    UnsignedRange(data, p, 4, e);
    Pow256Widths();
  }

  /** int32: the two's-complement reading of 4 bytes. */
  function Int32Of(data: seq<byte>, p: nat, e: Endian): Int32
    requires p + 4 <= |data|
  {
    SignedRange(data, p, 4, e);
    Pow256Widths();
    SignedAt(data, p, 4, e)
  }

  /** uint32: the unsigned reading of 4 bytes. */
  function UInt32Of(data: seq<byte>, p: nat, e: Endian): UInt32
    requires p + 4 <= |data|
  {
    Below4(data, p, e);
    UnsignedAt(data, p, 4, e)
  }

  /** int64: the two's-complement reading of 8 bytes. */
  function Int64Of(data: seq<byte>, p: nat, e: Endian): Int64
    requires p + 8 <= |data|
  {
    SignedRange(data, p, 8, e);
    Pow256Widths();
    SignedAt(data, p, 8, e)
  }
}
