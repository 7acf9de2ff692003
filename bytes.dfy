/**
 * Fixed-width integers and the little-endian byte layouts of the UVC wire format.
 *
 * The source converts with `from_ne_bytes`, `to_ne_bytes` and `mem::transmute`, which follow
 * the host's byte order; this model fixes little-endian, the order of the UVC wire format.
 * Rust's `as` casts between integer types keep the low bits (two's complement), which is
 * what `AsU8` and `AsU16` write out.
 */
module Bytes {

  type u8 = x: int | 0 <= x < 0x100
  type u16 = x: int | 0 <= x < 0x1_0000
  type u32 = x: int | 0 <= x < 0x1_0000_0000
  type i32 = x: int | -0x8000_0000 <= x < 0x8000_0000

  /** `v as u8`: the low eight bits of `v`. */
  function AsU8(v: int): (b: u8)
    ensures (v - b) % 0x100 == 0
    ensures 0 <= v < 0x100 ==> b == v
  {
    v % 0x100
  }

  /** `v as u16`: the low sixteen bits of `v`. */
  function AsU16(v: int): (w: u16)
    ensures (v - w) % 0x1_0000 == 0
    ensures 0 <= v < 0x1_0000 ==> w == v
  {
    v % 0x1_0000
  }

  /** `u16::to_ne_bytes` on a little-endian host. */
  function U16ToLe(w: u16): (b: seq<u8>)
    ensures |b| == 2 && b[0] as int + 0x100 * b[1] as int == w
  {
    [w % 0x100, w / 0x100]
  }

  /** `u16::from_ne_bytes` on a little-endian host. */
  function U16FromLe(b: seq<u8>): u16
    requires |b| == 2
  {
    b[0] as int + 0x100 * b[1] as int
  }

  lemma U16RoundTrip(w: u16)
    ensures U16FromLe(U16ToLe(w)) == w
  {
  }

  lemma U16BytesRoundTrip(b: seq<u8>)
    requires |b| == 2
    ensures U16ToLe(U16FromLe(b)) == b
  {
  }

  /** The value of four bytes taken least significant first. */
  function Weighted(b0: u8, b1: u8, b2: u8, b3: u8): int
  {
    b0 as int + 0x100 * b1 as int + 0x1_0000 * b2 as int + 0x100_0000 * b3 as int
  }

  /** The four little-endian bytes of an unsigned 32-bit word. */
  function U32ToLe(u: u32): (b: seq<u8>)
    ensures |b| == 4
  {
    [u % 0x100, (u / 0x100) % 0x100, (u / 0x1_0000) % 0x100, u / 0x100_0000]
  }

  function U32FromLe(b: seq<u8>): u32
    requires |b| == 4
  {
    Weighted(b[0], b[1], b[2], b[3])
  }

  /** Two's-complement bit pattern of a signed 32-bit value. */
  function I32Bits(v: i32): (u: u32)
    ensures (v - u) % 0x1_0000_0000 == 0
  {
    if v < 0 then v + 0x1_0000_0000 else v
  }

  /** `i32::to_ne_bytes` (and the layout `mem::transmute` gives) on a little-endian host. */
  function I32ToLe(v: i32): (b: seq<u8>)
    ensures |b| == 4
    ensures Weighted(b[0], b[1], b[2], b[3]) == I32Bits(v)
  {
    U32RoundTrip(I32Bits(v));
    U32ToLe(I32Bits(v))
  }

  /** `i32::from_ne_bytes` on a little-endian host: bit 31 is the sign. */
  function I32FromLe(b: seq<u8>): (v: i32)
    requires |b| == 4
    ensures v < 0 <==> b[3] >= 0x80
  {
    var u := U32FromLe(b);
    if u < 0x8000_0000 then u else u - 0x1_0000_0000
  }

  /** Quotient and remainder by 256 of `r + 256 * q` for a byte `r`. */
  lemma DivMod256(r: int, q: int)
    requires 0 <= r < 0x100
    ensures (r + 0x100 * q) / 0x100 == q && (r + 0x100 * q) % 0x100 == r
  {
  }

  lemma U32BytesRoundTrip(b: seq<u8>)
    requires |b| == 4
    ensures U32ToLe(U32FromLe(b)) == b
  {
    var u := U32FromLe(b);
    var hi2 := b[2] as int + 0x100 * b[3] as int;
    var hi := b[1] as int + 0x100 * hi2;
    DivMod256(b[0], hi);
    DivMod256(b[1], hi2);
    DivMod256(b[2], b[3]);
    assert u / 0x1_0000 == (u / 0x100) / 0x100;
    assert u / 0x100_0000 == ((u / 0x100) / 0x100) / 0x100;
  }

  lemma U32RoundTrip(u: u32)
    ensures U32FromLe(U32ToLe(u)) == u
  {
    var q1 := u / 0x100;
    var q2 := q1 / 0x100;
    assert u == u % 0x100 + 0x100 * q1;
    assert q1 == q1 % 0x100 + 0x100 * q2;
    assert q2 == q2 % 0x100 + 0x100 * (q2 / 0x100);
    assert u / 0x1_0000 == q2;
    assert u / 0x100_0000 == q2 / 0x100;
  }

  /** Decoding the bytes of a signed value gives the value back. */
  lemma I32RoundTrip(v: i32)
    ensures I32FromLe(I32ToLe(v)) == v
  {
    U32RoundTrip(I32Bits(v));
  }

  /** Encoding the value read from four bytes gives the same four bytes back. */
  lemma I32BytesRoundTrip(b: seq<u8>)
    requires |b| == 4
    ensures I32ToLe(I32FromLe(b)) == b
  {
    U32BytesRoundTrip(b);
  }
}
