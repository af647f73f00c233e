/** Fixed-width machine integers as bounded mathematical integers, with the
    conversions of the source made explicit: `as i64`, `as i32`, `as u64`,
    and little-endian byte layouts. */
module Numbers {

  const TWO_31: int := 0x8000_0000
  const TWO_32: int := 0x1_0000_0000
  const TWO_63: int := 0x8000_0000_0000_0000
  const TWO_64: int := 0x1_0000_0000_0000_0000

  type byte = x: int | 0 <= x < 0x100
  type u16 = x: int | 0 <= x < 0x1_0000
  type u32 = x: int | 0 <= x < 0x1_0000_0000
  type u64 = x: int | 0 <= x < 0x1_0000_0000_0000_0000
  type i64 = x: int | -0x8000_0000_0000_0000 <= x < 0x8000_0000_0000_0000

  const U64_MAX: u64 := 0xFFFF_FFFF_FFFF_FFFF

  /** A bank of eight 64-bit registers or stack words (`[u64; 8]`). */
  type Regs = s: seq<u64> | |s| == 8 witness [0, 0, 0, 0, 0, 0, 0, 0]

  /** `x as i64`: the same 64 bits read as two's complement. */
  function AsI64(x: u64): (r: i64)
    ensures 0 <= x < TWO_63 ==> r == x
    ensures TWO_63 <= x ==> r == x - TWO_64
    ensures AsU64(r) == x
  {
    if x < TWO_63 then x else x - TWO_64
  }

  /** `x as u64` of an `i64`: the two's complement bit pattern. */
  function AsU64(x: i64): (r: u64)
    ensures r % TWO_64 == x % TWO_64
  {
    if x < 0 then x + TWO_64 else x
  }

  /** `x as i32`: keep the low 32 bits and read them as two's complement. */
  function AsI32(x: int): (r: int)
    ensures -TWO_31 <= r < TWO_31
    ensures (x - r) % TWO_32 == 0
  {
    var low := x % TWO_32;
    if low < TWO_31 then low else low - TWO_32
  }

  lemma AsI32Low32(x: int, y: int)
    requires x % TWO_32 == y % TWO_32
    ensures AsI32(x) == AsI32(y)
  {
  }

  function Pow256(n: nat): (p: nat)
    ensures p > 0
  {
    if n == 0 then 1 else 256 * Pow256(n - 1)
  }

  /** The unsigned value of bytes stored least significant first. */
  function LittleEndian(bs: seq<byte>): (n: nat)
    ensures n < Pow256(|bs|)
  {
    if |bs| == 0 then 0
    else
      var rest := LittleEndian(bs[1..]);
      assert 256 * rest <= 256 * (Pow256(|bs| - 1) - 1);
      bs[0] + 256 * rest
  }

  /** The `width` bytes that store `n` least significant first. */
  function LeBytes(n: nat, width: nat): (bs: seq<byte>)
    requires n < Pow256(width)
    ensures |bs| == width
    ensures LittleEndian(bs) == n
  {
    if width == 0 then []
    else [n % 256] + LeBytes(n / 256, width - 1)
  }

  lemma {:induction false} LeBytesOfLittleEndian(bs: seq<byte>)
    ensures LeBytes(LittleEndian(bs), |bs|) == bs
  {
    if |bs| > 0 {
      LeBytesOfLittleEndian(bs[1..]);
      assert LittleEndian(bs) / 256 == LittleEndian(bs[1..]);
    }
  }

  /** Decoding a little-endian field of `width` bytes at offset `at`. */
  function FieldLE(b: seq<byte>, at: nat, width: nat): (n: nat)
    requires at + width <= |b|
    ensures n < Pow256(width)
  {
    LittleEndian(b[at..at + width])
  }
}
