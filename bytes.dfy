/**
 * Machine words of the CHIP-8 virtual machine.
 *
 * Memory cells, the V registers and the two timers are 8-bit cells. The
 * repository declares them as plain `char`; they are modelled unsigned here
 * (`bv8`), which is what the opcode semantics are written for. Bitwise
 * operations and shifts are `bv8` operations; sums and differences are
 * computed on the values `as int` and reduced modulo 256 (`Wrap8`), as the
 * store into an 8-bit cell does; comparisons and carries are stated on the
 * values `as int`.
 */
module Bytes {

  /** An unsigned 8-bit cell. */
  type byte = bv8

  /** A 4-bit field of an instruction: a register index or a sprite height. */
  type nibble = n: bv8 | n < 0x10

  /** An unsigned 16-bit value (`unsigned short`): the I register and stack entries. */
  type word = w: int | 0 <= w < 0x1_0000

  /** What a C assignment of the integer `n` to an `unsigned short` stores. */
  function Low16(n: int): (w: word)
    ensures 0 <= w < 0x1_0000
    ensures 0 <= n < 0x1_0000 ==> w == n
  {
    n % 0x1_0000
  }

  /**
   * The byte whose value is `k`. It is counted up from zero rather than
   * written as the conversion `k as bv8`: the verifier reasons about a
   * conversion from an unbounded integer to a bit-vector poorly, while
   * each increment here is one small bit-vector step, and the ensures
   * gives every caller the value without any conversion to reason about.
   */
  function ByteOf(k: nat): (b: byte)
    requires k < 256
    ensures b as int == k
  {
    if k == 0 then 0 else ByteOf(k - 1) + 1
  }

  /** What storing the integer `n` into an 8-bit cell keeps: `n` modulo 256. */
  function Wrap8(n: int): (b: byte)
    ensures b as int == n % 256
    ensures 0 <= n < 256 ==> b as int == n
  {
    ByteOf(n % 256)
  }

  /** The top nibble of a byte (`b >> 4`). */
  function HighNibble(b: byte): nibble
  {
    b >> 4
  }

  /** The bottom nibble of a byte (`b & 0xf`). */
  function LowNibble(b: byte): nibble
  {
    b & 0xF
  }

  /** The byte whose nibbles are `h` and `l`. */
  function Pack(h: nibble, l: nibble): byte
  {
    (h << 4) | l
  }

  /** Packing two nibbles and splitting the byte again gives them back. */
  lemma PackNibbles(h: nibble, l: nibble)
    ensures HighNibble(Pack(h, l)) == h && LowNibble(Pack(h, l)) == l
  {
  }

  /** Splitting a byte into nibbles and packing them again gives it back. */
  lemma SplitNibbles(b: byte)
    ensures Pack(HighNibble(b), LowNibble(b)) == b
  {
  }

  /** The XOR of two bytes, as the sprite drawing applies it to the frame buffer. */
  function Xor(a: byte, b: byte): byte
  {
    a ^ b
  }

  /** Whether two bytes have a set bit in common (`(a & b) != 0`). */
  predicate Overlap(a: byte, b: byte)
  {
    a & b != 0
  }

  /** Bit `j` of `b`, bit 0 being the least significant. */
  predicate BitSet(b: byte, j: bv8)
    requires j < 8
  {
    (b >> j) & 1 == 1
  }

  /** XOR flips exactly the bits that are set in the mask. */
  lemma XorBit(a: byte, mask: byte, j: bv8)
    requires j < 8
    ensures BitSet(Xor(a, mask), j) == (BitSet(a, j) != BitSet(mask, j))
  {
  }

  /** XOR with zero changes nothing. */
  lemma XorZero(a: byte)
    ensures Xor(a, 0) == a
  {
  }

  /** XOR into zero gives the other operand. */
  lemma XorZeroLeft(a: byte)
    ensures Xor(0, a) == a
  {
  }

  /** A byte shares a set bit with itself exactly when it is nonzero. */
  lemma OverlapSelf(a: byte)
    ensures Overlap(a, a) <==> a != 0
  {
  }

  /** XOR with the same mask twice restores the byte. */
  lemma XorTwice(a: byte, mask: byte)
    ensures Xor(Xor(a, mask), mask) == a
  {
  }

  /**
   * Splitting a byte at an offset `r` into the part shifted right by `r` and
   * the part shifted left by `8 - r` loses nothing: both parts are zero only
   * when the byte is.
   */
  lemma SplitZero(b: byte, r: bv8)
    requires r < 8
    ensures (b >> r == 0 && b << (8 - r) == 0) <==> b == 0
  {
  }

  /** Bit `7 - k` of `b` lands on bit `7 - (r + k)` of `b >> r` when `r + k < 8`. */
  lemma ShiftRightBit(b: byte, r: bv8, k: bv8)
    requires r < 8 && k < 8 && r + k < 8
    ensures BitSet(b >> r, 7 - (r + k)) == BitSet(b, 7 - k)
  {
  }

  /** Bit `7 - k` of `b` lands on bit `15 - (r + k)` of `b << (8 - r)` when `r + k >= 8`. */
  lemma ShiftLeftBit(b: byte, r: bv8, k: bv8)
    requires r < 8 && k < 8 && r + k >= 8
    ensures BitSet(b << (8 - r), 7 - (r + k - 8)) == BitSet(b, 7 - k)
  {
  }

  /** Shifting right by one halves a byte; the bit shifted out is its parity. */
  lemma ShiftRightOne(a: byte)
    ensures (a >> 1) as int == a as int / 2 && (a & 1) as int == a as int % 2
  {
  }

  /** Shifting left by one doubles a byte modulo 256; the bit shifted out is its top bit. */
  lemma ShiftLeftOne(a: byte)
    ensures (a << 1) as int == a as int * 2 % 256 && (a >> 7) as int == a as int / 128
  {
  }

  /** A byte masked by `m` has no bit outside `m`. */
  lemma MaskedWithin(a: byte, m: byte)
    ensures (a & m) & !m == 0
  {
  }
}
