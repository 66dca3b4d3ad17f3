/**
 * `virtual_machine_c` keeps memory and registers in plain `char`
 * (main.cpp:97-101). Where `char` is signed, a byte of 0x80 or more
 * reads as a negative number once `execute` promotes it to `int`. Such a
 * build must accept the braced font initialiser of main.cpp:73-90, whose
 * constants such as 0xf0 then narrow to `char` (ill-formed since C++11,
 * rejected by GCC and Clang unless narrowing is allowed, for example with
 * `-Wno-narrowing`); a build with unsigned `char` shows none of this. This module models those reads as
 * written, and shows instructions that they decode differently from the
 * unsigned reading the rest of the model uses (module Instructions).
 */
module SignedChar {
  import opened Bytes
  import opened Instructions
  import Semantics

  /** The `int` a signed `char` holding the bits `b` promotes to. */
  function AsSigned(b: byte): (n: int)
    ensures -128 <= n < 128
    ensures n % 256 == b as int
    ensures b < 0x80 <==> n == b as int
  {
    if b < 0x80 then b as int else b as int - 256
  }

  /**
   * `w = wx >> 4` on a signed `char`: the shift of a negative `int` is
   * arithmetic (C++20, and every mainstream compiler before it), which
   * rounds down.
   */
  function GroupAsWritten(hi: byte): (w: int)
    ensures hi < 0x80 ==> w == HighNibble(hi) as int
    ensures hi >= 0x80 ==> -8 <= w < 0
  {
    AsSigned(hi) / 16
  }

  /**
   * The low 16 bits of the `int` a signed `char` holding `b` promotes to:
   * flipping the sign bit and subtracting it again copies bit 7 into the
   * bits above.
   */
  function SignExtend(b: byte): (e: bv16)
    ensures e & 0xFF == b as bv16
    ensures b < 0x80 ==> e == b as bv16
    ensures b >= 0x80 ==> e & 0xFF00 == 0xFF00
  {
    ((b as bv16) ^ 0x80) - 0x80
  }

  /**
   * `nnn = (nnn << 8) | yz` with `nnn` an `unsigned short` holding `x`: the
   * `char` `yz` is sign-extended before the OR, so a negative one sets every
   * bit above its low byte.
   */
  function AddressAsWritten(x: nibble, lo: byte): (nnn: bv16)
    ensures nnn & 0xFF == lo as bv16
    ensures lo < 0x80 ==> nnn == (x as bv16 << 8) | lo as bv16
    ensures lo >= 0x80 ==> nnn >= 0xFF00
  {
    (x as bv16 << 8) | SignExtend(lo)
  }

  /**
   * Every instruction whose first byte is 0x80 or more (the groups 8 to F)
   * reads a negative `w`, so none of the branches `w == 0` .. `w == 0xf` of
   * `execute` is taken and the instruction only advances the program
   * counter; the unsigned decoding sees group 8 to F.
   */
  lemma HighGroupsMisread(hi: byte)
    requires hi >= 0x80
    ensures !(0 <= GroupAsWritten(hi) < 0x10)
    ensures 8 <= HighNibble(hi) < 0x10
  {
  }

  /** For example D015, a five-row sprite draw, is skipped as written. */
  lemma DrawMisread()
    ensures GroupAsWritten(0xD0) == -3
    ensures Decode(0xD0, 0x15) == Draw(0, 1, 5)
  {
  }

  /**
   * 00E0 and 00EE compare the signed second byte with 0xe0 and 0xee, which
   * no signed `char` equals: as written, clearing the screen and returning
   * from a subroutine do nothing.
   */
  lemma SystemOpcodesMisread()
    ensures AsSigned(0xE0) != 0xE0 && AsSigned(0xEE) != 0xEE
    ensures Decode(0x00, 0xE0) == ClearScreen && Decode(0x00, 0xEE) == Return
  {
  }

  /**
   * 1280, a jump to 0x280, jumps to 0xFF80 as written, where the next step
   * finds the program counter out of range and quits.
   */
  lemma AddressMisread()
    ensures AddressAsWritten(2, 0x80) == 0xFF80
    ensures Decode(0x12, 0x80) == Jump(0x280)
  {
  }

  /**
   * The timer tick `if (delay_timer > 0) delay_timer--;` on a signed `char`:
   * a timer holding 0x80 or more is negative, so it is never lowered.
   */
  function CountDownAsWritten(t: byte): (r: byte)
    ensures t < 0x80 ==> r == Semantics.CountDown(t)
    ensures t >= 0x80 ==> r == t
  {
    if AsSigned(t) > 0 then t - 1 else t
  }

  /**
   * A delay of 200 never runs down under the signed test: the timer stays
   * at 200 on every tick, while the unsigned count-down lowers it to 199.
   * As written no timer reaches 200, since Fx15 and Fx18 are among the
   * instructions `HighGroupsMisread` shows are never carried out; the
   * defect shows once the group decoding is corrected and `char` stays
   * signed.
   */
  lemma TimerStuckAsWritten()
    ensures CountDownAsWritten(200) == 200
    ensures Semantics.CountDown(200) == 199
  {
  }
}
