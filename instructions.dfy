/**
 * Instruction decoding. An instruction is two bytes `hi`, `lo`; the nibbles
 * are `w` (top of `hi`), `x` (bottom of `hi`), `y` (top of `lo`) and `z`
 * (bottom of `lo`); `nnn` is `x` followed by `lo`, and `kk` is `lo` itself.
 * `Decode` follows the branch order of `execute`; every pattern that no
 * branch matches decodes to `Nop`.
 */
module Instructions {
  import opened Bytes

  /** A 12-bit address operand. */
  type Addr12 = a: bv16 | a < 0x1000

  /** The register-register operations of the 8xy_ group, by their `z` nibble. */
  datatype AluOp =
    | Mov   // 8xy0
    | Or    // 8xy1
    | And   // 8xy2
    | Xor   // 8xy3
    | Add   // 8xy4
    | Sub   // 8xy5
    | Shr   // 8xy6
    | SubN  // 8xy7
    | Shl   // 8xyE

  datatype Instr =
    | ClearScreen                       // 00E0
    | Return                            // 00EE
    | Jump(nnn: Addr12)                 // 1nnn
    | Call(nnn: Addr12)                 // 2nnn
    | SkipEqImm(x: nibble, kk: byte)    // 3xkk
    | SkipNeImm(x: nibble, kk: byte)    // 4xkk
    | SkipEqReg(x: nibble, y: nibble)   // 5xy_
    | LoadImm(x: nibble, kk: byte)      // 6xkk
    | AddImm(x: nibble, kk: byte)       // 7xkk
    | Alu(op: AluOp, x: nibble, y: nibble) // 8xy_
    | SkipNeReg(x: nibble, y: nibble)   // 9xy_
    | LoadI(nnn: Addr12)                // Annn
    | JumpV0(nnn: Addr12)               // Bnnn
    | Random(x: nibble, kk: byte)       // Cxkk
    | Draw(x: nibble, y: nibble, n: nibble) // Dxyn
    | SkipKey(x: nibble)                // Ex9E
    | SkipNotKey(x: nibble)             // ExA1
    | GetDelay(x: nibble)               // Fx07
    | WaitKey(x: nibble)                // Fx0A
    | SetDelay(x: nibble)               // Fx15
    | SetSound(x: nibble)               // Fx18
    | AddI(x: nibble)                   // Fx1E
    | FontChar(x: nibble)               // Fx29
    | StoreBcd(x: nibble)               // Fx33
    | StoreRegs(x: nibble)              // Fx55
    | LoadRegs(x: nibble)               // Fx65
    | Nop                               // every other pattern

  datatype Option<T> = None | Some(value: T)

  /** The 8xy_ operation selected by `z`, if any. */
  function AluOpOf(z: nibble): (r: Option<AluOp>)
  {
    if z == 0 then Some(Mov)
    else if z == 1 then Some(Or)
    else if z == 2 then Some(And)
    else if z == 3 then Some(Xor)
    else if z == 4 then Some(Add)
    else if z == 5 then Some(Sub)
    else if z == 6 then Some(Shr)
    else if z == 7 then Some(SubN)
    else if z == 0xE then Some(Shl)
    else None
  }

  /** The instruction the bytes `hi`, `lo` stand for. */
  function Decode(hi: byte, lo: byte): Instr
  {
    DecodeFields(HighNibble(hi), LowNibble(hi), lo)
  }

  /** The instruction with top nibble `w`, second nibble `x` and low byte `lo`. */
  function DecodeFields(w: nibble, x: nibble, lo: byte): Instr
  {
    var y := HighNibble(lo);
    var z := LowNibble(lo);
    var nnn: Addr12 := (x as bv16 << 8) | lo as bv16;
    if w == 0 then DecodeSystem(x, lo)
    else if w == 1 then Jump(nnn)
    else if w == 2 then Call(nnn)
    else if w == 3 then SkipEqImm(x, lo)
    else if w == 4 then SkipNeImm(x, lo)
    else if w == 5 then SkipEqReg(x, y)
    else if w == 6 then LoadImm(x, lo)
    else if w == 7 then AddImm(x, lo)
    else if w == 8 then DecodeAlu(x, y, z)
    else if w == 9 then SkipNeReg(x, y)
    else if w == 0xA then LoadI(nnn)
    else if w == 0xB then JumpV0(nnn)
    else if w == 0xC then Random(x, lo)
    else if w == 0xD then Draw(x, y, z)
    else if w == 0xE then DecodeKey(x, lo)
    else DecodeMisc(x, lo)
  }

  /** The 0nnn group: only 00E0 and 00EE do something. */
  function DecodeSystem(x: nibble, lo: byte): Instr
  {
    if x == 0 && lo == 0xE0 then ClearScreen
    else if x == 0 && lo == 0xEE then Return
    else Nop
  }

  /** The 8xy_ group. */
  function DecodeAlu(x: nibble, y: nibble, z: nibble): Instr
  {
    match AluOpOf(z)
    case Some(op) => Alu(op, x, y)
    case None => Nop
  }

  /** The Ex__ group. */
  function DecodeKey(x: nibble, lo: byte): Instr
  {
    if lo == 0x9E then SkipKey(x)
    else if lo == 0xA1 then SkipNotKey(x)
    else Nop
  }

  /** The Fx__ group. */
  function DecodeMisc(x: nibble, lo: byte): Instr
  {
    if lo == 0x07 then GetDelay(x)
    else if lo == 0x0A then WaitKey(x)
    else if lo == 0x15 then SetDelay(x)
    else if lo == 0x18 then SetSound(x)
    else if lo == 0x1E then AddI(x)
    else if lo == 0x29 then FontChar(x)
    else if lo == 0x33 then StoreBcd(x)
    else if lo == 0x55 then StoreRegs(x)
    else if lo == 0x65 then LoadRegs(x)
    else Nop
  }

  function AluCode(op: AluOp): nibble
  {
    match op
    case Mov => 0
    case Or => 1
    case And => 2
    case Xor => 3
    case Add => 4
    case Sub => 5
    case Shr => 6
    case SubN => 7
    case Shl => 0xE
  }

  /** The two bytes of an instruction with nibbles `w`, `x`, `y`, `z`. */
  function Nibbles(w: nibble, x: nibble, y: nibble, z: nibble): (byte, byte)
  {
    (Pack(w, x), Pack(y, z))
  }

  /** The two bytes of an instruction with top nibble `w` and operand `nnn`. */
  function WithAddress(w: nibble, nnn: Addr12): (byte, byte)
  {
    (Pack(w, (nnn >> 8) as bv8), (nnn & 0xFF) as bv8)
  }

  /** The two bytes of an instruction with nibbles `w`, `x` and an immediate byte. */
  function WithImmediate(w: nibble, x: nibble, kk: byte): (byte, byte)
  {
    (Pack(w, x), kk)
  }

  /** The canonical encoding of an instruction (`_` nibbles as 0, `Nop` as 0000). */
  function Encode(i: Instr): (byte, byte)
  {
    match i
    case ClearScreen => (0x00, 0xE0)
    case Return => (0x00, 0xEE)
    case Jump(nnn) => WithAddress(1, nnn)
    case Call(nnn) => WithAddress(2, nnn)
    case SkipEqImm(x, kk) => WithImmediate(3, x, kk)
    case SkipNeImm(x, kk) => WithImmediate(4, x, kk)
    case SkipEqReg(x, y) => Nibbles(5, x, y, 0)
    case LoadImm(x, kk) => WithImmediate(6, x, kk)
    case AddImm(x, kk) => WithImmediate(7, x, kk)
    case Alu(op, x, y) => Nibbles(8, x, y, AluCode(op))
    case SkipNeReg(x, y) => Nibbles(9, x, y, 0)
    case LoadI(nnn) => WithAddress(0xA, nnn)
    case JumpV0(nnn) => WithAddress(0xB, nnn)
    case Random(x, kk) => WithImmediate(0xC, x, kk)
    case Draw(x, y, n) => Nibbles(0xD, x, y, n)
    case SkipKey(x) => WithImmediate(0xE, x, 0x9E)
    case SkipNotKey(x) => WithImmediate(0xE, x, 0xA1)
    case GetDelay(x) => WithImmediate(0xF, x, 0x07)
    case WaitKey(x) => WithImmediate(0xF, x, 0x0A)
    case SetDelay(x) => WithImmediate(0xF, x, 0x15)
    case SetSound(x) => WithImmediate(0xF, x, 0x18)
    case AddI(x) => WithImmediate(0xF, x, 0x1E)
    case FontChar(x) => WithImmediate(0xF, x, 0x29)
    case StoreBcd(x) => WithImmediate(0xF, x, 0x33)
    case StoreRegs(x) => WithImmediate(0xF, x, 0x55)
    case LoadRegs(x) => WithImmediate(0xF, x, 0x65)
    case Nop => (0x00, 0x00)
  }

  /** The operand fields of an address-form encoding decode back to `w` and `nnn`. */
  lemma WithAddressFields(w: nibble, nnn: Addr12)
    ensures var (hi, lo) := WithAddress(w, nnn);
      HighNibble(hi) == w && (LowNibble(hi) as bv16 << 8) | lo as bv16 == nnn
  {
    PackNibbles(w, (nnn >> 8) as bv8);
  }

  /** Decoding an address-form encoding sees its top nibble and its operand. */
  lemma DecodeAddressForm(w: nibble, nnn: Addr12)
    ensures var (hi, lo) := WithAddress(w, nnn);
      Decode(hi, lo) == DecodeFields(w, LowNibble(hi), lo)
      && (LowNibble(hi) as bv16 << 8) | lo as bv16 == nnn
  {
    WithAddressFields(w, nnn);
  }

  /** The round trip for the instructions with a 12-bit address operand. */
  lemma DecodeEncodeAddress(i: Instr)
    requires i.Jump? || i.Call? || i.LoadI? || i.JumpV0?
    ensures Decode(Encode(i).0, Encode(i).1) == i
  {
    match i
    case Jump(nnn) => DecodeAddressForm(1, nnn);
    case Call(nnn) => DecodeAddressForm(2, nnn);
    case LoadI(nnn) => DecodeAddressForm(0xA, nnn);
    case JumpV0(nnn) => DecodeAddressForm(0xB, nnn);
  }

  /** Decoding an immediate-form encoding sees its two nibbles and its low byte. */
  lemma DecodeImmediateForm(w: nibble, x: nibble, kk: byte)
    ensures var (hi, lo) := WithImmediate(w, x, kk); Decode(hi, lo) == DecodeFields(w, x, kk)
  {
    PackNibbles(w, x);
  }

  /** The round trip for the instructions with a register and an immediate byte. */
  lemma DecodeEncodeImmediate(i: Instr)
    requires i.SkipEqImm? || i.SkipNeImm? || i.LoadImm? || i.AddImm? || i.Random?
    ensures Decode(Encode(i).0, Encode(i).1) == i
  {
    if i.SkipEqImm? || i.SkipNeImm? {
      DecodeEncodeImmediateSkip(i);
    } else {
      DecodeEncodeImmediateSet(i);
    }
  }

  /** The round trip for 3xkk and 4xkk. */
  lemma DecodeEncodeImmediateSkip(i: Instr)
    requires i.SkipEqImm? || i.SkipNeImm?
    ensures Decode(Encode(i).0, Encode(i).1) == i
  {
    match i
    case SkipEqImm(x, kk) => DecodeImmediateForm(3, x, kk);
    case SkipNeImm(x, kk) => DecodeImmediateForm(4, x, kk);
  }

  /** The round trip for 6xkk, 7xkk and Cxkk. */
  lemma DecodeEncodeImmediateSet(i: Instr)
    requires i.LoadImm? || i.AddImm? || i.Random?
    ensures Decode(Encode(i).0, Encode(i).1) == i
  {
    match i
    case LoadImm(x, kk) => DecodeImmediateForm(6, x, kk);
    case AddImm(x, kk) => DecodeImmediateForm(7, x, kk);
    case Random(x, kk) => DecodeImmediateForm(0xC, x, kk);
  }

  /** The round trip for the instructions with two register operands. */
  lemma DecodeEncodeRegisters(i: Instr)
    requires i.SkipEqReg? || i.SkipNeReg? || i.Draw?
    ensures Decode(Encode(i).0, Encode(i).1) == i
  {
    match i
    case SkipEqReg(x, y) => PackNibbles(5, x); PackNibbles(y, 0);
    case SkipNeReg(x, y) => PackNibbles(9, x); PackNibbles(y, 0);
    case Draw(x, y, n) => PackNibbles(0xD, x); PackNibbles(y, n);
  }

  /** Each 8xy_ operation is selected by its own code. */
  lemma AluCodeSelects(op: AluOp)
    ensures AluOpOf(AluCode(op)) == Some(op)
  {
  }

  /** The round trip for the 8xy_ group. */
  lemma DecodeEncodeAlu(op: AluOp, x: nibble, y: nibble)
    ensures Decode(Encode(Alu(op, x, y)).0, Encode(Alu(op, x, y)).1) == Alu(op, x, y)
  {
    PackNibbles(8, x);
    PackNibbles(y, AluCode(op));
    AluCodeSelects(op);
  }

  /** The round trip for the Ex__ group. */
  lemma DecodeEncodeKey(i: Instr)
    requires i.SkipKey? || i.SkipNotKey?
    ensures Decode(Encode(i).0, Encode(i).1) == i
  {
    DecodeImmediateForm(0xE, i.x, Encode(i).1);
  }

  /** The round trip for the Fx__ instructions on timers and keys. */
  lemma DecodeEncodeTimers(i: Instr)
    requires i.GetDelay? || i.WaitKey? || i.SetDelay? || i.SetSound?
    ensures Decode(Encode(i).0, Encode(i).1) == i
  {
    DecodeImmediateForm(0xF, i.x, Encode(i).1);
  }

  /** The round trip for the Fx__ instructions on I and memory. */
  lemma DecodeEncodeIndex(i: Instr)
    requires i.AddI? || i.FontChar? || i.StoreBcd? || i.StoreRegs? || i.LoadRegs?
    ensures Decode(Encode(i).0, Encode(i).1) == i
  {
    if i.AddI? || i.FontChar? {
      DecodeEncodeIndexSet(i);
    } else {
      DecodeEncodeBlock(i);
    }
  }

  /** The round trip for Fx1E and Fx29. */
  lemma DecodeEncodeIndexSet(i: Instr)
    requires i.AddI? || i.FontChar?
    ensures Decode(Encode(i).0, Encode(i).1) == i
  {
    DecodeImmediateForm(0xF, i.x, Encode(i).1);
  }

  /** The round trip for Fx33, Fx55 and Fx65. */
  lemma DecodeEncodeBlock(i: Instr)
    requires i.StoreBcd? || i.StoreRegs? || i.LoadRegs?
    ensures Decode(Encode(i).0, Encode(i).1) == i
  {
    DecodeImmediateForm(0xF, i.x, Encode(i).1);
  }

  /** Decoding the canonical encoding gives the instruction back. */
  lemma DecodeEncode(i: Instr)
    ensures Decode(Encode(i).0, Encode(i).1) == i
  {
    if i.Jump? || i.Call? || i.LoadI? || i.JumpV0? {
      DecodeEncodeAddress(i);
    } else if i.SkipEqImm? || i.SkipNeImm? || i.LoadImm? || i.AddImm? || i.Random? {
      DecodeEncodeImmediate(i);
    } else if i.SkipEqReg? || i.SkipNeReg? || i.Draw? {
      DecodeEncodeRegisters(i);
    } else if i.Alu? {
      DecodeEncodeAlu(i.op, i.x, i.y);
    } else if i.SkipKey? || i.SkipNotKey? {
      DecodeEncodeKey(i);
    } else if i.GetDelay? || i.WaitKey? || i.SetDelay? || i.SetSound? {
      DecodeEncodeTimers(i);
    } else if !(i.ClearScreen? || i.Return? || i.Nop?) {
      DecodeEncodeIndex(i);
    }
  }

  /**
   * The register comparisons 5xy_ and 9xy_ read only `x` and `y`: the low
   * nibble `z` does not take part.
   */
  lemma RegisterSkipsIgnoreZ(x: nibble, y: nibble, z: nibble)
    ensures var (hi5, lo) := Nibbles(5, x, y, z); Decode(hi5, lo) == SkipEqReg(x, y)
    ensures var (hi9, lo) := Nibbles(9, x, y, z); Decode(hi9, lo) == SkipNeReg(x, y)
  {
    PackNibbles(5, x);
    PackNibbles(9, x);
    PackNibbles(y, z);
  }

  /** The 8xy_ patterns with `z` outside 0..7 and E (8..D and F) do nothing but advance. */
  lemma UnlistedAluIsNop(x: nibble, y: nibble, z: nibble)
    requires 8 <= z < 0xE || z == 0xF
    ensures var (hi, lo) := Nibbles(8, x, y, z); Decode(hi, lo) == Nop
  {
    PackNibbles(8, x);
    PackNibbles(y, z);
  }

  /** A `0nnn` instruction other than 00E0 and 00EE decodes to `Nop`. */
  lemma UnlistedSystemIsNop(hi: byte, lo: byte)
    requires hi < 0x10
    requires !(hi == 0 && (lo == 0xE0 || lo == 0xEE))
    ensures Decode(hi, lo) == Nop
  {
  }
}
