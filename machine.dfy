/**
 * `virtual_machine_c` as the repository writes it: an object whose memory,
 * register file and return stack are fixed-size arrays that its methods
 * update in place, step by step. Every method is proved against the value
 * semantics of module Semantics: `Abstract()` reads the object as a `Vm`,
 * and each method's postcondition says which `Vm` function its effect is.
 */
module Machine {
  import opened Bytes
  import opened MemoryMap
  import opened Instructions
  import opened Semantics
  import Sprites

  /** The groups in which `execute` is dispatched below. */
  predicate FlowOp(ins: Instr)
  {
    ins.ClearScreen? || ins.Return? || ins.Jump? || ins.Call? || ins.JumpV0?
  }

  predicate SkipOp(ins: Instr)
  {
    ins.SkipEqImm? || ins.SkipNeImm? || ins.SkipEqReg? || ins.SkipNeReg?
  }

  predicate RegisterOp(ins: Instr)
  {
    ins.LoadImm? || ins.AddImm? || ins.Alu? || ins.LoadI? || ins.Random? || ins.Draw?
  }

  predicate KeyOp(ins: Instr)
  {
    ins.SkipKey? || ins.SkipNotKey? || ins.WaitKey?
  }

  predicate TimerOp(ins: Instr)
  {
    ins.GetDelay? || ins.SetDelay? || ins.SetSound?
  }

  predicate IndexOp(ins: Instr)
  {
    ins.AddI? || ins.FontChar? || ins.StoreBcd? || ins.StoreRegs? || ins.LoadRegs?
  }

  /** Fx33's repeated division by ten yields the digits of `Bcd`. */
  lemma DigitsOfByte(b: byte)
    ensures Bcd(b) == (Wrap8(b as int / 10 / 10), Wrap8(b as int / 10 % 10), Wrap8(b as int % 10))
  {
    var u := b as int;
    assert u / 10 / 10 == u / 100;
  }

  class VirtualMachine {
    const memory: array<byte>
    const v: array<byte>
    /** The return stack; entries `stack[..stackSize]` are in use. */
    const stack: array<word>
    var stackSize: nat
    var i: word
    var delay: byte
    var sound: byte
    var pc: int
    var keyRegister: Reg
    var state: RunState
    var lastTime: u64

    ghost predicate Valid()
      reads this
    {
      memory.Length == MemorySize && v.Length == 0x10 && stack.Length == StackMax
      && stackSize <= StackMax && memory != v
    }

    /** The object read as a machine value. */
    ghost function Abstract(): Vm
      reads this, memory, v, stack
      requires Valid()
    {
      Vm(memory[..], v[..], i, stack[..stackSize], delay, sound, pc, keyRegister, state, lastTime)
    }

    /** A machine with every field zero; `Init` is what prepares it to run. */
    constructor ()
      ensures Valid() && fresh(memory) && fresh(v) && fresh(stack)
      ensures Abstract() == Vm(Zeros(), seq(0x10, _ => 0), 0, [], 0, 0, 0, 0, Running, 0)
    {
      memory := new byte[MemorySize](_ => 0);
      v := new byte[0x10](_ => 0);
      stack := new word[StackMax](_ => 0);
      stackSize := 0;
      i := 0;
      delay := 0;
      sound := 0;
      pc := 0;
      keyRegister := 0;
      state := Running;
      lastTime := 0;
    }

    /** `init`: clear memory and registers, copy the font to 0x050, start at 0x200. */
    method Init()
      requires Valid()
      modifies this, memory, v
      ensures Valid() && Abstract() == Semantics.Init(old(Abstract()))
    {
      pc := ProgramStart;
      delay := 0;
      sound := 0;
      stackSize := 0;
      for a := 0 to MemorySize
        modifies memory
        invariant forall b :: 0 <= b < a ==> memory[b] == 0
      {
        memory[a] := 0;
      }
      for r := 0 to 0x10
        modifies v
        invariant forall k :: 0 <= k < r ==> v[k] == 0
      {
        v[r] := 0;
      }
      CopyFont();
      state := Running;
      lastTime := 0;
      assert v[..] == seq(0x10, _ => 0);
    }

    /** The `std::copy` of the font table to 0x050 in a memory that is all zero. */
    method CopyFont()
      requires Valid() && forall a :: 0 <= a < MemorySize ==> memory[a] == 0
      modifies memory
      ensures memory[..] == InitialMemory()
    {
      assert memory[..] == Zeros();
      CopyBytes(FontStart, Font);
    }

    /** `load_file`: read the ROM image into memory from the program counter up to 0xEA0. */
    method LoadFile(rom: seq<byte>)
      requires Valid() && 0 <= pc <= ProgramEnd
      modifies memory
      ensures Abstract() == LoadRom(old(Abstract()), rom)
    {
      var count := if |rom| < ProgramEnd - pc then |rom| else ProgramEnd - pc;
      CopyBytes(pc, rom[..count]);
    }

    /** The byte-by-byte copy of `data` into memory at `at`. */
    method CopyBytes(at: nat, data: seq<byte>)
      requires Valid() && at + |data| <= MemorySize
      modifies memory
      ensures memory[..] == CopyInto(old(memory[..]), at, data)
    {
      for k := 0 to |data|
        invariant forall a :: 0 <= a < MemorySize ==>
          memory[a] == if at <= a < at + k then data[a - at] else old(memory[a])
      {
        memory[at + k] := data[k];
      }
      assert memory[..] == CopyInto(old(memory[..]), at, data);
    }

    /**
     * `execute`: quit on a program counter out of range; otherwise fetch the
     * two bytes at it, advance it by 2, carry out the instruction and tick
     * the timers.
     */
    method Execute(keys: Keys, rnd: byte, now: u32)
      requires Valid()
      modifies this, memory, v, stack
      ensures Valid() && Abstract() == Semantics.Execute(old(Abstract()), keys, rnd, now)
    {
      if pc >= 0xFFF || pc < 0 {
        state := Quitting;
        return;
      }
      ghost var s := Abstract();
      var ins := Decode(memory[pc], memory[pc + 1]);
      assert ins == Fetch(s);
      pc := pc + 2;
      assert Abstract() == s.(pc := s.pc + 2);
      ApplyInstruction(ins, keys, rnd);
      TickTimers(now);
    }

    /**
     * The dispatch of `execute` on an instruction, after the program counter
     * is advanced: by group of instructions, then by instruction, each
     * branch a method of its own below.
     */
    method ApplyInstruction(ins: Instr, keys: Keys, rnd: byte)
      requires Valid()
      modifies this, memory, v, stack
      ensures Valid() && Abstract() == Apply(old(Abstract()), ins, keys, rnd)
    {
      if FlowOp(ins) {
        ApplyFlow(ins, keys, rnd);
      } else if SkipOp(ins) {
        ApplySkip(ins, keys, rnd);
      } else if RegisterOp(ins) {
        ApplyRegisters(ins, keys, rnd);
      } else {
        ApplyKeyTimerIndex(ins, keys);
      }
    }

    /** 00E0, 00EE, 1nnn, 2nnn, Bnnn. */
    method ApplyFlow(ins: Instr, keys: Keys, rnd: byte)
      requires Valid() && FlowOp(ins)
      modifies this, memory, stack
      ensures Valid() && Abstract() == Apply(old(Abstract()), ins, keys, rnd)
    {
      if ins.ClearScreen? {
        ExecClearScreen(ins, keys, rnd);
      } else if ins.Return? {
        ExecReturn(ins, keys, rnd);
      } else if ins.Jump? {
        ExecJump(ins, keys, rnd);
      } else if ins.Call? {
        ExecCall(ins, keys, rnd);
      } else {
        ExecJumpV0(ins, keys, rnd);
      }
    }

    /** 3xkk, 4xkk, 5xy0, 9xy0. */
    method ApplySkip(ins: Instr, keys: Keys, rnd: byte)
      requires Valid() && SkipOp(ins)
      modifies this
      ensures Valid() && Abstract() == Apply(old(Abstract()), ins, keys, rnd)
    {
      if ins.SkipEqImm? {
        ExecSkipEqImm(ins, keys, rnd);
      } else if ins.SkipNeImm? {
        ExecSkipNeImm(ins, keys, rnd);
      } else if ins.SkipEqReg? {
        ExecSkipEqReg(ins, keys, rnd);
      } else {
        ExecSkipNeReg(ins, keys, rnd);
      }
    }

    /** 6xkk, 7xkk, 8xy_, Annn, Cxkk, Dxyn. */
    method ApplyRegisters(ins: Instr, keys: Keys, rnd: byte)
      requires Valid() && RegisterOp(ins)
      modifies this, memory, v
      ensures Valid() && Abstract() == Apply(old(Abstract()), ins, keys, rnd)
    {
      if ins.LoadImm? {
        ExecLoadImm(ins, keys, rnd);
      } else if ins.AddImm? {
        ExecAddImm(ins, keys, rnd);
      } else if ins.Alu? {
        ExecAlu(ins, keys, rnd);
      } else if ins.LoadI? {
        ExecLoadI(ins, keys, rnd);
      } else if ins.Random? {
        ExecRandom(ins, keys, rnd);
      } else {
        ExecDraw(ins, keys, rnd);
      }
    }

    /** The Ex__ and Fx__ branches of `execute`; a `Nop` changes nothing. */
    method ApplyKeyTimerIndex(ins: Instr, keys: Keys)
      requires Valid()
      modifies this, memory, v
      ensures Valid() && Abstract() == Semantics.ApplyKeyTimerIndex(old(Abstract()), ins, keys)
    {
      if KeyOp(ins) {
        ApplyKeys(ins, keys);
      } else if TimerOp(ins) {
        ApplyTimers(ins, keys);
      } else if IndexOp(ins) {
        ApplyIndex(ins, keys);
      }
    }

    /** Ex9E, ExA1, Fx0A. */
    method ApplyKeys(ins: Instr, keys: Keys)
      requires Valid() && KeyOp(ins)
      modifies this
      ensures Valid() && Abstract() == Semantics.ApplyKeyTimerIndex(old(Abstract()), ins, keys)
    {
      if ins.SkipKey? {
        ExecSkipKey(ins, keys);
      } else if ins.SkipNotKey? {
        ExecSkipNotKey(ins, keys);
      } else {
        ExecWaitKey(ins, keys);
      }
    }

    /** Fx07, Fx15, Fx18. */
    method ApplyTimers(ins: Instr, keys: Keys)
      requires Valid() && TimerOp(ins)
      modifies this, v
      ensures Valid() && Abstract() == Semantics.ApplyKeyTimerIndex(old(Abstract()), ins, keys)
    {
      if ins.GetDelay? {
        ExecGetDelay(ins, keys);
      } else if ins.SetDelay? {
        ExecSetDelay(ins, keys);
      } else {
        ExecSetSound(ins, keys);
      }
    }

    /** Fx1E, Fx29, Fx33, Fx55, Fx65. */
    method ApplyIndex(ins: Instr, keys: Keys)
      requires Valid() && IndexOp(ins)
      modifies this, memory, v
      ensures Valid() && Abstract() == Semantics.ApplyKeyTimerIndex(old(Abstract()), ins, keys)
    {
      if ins.AddI? {
        ExecAddI(ins, keys);
      } else if ins.FontChar? {
        ExecFontChar(ins, keys);
      } else if ins.StoreBcd? {
        ExecStoreBcd(ins, keys);
      } else if ins.StoreRegs? {
        ExecStoreRegs(ins, keys);
      } else {
        ExecLoadRegs(ins, keys);
      }
    }

    /** 00E0. */
    method ExecClearScreen(ins: Instr, keys: Keys, rnd: byte)
      requires Valid() && ins.ClearScreen?
      modifies memory
      ensures Abstract() == Apply(old(Abstract()), ins, keys, rnd)
    {
      ClearDisplay();
    }

    /** 00EE: pop the return address, or quit on an empty stack. */
    method ExecReturn(ins: Instr, keys: Keys, rnd: byte)
      requires Valid() && ins.Return?
      modifies this
      ensures Valid() && Abstract() == Apply(old(Abstract()), ins, keys, rnd)
    {
      if stackSize > 0 {
        pc := stack[stackSize - 1] as int;
        stackSize := stackSize - 1;
      } else {
        state := Quitting;
      }
    }

    /** 1nnn. */
    method ExecJump(ins: Instr, keys: Keys, rnd: byte)
      requires Valid() && ins.Jump?
      modifies this
      ensures Valid() && Abstract() == Apply(old(Abstract()), ins, keys, rnd)
    {
      pc := ins.nnn as int;
    }

    /** 2nnn: push the program counter and jump, unless the stack is full. */
    method ExecCall(ins: Instr, keys: Keys, rnd: byte)
      requires Valid() && ins.Call?
      modifies this, stack
      ensures Valid() && Abstract() == Apply(old(Abstract()), ins, keys, rnd)
    {
      if stackSize < StackMax {
        stack[stackSize] := Low16(pc);
        stackSize := stackSize + 1;
        pc := ins.nnn as int;
        assert stack[..stackSize] == old(stack[..stackSize]) + [Low16(old(pc))];
      }
    }

    /** 3xkk. */
    method ExecSkipEqImm(ins: Instr, keys: Keys, rnd: byte)
      requires Valid() && ins.SkipEqImm?
      modifies this
      ensures Valid() && Abstract() == Apply(old(Abstract()), ins, keys, rnd)
    {
      var a := v[ins.x as int];
      if a == ins.kk {
        pc := pc + 2;
      }
    }

    /** 4xkk. */
    method ExecSkipNeImm(ins: Instr, keys: Keys, rnd: byte)
      requires Valid() && ins.SkipNeImm?
      modifies this
      ensures Valid() && Abstract() == Apply(old(Abstract()), ins, keys, rnd)
    {
      var a := v[ins.x as int];
      if a != ins.kk {
        pc := pc + 2;
      }
    }

    /** 5xy0. */
    method ExecSkipEqReg(ins: Instr, keys: Keys, rnd: byte)
      requires Valid() && ins.SkipEqReg?
      modifies this
      ensures Valid() && Abstract() == Apply(old(Abstract()), ins, keys, rnd)
    {
      var a, b := v[ins.x as int], v[ins.y as int];
      if a == b {
        pc := pc + 2;
      }
    }

    /** 6xkk. */
    method ExecLoadImm(ins: Instr, keys: Keys, rnd: byte)
      requires Valid() && ins.LoadImm?
      modifies v
      ensures Abstract() == Apply(old(Abstract()), ins, keys, rnd)
    {
      v[ins.x as int] := ins.kk;
    }

    /** 7xkk: Vx += kk, without touching VF. */
    method ExecAddImm(ins: Instr, keys: Keys, rnd: byte)
      requires Valid() && ins.AddImm?
      modifies v
      ensures Abstract() == Apply(old(Abstract()), ins, keys, rnd)
    {
      var b := Wrap8(v[ins.x as int] as int + ins.kk as int);
      v[ins.x as int] := b;
    }

    /** 8xy_. */
    method ExecAlu(ins: Instr, keys: Keys, rnd: byte)
      requires Valid() && ins.Alu?
      modifies v
      ensures Abstract() == Apply(old(Abstract()), ins, keys, rnd)
    {
      Arithmetic(ins.op, ins.x as int, ins.y as int);
    }

    /** 9xy0. */
    method ExecSkipNeReg(ins: Instr, keys: Keys, rnd: byte)
      requires Valid() && ins.SkipNeReg?
      modifies this
      ensures Valid() && Abstract() == Apply(old(Abstract()), ins, keys, rnd)
    {
      var a, b := v[ins.x as int], v[ins.y as int];
      if a != b {
        pc := pc + 2;
      }
    }

    /** Annn. */
    method ExecLoadI(ins: Instr, keys: Keys, rnd: byte)
      requires Valid() && ins.LoadI?
      modifies this
      ensures Valid() && Abstract() == Apply(old(Abstract()), ins, keys, rnd)
    {
      i := ins.nnn as int;
    }

    /** Bnnn: jump to V0 + nnn. */
    method ExecJumpV0(ins: Instr, keys: Keys, rnd: byte)
      requires Valid() && ins.JumpV0?
      modifies this
      ensures Valid() && Abstract() == Apply(old(Abstract()), ins, keys, rnd)
    {
      pc := v[0] as int + ins.nnn as int;
    }

    /** Cxkk: Vx := the random byte, then Vx &= kk. */
    method ExecRandom(ins: Instr, keys: Keys, rnd: byte)
      requires Valid() && ins.Random?
      modifies v
      ensures Abstract() == Apply(old(Abstract()), ins, keys, rnd)
    {
      var r := rnd;
      v[ins.x as int] := r;
      var b := r & ins.kk;
      v[ins.x as int] := b;
    }

    /** Dxyn. */
    method ExecDraw(ins: Instr, keys: Keys, rnd: byte)
      requires Valid() && ins.Draw?
      modifies memory, v
      ensures Abstract() == Apply(old(Abstract()), ins, keys, rnd)
    {
      DrawSpriteAt(ins.x as int, ins.y as int, ins.n as int);
    }

    /** Ex9E: skip when the key numbered Vx is down. */
    method ExecSkipKey(ins: Instr, keys: Keys)
      requires Valid() && ins.SkipKey?
      modifies this
      ensures Valid() && Abstract() == Semantics.ApplyKeyTimerIndex(old(Abstract()), ins, keys)
    {
      if KeyPressed(keys, v[ins.x as int] as int) {
        pc := pc + 2;
      }
    }

    /** ExA1: skip when the key numbered Vx is not down. */
    method ExecSkipNotKey(ins: Instr, keys: Keys)
      requires Valid() && ins.SkipNotKey?
      modifies this
      ensures Valid() && Abstract() == Semantics.ApplyKeyTimerIndex(old(Abstract()), ins, keys)
    {
      if !KeyPressed(keys, v[ins.x as int] as int) {
        pc := pc + 2;
      }
    }

    /** Fx07. */
    method ExecGetDelay(ins: Instr, keys: Keys)
      requires Valid() && ins.GetDelay?
      modifies v
      ensures Abstract() == Semantics.ApplyKeyTimerIndex(old(Abstract()), ins, keys)
    {
      v[ins.x as int] := delay;
    }

    /** Fx0A: remember the register to fill in and wait for a key. */
    method ExecWaitKey(ins: Instr, keys: Keys)
      requires Valid() && ins.WaitKey?
      modifies this
      ensures Valid() && Abstract() == Semantics.ApplyKeyTimerIndex(old(Abstract()), ins, keys)
    {
      keyRegister := ins.x as int;
      state := WaitingForKey;
    }

    /** Fx15. */
    method ExecSetDelay(ins: Instr, keys: Keys)
      requires Valid() && ins.SetDelay?
      modifies this
      ensures Valid() && Abstract() == Semantics.ApplyKeyTimerIndex(old(Abstract()), ins, keys)
    {
      delay := v[ins.x as int];
    }

    /** Fx18. */
    method ExecSetSound(ins: Instr, keys: Keys)
      requires Valid() && ins.SetSound?
      modifies this
      ensures Valid() && Abstract() == Semantics.ApplyKeyTimerIndex(old(Abstract()), ins, keys)
    {
      sound := v[ins.x as int];
    }

    /** Fx1E: I += Vx in `unsigned short`. */
    method ExecAddI(ins: Instr, keys: Keys)
      requires Valid() && ins.AddI?
      modifies this
      ensures Valid() && Abstract() == Semantics.ApplyKeyTimerIndex(old(Abstract()), ins, keys)
    {
      i := Low16(i + v[ins.x as int] as int);
    }

    /** Fx29: I := 0x050 + 5 * Vx. */
    method ExecFontChar(ins: Instr, keys: Keys)
      requires Valid() && ins.FontChar?
      modifies this
      ensures Valid() && Abstract() == Semantics.ApplyKeyTimerIndex(old(Abstract()), ins, keys)
    {
      i := Low16(FontStart + 5 * v[ins.x as int] as int);
    }

    /** Fx33. */
    method ExecStoreBcd(ins: Instr, keys: Keys)
      requires Valid() && ins.StoreBcd?
      modifies memory
      ensures Abstract() == Semantics.ApplyKeyTimerIndex(old(Abstract()), ins, keys)
    {
      StoreDecimal(ins.x as int);
    }

    /** Fx55. */
    method ExecStoreRegs(ins: Instr, keys: Keys)
      requires Valid() && ins.StoreRegs?
      modifies memory
      ensures Abstract() == Semantics.ApplyKeyTimerIndex(old(Abstract()), ins, keys)
    {
      StoreRegisters(ins.x as int);
    }

    /** Fx65. */
    method ExecLoadRegs(ins: Instr, keys: Keys)
      requires Valid() && ins.LoadRegs?
      modifies v
      ensures Abstract() == Semantics.ApplyKeyTimerIndex(old(Abstract()), ins, keys)
    {
      LoadRegisters(ins.x as int);
    }

    /** 00E0: zero the frame buffer 0xF00..0xFFF. */
    method ClearDisplay()
      requires Valid()
      modifies memory
      ensures Abstract() == old(Abstract()).(memory := ClearFrame(old(memory[..])))
    {
      for a := FrameStart to MemorySize
        invariant forall b :: 0 <= b < MemorySize ==>
          memory[b] == if FrameStart <= b < a then 0 else old(memory[b])
      {
        memory[a] := 0;
      }
      assert memory[..] == ClearFrame(old(memory[..]));
    }

    /** The 8xy_ branch. */
    method Arithmetic(op: AluOp, x: Reg, y: Reg)
      requires Valid()
      modifies v
      ensures Abstract() == old(Abstract()).(v := AluStep(old(v[..]), op, x, y))
    {
      match op
      case Mov => v[x] := v[y];
      case Or => Logic(op, x, y);
      case And => Logic(op, x, y);
      case Xor => Logic(op, x, y);
      case Add => AddWithCarry(x, y);
      case Sub => Subtract(x, y);
      case Shr => ShiftRight(x);
      case SubN => SubtractFrom(x, y);
      case Shl => ShiftLeft(x);
    }

    /** 8xy1, 8xy2, 8xy3: Vx |=, &= or ^= Vy. */
    method Logic(op: AluOp, x: Reg, y: Reg)
      requires Valid() && (op.Or? || op.And? || op.Xor?)
      modifies v
      ensures v[..] == AluStep(old(v[..]), op, x, y)
    {
      var a, b := v[x], v[y];
      var r := if op.Or? then a | b else if op.And? then a & b else a ^ b;
      v[x] := r;
    }

    /** 8xy4: the sum is formed first, then VF is its carry and Vx its low byte. */
    method AddWithCarry(x: Reg, y: Reg)
      requires Valid()
      modifies v
      ensures v[..] == AluStep(old(v[..]), AluOp.Add, x, y)
    {
      var a, b := v[x], v[y];
      var h := a as int + b as int;
      var f, r := Flag(h >= 256), Wrap8(h);
      v[VF] := f;
      v[x] := r;
    }

    /** 8xy5: VF := Vx >= Vy, then Vx -= Vy. */
    method Subtract(x: Reg, y: Reg)
      requires Valid()
      modifies v
      ensures v[..] == AluStep(old(v[..]), AluOp.Sub, x, y)
    {
      v[VF] := Flag(v[x] as int >= v[y] as int);
      v[x] := Wrap8(v[x] as int - v[y] as int);
    }

    /** 8xy6: VF := the low bit of Vx, then Vx >>= 1. */
    method ShiftRight(x: Reg)
      requires Valid()
      modifies v
      ensures forall y: Reg :: v[..] == AluStep(old(v[..]), AluOp.Shr, x, y)
    {
      v[VF] := v[x] & 1;
      v[x] := v[x] >> 1;
    }

    /** 8xy7: VF := Vy >= Vx, then Vx := Vy - Vx. */
    method SubtractFrom(x: Reg, y: Reg)
      requires Valid()
      modifies v
      ensures v[..] == AluStep(old(v[..]), AluOp.SubN, x, y)
    {
      v[VF] := Flag(v[y] as int >= v[x] as int);
      v[x] := Wrap8(v[y] as int - v[x] as int);
    }

    /** 8xyE: VF := the high bit of Vx, then Vx <<= 1. */
    method ShiftLeft(x: Reg)
      requires Valid()
      modifies v
      ensures forall y: Reg :: v[..] == AluStep(old(v[..]), AluOp.Shl, x, y)
    {
      v[VF] := v[x] >> 7;
      v[x] := v[x] << 1;
    }

    /** Dxyn: clear VF, then XOR the `n` sprite rows into the frame buffer one by one. */
    method DrawSpriteAt(x: Reg, y: Reg, n: Sprites.Height)
      requires Valid()
      modifies memory, v
      ensures Abstract() == Semantics.DrawSprite(old(Abstract()), x, y, n)
    {
      v[VF] := 0;
      ghost var m0, v0 := memory[..], v[..];
      for row := 0 to n
        invariant (memory[..], v[..]) == Sprites.DrawRows(m0, v0, i, x, y, row)
      {
        DrawSpriteRow(x, y, row);
      }
    }

    /** One iteration of the row loop of Dxyn. */
    method DrawSpriteRow(x: Reg, y: Reg, row: nat)
      requires Valid()
      modifies memory, v
      ensures (memory[..], v[..]) == Sprites.DrawRow(old(memory[..]), old(v[..]), i, x, y, row)
    {
      if v[x] % 8 == 0 {
        DrawAlignedRow(x, y, row);
      } else {
        DrawStraddlingRow(x, y, row);
      }
    }

    /** A row drawn at a column that is a multiple of 8: one frame-buffer byte. */
    method DrawAlignedRow(x: Reg, y: Reg, row: nat)
      requires Valid() && v[x] % 8 == 0
      modifies memory, v
      ensures (memory[..], v[..]) == Sprites.DrawRow(old(memory[..]), old(v[..]), i, x, y, row)
    {
      var b := memory[Sprites.SourceAddr(i, row)];
      var j0 := Sprites.DestAddr(v[x], v[y], row, 0);
      var a := memory[j0];
      if Overlap(a, b) {
        v[VF] := 1;
      }
      memory[j0] := Bytes.Xor(a, b);
    }

    /** A row drawn off a byte boundary: split over two frame-buffer bytes. */
    method DrawStraddlingRow(x: Reg, y: Reg, row: nat)
      requires Valid() && v[x] % 8 != 0
      modifies memory, v
      ensures (memory[..], v[..]) == Sprites.DrawRow(old(memory[..]), old(v[..]), i, x, y, row)
    {
      ghost var m0, v0 := memory[..], v[..];
      var r := v[x] % 8;
      var b := memory[Sprites.SourceAddr(i, row)];
      var c, d := Sprites.RowPart(b, r, 0), Sprites.RowPart(b, r, 1);
      var j0 := Sprites.DestAddr(v[x], v[y], row, 0);
      var j1 := Sprites.DestAddr(v[x], v[y], row, 1);
      var a0, a1 := memory[j0], memory[j1];
      ghost var hit := Sprites.RowHit(m0, b, r, j0, j1);
      if Overlap(a0, c) || Overlap(a1, d) {
        v[VF] := 1;
      }
      assert v[..] == if hit then v0[VF := 1] else v0;
      memory[j0] := Bytes.Xor(a0, c);
      memory[j1] := Bytes.Xor(a1, d);
      Sprites.DestPartsDistinct(v0[x], v0[y], row);
      Sprites.RowWriteUniform(m0, b, r, j0, j1);
    }

    /** Fx33: the decimal digits of Vx at I, I+1 and I+2, ones digit first. */
    method StoreDecimal(x: Reg)
      requires Valid()
      modifies memory
      ensures Abstract() == old(Abstract()).(memory := StoreDigits(old(memory[..]), i, v[x]))
    {
      var u := v[x] as int;
      var ones := Wrap8(u % 10);
      u := u / 10;
      var tens := Wrap8(u % 10);
      u := u / 10;
      var hundreds := Wrap8(u);
      DigitsOfByte(v[x]);
      memory[Addr(i + 2)] := ones;
      memory[Addr(i + 1)] := tens;
      memory[Addr(i)] := hundreds;
    }

    /** Fx55: V0..Vx to memory at I, I+1, ... */
    method StoreRegisters(x: Reg)
      requires Valid()
      modifies memory
      ensures Abstract() == old(Abstract()).(memory := StoreBlock(old(memory[..]), v[..], i, x + 1))
    {
      for j := 0 to x + 1
        invariant forall a :: 0 <= a < MemorySize ==>
          memory[a] == if Offset(i, a) < j then v[Offset(i, a)] else old(memory[a])
      {
        OffsetOfAddr(i, j);
        forall a | 0 <= a < MemorySize
          ensures Offset(i, a) == j ==> a == Addr(i + j)
        {
          AddrOfOffset(i, a);
        }
        memory[Addr(i + j)] := v[j];
      }
      assert memory[..] == StoreBlock(old(memory[..]), v[..], i, x + 1);
    }

    /** Fx65: V0..Vx from memory at I, I+1, ... */
    method LoadRegisters(x: Reg)
      requires Valid()
      modifies v
      ensures Abstract() == old(Abstract()).(v := LoadBlock(old(v[..]), memory[..], i, x + 1))
    {
      for j := 0 to x + 1
        invariant forall k :: 0 <= k < 0x10 ==>
          v[k] == if k < j then memory[Addr(i + k)] else old(v[k])
      {
        v[j] := memory[Addr(i + j)];
      }
      assert v[..] == LoadBlock(old(v[..]), memory[..], i, x + 1);
    }

    /** The timer update that ends `execute`. */
    method TickTimers(now: u32)
      requires Valid()
      modifies this
      ensures Valid() && Abstract() == Tick(old(Abstract()), now)
    {
      if TickDue(now, lastTime) {
        if delay as int > 0 {
          delay := Wrap8(delay as int - 1);
        }
        if sound as int > 0 {
          sound := Wrap8(sound as int - 1);
        }
        lastTime := now;
      }
    }

    /** The loop of `draw`: the colour of every pixel, row by row. */
    method Draw() returns (frame: seq<seq<bool>>)
      requires Valid()
      ensures |frame| == ScreenHeight
      ensures forall py :: 0 <= py < ScreenHeight ==> |frame[py]| == ScreenWidth
      ensures forall py, px :: 0 <= py < ScreenHeight && 0 <= px < ScreenWidth ==>
        frame[py][px] == Pixel(memory[..], px, py)
    {
      frame := [];
      for py := 0 to ScreenHeight
        invariant |frame| == py
        invariant forall q :: 0 <= q < py ==> |frame[q]| == ScreenWidth
        invariant forall q, px :: 0 <= q < py && 0 <= px < ScreenWidth ==>
          frame[q][px] == Pixel(memory[..], px, q)
      {
        var line := [];
        for px := 0 to ScreenWidth
          invariant |line| == px
          invariant forall p :: 0 <= p < px ==> line[p] == Pixel(memory[..], p, py)
        {
          var idx := FrameStart + py * 8 + px / 8;
          line := line + [Overlap(memory[idx], PixelMask[px % 8])];
        }
        frame := frame + [line];
      }
    }

    /** The handling of one polled event in `run`: a quit request, then a key ending a wait. */
    method HandleEvent(e: Event)
      requires Valid()
      modifies this, v
      ensures Valid() && Abstract() == Semantics.HandleEvent(old(Abstract()), e)
    {
      if e.QuitEvent? {
        state := Quitting;
      }
      if state == WaitingForKey && e.KeyDown? {
        ghost var s := Abstract();
        for key := 0 to 0x10
          invariant Valid()
          invariant Abstract() ==
            if 0 <= e.key < key then s.(v := s.v[s.keyRegister := e.key as bv8], state := Running) else s
        {
          if key == e.key {
            v[keyRegister] := key as bv8;
            state := Running;
          }
        }
      }
    }

    /**
     * `run` over a finite sequence of inputs: each iteration handles the
     * polled events, does nothing more while waiting for a key, stops when
     * quitting, and otherwise executes one instruction.
     */
    method Run(inputs: seq<Input>)
      requires Valid()
      modifies this, memory, v, stack
      ensures Valid() && Abstract() == Semantics.Run(old(Abstract()), inputs)
    {
      var n := 0;
      while n < |inputs|
        invariant 0 <= n <= |inputs| && Valid()
        invariant Semantics.Run(Abstract(), inputs[n..]) == Semantics.Run(old(Abstract()), inputs)
        decreases |inputs| - n
      {
        ghost var s := Abstract();
        var events := inputs[n].events;
        for k := 0 to |events|
          invariant Valid()
          invariant HandleEvents(Abstract(), events[k..]) == HandleEvents(s, events)
        {
          assert events[k..][1..] == events[k + 1..];
          HandleEvent(events[k]);
        }
        assert inputs[n..][1..] == inputs[n + 1..];
        if state == WaitingForKey {
          n := n + 1;
          continue;
        }
        if state == Quitting {
          break;
        }
        Execute(inputs[n].keys, inputs[n].rnd, inputs[n].now);
        n := n + 1;
      }
    }
  }
}
