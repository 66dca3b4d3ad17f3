/**
 * What the operations of the virtual machine guarantee: the state `init`
 * leaves, where `load_file` puts the ROM, how each step moves the program
 * counter and the stack, the flags of the 8xy_ group, the memory opcodes,
 * the timers and the event handling of the run loop.
 */
module Properties {
  import opened Bytes
  import opened MemoryMap
  import opened Instructions
  import opened Semantics

  // ---------------------------------------------------------------- init and load

  /**
   * After `init` the program counter is 0x200, the machine runs, the stack
   * is empty, timers and registers are 0, and memory is zero but for the
   * font table at 0x050..0x09F.
   */
  lemma InitState(prev: Vm)
    ensures var s := Init(prev);
      s.pc == ProgramStart && s.state == Running && s.stack == [] && s.delay == 0 && s.sound == 0
      && s.lastTime == 0 && (forall j :: 0 <= j < 0x10 ==> s.v[j] == 0)
      && (forall a :: 0 <= a < MemorySize ==>
            s.memory[a] == if FontStart <= a < 0x0A0 then Font[a - FontStart] else 0)
  {
  }

  /**
   * Loading a ROM into a freshly initialised machine puts byte `k` at
   * 0x200 + k for every byte below 0xEA0, and changes nothing else.
   */
  lemma LoadRomPlaces(prev: Vm, rom: seq<byte>)
    ensures var s0 := Init(prev); var s := LoadRom(s0, rom);
      (forall k :: 0 <= k < |rom| && ProgramStart + k < ProgramEnd ==> s.memory[ProgramStart + k] == rom[k])
      && (forall a :: 0 <= a < MemorySize && (a < ProgramStart || a >= ProgramStart + |rom| || a >= ProgramEnd) ==>
            s.memory[a] == s0.memory[a])
      && s.(memory := s0.memory) == s0
  {
  }

  /** The glyph of hex digit `d` sits at 0x050 + 5d after `init`. */
  lemma FontGlyph(prev: Vm, d: int, r: int)
    requires 0 <= d < 0x10 && 0 <= r < 5
    ensures Init(prev).memory[FontStart + 5 * d + r] == Font[5 * d + r]
  {
  }

  // ---------------------------------------------------------------- fetch

  /** The canonical encoding of an instruction placed at the program counter is fetched as that instruction. */
  lemma FetchEncoded(s: Vm, ins: Instr)
    requires PcInRange(s.pc)
    requires (s.memory[s.pc], s.memory[s.pc + 1]) == Encode(ins)
    ensures Fetch(s) == ins
  {
    DecodeEncode(ins);
  }

  /**
   * A program counter outside 0..0xFFE makes the step quit and changes
   * nothing else, not even the timers.
   */
  lemma OutOfRangeQuits(s: Vm, keys: Keys, rnd: byte, now: u32)
    requires !PcInRange(s.pc)
    ensures Execute(s, keys, rnd, now) == s.(state := Quitting)
  {
  }

  /**
   * `execute` on a program counter in range carries out the step of the
   * instruction whose canonical encoding is stored there.
   */
  lemma ExecuteEncoded(s: Vm, ins: Instr, keys: Keys, rnd: byte, now: u32)
    requires PcInRange(s.pc)
    requires (s.memory[s.pc], s.memory[s.pc + 1]) == Encode(ins)
    ensures Execute(s, keys, rnd, now) == Step(s, ins, keys, rnd, now)
  {
    FetchEncoded(s, ins);
  }

  /** The timer tick touches nothing but the timers and the time of the last tick. */
  lemma TickFrame(s: Vm, now: u32)
    ensures var t := Tick(s, now); t == s.(delay := t.delay, sound := t.sound, lastTime := t.lastTime)
  {
  }

  // ---------------------------------------------------------------- program counter

  /** The instructions that, besides the fetch's advance by 2, set or move the program counter. */
  predicate ControlsPc(ins: Instr)
  {
    ins.Return? || ins.Jump? || ins.Call? || ins.JumpV0? || ins.SkipEqImm? || ins.SkipNeImm?
      || ins.SkipEqReg? || ins.SkipNeReg? || ins.SkipKey? || ins.SkipNotKey?
  }

  /** The Ex__ and Fx__ groups other than the key skips leave the program counter alone. */
  lemma KeyTimerIndexKeepsPc(s: Vm, ins: Instr, keys: Keys)
    requires !ControlsPc(ins)
    ensures ApplyKeyTimerIndex(s, ins, keys).pc == s.pc
  {
  }

  /** Every instruction that does not control the program counter leaves it at pc + 2. */
  lemma SequentialAdvances(s: Vm, ins: Instr, keys: Keys, rnd: byte, now: u32)
    requires !ControlsPc(ins)
    ensures Step(s, ins, keys, rnd, now).pc == s.pc + 2
  {
    KeyTimerIndexKeepsPc(s.(pc := s.pc + 2), ins, keys);
  }

  /** 1nnn jumps to nnn. */
  lemma JumpSetsPc(s: Vm, nnn: Addr12, keys: Keys, rnd: byte, now: u32)
    ensures Step(s, Jump(nnn), keys, rnd, now) == Tick(s.(pc := nnn as int), now)
  {
  }

  /** Bnnn jumps to V0 + nnn. */
  lemma JumpV0SetsPc(s: Vm, nnn: Addr12, keys: Keys, rnd: byte, now: u32)
    ensures Step(s, JumpV0(nnn), keys, rnd, now) == Tick(s.(pc := s.v[0] as int + nnn as int), now)
  {
  }

  /** Whether a skip instruction's condition holds. */
  predicate SkipTaken(v: Registers, ins: Instr, keys: Keys)
  {
    match ins
    case SkipEqImm(x, kk) => v[x as int] == kk
    case SkipNeImm(x, kk) => v[x as int] != kk
    case SkipEqReg(x, y) => v[x as int] == v[y as int]
    case SkipNeReg(x, y) => v[x as int] != v[y as int]
    case SkipKey(x) => KeyPressed(keys, v[x as int] as int)
    case SkipNotKey(x) => !KeyPressed(keys, v[x as int] as int)
    case _ => false
  }

  /** A skip adds exactly 2 more to the program counter when its condition holds, and changes nothing else. */
  lemma SkipsByCondition(s: Vm, ins: Instr, keys: Keys, rnd: byte, now: u32)
    requires ins.SkipEqImm? || ins.SkipNeImm? || ins.SkipEqReg? || ins.SkipNeReg? || ins.SkipKey? || ins.SkipNotKey?
    ensures Step(s, ins, keys, rnd, now) == Tick(s.(pc := s.pc + if SkipTaken(s.v, ins, keys) then 4 else 2), now)
  {
  }

  /** Ex9E and ExA1 treat a key index of 16 or more as a key that is not pressed. */
  lemma KeySkipsOutOfRange(s: Vm, x: nibble, keys: Keys, rnd: byte, now: u32)
    requires s.v[x as int] >= 0x10
    ensures Step(s, SkipKey(x), keys, rnd, now).pc == s.pc + 2
    ensures Step(s, SkipNotKey(x), keys, rnd, now).pc == s.pc + 4
  {
  }

  // ---------------------------------------------------------------- call and return

  /** 2nnn below the depth limit pushes the advanced program counter and jumps to nnn. */
  lemma CallPushes(s: Vm, nnn: Addr12, keys: Keys, rnd: byte, now: u32)
    requires |s.stack| < StackMax && 0 <= s.pc < 0xFFF
    ensures Step(s, Call(nnn), keys, rnd, now) == Tick(s.(stack := s.stack + [s.pc + 2], pc := nnn as int), now)
  {
  }

  /** 2nnn at depth 24 leaves the stack alone and execution goes on at pc + 2. */
  lemma CallAtFullDepth(s: Vm, nnn: Addr12, keys: Keys, rnd: byte, now: u32)
    requires |s.stack| == StackMax
    ensures Step(s, Call(nnn), keys, rnd, now) == Tick(s.(pc := s.pc + 2), now)
  {
  }

  /** 00EE pops the top of the stack into the program counter. */
  lemma ReturnPops(s: Vm, keys: Keys, rnd: byte, now: u32)
    requires |s.stack| > 0
    ensures Step(s, Return, keys, rnd, now)
      == Tick(s.(pc := s.stack[|s.stack| - 1] as int, stack := s.stack[..|s.stack| - 1]), now)
  {
  }

  /** 00EE on an empty stack quits. */
  lemma ReturnOnEmptyQuits(s: Vm, keys: Keys, rnd: byte, now: u32)
    requires s.stack == []
    ensures Step(s, Return, keys, rnd, now) == Tick(s.(pc := s.pc + 2, state := Quitting), now)
  {
  }

  /** A return right after a call undoes it: the stack is as before and pc is the call's advanced pc. */
  lemma CallThenReturn(s: Vm, nnn: int)
    requires |s.stack| < StackMax && 0 <= s.pc < 0x1_0000
    ensures PopReturn(PushCall(s, nnn)) == s
  {
  }

  /**
   * Two steps: 2nnn, then 00EE. The program counter comes back to the
   * instruction after the call, the stack to what it was, and memory,
   * registers and I are untouched.
   */
  lemma CallReturnSteps(s: Vm, nnn: Addr12, k1: Keys, r1: byte, t1: u32, k2: Keys, r2: byte, t2: u32)
    requires PcInRange(s.pc) && |s.stack| < StackMax
    ensures var s2 := Step(Step(s, Call(nnn), k1, r1, t1), Return, k2, r2, t2);
      s2.pc == s.pc + 2 && s2.stack == s.stack && s2.memory == s.memory && s2.v == s.v
      && s2.i == s.i && s2.state == s.state
  {
    CallPushes(s, nnn, k1, r1, t1);
    var called := s.(stack := s.stack + [s.pc + 2], pc := nnn as int);
    TickFrame(called, t1);
    var s1 := Tick(called, t1);
    ReturnPops(s1, k2, r2, t2);
    TickFrame(s1.(pc := s1.stack[|s1.stack| - 1] as int, stack := s1.stack[..|s1.stack| - 1]), t2);
  }

  // ---------------------------------------------------------------- registers

  /** 6xkk: reading Vx afterwards yields kk, and no other register or part of the machine changes. */
  lemma LoadImmSets(s: Vm, x: nibble, kk: byte, keys: Keys, rnd: byte)
    ensures var t := Apply(s, LoadImm(x, kk), keys, rnd);
      t.v[x as int] == kk
      && (forall j :: 0 <= j < 0x10 && j != x as int ==> t.v[j] == s.v[j])
      && t == s.(v := t.v)
  {
  }

  /** 7xkk adds modulo 256 and does not touch VF (or any other register) unless x is F. */
  lemma AddImmWraps(s: Vm, x: nibble, kk: byte, keys: Keys, rnd: byte)
    ensures var t := Apply(s, AddImm(x, kk), keys, rnd);
      t.v[x as int] as int == (s.v[x as int] as int + kk as int) % 256
      && (forall j :: 0 <= j < 0x10 && j != x as int ==> t.v[j] == s.v[j])
      && t == s.(v := t.v)
  {
  }

  /** 8xy4: VF = 1 exactly when Vx + Vy carries out of 8 bits; Vx = the sum modulo 256. */
  lemma AddCarry(v: Registers, x: Reg, y: Reg)
    requires x != VF
    ensures var w := AluStep(v, Add, x, y);
      w[VF] == (if v[x] as int + v[y] as int >= 256 then 1 else 0)
      && w[x] as int == (v[x] as int + v[y] as int) % 256
      && (forall j :: 0 <= j < 0x10 && j != x && j != VF ==> w[j] == v[j])
  {
  }

  /** 8Fy4: the sum is written after the carry, so VF ends holding the sum. */
  lemma AddIntoFlag(v: Registers, y: Reg)
    ensures AluStep(v, Add, VF, y)[VF] as int == (v[VF] as int + v[y] as int) % 256
  {
  }

  /** 8xy5: VF = 1 exactly when Vx >= Vy (no borrow); Vx = Vx - Vy modulo 256. */
  lemma SubBorrow(v: Registers, x: Reg, y: Reg)
    requires x != VF && y != VF
    ensures var w := AluStep(v, Sub, x, y);
      w[VF] == (if v[x] as int >= v[y] as int then 1 else 0)
      && w[x] as int == (v[x] as int - v[y] as int) % 256
      && (forall j :: 0 <= j < 0x10 && j != x && j != VF ==> w[j] == v[j])
  {
  }

  /** 8xF5: the flag is written before the subtraction reads VF, so Vy is the flag itself. */
  lemma SubReadsFlag(v: Registers, x: Reg)
    requires x != VF
    ensures var f := if v[x] as int >= v[VF] as int then 1 else 0;
      AluStep(v, Sub, x, VF)[x] as int == (v[x] as int - f) % 256
  {
    var w := v[VF := Flag(v[x] as int >= v[VF] as int)];
    assert w[x] == v[x];
    assert w[VF] as int == if v[x] as int >= v[VF] as int then 1 else 0;
  }

  /** 8xy7: VF = 1 exactly when Vy >= Vx; Vx = Vy - Vx modulo 256. */
  lemma SubNBorrow(v: Registers, x: Reg, y: Reg)
    requires x != VF && y != VF
    ensures var w := AluStep(v, SubN, x, y);
      w[VF] == (if v[y] as int >= v[x] as int then 1 else 0)
      && w[x] as int == (v[y] as int - v[x] as int) % 256
      && (forall j :: 0 <= j < 0x10 && j != x && j != VF ==> w[j] == v[j])
  {
  }

  /** 8xy6 shifts Vx, not Vy, right by one; VF = the bit shifted out. */
  lemma ShiftRight(v: Registers, x: Reg, y: Reg)
    requires x != VF
    ensures var w := AluStep(v, Shr, x, y);
      w[VF] as int == v[x] as int % 2 && w[x] as int == v[x] as int / 2
      && (forall j :: 0 <= j < 0x10 && j != x && j != VF ==> w[j] == v[j])
  {
    ShiftRightOne(v[x]);
  }

  /** 8xyE shifts Vx, not Vy, left by one; VF = the bit shifted out. */
  lemma ShiftLeft(v: Registers, x: Reg, y: Reg)
    requires x != VF
    ensures var w := AluStep(v, Shl, x, y);
      w[VF] as int == v[x] as int / 128 && w[x] as int == v[x] as int * 2 % 256
      && (forall j :: 0 <= j < 0x10 && j != x && j != VF ==> w[j] == v[j])
  {
    ShiftLeftOne(v[x]);
  }

  /** 8xy0..8xy3 change Vx only; VF keeps its value unless it is Vx. */
  lemma LogicLeavesFlag(v: Registers, op: AluOp, x: Reg, y: Reg)
    requires op == Mov || op == Or || op == And || op == Xor
    ensures forall j :: 0 <= j < 0x10 && j != x ==> AluStep(v, op, x, y)[j] == v[j]
  {
  }

  /**
   * A pattern that `execute` ignores (8xy_ with z among 8..D or F, 0nnn other
   * than 00E0 and 00EE, Ex__ and Fx__ with an unlisted low byte) decodes to
   * `Nop`, whose step changes nothing but the program counter and the timers.
   */
  lemma NopChangesOnlyPc(s: Vm, keys: Keys, rnd: byte, now: u32)
    ensures Step(s, Nop, keys, rnd, now) == Tick(s.(pc := s.pc + 2), now)
  {
  }

  /** Cxkk keeps of the random byte only the bits set in kk. */
  lemma RandomMasked(s: Vm, x: nibble, kk: byte, keys: Keys, rnd: byte)
    ensures var t := Apply(s, Random(x, kk), keys, rnd);
      t.v[x as int] == rnd & kk && t.v[x as int] & !kk == 0
      && (forall j :: 0 <= j < 0x10 && j != x as int ==> t.v[j] == s.v[j]) && t == s.(v := t.v)
  {
    var t := Apply(s, Random(x, kk), keys, rnd);
    assert t == s.(v := s.v[x as int := rnd & kk]);
    MaskedWithin(rnd, kk);
  }

  // ---------------------------------------------------------------- memory opcodes

  /** The three digits of Fx33 are decimal digits and make up the byte. */
  lemma BcdDigits(b: byte)
    ensures var (h, t, o) := Bcd(b);
      h as int < 10 && t as int < 10 && o as int < 10 && 100 * h as int + 10 * t as int + o as int == b as int
  {
    DecimalDigits(b as int);
  }

  /** The decimal digits of a number below 256. */
  lemma DecimalDigits(u: int)
    requires 0 <= u < 256
    ensures 0 <= u / 100 < 3 && 0 <= u / 10 % 10 < 10 && 0 <= u % 10 < 10
    ensures 100 * (u / 100) + 10 * (u / 10 % 10) + u % 10 == u
  {
  }

  /** Fx33 writes the hundreds at I, the tens at I+1, the ones at I+2, and nothing else. */
  lemma StoreBcdWrites(mem: Memory, iReg: word, b: byte)
    ensures var m := StoreDigits(mem, iReg, b); var (h, t, o) := Bcd(b);
      m[Addr(iReg)] == h && m[Addr(iReg + 1)] == t && m[Addr(iReg + 2)] == o
      && forall a :: 0 <= a < MemorySize && a != Addr(iReg) && a != Addr(iReg + 1) && a != Addr(iReg + 2) ==>
           m[a] == mem[a]
  {
    AddrInjective(iReg, iReg + 1);
    AddrInjective(iReg, iReg + 2);
    AddrInjective(iReg + 1, iReg + 2);
  }

  /** Fx55 with x = count - 1 writes V0..Vx at I..I+x and nothing else. */
  lemma StoreBlockWrites(mem: Memory, v: Registers, iReg: word, count: int)
    requires 0 <= count <= 0x10
    ensures var m := StoreBlock(mem, v, iReg, count);
      (forall j :: 0 <= j < count ==> m[Addr(iReg + j)] == v[j])
      && (forall a :: 0 <= a < MemorySize && Offset(iReg, a) >= count ==> m[a] == mem[a])
  {
    forall j | 0 <= j < count
      ensures StoreBlock(mem, v, iReg, count)[Addr(iReg + j)] == v[j]
    {
      OffsetOfAddr(iReg, j);
    }
  }

  /**
   * Fx55 then Fx65 with the same x and I: V0..Vx get back the values that
   * were stored, whatever the registers held in between; the others keep
   * their values.
   */
  lemma StoreThenLoad(mem: Memory, v: Registers, w: Registers, iReg: word, count: int)
    requires 0 <= count <= 0x10
    ensures var u := LoadBlock(w, StoreBlock(mem, v, iReg, count), iReg, count);
      forall j :: 0 <= j < 0x10 ==> u[j] == if j < count then v[j] else w[j]
  {
    var m := StoreBlock(mem, v, iReg, count);
    var u := LoadBlock(w, m, iReg, count);
    forall j | 0 <= j < 0x10
      ensures u[j] == if j < count then v[j] else w[j]
    {
      if j < count {
        OffsetOfAddr(iReg, j);
        assert m[Addr(iReg + j)] == v[j];
      }
    }
  }

  /** Fx55 as a step: the block goes to memory; registers and I are untouched. */
  lemma StoreRegsStep(s: Vm, x: nibble, keys: Keys, rnd: byte, now: u32)
    ensures var t := Step(s, StoreRegs(x), keys, rnd, now);
      t.memory == StoreBlock(s.memory, s.v, s.i, x as int + 1) && t.v == s.v && t.i == s.i
  {
    var a := s.(pc := s.pc + 2, memory := StoreBlock(s.memory, s.v, s.i, x as int + 1));
    assert Apply(s.(pc := s.pc + 2), StoreRegs(x), keys, rnd) == a;
    TickFrame(a, now);
  }

  /** Fx65 as a step: the block comes from memory; I is untouched. */
  lemma LoadRegsStep(s: Vm, x: nibble, keys: Keys, rnd: byte, now: u32)
    ensures var t := Step(s, LoadRegs(x), keys, rnd, now);
      t.v == LoadBlock(s.v, s.memory, s.i, x as int + 1) && t.i == s.i
  {
    var a := s.(pc := s.pc + 2, v := LoadBlock(s.v, s.memory, s.i, x as int + 1));
    assert Apply(s.(pc := s.pc + 2), LoadRegs(x), keys, rnd) == a;
    TickFrame(a, now);
  }

  /** The same two steps on whole machines: Fx55, then Fx65, leave the registers and I as they were. */
  lemma StoreThenLoadSteps(s: Vm, x: nibble, k1: Keys, r1: byte, t1: u32, k2: Keys, r2: byte, t2: u32)
    ensures var s2 := Step(Step(s, StoreRegs(x), k1, r1, t1), LoadRegs(x), k2, r2, t2);
      s2.v == s.v && s2.i == s.i
  {
    var s1 := Step(s, StoreRegs(x), k1, r1, t1);
    StoreRegsStep(s, x, k1, r1, t1);
    LoadRegsStep(s1, x, k2, r2, t2);
    StoreThenLoad(s.memory, s.v, s.v, s.i, x as int + 1);
    assert LoadBlock(s.v, s1.memory, s.i, x as int + 1) == s.v;
  }

  /** Fx29 points I at the glyph of the digit in Vx, 0x050 + 5 Vx, and changes nothing else. */
  lemma FontCharOnlySetsI(s: Vm, x: nibble, keys: Keys, rnd: byte)
    ensures Apply(s, FontChar(x), keys, rnd) == s.(i := FontStart + 5 * s.v[x as int] as int)
  {
  }

  /** On a machine whose font area is as `init` left it, Fx29 for a digit d in Vx points I at its five rows. */
  lemma FontCharSelectsGlyph(s: Vm, x: nibble, keys: Keys, rnd: byte, r: int)
    requires forall k :: 0 <= k < |Font| ==> s.memory[FontStart + k] == Font[k]
    requires s.v[x as int] < 0x10 && 0 <= r < 5
    ensures var t := Apply(s, FontChar(x), keys, rnd);
      t.i + r < MemorySize && t.memory[t.i + r] == Font[5 * s.v[x as int] as int + r]
  {
    FontCharOnlySetsI(s, x, keys, rnd);
    var k := 5 * s.v[x as int] as int + r;
    assert s.memory[FontStart + k] == Font[k];
  }

  /** Fx1E adds Vx to I modulo 2^16. */
  lemma AddIWraps(s: Vm, x: nibble, keys: Keys, rnd: byte)
    ensures Apply(s, AddI(x), keys, rnd).i == (s.i + s.v[x as int] as int) % 0x1_0000
  {
  }

  /** 00E0 zeroes the frame buffer 0xF00..0xFFF and keeps the rest of memory. */
  lemma ClearScreenClears(s: Vm, keys: Keys, rnd: byte)
    ensures var m := Apply(s, ClearScreen, keys, rnd).memory;
      (forall a :: FrameStart <= a < MemorySize ==> m[a] == 0) && m[..FrameStart] == s.memory[..FrameStart]
  {
  }

  // ---------------------------------------------------------------- timers

  /** A timer counts down by one while above zero and stays at zero. */
  lemma CountDownLowers(t: byte)
    ensures CountDown(t) as int == if t as int > 0 then t as int - 1 else 0
  {
  }

  /** A tick that is due lowers every nonzero timer by one, keeps a zero timer, and records the time. */
  lemma TickDecrements(s: Vm, now: u32)
    requires TickDue(now, s.lastTime)
    ensures var t := Tick(s, now);
      t.delay == CountDown(s.delay) && t.sound == CountDown(s.sound) && t.lastTime == now
  {
  }

  /** A tick that is not due changes nothing. */
  lemma TickNotDue(s: Vm, now: u32)
    requires !TickDue(now, s.lastTime)
    ensures Tick(s, now) == s
  {
  }

  /** With the clock not behind the last tick, a tick is due once 17 ms or more have passed. */
  lemma TickDueAfter17(now: u32, last: u64)
    requires last <= now
    ensures TickDue(now, last) <==> now - last >= 17
  {
    assert (now - last) % U64 == now - last;
    assert (now - last) * 60 < U64;
  }

  /** Fx15 as a step: the delay timer takes Vx and is then ticked; registers are untouched. */
  lemma SetDelayStep(s: Vm, x: nibble, keys: Keys, rnd: byte, now: u32)
    ensures var t := Step(s, SetDelay(x), keys, rnd, now);
      t.v == s.v && t.delay == if TickDue(now, s.lastTime) then CountDown(s.v[x as int]) else s.v[x as int]
  {
  }

  /** Fx07 as a step: Vx takes the delay timer as it was before the tick. */
  lemma GetDelayStep(s: Vm, x: nibble, keys: Keys, rnd: byte, now: u32)
    ensures Step(s, GetDelay(x), keys, rnd, now).v == s.v[x as int := s.delay]
  {
    TickFrame(s.(pc := s.pc + 2, v := s.v[x as int := s.delay]), now);
  }

  /**
   * Fx15 then Fx07: Vy receives the value Vx put in the delay timer, one
   * lower when the tick after Fx15 was due and the value was not zero.
   */
  lemma DelayRoundTrip(s: Vm, x: nibble, y: nibble, k1: Keys, r1: byte, t1: u32, k2: Keys, r2: byte, t2: u32)
    ensures var s2 := Step(Step(s, SetDelay(x), k1, r1, t1), GetDelay(y), k2, r2, t2);
      s2.v[y as int] == if TickDue(t1, s.lastTime) then CountDown(s.v[x as int]) else s.v[x as int]
  {
    SetDelayStep(s, x, k1, r1, t1);
    GetDelayStep(Step(s, SetDelay(x), k1, r1, t1), y, k2, r2, t2);
  }

  /** Fx18 copies Vx into the sound timer and changes nothing else. */
  lemma SetSoundCopies(s: Vm, x: nibble, keys: Keys, rnd: byte)
    ensures Apply(s, SetSound(x), keys, rnd) == s.(sound := s.v[x as int])
  {
  }

  // ---------------------------------------------------------------- the run loop

  /** Fx0A records x as the register to fill and makes the machine wait for a key. */
  lemma WaitKeyWaits(s: Vm, x: nibble, keys: Keys, rnd: byte, now: u32)
    ensures var t := Step(s, WaitKey(x), keys, rnd, now);
      t.state == WaitingForKey && t.keyRegister == x as int && t.pc == s.pc + 2
  {
  }

  /** While waiting, a key-down of logical key k < 16 writes k into the recorded register and resumes. */
  lemma KeyEndsWait(s: Vm, k: int)
    requires s.state == WaitingForKey && 0 <= k < 0x10
    ensures var t := HandleEvent(s, KeyDown(k));
      t.state == Running && t.v[s.keyRegister] as int == k
      && t == s.(v := s.v[s.keyRegister := t.v[s.keyRegister]], state := Running)
  {
  }

  /** A key-down whose scancode no logical key has changes nothing. */
  lemma UnmappedKeyIgnored(s: Vm, k: int)
    requires !(0 <= k < 0x10)
    ensures HandleEvent(s, KeyDown(k)) == s
  {
  }

  /** A key-down while not waiting, and any other non-quit event, change nothing. */
  lemma EventsInertWhenNotWaiting(s: Vm, e: Event)
    requires s.state != WaitingForKey && !e.QuitEvent?
    ensures HandleEvent(s, e) == s
  {
  }

  /** A quitting machine stays quitting whatever events follow. */
  lemma {:induction false} QuittingStays(s: Vm, es: seq<Event>)
    requires s.state == Quitting
    ensures HandleEvents(s, es).state == Quitting
    decreases |es|
  {
    if |es| > 0 {
      QuittingStays(HandleEvent(s, es[0]), es[1..]);
    }
  }

  /** A quit event anywhere in a poll leaves the machine quitting. */
  lemma {:induction false} QuitEventQuits(s: Vm, es: seq<Event>)
    requires QuitEvent in es
    ensures HandleEvents(s, es).state == Quitting
    decreases |es|
  {
    if es[0] == QuitEvent {
      QuittingStays(HandleEvent(s, es[0]), es[1..]);
    } else {
      QuitEventQuits(HandleEvent(s, es[0]), es[1..]);
    }
  }

  /** Event handling touches only the registers and the run state. */
  lemma {:induction false} EventsFrame(s: Vm, es: seq<Event>)
    ensures var t := HandleEvents(s, es); t == s.(v := t.v, state := t.state)
    decreases |es|
  {
    if |es| > 0 {
      EventsFrame(HandleEvent(s, es[0]), es[1..]);
    }
  }

  /** An iteration whose events leave the machine waiting does not execute. */
  lemma WaitingDoesNotExecute(s: Vm, input: Input)
    requires HandleEvents(s, input.events).state == WaitingForKey
    ensures RunIteration(s, input) == HandleEvents(s, input.events)
  {
  }

  /** `run` stops at the first iteration whose events contain a quit, without executing. */
  lemma RunStopsOnQuit(s: Vm, inputs: seq<Input>)
    requires |inputs| > 0 && QuitEvent in inputs[0].events
    ensures Run(s, inputs) == HandleEvents(s, inputs[0].events) && Run(s, inputs).state == Quitting
  {
    QuitEventQuits(s, inputs[0].events);
  }

  /** Once `run` has stopped on a quit, no input changes the machine any more. */
  lemma {:induction false} RunEndsQuitting(s: Vm, inputs: seq<Input>)
    requires s.state == Quitting && |inputs| > 0
    ensures Run(s, inputs) == HandleEvents(s, inputs[0].events)
  {
    QuittingStays(s, inputs[0].events);
  }
}
