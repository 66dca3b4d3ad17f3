/**
 * The virtual machine as a value, and what each of its operations does to
 * that value: `Init`, the ROM copy of `LoadRom`, the fetch/decode/execute
 * step `Execute` with its timer tick, and the event handling and
 * iterations of the run loop.
 *
 * The outside world enters as parameters: the key-down vector that
 * `is_key_pressed` reads, the byte `rand() % 256`, the millisecond clock,
 * and the events of one poll.
 */
module Semantics {
  import opened Bytes
  import opened MemoryMap
  import opened Instructions
  import Sprites

  /** The return stack holds at most this many addresses (`stack_max_size`). */
  const StackMax := 24

  const U32 := 0x1_0000_0000
  const U64 := 0x1_0000_0000_0000_0000

  /** A millisecond count as `SDL_GetTicks` returns it. */
  type u32 = n: int | 0 <= n < U32

  /** An `unsigned long`. */
  type u64 = n: int | 0 <= n < U64

  type Stack = s: seq<word> | |s| <= StackMax

  /** The state of every logical key 0..F: pressed or not. */
  type Keys = k: seq<bool> | |k| == 0x10 witness seq(0x10, _ => false)

  datatype RunState = Quitting | WaitingForKey | Running

  /**
   * The machine state. `keyRegister` is the register that a pending Fx0A
   * fills in; `lastTime` is the clock reading of the last timer tick.
   */
  datatype Vm = Vm(
    memory: Memory,
    v: Registers,
    i: word,
    stack: Stack,
    delay: byte,
    sound: byte,
    pc: int,
    keyRegister: Reg,
    state: RunState,
    lastTime: u64)

  /** The memory of a machine just initialised: zero but for the font table at 0x050. */
  function InitialMemory(): (m: Memory)
    ensures forall a :: 0 <= a < MemorySize ==>
      m[a] == if FontStart <= a < FontStart + |Font| then Font[a - FontStart] else 0
  {
    var m := CopyInto(Zeros(), FontStart, Font);
    FontCopied(m);
    m
  }

  /** The font copy, read address by address. */
  lemma FontCopied(m: Memory)
    requires m == CopyInto(Zeros(), FontStart, Font)
    ensures forall a :: 0 <= a < MemorySize ==>
      m[a] == if FontStart <= a < FontStart + |Font| then Font[a - FontStart] else 0
  {
    forall a | 0 <= a < MemorySize
      ensures m[a] == if FontStart <= a < FontStart + |Font| then Font[a - FontStart] else 0
    {
      if FontStart <= a < FontStart + |Font| {
        var k := a - FontStart;
        assert m[FontStart + k] == Font[k];
      }
    }
  }

  /**
   * `init`. The I register and the Fx0A register index are not set by it;
   * they keep whatever `prev` held.
   */
  function Init(prev: Vm): Vm
  {
    Vm(InitialMemory(), seq(0x10, _ => 0), prev.i, [], 0, 0, ProgramStart, prev.keyRegister, Running, 0)
  }

  /**
   * The copy of `load_file`: the bytes of the file, as many as there are but
   * at most up to address 0xEA0, go to memory from the program counter on.
   * The file's being unreadable is the case of no bytes.
   */
  function LoadRom(s: Vm, rom: seq<byte>): Vm
    requires 0 <= s.pc <= ProgramEnd
  {
    var count := if |rom| < ProgramEnd - s.pc then |rom| else ProgramEnd - s.pc;
    s.(memory := CopyInto(s.memory, s.pc, rom[..count]))
  }

  /** `is_key_pressed`: a key index outside 0..F is never pressed. */
  function KeyPressed(keys: Keys, key: int): (r: bool)
    ensures r ==> 0 <= key < 0x10
  {
    if 0 <= key < 0x10 then keys[key] else false
  }

  /** A C comparison result stored in VF. */
  function Flag(b: bool): byte
  {
    if b then 1 else 0
  }

  /**
   * The frame buffer 0xF00..0xFFF cleared (00E0).
   */
  function ClearFrame(mem: Memory): (m: Memory)
    ensures forall a :: 0 <= a < MemorySize ==> m[a] == if a < FrameStart then mem[a] else 0
  {
    mem[..FrameStart] + seq(MemorySize - FrameStart, _ => 0)
  }

  /**
   * The 8xy_ operations on the register file. As in the repository, VF is
   * written before the result, and the result is computed from the
   * registers as they are after that write (only 8xy4 computes its sum
   * before it); the shifts work on Vx.
   */
  function AluStep(v: Registers, op: AluOp, x: Reg, y: Reg): Registers
  {
    match op
    case Mov => v[x := v[y]]
    case Or => v[x := v[x] | v[y]]
    case And => v[x := v[x] & v[y]]
    case Xor => v[x := v[x] ^ v[y]]
    case Add => AddStep(v, x, y)
    case Sub => SubStep(v, x, y)
    case Shr => ShrStep(v, x)
    case SubN => SubNStep(v, x, y)
    case Shl => ShlStep(v, x)
  }

  /** 8xy4: the sum is formed first; VF gets its carry, then Vx its low byte. */
  function AddStep(v: Registers, x: Reg, y: Reg): Registers
  {
    var h := v[x] as int + v[y] as int;
    v[VF := Flag(h >= 256)][x := Wrap8(h)]
  }

  /** 8xy5: VF := Vx >= Vy, then Vx := Vx - Vy read after that write. */
  function SubStep(v: Registers, x: Reg, y: Reg): Registers
  {
    var w := v[VF := Flag(v[x] as int >= v[y] as int)];
    w[x := Wrap8(w[x] as int - w[y] as int)]
  }

  /** 8xy6: VF := the low bit of Vx, then Vx shifted right by one. */
  function ShrStep(v: Registers, x: Reg): Registers
  {
    var w := v[VF := v[x] & 1];
    w[x := w[x] >> 1]
  }

  /** 8xy7: VF := Vy >= Vx, then Vx := Vy - Vx read after that write. */
  function SubNStep(v: Registers, x: Reg, y: Reg): Registers
  {
    var w := v[VF := Flag(v[y] as int >= v[x] as int)];
    w[x := Wrap8(w[y] as int - w[x] as int)]
  }

  /** 8xyE: VF := the high bit of Vx, then Vx shifted left by one. */
  function ShlStep(v: Registers, x: Reg): Registers
  {
    var w := v[VF := v[x] >> 7];
    w[x := w[x] << 1]
  }

  /** The three decimal digits of a byte, hundreds first (Fx33). */
  function Bcd(b: byte): (d: (byte, byte, byte))
  {
    var u := b as int;
    (Wrap8(u / 100), Wrap8(u / 10 % 10), Wrap8(u % 10))
  }

  /** Memory after Fx33 with I = `iReg`: the digits of `b` at I, I+1 and I+2. */
  function StoreDigits(mem: Memory, iReg: word, b: byte): Memory
  {
    var (h, t, o) := Bcd(b);
    mem[Addr(iReg + 2) := o][Addr(iReg + 1) := t][Addr(iReg) := h]
  }

  /** How far address `a` lies past `I`, counted modulo the memory size. */
  function Offset(iReg: word, a: int): (d: int)
    ensures 0 <= d < MemorySize
  {
    (a - iReg) % MemorySize
  }

  /** Address I + j lies j past I. */
  lemma OffsetOfAddr(iReg: word, j: int)
    requires 0 <= j < MemorySize
    ensures Offset(iReg, Addr(iReg + j)) == j
  {
  }

  /** The address j past I is I + j. */
  lemma AddrOfOffset(iReg: word, a: int)
    requires 0 <= a < MemorySize
    ensures Addr(iReg + Offset(iReg, a)) == a
  {
  }

  /** Memory after Fx55: V0..V(count-1) stored at I, I+1, ... */
  function StoreBlock(mem: Memory, v: Registers, iReg: word, count: int): Memory
    requires 0 <= count <= 0x10
  {
    seq(MemorySize, a requires 0 <= a < MemorySize =>
      if Offset(iReg, a) < count then v[Offset(iReg, a)] else mem[a])
  }

  /** The registers after Fx65: V0..V(count-1) loaded from I, I+1, ... */
  function LoadBlock(v: Registers, mem: Memory, iReg: word, count: int): Registers
    requires 0 <= count <= 0x10
  {
    seq(0x10, j requires 0 <= j < 0x10 => if j < count then mem[Addr(iReg + j)] else v[j])
  }

  /** 00EE: pop the return address, or quit on an empty stack. */
  function PopReturn(s: Vm): Vm
  {
    if |s.stack| > 0 then s.(pc := s.stack[|s.stack| - 1] as int, stack := s.stack[..|s.stack| - 1])
    else s.(state := Quitting)
  }

  /** 2nnn: push the (already advanced) program counter and jump, unless the stack is full. */
  function PushCall(s: Vm, nnn: int): Vm
  {
    if |s.stack| < StackMax then s.(stack := s.stack + [Low16(s.pc)], pc := nnn) else s
  }

  /** The skips: step over the next instruction when `c` holds. */
  function SkipIf(s: Vm, c: bool): Vm
  {
    if c then s.(pc := s.pc + 2) else s
  }

  /** Register `x` set to `b`. */
  function SetV(s: Vm, x: Reg, b: byte): Vm
  {
    s.(v := s.v[x := b])
  }

  /** Dxyn. */
  function DrawSprite(s: Vm, x: Reg, y: Reg, n: Sprites.Height): Vm
  {
    var r := Sprites.Draw(s.memory, s.v, s.i, x, y, n);
    s.(memory := r.0, v := r.1)
  }

  /**
   * One instruction's effect on a machine whose program counter has already
   * been advanced past it. `keys` is the key-down vector and `rnd` the byte
   * `rand() % 256`.
   */
  function Apply(s: Vm, ins: Instr, keys: Keys, rnd: byte): Vm
  {
    match ins
    case ClearScreen => s.(memory := ClearFrame(s.memory))
    case Return => PopReturn(s)
    case Jump(nnn) => s.(pc := nnn as int)
    case Call(nnn) => PushCall(s, nnn as int)
    case SkipEqImm(x, kk) => SkipIf(s, s.v[x as int] == kk)
    case SkipNeImm(x, kk) => SkipIf(s, s.v[x as int] != kk)
    case SkipEqReg(x, y) => SkipIf(s, s.v[x as int] == s.v[y as int])
    case LoadImm(x, kk) => SetV(s, x as int, kk)
    case AddImm(x, kk) => SetV(s, x as int, Wrap8(s.v[x as int] as int + kk as int))
    case Alu(op, x, y) => s.(v := AluStep(s.v, op, x as int, y as int))
    case SkipNeReg(x, y) => SkipIf(s, s.v[x as int] != s.v[y as int])
    case LoadI(nnn) => s.(i := nnn as int)
    case JumpV0(nnn) => s.(pc := s.v[0] as int + nnn as int)
    case Random(x, kk) => SetV(s, x as int, rnd & kk)
    case Draw(x, y, n) => DrawSprite(s, x as int, y as int, n as int)
    case _ => ApplyKeyTimerIndex(s, ins, keys)
  }

  /** The Ex__ and Fx__ groups: keys, timers, the I register and the memory block operations; `Nop` changes nothing. */
  function ApplyKeyTimerIndex(s: Vm, ins: Instr, keys: Keys): Vm
  {
    match ins
    case SkipKey(x) => SkipIf(s, KeyPressed(keys, s.v[x as int] as int))
    case SkipNotKey(x) => SkipIf(s, !KeyPressed(keys, s.v[x as int] as int))
    case GetDelay(x) => SetV(s, x as int, s.delay)
    case WaitKey(x) => s.(keyRegister := x as int, state := WaitingForKey)
    case SetDelay(x) => s.(delay := s.v[x as int])
    case SetSound(x) => s.(sound := s.v[x as int])
    case AddI(x) => s.(i := Low16(s.i + s.v[x as int] as int))
    case FontChar(x) => s.(i := Low16(FontStart + 5 * s.v[x as int] as int))
    case StoreBcd(x) => s.(memory := StoreDigits(s.memory, s.i, s.v[x as int]))
    case StoreRegs(x) => s.(memory := StoreBlock(s.memory, s.v, s.i, x as int + 1))
    case LoadRegs(x) => s.(v := LoadBlock(s.v, s.memory, s.i, x as int + 1))
    case _ => s
  }

  /**
   * Whether a timer tick is due at clock reading `now`: `(now - last) * 60 > 1000`
   * computed in `unsigned long`, that is modulo 2^64.
   */
  predicate TickDue(now: u32, last: u64)
  {
    ((now - last) % U64) * 60 % U64 > 1000
  }

  /** A timer decremented when it is above zero (`if (t > 0) t--`). */
  function CountDown(t: byte): byte
  {
    if t as int > 0 then Wrap8(t as int - 1) else t
  }

  /** The timer update at the end of `execute`. */
  function Tick(s: Vm, now: u32): Vm
  {
    if TickDue(now, s.lastTime) then s.(delay := CountDown(s.delay), sound := CountDown(s.sound), lastTime := now)
    else s
  }

  /** Whether the program counter lets `execute` fetch (0 <= pc < 0xFFF). */
  predicate PcInRange(pc: int)
  {
    0 <= pc < 0xFFF
  }

  /** The instruction at the program counter. */
  function Fetch(s: Vm): Instr
    requires PcInRange(s.pc)
  {
    Decode(s.memory[s.pc], s.memory[s.pc + 1])
  }

  /**
   * The step `execute` takes once it has fetched `ins` from a program
   * counter in range: advance the program counter by 2, apply the
   * instruction, tick the timers.
   */
  function Step(s: Vm, ins: Instr, keys: Keys, rnd: byte, now: u32): Vm
  {
    Tick(Apply(s.(pc := s.pc + 2), ins, keys, rnd), now)
  }

  /** `execute`: quit on a program counter out of range, otherwise fetch and step. */
  function Execute(s: Vm, keys: Keys, rnd: byte, now: u32): Vm
  {
    if !PcInRange(s.pc) then s.(state := Quitting)
    else Step(s, Fetch(s), keys, rnd, now)
  }

  /**
   * What one polled event reports. `KeyDown` carries the logical key its
   * scancode maps to, a value outside 0..F for a scancode that no key has.
   */
  datatype Event = QuitEvent | KeyDown(key: int) | OtherEvent

  /** The handling of one event in `run`: a quit request, then a key ending a wait. */
  function HandleEvent(s: Vm, e: Event): Vm
  {
    var s1 := if e.QuitEvent? then s.(state := Quitting) else s;
    if s1.state == WaitingForKey && e.KeyDown? && 0 <= e.key < 0x10 then
      s1.(v := s1.v[s1.keyRegister := e.key as bv8], state := Running)
    else s1
  }

  /** The events of one poll, handled in order. */
  function HandleEvents(s: Vm, es: seq<Event>): Vm
    decreases |es|
  {
    if |es| == 0 then s else HandleEvents(HandleEvent(s, es[0]), es[1..])
  }

  /** What the outside world supplies for one iteration of `run`. */
  datatype Input = Input(events: seq<Event>, keys: Keys, rnd: byte, now: u32)

  /**
   * One iteration of the loop of `run`: handle the polled events; while
   * waiting for a key or quitting do nothing more, otherwise execute one
   * instruction.
   */
  function RunIteration(s: Vm, input: Input): Vm
  {
    var s1 := HandleEvents(s, input.events);
    if s1.state != Running then s1 else Execute(s1, input.keys, input.rnd, input.now)
  }

  /**
   * `run` over a finite sequence of inputs: iterate until an iteration
   * finds the machine quitting after its events, or the inputs run out.
   */
  function Run(s: Vm, inputs: seq<Input>): Vm
    decreases |inputs|
  {
    if |inputs| == 0 then s
    else
      var s1 := HandleEvents(s, inputs[0].events);
      if s1.state == Quitting then s1 else Run(RunIteration(s, inputs[0]), inputs[1..])
  }
}
