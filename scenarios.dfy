/**
 * Small programs run on a freshly initialised machine: the ROM is loaded at
 * 0x200 by `load_file` and `execute` is applied step by step, or `run` is
 * driven by a sequence of inputs.
 */
module Scenarios {
  import opened Bytes
  import opened MemoryMap
  import opened Instructions
  import opened Semantics

  /** The machine `init` and `load_file` prepare for the ROM `rom`. */
  function Boot(prev: Vm, rom: seq<byte>): (s: Vm)
    ensures s.pc == ProgramStart && s.state == Running && s.stack == []
    ensures forall j :: 0 <= j < 0x10 ==> s.v[j] == 0
    ensures forall k :: 0 <= k < |rom| && ProgramStart + k < ProgramEnd ==> s.memory[ProgramStart + k] == rom[k]
  {
    LoadRom(Init(prev), rom)
  }

  /** One step of `execute` on a machine whose next instruction is `ins`: only its effect and the timers. */
  lemma StepEffect(s: Vm, ins: Instr, keys: Keys, rnd: byte, now: u32)
    requires PcInRange(s.pc) && Decode(s.memory[s.pc], s.memory[s.pc + 1]) == ins
    ensures var a := Apply(s.(pc := s.pc + 2), ins, keys, rnd);
      Execute(s, keys, rnd, now) == a.(delay := Execute(s, keys, rnd, now).delay,
                                       sound := Execute(s, keys, rnd, now).sound,
                                       lastTime := Execute(s, keys, rnd, now).lastTime)
  {
    var a := Apply(s.(pc := s.pc + 2), ins, keys, rnd);
    assert Execute(s, keys, rnd, now) == Tick(a, now);
  }

  /** ROM 60 05 70 0A: after two steps V0 holds 5 + 10 and the program counter is past both instructions. */
  lemma LoadThenAddImmediate(prev: Vm, k1: Keys, r1: byte, t1: u32, k2: Keys, r2: byte, t2: u32)
    ensures var s2 := Execute(Execute(Boot(prev, [0x60, 0x05, 0x70, 0x0A]), k1, r1, t1), k2, r2, t2);
      s2.v[0] == 15 && s2.pc == ProgramStart + 4 && s2.state == Running
  {
    var s := Boot(prev, [0x60, 0x05, 0x70, 0x0A]);
    assert s.memory[ProgramStart] == 0x60 && s.memory[ProgramStart + 1] == 0x05;
    StepEffect(s, LoadImm(0, 0x05), k1, r1, t1);
    var s1 := Execute(s, k1, r1, t1);
    assert s1.memory == s.memory && s1.pc == ProgramStart + 2 && s1.v[0] == 5;
    assert s1.memory[ProgramStart + 2] == 0x70 && s1.memory[ProgramStart + 3] == 0x0A;
    StepEffect(s1, AddImm(0, 0x0A), k2, r2, t2);
  }

  /** ROM A2 50 F0 29 with V0 = 0: after two steps I points at the glyph of digit 0, 0x050. */
  lemma GlyphOfZero(prev: Vm, k1: Keys, r1: byte, t1: u32, k2: Keys, r2: byte, t2: u32)
    ensures Execute(Execute(Boot(prev, [0xA2, 0x50, 0xF0, 0x29]), k1, r1, t1), k2, r2, t2).i == FontStart
  {
    var s := Boot(prev, [0xA2, 0x50, 0xF0, 0x29]);
    assert s.memory[ProgramStart] == 0xA2 && s.memory[ProgramStart + 1] == 0x50;
    StepEffect(s, LoadI(0x250), k1, r1, t1);
    var s1 := Execute(s, k1, r1, t1);
    assert s1.memory == s.memory && s1.pc == ProgramStart + 2 && s1.v == s.v && s1.i == 0x250;
    assert s1.memory[ProgramStart + 2] == 0xF0 && s1.memory[ProgramStart + 3] == 0x29 && s1.v[0] == 0;
    StepEffect(s1, FontChar(0), k2, r2, t2);
    assert Apply(s1.(pc := s1.pc + 2), FontChar(0), k2, r2).i == FontStart;
  }

  /**
   * ROM 22 04 _ _ 00 EE: the call at 0x200 goes to 0x204, whose return
   * comes back to 0x202, the instruction after the call, with the stack
   * empty again.
   */
  lemma CallAndReturn(prev: Vm, b2: byte, b3: byte, k1: Keys, r1: byte, t1: u32, k2: Keys, r2: byte, t2: u32)
    ensures var s2 := Execute(Execute(Boot(prev, [0x22, 0x04, b2, b3, 0x00, 0xEE]), k1, r1, t1), k2, r2, t2);
      s2.pc == ProgramStart + 2 && s2.stack == [] && s2.state == Running
  {
    var s := Boot(prev, [0x22, 0x04, b2, b3, 0x00, 0xEE]);
    assert s.memory[ProgramStart] == 0x22 && s.memory[ProgramStart + 1] == 0x04;
    StepEffect(s, Call(0x204), k1, r1, t1);
    var s1 := Execute(s, k1, r1, t1);
    assert s1.memory == s.memory && s1.pc == 0x204 && s1.stack == [ProgramStart + 2];
    assert s1.memory[0x204] == 0x00 && s1.memory[0x205] == 0xEE;
    StepEffect(s1, Return, k2, r2, t2);
  }

  /** Fx33 on 157 stores the digits 1, 5, 7. */
  lemma DigitsOf157()
    ensures Bcd(157) == (1, 5, 7)
  {
  }

  /** No event of a poll asks to quit. */
  predicate NoQuit(es: seq<Event>)
  {
    forall k :: 0 <= k < |es| ==> es[k] != QuitEvent
  }

  /** A running machine is left as it is by a poll without a quit request. */
  lemma {:induction false} RunningIgnoresEvents(s: Vm, es: seq<Event>)
    requires s.state == Running && NoQuit(es)
    ensures HandleEvents(s, es) == s
    decreases |es|
  {
    if |es| > 0 {
      assert HandleEvent(s, es[0]) == s;
      assert NoQuit(es[1..]) by {
        forall k | 0 <= k < |es| - 1 ensures es[1..][k] != QuitEvent {
          assert es[1..][k] == es[k + 1];
        }
      }
      RunningIgnoresEvents(s, es[1..]);
    }
  }

  /**
   * A machine running a jump to its own address (1200 at 0x200) stays
   * running at 0x200, with memory unchanged, for any number of iterations
   * of `run` in which no quit is requested.
   */
  lemma {:induction false} SelfJumpLoops(s: Vm, inputs: seq<Input>)
    requires s.state == Running && s.pc == ProgramStart
    requires s.memory[ProgramStart] == 0x12 && s.memory[ProgramStart + 1] == 0x00
    requires forall n :: 0 <= n < |inputs| ==> NoQuit(inputs[n].events)
    ensures var t := Run(s, inputs); t.state == Running && t.pc == ProgramStart && t.memory == s.memory
    decreases |inputs|
  {
    if |inputs| > 0 {
      var input := inputs[0];
      RunningIgnoresEvents(s, input.events);
      StepEffect(s, Jump(0x200), input.keys, input.rnd, input.now);
      var t := Execute(s, input.keys, input.rnd, input.now);
      assert RunIteration(s, input) == t;
      assert Run(s, inputs) == Run(t, inputs[1..]);
      assert forall n :: 0 <= n < |inputs| - 1 ==> inputs[1..][n] == inputs[n + 1];
      SelfJumpLoops(t, inputs[1..]);
    }
  }

  /** ROM 12 00 after `init`: `run` keeps the machine running at 0x200 as long as no quit is requested. */
  lemma JumpToSelfProgram(prev: Vm, inputs: seq<Input>)
    requires forall n :: 0 <= n < |inputs| ==> NoQuit(inputs[n].events)
    ensures var t := Run(Boot(prev, [0x12, 0x00]), inputs); t.state == Running && t.pc == ProgramStart
  {
    var s := Boot(prev, [0x12, 0x00]);
    assert s.memory[ProgramStart] == 0x12 && s.memory[ProgramStart + 1] == 0x00;
    SelfJumpLoops(s, inputs);
  }
}
