# CHIP-8 virtual machine

A Dafny model of `virtual_machine_c`, the CHIP-8 interpreter of
`main.cpp`. The machine has:

- 4096 bytes of memory, with the font table at 0x050 and the program from 0x200;
- the frame buffer at 0xF00..0xFFF, which is part of memory, so every opcode that writes memory can write the display;
- sixteen 8-bit registers V0..VF, the 16-bit register I, and a program counter;
- a return stack of at most 24 entries;
- a delay timer and a sound timer;
- a run state: running, waiting for a key, or quitting.

The model covers `init`, the ROM copy of `load_file`, the fetch/decode/execute step `execute` with every opcode group and the 60 Hz timer tick, the range guard of `is_key_pressed`, the pixel addressing of `draw`, and the event handling and iteration of `run`.

The model has two layers:

- **Value semantics** (module `Semantics`). The machine is a datatype `Vm`. `Init`, `LoadRom`, `Execute`, `HandleEvent` and `Run` are functions on it. Instructions are decoded into the datatype `Instr` (module `Instructions`), in the branch order of `execute`. Every pattern that no branch matches decodes to `Nop`. Sprite drawing (module `Sprites`) is the row loop of Dxyn written as a recursive function.
- **The object as the repository writes it** (module `Machine`). `VirtualMachine` is a class. Memory, the registers and the stack are arrays that its methods update in place, with the loops of `init`, the sprite draw, the register block copies and `draw`. `Abstract()` reads the object as a `Vm`. Each method's postcondition states that its effect is the corresponding `Semantics` function.

The properties are lemmas. Module `Properties` holds the per-opcode facts, module `Sprites` the drawing facts, and module `Scenarios` whole programs run from `init`.

The outside world enters as parameters:

- the 16-entry key-down vector that `is_key_pressed` reads;
- the byte `rand() % 256`;
- the millisecond clock `SDL_GetTicks()`;
- the list of events of one poll (quit, key-down of a logical key, other).

Design choices:

- **Bytes are unsigned.** Memory, registers and timers are plain `char` in the source. They are modelled as unsigned bytes (`bv8`), which is what the opcodes are written for. A build with signed `char` would also have to accept the braced font initialiser of main.cpp:73-90, whose constants such as 0xf0 then narrow to `char`, which C++11 forbids. What a signed `char` does instead is under Findings.
- **Addresses wrap.** The source does no bounds check on `I + i`, `I + 2` and the sprite destinations `0xF00 + (Vy + i) * 8 + Vx / 8 (+ 1)`. An out-of-range index there is undefined behaviour in C++. The model reduces every such address modulo 0x1000 (`MemoryMap.Addr`).
- **Fixed widths are explicit.** The I register and the stack entries are `unsigned short`: their stores are reduced modulo 2^16. The timer test `(now - last_time) * 60 > 1000` is computed modulo 2^64 (`unsigned long`). The program counter is an unbounded `int`, so a pc out of range is caught by the range check.
- **Uninitialised fields.** `init` sets neither I nor the Fx0A register index. `Semantics.Init` keeps whatever they held before, and the class constructor starts them at 0.
- **Code over prose.** Where this code differs from common CHIP-8 descriptions, the model follows the code:
  - the shifts 8xy6 and 8xyE read and write Vx, not Vy;
  - 5xy_ and 9xy_ ignore the low nibble;
  - the flag is written before the result, and the result is computed from the registers as they are after that write, so when x or y is F the flag feeds into the result (8xy4 forms its sum first);
  - Dxyn clears VF first and re-reads Vx and Vy for every row.

## Model

| member | source | states |
|---|---|---|
| `Machine.VirtualMachine.constructor` | main.cpp:92-107 | A new machine: memory, registers and stack arrays of sizes 4096, 16 and 24. The source's `vm` is a local whose fields are indeterminate until `init`; the zeros and the running state stand for those values, and `init` overwrites all of them except I and the key index |
| `Machine.VirtualMachine.Init` | main.cpp:110-121 | The object after `init` is `Semantics.Init` of the object before: memory filled with zero in a loop, then the font copied to 0x050; registers zero; pc 0x200; empty stack; timers zero; running |
| `Machine.VirtualMachine.CopyFont` | main.cpp:117 | On all-zero memory, the byte copy of the font leaves exactly the initial memory: the font table at 0x050..0x09F, zero elsewhere |
| `Properties.InitState` | main.cpp:110-121 | After `init`: pc = 0x200, running, stack empty, timers and all registers 0, memory zero except 0x050..0x09F, which hold the 80 font bytes |
| `Properties.FontGlyph` | main.cpp:73-90 | After `init`, row r of the glyph of hex digit d is at 0x050 + 5d + r |
| `Machine.VirtualMachine.LoadFile` | main.cpp:123-130 | The ROM bytes, but not past 0xEA0, are copied into memory from the program counter on; nothing else changes |
| `Machine.VirtualMachine.CopyBytes` | main.cpp:126 | The byte loop writes `data[k]` at `at + k` and leaves every other address as it was |
| `Properties.LoadRomPlaces` | main.cpp:110-126 | After `init` and `load_file`, ROM byte k is at 0x200 + k for every k with 0x200 + k < 0xEA0; every other address and every other field is as `init` left it |
| `MemoryMap.CopyInto` | main.cpp:117 | The copied bytes land at their offsets, and every address outside the copied range keeps its value |
| `Machine.VirtualMachine.Execute` | main.cpp:132-305 | The object after `execute` is `Semantics.Execute` of the object before: quit if pc is out of range; otherwise fetch, advance pc by 2, dispatch, and tick the timers |
| `Machine.VirtualMachine.ApplyInstruction` | main.cpp:156-294 | The opcode dispatch has the effect of `Semantics.Apply` for every decoded instruction |
| `Properties.OutOfRangeQuits` | main.cpp:133-137 | With pc < 0 or pc ≥ 0xFFF the step sets the state to quitting and changes nothing else, not even the timers |
| `Properties.ExecuteEncoded` | main.cpp:139-154 | With pc in range and the encoding of an instruction stored at pc and pc+1, `execute` carries out exactly that instruction's step (through the decode/encode round trip) |
| `Properties.FetchEncoded` | main.cpp:139-152 | The encoding of an instruction placed at pc is fetched as that instruction |
| `Instructions.DecodeEncode` | main.cpp:139-152 | Decoding the two bytes of any instruction gives that instruction back: `w`, `x`, `y`, `z`, `kk` and `nnn` are recovered |
| `Instructions.RegisterSkipsIgnoreZ` | main.cpp:185-188 | 5xyz and 9xyz decode to the register skips whatever `z` is |
| `Instructions.UnlistedAluIsNop` | main.cpp:193-219 | 8xy_ with z in 8..D or F matches no branch and decodes to `Nop` |
| `Instructions.UnlistedSystemIsNop` | main.cpp:156-168 | A 0nnn instruction other than 00E0 and 00EE decodes to `Nop` |
| `Properties.NopChangesOnlyPc` | main.cpp:154 | A pattern `execute` ignores only advances pc by 2 (and lets the timers tick) |
| `Properties.SequentialAdvances` | main.cpp:154 | Every instruction other than the jumps, call, return and skips leaves pc at pc + 2 |
| `Properties.TickFrame` | main.cpp:295-304 | The timer tick changes only the two timers and the time of the last tick |
| `Properties.JumpSetsPc` | main.cpp:169-170 | 1nnn sets pc to nnn |
| `Properties.JumpV0SetsPc` | main.cpp:226-227 | Bnnn sets pc to V0 + nnn |
| `Properties.SkipsByCondition` | main.cpp:177-263 | 3xkk, 4xkk, 5xy_, 9xy_, Ex9E and ExA1 add exactly 2 more to pc when their condition holds, and change nothing else |
| `Properties.KeySkipsOutOfRange` | main.cpp:332-335 | A key index of 16 or more counts as not pressed: Ex9E does not skip and ExA1 does |
| `Semantics.KeyPressed` | main.cpp:328-336 | `is_key_pressed` is true only for key indices 0..F |
| `Properties.CallPushes` | main.cpp:171-176 | 2nnn below depth 24 pushes the advanced pc and jumps to nnn |
| `Properties.CallAtFullDepth` | main.cpp:172 | 2nnn at depth 24 leaves the stack unchanged, and execution continues at pc + 2 |
| `Properties.ReturnPops` | main.cpp:160-163 | 00EE pops the top of the stack into pc |
| `Properties.ReturnOnEmptyQuits` | main.cpp:164-166 | 00EE on an empty stack quits |
| `Properties.CallThenReturn` | main.cpp:160-176 | A return right after a call restores pc and the stack exactly |
| `Properties.CallReturnSteps` | main.cpp:160-176 | The steps 2nnn then 00EE restore pc to the call's address + 2, and the stack to its prior contents; memory, registers and I are unchanged |
| `Machine.VirtualMachine.ExecCall` | main.cpp:171-176 | The array stack gains the advanced pc on top when it has room, and is unchanged when full |
| `Machine.VirtualMachine.ExecReturn` | main.cpp:160-166 | The array stack loses its top entry into pc, or the state becomes quitting on an empty stack |
| `Properties.LoadImmSets` | main.cpp:189-190 | For every x and kk, 6xkk then reading Vx yields kk; no other register and nothing else changes |
| `Properties.AddImmWraps` | main.cpp:191-192 | 7xkk sets Vx to (Vx + kk) mod 256 and changes no other register, VF included |
| `Properties.AddCarry` | main.cpp:203-206 | 8xy4 sets VF = 1 iff Vx + Vy ≥ 256 and Vx = (Vx + Vy) mod 256; no other register changes |
| `Properties.AddIntoFlag` | main.cpp:203-206 | 8Fy4: the sum is stored after the carry, so VF ends with the sum |
| `Properties.SubBorrow` | main.cpp:207-209 | 8xy5 sets VF = 1 iff Vx ≥ Vy, and Vx = (Vx − Vy) mod 256 |
| `Properties.SubReadsFlag` | main.cpp:207-209 | 8xF5: the subtraction reads VF after the flag is written |
| `Properties.SubNBorrow` | main.cpp:213-215 | 8xy7 sets VF = 1 iff Vy ≥ Vx, and Vx = (Vy − Vx) mod 256 |
| `Properties.ShiftRight` | main.cpp:210-212 | 8xy6 sets VF to bit 0 of Vx and halves Vx; Vy is not read |
| `Properties.ShiftLeft` | main.cpp:216-218 | 8xyE sets VF to bit 7 of Vx and doubles Vx mod 256; Vy is not read |
| `Properties.LogicLeavesFlag` | main.cpp:195-202 | 8xy0..8xy3 change only Vx |
| `Machine.VirtualMachine.Arithmetic` | main.cpp:193-219 | The in-place 8xy_ updates of the register array, flag first, have the effect of `Semantics.AluStep` |
| `Machine.VirtualMachine.AddWithCarry` | main.cpp:203-206 | The in-place 8xy4 has the effect of `Semantics.AluStep` for `Add` |
| `Machine.VirtualMachine.Subtract` | main.cpp:207-209 | The in-place 8xy5 has the effect of `Semantics.AluStep` for `Sub` |
| `Machine.VirtualMachine.SubtractFrom` | main.cpp:213-215 | The in-place 8xy7 has the effect of `Semantics.AluStep` for `SubN` |
| `Machine.VirtualMachine.ShiftRight` | main.cpp:210-212 | The in-place 8xy6 has the effect of `Semantics.AluStep` for `Shr`, whatever y is |
| `Machine.VirtualMachine.ShiftLeft` | main.cpp:216-218 | The in-place 8xyE has the effect of `Semantics.AluStep` for `Shl`, whatever y is |
| `Machine.VirtualMachine.Logic` | main.cpp:197-202 | The in-place OR, AND and XOR have the effect of `Semantics.AluStep` |
| `Properties.RandomMasked` | main.cpp:228-230 | Cxkk sets Vx to the random byte AND kk, which has no bit outside kk; nothing else changes |
| `Machine.VirtualMachine.DrawSpriteAt` | main.cpp:231-253 | After VF := 0, the row loop has the effect of `Sprites.Draw`: each iteration is `Sprites.DrawRow` on the memory and registers as they are then |
| `Machine.VirtualMachine.DrawAlignedRow` | main.cpp:236-241 | A row at a column that is a multiple of 8 XORs one frame-buffer byte, and sets VF on overlap |
| `Machine.VirtualMachine.DrawStraddlingRow` | main.cpp:242-252 | A row off a byte boundary XORs its right-shifted bits into one byte and its left-shifted bits into the next, and sets VF on overlap |
| `Sprites.DrawXor` | main.cpp:231-253 | Dxyn XORs each row part into exactly the bytes 0xF00 + (Vy+i)·8 + Vx/8, and the next byte when Vx % 8 ≠ 0; no other memory changes; VF ends 1 iff some row overlaps an already set bit |
| `Sprites.DrawRowsFrame` | main.cpp:233-253 | The row loop writes only the destination bytes of its rows, and among the registers only VF, which ends as before or 1 |
| `Sprites.AnyCollidesExists` | main.cpp:238-250 | The collision flag's condition is "some row collides" |
| `Sprites.DrawTwiceRestores` | main.cpp:231-253 | Drawing the same sprite twice at the same place restores memory |
| `Sprites.DrawOnClearedCollidesSecondTime` | main.cpp:231-253 | On clear destination bytes, a first draw reports no collision, and a second identical draw reports one iff some sprite row is nonzero |
| `Sprites.DrawFlipsPixel` | main.cpp:231-253 | In a memory with the sprite XORed in (what `Sprites.DrawXor` shows Dxyn leaves), bit k of sprite row i flips the pixel (Vx + k, Vy + i) as `draw` reads it, whenever that pixel is on screen |
| `Machine.VirtualMachine.Draw` | main.cpp:310-314 | The pixel loop gives a 64×32 grid whose pixel (x, y) is bit 7 − x%8 of byte 0xF00 + 8y + x/8 |
| `MemoryMap.PixelAddressInFrame` | main.cpp:312 | Every on-screen pixel lies in the frame buffer 0xF00..0xFFF |
| `MemoryMap.PixelsDistinct` | main.cpp:312-314 | Distinct on-screen pixels are distinct bits of the frame buffer |
| `Properties.ClearScreenClears` | main.cpp:158-159 | 00E0 zeroes 0xF00..0xFFF and keeps the rest of memory |
| `Machine.VirtualMachine.ClearDisplay` | main.cpp:159 | The fill loop zeroes 0xF00..0xFFF and changes nothing else |
| `Properties.BcdDigits` | main.cpp:278-284 | Fx33's three bytes are decimal digits h, t, o with 100h + 10t + o = Vx |
| `Properties.StoreBcdWrites` | main.cpp:278-284 | Fx33 writes the hundreds at I, the tens at I+1, the ones at I+2, and nothing else |
| `Machine.VirtualMachine.StoreDecimal` | main.cpp:278-284 | The repeated division by ten stores the digits of `Semantics.Bcd` at I+2, I+1, I |
| `Machine.DigitsOfByte` | main.cpp:279-284 | The repeated division by ten yields the hundreds, tens and ones digits |
| `Properties.StoreBlockWrites` | main.cpp:285-288 | Fx55 writes V0..Vx at I..I+x and nothing else |
| `Properties.StoreThenLoad` | main.cpp:285-292 | Fx55 then Fx65 with the same x and I give back V0..Vx whatever the registers held in between; the other registers are kept |
| `Properties.StoreThenLoadSteps` | main.cpp:285-292 | As steps: Fx55 then Fx65 leave every register and I as they were |
| `Machine.VirtualMachine.StoreRegisters` | main.cpp:285-288 | The loop writes register j at I + j for j ≤ x, and nothing else |
| `Machine.VirtualMachine.LoadRegisters` | main.cpp:289-292 | The loop loads register j from I + j for j ≤ x, and keeps the others |
| `Properties.FontCharOnlySetsI` | main.cpp:276-277 | Fx29 sets I = 0x050 + 5·Vx and changes nothing else |
| `Properties.FontCharSelectsGlyph` | main.cpp:276-277 | With the font as `init` left it and Vx < 16, I then points at the five rows of the glyph of Vx |
| `Properties.AddIWraps` | main.cpp:274-275 | Fx1E adds Vx to I modulo 2^16 |
| `Properties.CountDownLowers` | main.cpp:297-302 | A nonzero timer goes down by exactly 1; a zero timer stays 0 |
| `Properties.TickDecrements` | main.cpp:296-303 | When (now − last)·60 > 1000, both timers count down and the last tick time becomes now |
| `Properties.TickNotDue` | main.cpp:296 | Otherwise the timers and the last tick time are unchanged |
| `Properties.TickDueAfter17` | main.cpp:296 | With the clock not behind the last tick, a tick is due iff at least 17 ms have passed |
| `Machine.VirtualMachine.TickTimers` | main.cpp:295-304 | The in-place timer update has the effect of `Semantics.Tick` |
| `Properties.SetDelayStep` | main.cpp:270-271 | Fx15 copies Vx into the delay timer, which the same step's tick may then lower |
| `Properties.GetDelayStep` | main.cpp:265-266 | Fx07 copies the delay timer into Vx |
| `Properties.DelayRoundTrip` | main.cpp:265-271 | Fx15 then Fx07 gives back the value set, lowered once if a tick was due |
| `Properties.SetSoundCopies` | main.cpp:272-273 | Fx18 copies Vx into the sound timer and changes nothing else |
| `Properties.WaitKeyWaits` | main.cpp:267-269 | Fx0A records x and enters waiting |
| `Properties.KeyEndsWait` | main.cpp:345-353 | While waiting, a key-down of logical key k < 16 writes k into the recorded register and resumes running |
| `Properties.UnmappedKeyIgnored` | main.cpp:346-353 | A key-down that maps to no logical key changes nothing |
| `Properties.EventsInertWhenNotWaiting` | main.cpp:341-356 | When not waiting, only a quit event changes anything |
| `Properties.QuittingStays` | main.cpp:342-356 | No event leads out of quitting |
| `Properties.QuitEventQuits` | main.cpp:341-344 | A quit event anywhere in a poll leaves the machine quitting |
| `Properties.EventsFrame` | main.cpp:341-356 | Event handling touches only the registers and the run state |
| `Machine.VirtualMachine.HandleEvent` | main.cpp:342-355 | Handling one event in place, with the 16-key loop, has the effect of `Semantics.HandleEvent` |
| `Properties.WaitingDoesNotExecute` | main.cpp:357-359 | An iteration that ends its events waiting executes nothing |
| `Properties.RunStopsOnQuit` | main.cpp:360-362 | `run` stops on a quit, without executing |
| `Properties.RunEndsQuitting` | main.cpp:338-362 | Once the machine is quitting, `run` stops at its next iteration |
| `Machine.VirtualMachine.Run` | main.cpp:338-374 | The loop over a finite sequence of inputs has the effect of `Semantics.Run` |
| `Scenarios.Boot` | main.cpp:110-126 | The machine after `init` and `load_file` has pc = 0x200, is running, has an empty stack and zero registers, and holds the ROM from 0x200 |
| `Scenarios.LoadThenAddImmediate` | main.cpp:189-192 | ROM 60 05 70 0A: after two steps V0 = 15 |
| `Scenarios.GlyphOfZero` | main.cpp:224-225 | ROM A2 50 F0 29 with V0 = 0: after two steps I = 0x050 |
| `Scenarios.CallAndReturn` | main.cpp:160-176 | ROM 22 04 _ _ 00 EE: after the call and the return, pc = 0x202 and the stack is empty |
| `Scenarios.DigitsOf157` | main.cpp:278-284 | Fx33 on 157 gives 1, 5, 7 |
| `Scenarios.RunningIgnoresEvents` | main.cpp:341-356 | A running machine is unchanged by a poll without a quit |
| `Scenarios.SelfJumpLoops` | main.cpp:169-170 | A jump to its own address keeps the machine running at that address, with memory unchanged, for any number of iterations of `run` without a quit |
| `Scenarios.JumpToSelfProgram` | main.cpp:338-364 | ROM 12 00 after `init`: `run` stays running at 0x200 for as long as no quit is requested |
| `SignedChar.GroupAsWritten` | main.cpp:139-141 | With signed `char`, `w` equals the top nibble for first bytes below 0x80, and is negative from 0x80 on |
| `SignedChar.AddressAsWritten` | main.cpp:151-152 | With signed `char`, `nnn` is right for a second byte below 0x80, and is 0xFF00 or more from 0x80 on |
| `SignedChar.CountDownAsWritten` | main.cpp:297-302 | With signed `char`, a timer holding 0x80 or more is never lowered |
| `SignedChar.HighGroupsMisread` | main.cpp:139-141 | With signed `char`, no branch of `execute` is taken for first bytes 0x80..0xFF (groups 8 to F) |
| `SignedChar.DrawMisread` | main.cpp:231 | D015 is read with w = −3 as written; unsigned, it is a draw |
| `SignedChar.SystemOpcodesMisread` | main.cpp:158-160 | With signed `char`, 00E0 and 00EE match neither comparison |
| `SignedChar.AddressMisread` | main.cpp:151-152 | 1280 jumps to 0xFF80 as written; unsigned, it jumps to 0x280 |
| `SignedChar.TimerStuckAsWritten` | main.cpp:297-302 | A delay of 200 stays 200 as written; unsigned, it counts down to 199 |

## Left out

- SDL window and renderer setup and teardown (main.cpp:10-52), and the rendering calls of `draw`: foreign library I/O. `Machine.VirtualMachine.Draw` returns the pixel grid that would be painted instead.
- The file reading of `load_file`: the bytes read are a parameter. An unreadable file is the empty ROM, and the error message is not modelled.
- `SDL_GetKeyboardState`, `SDL_PollEvent` and the scancode table `key_map`: these are replaced by a key-down vector of the 16 logical keys and a list of events. A key-down event carries the logical key its scancode maps to, or a value outside 0..F when no key has that scancode.
- `rand()`, `SDL_GetTicks()`: their results are parameters (`rnd`, `now`).
- The busy-wait frame pacing of `run` and the field `last_draw_time` (main.cpp:367-372): wall-clock timing with no effect on the machine state.
- `main`'s argument handling (main.cpp:377-390): process plumbing.
- Machine.VirtualMachine.Run: `run` loops forever; the model runs it over a finite sequence of inputs and stops when they run out.
- Machine.VirtualMachine.LoadFile: requires the program counter to lie in 0..0xEA0. The source calls `load_file` right after `init`, with pc = 0x200; a larger pc would pass a negative count to `istream::read`.
- Sprites.DrawXor: stated for x and y other than F, and for a sprite whose source bytes are not among the bytes it draws on. With x or y = F, setting VF moves the rest of the sprite, and overlapping rows read bytes that earlier rows changed; in those cases the model has only the row-by-row definition `Sprites.Draw`.
- Sprites.DrawRowsFrame: stated for x and y other than F, for the reason given under Sprites.DrawXor: with x or y = F the rows after a collision move.
- Sprites.DrawTwiceRestores: stated under the same conditions as `Sprites.DrawXor`.
- Sprites.DrawOnClearedCollidesSecondTime: stated under the same conditions as `Sprites.DrawXor`.
- Sprites.DrawFlipsPixel: stated for a memory with the sprite XORed in, so for Dxyn itself it holds under the conditions of `Sprites.DrawXor`.
- Properties.AddCarry: stated for x other than F; `Properties.AddIntoFlag` covers x = F.
- Properties.SubBorrow: stated for x and y other than F; `Properties.SubReadsFlag` covers y = F.
- Properties.SubReadsFlag: stated for x other than F; with x = y = F (8FF5) VF ends as the flag minus itself, 0, which only the definition `Semantics.AluStep` covers.
- Properties.SubNBorrow: stated for x and y other than F.
- Properties.ShiftRight: stated for x other than F.
- Properties.ShiftLeft: stated for x other than F.
- Properties.TickDueAfter17: stated for a clock that is not behind the last tick. The wrap-around of the 32-bit millisecond clock is modelled in `Semantics.TickDue`, but not summarised.
- Out-of-range addresses: the source indexes memory beyond 0xFFF without a check, which is undefined behaviour in C++. The model wraps these addresses modulo 0x1000 instead of modelling the undefined behaviour.
- Signed `char`: the model reads bytes unsigned. The signed reading is modelled only as far as the findings below show it.

## Findings

| source | as written | input that shows it | evidently intended | confidence | as-written member | corrected member |
|---|---|---|---|---|---|---|
| main.cpp:139-141 | `w = wx >> 4` on a signed `char` is negative for a first byte of 0x80 or more, so no opcode of groups 8 to F (ALU, 9xy0, Annn, Bnnn, Cxkk, Dxyn, Ex__, Fx__) is ever executed | D015: w = −3, so no branch is taken and the draw is skipped | w is the top nibble, 0xD | medium: only in a build with signed `char` that accepts the braced font initialiser of main.cpp:73-90 (its constants narrow to `char`, which GCC and Clang reject unless narrowing is allowed, e.g. `-Wno-narrowing`); not executed | `SignedChar.HighGroupsMisread` | `Instructions.DecodeEncode` |
| main.cpp:158-160 | `yz == 0xe0` and `yz == 0xee` compare a signed `char` with 224 and 238, which it can never equal | 00E0 and 00EE: yz = −32 and −18, so the screen is not cleared and a subroutine never returns | 00E0 clears the screen and 00EE returns | medium: only in a build with signed `char` that accepts the braced font initialiser of main.cpp:73-90 (its constants narrow to `char`, which GCC and Clang reject unless narrowing is allowed, e.g. `-Wno-narrowing`); not executed | `SignedChar.SystemOpcodesMisread` | `Instructions.DecodeEncode` |
| main.cpp:151-152 | `yz` is sign-extended before `(nnn << 8) \| yz`, so an address with a low byte of 0x80 or more becomes 0xFF00 or more | 1280: nnn = 0xFF80, and the next step finds pc out of range and quits | nnn = 0x280 | medium: only in a build with signed `char` that accepts the braced font initialiser of main.cpp:73-90 (its constants narrow to `char`, which GCC and Clang reject unless narrowing is allowed, e.g. `-Wno-narrowing`); not executed | `SignedChar.AddressMisread` | `Instructions.DecodeEncodeAddress` |
| main.cpp:297-302 | `delay_timer > 0` on a signed `char` is false for values 0x80..0xFF, so such a timer would never run down. The defect is latent: as written, Fx15 and Fx18 are never executed (first byte 0xF_, row main.cpp:139-141) and `init` sets the timers to 0, so no timer reaches 0x80. It shows once that row is corrected while `char` stays signed | with the group decoding corrected, Fx15 with Vx = 200: the delay timer stays 200 on every tick | it counts down to 0 | low: latent, masked by the main.cpp:139-141 row, and only in a build with signed `char` that accepts the braced font initialiser of main.cpp:73-90 (its constants narrow to `char`, which GCC and Clang reject unless narrowing is allowed, e.g. `-Wno-narrowing`); not executed | `SignedChar.TimerStuckAsWritten` | `Properties.CountDownLowers` |
