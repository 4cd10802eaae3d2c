# CHIP-8 `CPU` of `js/app.js`, modelled in Dafny

This project models the `CPU` class of a browser CHIP-8 interpreter. It covers:

- the object's state: 4 KiB memory, sixteen V registers, a sixteen-entry call stack, `I`, `sp`, `pc`, two timers and a 64x32 display;
- its lifecycle: the constructor, `clear_display`, `reset` and `load_rom`;
- one `cycle()`: fetch a big-endian opcode at `pc`, decode it through the nested `switch`, execute it, then tick the timers.

The model has two layers:

- **Pure layer.**
  - `Constants` holds the constants, `INPUT_MAP` and the font.
  - `Bits` holds JavaScript's `|`, `&` and `^` on bytes, written bit by bit, with the bit facts the logical instructions rely on.
  - `Decoder` holds the opcode fields, the dispatch as a datatype `Instr`, and an encoder that inverts it.
  - `Framebuffer` holds the XOR sprite draw, stated in closed form and as the step-by-step loop.
  - `Machine` is a `State` value with the meaning of every instruction, of a whole cycle (`Step`) and of the lifecycle operations.
  - `Properties` holds what the interpreter guarantees, stated and proved over `Machine`.
- **Imperative layer.** `Cpu.CPU` is a class whose fields are the typed arrays (`array<byte>`, `array<word>`, `array<bool>`) and the numbers. Each method updates them in place, with the same loops as the source. Each is proved to leave `Snapshot()`, the fields read as a `State`, equal to the pure layer's function of the old state.

The model follows the code as written, not textbook CHIP-8:

- 00E0 returns and 00EE clears the screen, since the group-0 switch tests the low nibble.
- 8XY4 sets VF to 0 on overflow and to 1 otherwise.
- 8XY5 and 8XY7 compute VF from the new Vx.
- 8XYE stores `Vx & 0x80` in VF.
- FX55 and FX65 run `i` up to the value of Vx, not up to x. FX65 reads that bound again after every store.
- The sound cue plays when the sound timer is decremented to 1.
- EX9E and EXA1 compare Vx with the single global `keyPressed`.
- An unrecognised opcode leaves `pc` where it is, so the same opcode is fetched again on the next cycle.

JavaScript typed-array semantics are written out:

- A read past the end of an array gives `undefined`. Every such read of memory or of the registers is turned into 0 where it is used (`ReadByte`): by `undefined << 8`, by `undefined & mask`, or by storing it into a Uint8Array.
- The exception is the stack read of a return (js/app.js:143). With sp = 0 or sp > 16 it stores `undefined` itself in `pc`. The model stops there (see "Left out").
- A write past the end is dropped (`WriteByte`, for memory and registers alike).
- The stack stores `(pc + 2) mod 65536`.
- `I`, `pc` and `sp` are unbounded numbers.

A draw visits the flat index `(y + row) * 64 + (x + col)`:

- a column past the right edge lands in the next display row;
- an index of 2048 or more is neither read as ON nor written.

Where this code differs from common CHIP-8 behaviour, the model follows the code:

- **Add carry flag.** CHIP-8 usually sets VF = 1 on carry; the code sets 0. `Properties.AddProgram` proves that 6005, 6103, 8014 end with VF = 1.
- **Subtract flags.** CHIP-8 usually compares the operands before the subtraction; the code compares the new Vx. With X = Y this gives Vx = 0 and VF = 1 (`Properties.SubFlagAfterUpdate`). `Properties.SubFlagIsNotNoBorrow` exhibits the difference.
- **Sound cue.** CHIP-8 usually sounds while the sound timer is above 0; the code plays a cue once, when the timer goes from 2 to 1 (`Properties.StepTicksTimers`).
- **Off-screen sprite pixels.** CHIP-8 usually clips or wraps them within their row; the code spills a column overflow into the next row.
- **A program that clears the screen and loops (00E0, 1200).** 00E0 is usually a screen clear. In the code it is a return on an empty stack (`Properties.ClearOpcodeReturns`). `Properties.ClearThenLoop` shows the clear-then-loop behaviour with 00EE.
- **Stack depth.** CHIP-8 usually keeps `sp` within 0..16. A call on a full stack takes `sp` to 17 and drops the return address (`Properties.CallOnFullStackLosesReturn`).

Three things come from outside the object and are parameters of a cycle (`Machine.Inputs`):

- `keyPressed`, as a key code or none;
- the value of `rand(255)`, a number 0..254;
- the key that resolves an FX0A wait.

## Model

| member | source | states |
|---|---|---|
| Decoder.FieldMasks | js/app.js:133-179 | The six masks as used across the dispatch: `Group` (`opcode & 0xF000`, line 133) is the top nibble, `RegX` (`(opcode & 0x0F00) >> 8`, line 168) the top nibble of the low 12 bits, `RegY` (`(opcode & 0x00F0) >> 4`, line 179) the top nibble of the low byte; `Low` (`& 0x000F`, line 137), `Imm` (`& 0x0FF`, line 169) and `Addr` (`& 0x0FFF`, line 157) differ from the opcode by a multiple of 16, 256 and 4096 |
| Decoder.FieldsReassemble | js/app.js:281-299 | The masked fields (group, X, Y, N, KK, NNN) split an opcode without loss: group, X, Y and N reassemble it; KK is Y and N; NNN is X and KK |
| Decoder.Decode | js/app.js:133-416 | An opcode falls to no case exactly in group 0 with X ≠ 0 or N ∉ {0, E}, group 8 with N ∈ 8..D or F, group E with KK ∉ {9E, A1}, and group F with KK not one of 07, 0A, 15, 18, 1E, 29, 33, 55, 65 |
| Decoder.DecodeEncode | js/app.js:133-413 | Every recognised instruction has an opcode that decodes back to it: the dispatch is onto the instruction set |
| Decoder.DecodeEncodeGroup8 | js/app.js:194-274 | The round trip for the nine 8XYN cases |
| Decoder.DecodeEncodeGroupF | js/app.js:356-412 | The round trip for the nine FXKK cases |
| Decoder.EncodeDecode | js/app.js:133-413 | The converse round trip: re-encoding any recognised opcode keeps every nibble its case reads. Only Y of group 0, N of 5XYN and 9XYN, and Y of 8XY6 and 8XYE may change, and the re-encoded opcode decodes to the same instruction |
| Decoder.EncodeDecodeGroup0 | js/app.js:134-150 | 00Y0 and 00YE re-encode with the same group, X and low nibble |
| Decoder.EncodeDecodeAddr | js/app.js:156-166 | 1NNN, 2NNN, ANNN and BNNN re-encode to the same opcode |
| Decoder.EncodeDecodeImm | js/app.js:167-193 | 3XKK, 4XKK, 6XKK, 7XKK, CXKK and the recognised EXKK and FXKK re-encode to the same opcode |
| Decoder.EncodeDecodeGroup8 | js/app.js:194-274 | A recognised 8XYN re-encodes with the same X and N, and the same Y unless N is 6 or E |
| Decoder.EncodeDecodeRegs | js/app.js:177-181 | 5XYN (here) and 9XYN (js/app.js:276-280) keep group, X and Y; DXYN (js/app.js:296-299) re-encodes to the same opcode |
| Decoder.AddrFields | js/app.js:281-299 | X is the high nibble of NNN and KK its low byte |
| Decoder.ImmFields | js/app.js:281-299 | Y is the high nibble of KK and N its low nibble |
| Decoder.GroupZeroSwapped | js/app.js:136-145 | 00E0 and 0000 decode to the return and 00EE to the screen clear |
| Bits.Or8 | js/app.js:205 | Bitwise OR on bytes, bit by bit (its facts are in `Bits.ByteBits`) |
| Bits.And8 | js/app.js:211 | Bitwise AND on bytes, bit by bit |
| Bits.Xor8 | js/app.js:217 | Bitwise XOR on bytes, bit by bit |
| Bits.Commutes | js/app.js:202-219 | OR, AND and XOR are symmetric in their operands |
| Bits.OrAbsorbs | js/app.js:202-207 | By induction on the operands: every bit of a is set in (a OR b), i.e. (a OR b) AND a = a |
| Bits.AndAbsorbs | js/app.js:208-213 | By induction on the operands: every bit of (a AND b) is set in a, i.e. (a AND b) OR a = a |
| Bits.Bounds | js/app.js:202-213 | By induction on the operands: (a OR b) ≥ a and (a AND b) ≤ a |
| Bits.XorInverse | js/app.js:214-219 | By induction on the operands: (a XOR b) XOR b = a |
| Bits.WithItself | js/app.js:202-219 | a OR a = a, a AND a = a and a XOR a = 0 |
| Bits.AndAllOnes | js/app.js:290-295 | Masking with all ones keeps the value, so CXFF stores the random value unchanged |
| Bits.ByteBits | js/app.js:202-219 | The byte facts above for 8-bit operands |
| Machine.Fetch | js/app.js:132 | The opcode's high byte is `memory[pc]` and its low byte `memory[pc + 1]`; at pc = 4095 the missing low byte reads as 0, so the opcode is `memory[4095] * 256`; fetching at or past 4096 gives 0 |
| Machine.ExecReturn | js/app.js:142-145 | A return stops the model exactly when the stack read is undefined: sp = 0 or sp > 16 |
| Machine.Execute | js/app.js:133-416 | Every instruction keeps the array sizes; it faults only for a return on an empty or overrun stack |
| Machine.Step | js/app.js:129-430 | A cycle keeps the array sizes and faults only when the fetched opcode decodes to a return with sp = 0 or sp > 16 |
| Machine.ReadByte | js/app.js:132 | A read of a typed array, with 0 past its end |
| Machine.WriteByte | js/app.js:109 | A write to a typed array keeps its length; a write past the end is dropped |
| Machine.ExecControl | js/app.js:138-355 | The clear, the jumps, the call push and the six skips; each keeps the array sizes |
| Machine.ExecIndexOrTimer | js/app.js:281-388 | ANNN, FX15, FX18, FX1E and FX29; each keeps the array sizes |
| Machine.LoadedValue | js/app.js:182-368 | The one value each of 6XKK, 7XKK, 8XY0-8XY3, CXKK, FX07 and FX0A stores into Vx (its contract is in `Properties.LoadWritesOnlyVx`) |
| Machine.FlagOpRegisters | js/app.js:220-270 | The registers after 8XY4-8XYE, writing Vx and VF in the source's order; sixteen registers remain |
| Machine.SkipMovesPc | js/app.js:167-171 | `pc += cond ? 4 : 2`: 4 when the condition holds, 2 otherwise, and nothing else changes |
| Machine.SetVWritesOne | js/app.js:182-187 | `registers[x] = v; pc += 2`: Vx alone takes the value, every other register and field is kept |
| Machine.SpriteRowsRead | js/app.js:309 | Sprite row `row` is `memory[I + row]`, or 0 where that lies past memory |
| Machine.DrawOriginCell | js/app.js:297-298 | The origin is an on-screen cell in display row Vy mod 32 and column Vx mod 64 |
| Machine.DoDraw | js/app.js:296-340 | DXYN: VF from `Framebuffer.Collides`, the display from `Framebuffer.Draw`, pc + 2; the state stays well-formed |
| Machine.WriteDigits | js/app.js:391-395 | The FX33 offset loop from `offset` down to 0; memory keeps its length |
| Machine.WriteBcd | js/app.js:389-397 | FX33 as the full offset loop; memory keeps its length |
| Machine.WriteRegisters | js/app.js:398-404 | Memory after the FX55 loop; its length is kept |
| Machine.LoadFrom | js/app.js:405-411 | The FX65 loop from index `i`, with its bound read again on every iteration; sixteen registers remain |
| Machine.TickTimers | js/app.js:418-422 | Each timer above 0 goes down by exactly one, a timer at 0 stays 0, and nothing else changes |
| Machine.Beeps | js/app.js:421-425 | The tick plays the cue iff the sound timer is 2 before it |
| Machine.FontMemory | js/app.js:75-79 | The constructor's memory: 4096 bytes, zero except the font at 0x50 |
| Machine.Initial | js/app.js:72-94 | The state the constructor builds is well-formed |
| Machine.ClearProgram | js/app.js:441-443 | `reset`'s memory loop keeps the length of memory |
| Machine.Reset | js/app.js:433-452 | `reset` yields a well-formed state (its layout is in `Properties.ResetLayout`) |
| Machine.CopyRom | js/app.js:107-110 | `load_rom`'s copy loop keeps the length of memory |
| Machine.LoadRom | js/app.js:104-111 | `load_rom` yields a well-formed state |
| Machine.WriteRegistersStep | js/app.js:400-402 | One more FX55 iteration is one more single-byte write of `registers[i]` at `I + i` |
| Framebuffer.SpriteBit | js/app.js:314 | `(byte & (0x80 >> col)) !== 0` holds exactly when bit 7 - col of the row byte is set, so column 0 is the most significant bit |
| Bits.AndPowerOfTwo | js/app.js:314 | Masking with 2^n keeps bit n and clears the rest: the result is 2^n when that bit is set and 0 otherwise |
| Framebuffer.Draw | js/app.js:308-320 | The display with every hit cell toggled; its size is kept |
| Framebuffer.Collides | js/app.js:314-318 | Some set sprite bit lands on an on-screen cell that is ON (characterised by `Framebuffer.CollidesAtSomeCell`) |
| Framebuffer.DrawLoop | js/app.js:308-323 | The display after the first k steps of the nested loop; its size is kept |
| Framebuffer.CollideLoop | js/app.js:308-323 | Some step among the first k found its cell ON just before toggling it (related to `Collides` by `Framebuffer.DrawLoopAll`) |
| Framebuffer.CellOfCoordinates | js/app.js:312 | The loop's index `(y + row) * 64 + (x + col)` is the origin `y * 64 + x` moved by `row` display rows and `col` cells |
| Framebuffer.HitAtCell | js/app.js:312-314 | The cell of sprite row `row` and column `col` is hit exactly when bit `0x80 >> col` of that row is set |
| Framebuffer.DrawTogglesSpriteCells | js/app.js:308-320 | After a draw, each on-screen cell `(y + row) * 64 + (x + col)` is its old value XOR the sprite bit |
| Framebuffer.DrawLeavesOtherCells | js/app.js:308-323 | A cell no set sprite bit maps to keeps its value |
| Framebuffer.DrawTwiceRestores | js/app.js:319 | Drawing the same sprite at the same origin twice gives back the original display |
| Framebuffer.CollidesAtSomeCell | js/app.js:314-318 | A draw collides iff some set sprite bit lands on an on-screen cell that is ON |
| Framebuffer.RedrawCollides | js/app.js:314-319 | Repeating a draw collides iff the first draw found some sprite cell OFF |
| Framebuffer.DrawStep | js/app.js:312-320 | One loop step toggles exactly its own cell, when the bit is set and the cell is on screen |
| Framebuffer.CollideStep | js/app.js:314-318 | One loop step adds a collision iff it toggles a cell that was ON before the draw |
| Framebuffer.DrawLoopMatches | js/app.js:308-323 | By induction on the steps: after any number of row/column steps, the loop's display and flag equal the closed form restricted to those steps |
| Framebuffer.DrawLoopAll | js/app.js:304-323 | The complete loop produces exactly the XOR of the sprite and reports exactly its collisions |
| Properties.JumpStep | js/app.js:156-159 | A 1NNN cycle sets pc to `opcode & 0xFFF`; only the timer tick changes anything else |
| Properties.JumpOffsetStep | js/app.js:286-289 | A BNNN cycle sets pc to V0 + NNN; only the timer tick changes anything else |
| Properties.CallThenReturn | js/app.js:142-166 | A call with room pushes pc + 2, bumps sp and jumps; the following return restores sp and resumes at pc + 2 |
| Properties.CallThenReturnSteps | js/app.js:142-166 | The two cycles of a call and the return at its target give back sp, pc + 2, registers, memory and display |
| Properties.CallOnFullStackLosesReturn | js/app.js:160-166 | A call with sp = 16 drops the push and takes sp to 17, so the matching return faults |
| Properties.ReturnOnEmptyStack | js/app.js:142-145 | A return with sp = 0 faults, and so does a cycle that fetches one |
| Properties.SkipAdvances | js/app.js:167-181 | The six conditional skips (3XKK, 4XKK, 5XY0, 9XY0, EX9E, EXA1) add 4 to pc iff their condition holds and 2 otherwise, and change nothing else |
| Properties.AddImmWraps | js/app.js:188-193 | 7XKK adds modulo 256 and changes no other register, VF included |
| Properties.AddCarryFlag | js/app.js:220-232 | 8XY4 sets VF = 0 on overflow and 1 otherwise, then Vx = sum mod 256; Vx + 256 (1 − VF) is the exact sum; the other registers are kept |
| Properties.SubFlagAfterUpdate | js/app.js:233-244 | For every X and Y, 8XY5 sets Vx = Vx − Vy mod 256, then VF = 1 iff X = Y or the new Vx ≥ Vy. With X = Y ≠ F this gives Vx = 0 and VF = 1. The new Vx + Vy gives back the old Vx. With X = F only the flag remains |
| Properties.SubReverseFlagAfterUpdate | js/app.js:252-263 | For every X and Y, 8XY7 sets Vx = Vy − Vx mod 256, then VF = 1 iff X = Y or Vy ≥ the new Vx. With X = Y ≠ F this gives Vx = 0 and VF = 1. The new Vx + old Vx gives back Vy |
| Properties.SubFlagIsNotNoBorrow | js/app.js:236-242 | With V1 = 5 and V2 = 3, 8125 leaves V1 = 2 and VF = 0 although there is no borrow |
| Properties.ShiftRightKeepsBit | js/app.js:245-251 | 8XY6 puts the bit shifted out in VF; 2 Vx + VF is the old Vx |
| Properties.ShiftLeftKeepsBit | js/app.js:264-270 | 8XYE puts `Vx & 0x80` (0 or 128) in VF and shifts Vx left modulo 256; Vx / 2 + VF is the old Vx |
| Properties.LoadWritesOnlyVx | js/app.js:182-368 | 6XKK, 7XKK, 8XY0-8XY3, CXKK, FX07 and FX0A store their value in Vx and advance pc by 2; every other register, memory, stack, I, sp, the timers and the display are kept |
| Properties.LogicOps | js/app.js:196-219 | 8XY0 copies Vy. After 8XY1 every bit of Vx and Vy is set in the new Vx, so it is at least both. After 8XY2 every bit of the new Vx is set in both, so it is at most both. With X = Y, 8XY1 and 8XY2 keep Vx and 8XY3 clears it |
| Properties.XorTwiceRestores | js/app.js:214-219 | Two 8XY3 with X ≠ Y give back every register |
| Properties.RandomMasked | js/app.js:290-295 | CXKK sets no bit outside KK and stores at most KK and at most the random value, which is below 255; with KK = 0xFF it stores the random value |
| Properties.TimerAndKeyLoads | js/app.js:356-368 | FX07 stores the delay timer; FX0A stores `INPUT_MAP[key]`, a key code at most 0xF, or 0 for an unmapped key |
| Properties.DrawEffect | js/app.js:296-323 | DXYN XORs the sprite `memory[I..I+N)` at (Vx mod 64, Vy mod 32); VF = 1 iff it collides and 0 otherwise; the other registers, memory, I, the stack, sp and both timers are kept |
| Properties.DrawTwice | js/app.js:296-323 | The same DXYN twice restores the display when neither coordinate register is VF; the second sets VF = 1 iff the first turned some sprite cell ON |
| Properties.FontCharAddress | js/app.js:384-388 | FX29 sets I = 0x50 + 5 Vx; for a digit the five bytes there, in the constructor's memory, are its glyph |
| Properties.FontGlyph | js/app.js:77-79 | The glyph of digit v lies at 0x50 + 5v in the memory the constructor builds |
| Properties.BcdDigits | js/app.js:389-397 | FX33 writes the hundreds, tens and ones digits of Vx at I, I+1, I+2, which recombine to Vx; no other byte changes |
| Properties.Bcd255 | js/app.js:389-397 | Vx = 255 stores 2, 5, 5 |
| Properties.StoreRegistersEffect | js/app.js:398-404 | FX55 writes V0..V[Vx] inclusive at I.., with 0 for indices past VF; the registers and every other byte are kept |
| Properties.LoadFromEffect | js/app.js:405-411 | By induction on the loop: FX65 from index i loads registers i..end from memory, where end accounts for the bound being re-read, and keeps the rest |
| Properties.LoadRegistersEffect | js/app.js:405-411 | FX65 loads V0 up to the value of Vx, or up to the byte just loaded into Vx once the loop has passed x; memory is kept |
| Properties.StoreThenLoad | js/app.js:398-411 | FX55 followed by FX65 with the same X and I gives back every register when the block fits in memory |
| Properties.StepTicksTimers | js/app.js:418-426 | A cycle that does not set a timer decrements each timer that is above 0 and never below 0; the cue plays iff the sound timer went from 2 to 1 |
| Properties.TimersRunDown | js/app.js:418-422 | After k ticks each timer has gone down by k, stopping at 0, and nothing else has changed |
| Properties.IndexAndTimerSetters | js/app.js:281-378 | ANNN sets I = NNN; FX1E sets I = I + Vx with no wrap; FX15 and FX18 load the delay or sound timer from Vx; each advances pc by 2 and changes nothing else |
| Properties.DelayRoundTrip | js/app.js:356-420 | FX15 and then FX07 read back Vx − 1, or 0 when Vx was 0, because the FX15 cycle ends with a tick |
| Properties.SoundCueAfterSet | js/app.js:374-426 | The cycle of an FX18 plays the cue iff Vx = 2, whatever the sound timer was before |
| Properties.UnknownStep | js/app.js:133-416 | A cycle on an opcode no case accepts leaves pc, registers, memory, stack and display unchanged; only the timers tick |
| Properties.LoadRomLayout | js/app.js:104-111 | `load_rom` gives pc = 0x200, I = sp = 0, zero registers and stack, timers at 60, a blank display, the ROM at 0x200.., zeros after it and memory below 0x200 as before |
| Properties.ResetLayout | js/app.js:433-452 | `reset` blanks the display, zeroes memory from 0x200 and keeps it below, zeroes registers, stack, I and sp, sets pc = 0x200 and both timers to 60; `load_rom` of an empty ROM equals `reset` |
| Properties.LoadRomKeepsFont | js/app.js:77-79 | A ROM loaded into a fresh CPU leaves the font intact at 0x50..0x9F |
| Properties.LoadRomForgets | js/app.js:433-452 | The state after `load_rom` depends only on the ROM and on memory below 0x200 |
| Properties.LoadRomIdempotent | js/app.js:104-111 | Loading the same ROM twice gives the same state as loading it once |
| Properties.FetchLoaded | js/app.js:104-111 | After `load_rom` the opcode at 0x200 + k is ROM bytes k and k + 1 |
| Properties.LoadImmCycle | js/app.js:182-187 | A 6XKK cycle sets Vx = KK, advances pc by 2 and ticks the timers |
| Properties.AddCarryCycle | js/app.js:220-232 | An 8XY4 cycle applies the inverted-carry add, advances pc by 2 and ticks the timers |
| Properties.AddProgramRuns | js/app.js:182-232 | 6005, 6103, 8014 at pc leave V0 = 8, V1 = 3, VF = 1 and pc advanced by 6 |
| Properties.AddProgram | js/app.js:182-232 | The same three instructions loaded as a ROM end with V0 = 8 and VF = 1 |
| Properties.ClearOpcodeReturns | js/app.js:136-145 | A ROM that starts with 00E0 faults on its first cycle: it is a return on an empty stack |
| Properties.ClearThenLoop | js/app.js:136-159 | 00EE then 1200 clear the display and bring pc back to 0x200 with registers and memory unchanged |
| Properties.SelfJumpLoops | js/app.js:156-159 | A jump to its own address changes only the timers and fetches itself again |
| Constants.KeyValue | js/app.js:363-368 | FX0A's value: `INPUT_MAP[key]` for a mapped key, 0 (undefined stored into a Uint8Array) otherwise; always a key code at most 0xF |
| Cpu.CPU.constructor | js/app.js:72-94 | Zeroed arrays with the font copied to 0x50 by a loop, pc = 0 and both timers at 60, equal to `Machine.Initial()` |
| Cpu.CPU.ClearDisplay | js/app.js:96-98 | Every display cell is OFF and nothing else changes |
| Cpu.CPU.Reset | js/app.js:433-452 | The object equals `Machine.Reset` of its old state: blank display, memory from 0x200 zeroed, fresh registers and stack, pc = 0x200; memory and display stay the same arrays |
| Cpu.CPU.ClearProgramMemory | js/app.js:441-443 | The loop zeroes memory from 0x200 to the end; the write at index 4096 falls off; nothing else changes |
| Cpu.CPU.LoadRom | js/app.js:104-111 | The object equals `Machine.LoadRom` of its old state: a reset, then the ROM copied byte by byte from 0x200 |
| Cpu.CPU.FetchOpcode | js/app.js:132 | Returns the big-endian opcode at pc, with bytes past memory read as 0 |
| Cpu.CPU.Cycle | js/app.js:129-430 | One cycle moves the object to exactly `Machine.Step`'s next state and reports its cue, or halts unchanged on its fault |
| Cpu.CPU.TickTimers | js/app.js:418-426 | Each timer above 0 is decremented; the cue is reported iff the sound timer became 1 |
| Cpu.CPU.Execute | js/app.js:133-416 | The switch takes the object to `Machine.Execute`'s state, or reports its fault and changes nothing |
| Cpu.CPU.ExecuteGroup | js/app.js:156-388 | The jumps, skips, call, clear, loads, flag arithmetic, index and timer instructions take the object to `Machine.Execute`'s state |
| Cpu.CPU.ReturnFromCall | js/app.js:142-145 | Pops the return address into pc, or reports the fault of an empty or overrun stack and changes nothing |
| Cpu.CPU.Control | js/app.js:138-355 | Jumps, skips, the call push and the clear move the object to `Machine.ExecControl`'s state |
| Cpu.CPU.IndexOrTimer | js/app.js:281-388 | ANNN, FX15, FX18, FX1E and FX29 move the object to `Machine.ExecIndexOrTimer`'s state |
| Cpu.CPU.SetRegister | js/app.js:182-368 | 6XKK, 7XKK, 8XY0-8XY3, CXKK, FX07 and FX0A store one value in Vx and advance pc |
| Cpu.CPU.FlagArithmetic | js/app.js:220-270 | 8XY4-8XYE write Vx and VF in the source's order, as `Machine.FlagOpRegisters` gives them |
| Cpu.CPU.DrawSprite | js/app.js:296-340 | The nested draw loop leaves the display equal to `Framebuffer.Draw` and VF equal to `Framebuffer.Collides` of the old display |
| Cpu.CPU.DrawRows | js/app.js:308-323 | The row loop brings the display and VF from "no step done" to "all n × 8 steps done" of `Framebuffer.DrawLoop` / `CollideLoop` |
| Cpu.CPU.DrawRow | js/app.js:310-322 | The column loop of one row advances the draw by exactly eight steps |
| Cpu.CPU.DrawCell | js/app.js:312-320 | One column advances the draw by one step: toggle and flag as `Framebuffer.DrawLoop` / `CollideLoop` say |
| Cpu.CPU.StoreDigits | js/app.js:389-397 | The offset loop 2, 1, 0 leaves memory equal to `Machine.WriteBcd` of the old memory |
| Cpu.CPU.DumpRegisters | js/app.js:398-404 | The FX55 loop leaves memory equal to `Machine.WriteRegisters` with Vx + 1 registers written |
| Cpu.CPU.FillRegisters | js/app.js:405-411 | The FX65 loop leaves the registers equal to `Machine.LoadFrom`, the loop that re-reads its bound |

## Left out

- Canvas painting (`ctx`, `canvas`, the `video` array, the repaint after a draw and the fill in `clear_display`): this is output only. The display is the `Uint32Array` of cells. Only 0 and `0xFFFFFFFF` are ever stored there, so a cell is a `bool`.
- `playSound` and `Audio`: audio output. A cycle reports `beep` instead.
- `setInterval`, `load_and_run`, the empty `update()`, the `Promise` wrapper of `cycle` and the `clearInterval` in `reset`, together with the `interval` field: host scheduling. A cycle is one synchronous call.
- `waitForKeyPress` and the document listeners: FX0A takes the key that resolves the wait as `Inputs.awaitedKey`. Cycles that the timer would start while FX0A awaits are concurrency and are not modelled.
- `rand` and `Math.random`: floating point. The random byte is `Inputs.random`.
- `console.log` for unrecognised opcodes: diagnostic output.
- The page's `DOMContentLoaded` handler, file loading and reset button: DOM glue.
- Machine.ExecReturn: the model stops with a `Fault` at a return with sp = 0 or sp > 16. The source does not stop there.
  - That return still decrements sp, reads `stack[sp]` outside the array and stores `undefined` in pc. The cycle still ticks the timers.
  - The next fetch reads `memory[undefined]` and `memory[NaN]` as 0, so it executes opcode 0000, another return, which decrements sp again.
  - From sp = 0 this repeats forever, with sp going negative, while the timers and the cue keep running.
  - From sp > 16 (a call on a full stack) the returns go on until sp reaches 15. The program then resumes at `stack[15]`.
  - The model leaves out the faulting cycle's decrement and tick, the `undefined` pc, and everything after it.
- Machine.Execute: inherits the same stop. On such a return it yields `Halt` with the fault and no next state.
- Machine.Step: inherits the same stop. On such a return the cycle yields `Faulted`, without the decrement or the timer tick.
- Cpu.CPU.ReturnFromCall: inherits the same stop. On such a return it reports the fault and changes nothing.
- Cpu.CPU.Cycle: inherits the same stop. On a fault it changes nothing, so the timers do not tick in that cycle.
- Bit masks and shifts: the opcode fields are written as divisions and remainders. On a 16-bit opcode the two are equal.
