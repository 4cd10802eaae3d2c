/**
 * The machine state of `CPU` and the meaning of one `cycle()` as a function of
 * the state before it: fetch, decode, execute, then the timer tick.  The state
 * lifecycle (constructor, `reset`, `load_rom`, `clear_display`) is here too.
 *
 * Reads and writes outside a typed array follow JavaScript: a read gives
 * `undefined`, which every read of memory or registers turns into 0
 * (`undefined << 8`, `undefined & mask`, storing it into a Uint8Array); a
 * write is dropped.  The one read that keeps `undefined` is the return's
 * stack read, which would put it in pc: the model stops there instead.
 * `I`, `pc` and `sp` are plain numbers and are not wrapped.
 */
module Machine {
  import opened Constants
  import opened Decoder
  import opened Bits
  import Framebuffer

  datatype Option<T> = None | Some(value: T)

  /** The fields of a `CPU` object that `cycle`, `reset` and `load_rom` read and write. */
  datatype State = State(
    memory: seq<byte>,       // Uint8Array(MEMORY_SIZE)
    registers: seq<byte>,    // Uint8Array(NUM_REGISTERS), V0..VF
    stack: seq<word>,        // Uint16Array(16)
    I: nat,
    sp: nat,
    pc: nat,
    delayTimer: byte,
    soundTimer: byte,
    display: seq<bool>)      // Uint32Array(WIDTH * HEIGHT), true for ON

  /** The sizes the typed arrays are allocated with. */
  predicate Valid(s: State)
  {
    |s.memory| == MEMORY_SIZE && |s.registers| == NUM_REGISTERS &&
    |s.stack| == STACK_SIZE && |s.display| == DISPLAY_SIZE
  }

  /**
   * What a cycle takes from outside: the global `keyPressed` (a key code, or
   * nothing for null or an unmapped key), the value `rand(255)` returns, and
   * the key whose keydown resolves an FX0A wait.
   */
  datatype Inputs = Inputs(keyPressed: Option<nibble>, random: RandomByte, awaitedKey: string)

  /** The returns whose stack read is `undefined` in the source; the model stops there. */
  datatype Fault =
    | StackUnderflow     // return with sp == 0 reads stack[-1]
    | ReturnAddressLost  // return with sp > 16 reads past the stack: the call that pushed it was dropped

  datatype Outcome = Continue(state: State) | Halt(fault: Fault)

  /** One cycle: the next state and whether the sound cue plays, or the fault that stops the model. */
  datatype StepResult = Stepped(next: State, beep: bool) | Faulted(fault: Fault)

  // ---------------------------------------------------------------- memory access

  /** `memory[a]` or `registers[a]`: a read past the end of a typed array gives 0. */
  function ReadByte(mem: seq<byte>, a: int): byte
  {
    if 0 <= a < |mem| then mem[a] else 0
  }

  /** `memory[a] = v` or `registers[a] = v`: a write past the end of a typed array is dropped. */
  function WriteByte(mem: seq<byte>, a: nat, v: byte): (r: seq<byte>)
    ensures |r| == |mem|
  {
    if a < |mem| then mem[a := v] else mem
  }

  /** `memory[pc] << 8 | memory[pc + 1]`: the big-endian opcode at `pc`. */
  function Fetch(mem: seq<byte>, pc: nat): (op: word)
    ensures pc + 1 < |mem| ==> op / 0x100 == mem[pc] && op % 0x100 == mem[pc + 1]
    ensures pc + 1 == |mem| ==> op == mem[pc] as int * 0x100
    ensures pc >= |mem| ==> op == 0
  {
    ReadByte(mem, pc) * 0x100 + ReadByte(mem, pc + 1)
  }

  // ---------------------------------------------------------------- FX33, FX55, FX65

  /**
   * The FX33 loop from `offset` down to 0: `memory[I + offset] = val % 10`,
   * then `val = floor(val / 10)`.
   */
  function WriteDigits(mem: seq<byte>, I: nat, val: nat, offset: int): (r: seq<byte>)
    requires -1 <= offset <= 2
    ensures |r| == |mem|
    decreases offset + 1
  {
    if offset < 0 then mem
    else WriteDigits(WriteByte(mem, I + offset, val % 10), I, val / 10, offset - 1)
  }

  /** FX33: the decimal digits of `v` at I, I+1, I+2, most significant first. */
  function WriteBcd(mem: seq<byte>, I: nat, v: byte): (r: seq<byte>)
    ensures |r| == |mem|
  {
    WriteDigits(mem, I, v, 2)
  }

  /** Memory after the FX55 loop has stored `registers[0..count)` at `I..`. */
  function WriteRegisters(mem: seq<byte>, regs: seq<byte>, I: nat, count: nat): (r: seq<byte>)
    ensures |r| == |mem|
  {
    seq(|mem|, a requires 0 <= a < |mem| => WrittenAt(mem, regs, I, count, a))
  }

  /** Byte `a` of memory after the FX55 loop stored `count` registers at `I`. */
  function WrittenAt(mem: seq<byte>, regs: seq<byte>, I: nat, count: nat, a: nat): byte
    requires a < |mem|
  {
    if I <= a < I + count then ReadByte(regs, a - I) else mem[a]
  }

  /** One more FX55 iteration: register `i` stored at `I + i`. */
  lemma WriteRegistersStep(mem: seq<byte>, regs: seq<byte>, I: nat, i: nat)
    ensures WriteRegisters(mem, regs, I, i + 1) == WriteByte(WriteRegisters(mem, regs, I, i), I + i, ReadByte(regs, i))
  {
  }

  /**
   * The FX65 loop from index `i` on: `registers[i] = memory[I + i]` while
   * `i <= registers[x]`, the bound being read again on every iteration.
   */
  function LoadFrom(regs: seq<byte>, mem: seq<byte>, I: nat, x: nibble, i: nat): (r: seq<byte>)
    requires x < |regs|
    ensures |r| == |regs|
    decreases 256 - i
  {
    if i > regs[x] then regs
    else LoadFrom(WriteByte(regs, i, ReadByte(mem, I + i)), mem, I, x, i + 1)
  }

  // ---------------------------------------------------------------- per-instruction effects

  /** Advance past this instruction, or past the next one too when `skip`. */
  function Skip(s: State, skip: bool): State
  {
    s.(pc := s.pc + if skip then 4 else 2)
  }

  /** Set register `x` and advance. */
  function SetV(s: State, x: nibble, v: byte): State
    requires x < |s.registers|
  {
    s.(registers := s.registers[x := v], pc := s.pc + 2)
  }

  /** The display with every cell OFF. */
  function Blank(): (d: seq<bool>)
    ensures |d| == DISPLAY_SIZE
  {
    seq(DISPLAY_SIZE, _ => false)
  }

  /** The sprite rows DXYN reads: `memory[I + row]` for each of the `n` rows. */
  function SpriteRows(mem: seq<byte>, I: nat, n: nat): (rows: seq<byte>)
    ensures |rows| == n
  {
    seq(n, row requires 0 <= row < n => SpriteRow(mem, I, row))
  }

  /** Sprite row `row`: `memory[I + row]`. */
  function SpriteRow(mem: seq<byte>, I: nat, row: nat): byte
  {
    ReadByte(mem, I + row)
  }

  /** The flat index of the draw origin (Vx mod 64, Vy mod 32). */
  function DrawOrigin(s: State, x: nibble, y: nibble): nat
    requires Valid(s)
  {
    (s.registers[y] % HEIGHT) * WIDTH + s.registers[x] % WIDTH
  }

  /** Skip moves pc by 4 when its condition holds and by 2 otherwise, and changes nothing else. */
  lemma SkipMovesPc(s: State, skip: bool)
    ensures Skip(s, skip).pc == s.pc + (if skip then 4 else 2)
    ensures Skip(s, skip).(pc := s.pc) == s
  {
  }

  /** SetV stores `v` in register `x` alone and moves pc by 2; nothing else changes. */
  lemma SetVWritesOne(s: State, x: nibble, v: byte)
    requires x < |s.registers|
    ensures var t := SetV(s, x, v);
            |t.registers| == |s.registers| && t.registers[x] == v &&
            (forall r :: 0 <= r < |s.registers| && r != x ==> t.registers[r] == s.registers[r]) &&
            t.pc == s.pc + 2 && t.(registers := s.registers, pc := s.pc) == s
  {
  }

  /** Sprite row `row` is the byte at I + row, or 0 where that lies past memory. */
  lemma SpriteRowsRead(mem: seq<byte>, I: nat, n: nat)
    ensures forall row :: 0 <= row < n ==>
              SpriteRows(mem, I, n)[row] == if I + row < |mem| then mem[I + row] else 0
  {
  }

  /** The origin is an on-screen cell in display row Vy mod 32 and column Vx mod 64. */
  lemma DrawOriginCell(s: State, x: nibble, y: nibble)
    requires Valid(s)
    ensures DrawOrigin(s, x, y) < DISPLAY_SIZE
    ensures DrawOrigin(s, x, y) / WIDTH == s.registers[y] % HEIGHT
    ensures DrawOrigin(s, x, y) % WIDTH == s.registers[x] % WIDTH
  {
  }

  /** DXYN: VF := collision, the sprite XORed onto the display. */
  function DoDraw(s: State, x: nibble, y: nibble, n: nibble): (t: State)
    requires Valid(s)
    ensures Valid(t)
  {
    var sprite := SpriteRows(s.memory, s.I, n);
    var origin := DrawOrigin(s, x, y);
    s.(registers := s.registers[FLAG_REGISTER := if Framebuffer.Collides(s.display, sprite, origin) then 1 else 0],
       display := Framebuffer.Draw(s.display, sprite, origin),
       pc := s.pc + 2)
  }

  /** The instructions that only move pc, plus the call push and the screen clear. */
  predicate IsControl(i: Instr)
  {
    i.ClearScreen? || i.Jump? || i.Call? || i.JumpOffset? || i.SkipIfEqualImm? || i.SkipIfNotEqualImm? ||
    i.SkipIfEqual? || i.SkipIfNotEqual? || i.SkipIfKey? || i.SkipIfNotKey?
  }

  /** The instructions that set I or a timer. */
  predicate IsIndexOrTimer(i: Instr)
  {
    i.SetIndex? || i.SetDelay? || i.SetSound? || i.AddIndex? || i.FontChar?
  }

  /** The instructions that write one register, Vx, and nothing else: 6XKK, 7XKK, 8XY0 to 8XY3, CXKK, FX07, FX0A. */
  predicate IsLoad(i: Instr)
  {
    i.LoadImm? || i.AddImm? || i.Move? || i.Or? || i.And? || i.Xor? || i.Random? || i.LoadDelay? || i.WaitKey?
  }

  /** The 8XY_ instructions that write Vx and the flag register VF. */
  predicate IsFlagOp(i: Instr)
  {
    i.AddCarry? || i.Sub? || i.ShiftRight? || i.SubReverse? || i.ShiftLeft?
  }

  /** 00E0 as this interpreter decodes it: pop the return address; sp == 0 or an overrun stack stops the model. */
  function ExecReturn(s: State): (r: Outcome)
    requires Valid(s)
    ensures r.Continue? ==> Valid(r.state)
    ensures r.Halt? <==> s.sp == 0 || s.sp > STACK_SIZE
  {
    if s.sp == 0 then Halt(StackUnderflow)
    else if s.sp > STACK_SIZE then Halt(ReturnAddressLost)
    else Continue(s.(sp := s.sp - 1, pc := s.stack[s.sp - 1]))
  }

  /** Jumps, the call, the skips and the screen clear. */
  function ExecControl(s: State, instr: Instr, env: Inputs): (t: State)
    requires Valid(s) && IsControl(instr)
    ensures Valid(t)
  {
    var V := s.registers;
    match instr
    case ClearScreen => s.(display := Blank(), pc := s.pc + 2)
    case Jump(a) => s.(pc := a)
    case Call(a) =>
      var ret := (s.pc + 2) % 0x1_0000;
      s.(stack := if s.sp < STACK_SIZE then s.stack[s.sp := ret] else s.stack, sp := s.sp + 1, pc := a)
    case JumpOffset(a) => s.(pc := V[0] + a)
    case SkipIfEqualImm(x, kk) => Skip(s, V[x] == kk)
    case SkipIfNotEqualImm(x, kk) => Skip(s, V[x] != kk)
    case SkipIfEqual(x, y) => Skip(s, V[x] == V[y])
    case SkipIfNotEqual(x, y) => Skip(s, V[x] != V[y])
    case SkipIfKey(x) => Skip(s, env.keyPressed == Some(V[x]))
    case SkipIfNotKey(x) => Skip(s, env.keyPressed != Some(V[x]))
  }

  /** ANNN, FX15, FX18, FX1E, FX29. */
  function ExecIndexOrTimer(s: State, instr: Instr): (t: State)
    requires Valid(s) && IsIndexOrTimer(instr)
    ensures Valid(t)
  {
    var V := s.registers;
    match instr
    case SetIndex(a) => s.(I := a, pc := s.pc + 2)
    case SetDelay(x) => s.(delayTimer := V[x], pc := s.pc + 2)
    case SetSound(x) => s.(soundTimer := V[x], pc := s.pc + 2)
    case AddIndex(x) => s.(I := s.I + V[x], pc := s.pc + 2)
    case FontChar(x) => s.(I := FONTS_START + FONT_LEN * V[x], pc := s.pc + 2)
  }

  /** The value a single-register instruction stores into Vx. */
  function LoadedValue(s: State, instr: Instr, env: Inputs): byte
    requires Valid(s) && IsLoad(instr)
  {
    var V := s.registers;
    match instr
    case LoadImm(_, kk) => kk
    case AddImm(x, kk) => (V[x] as int + kk) % 0x100
    case Move(_, y) => V[y]
    case Or(x, y) => Or8(V[x], V[y])
    case And(x, y) => And8(V[x], V[y])
    case Xor(x, y) => Xor8(V[x], V[y])
    case Random(_, kk) => And8(env.random, kk)
    case LoadDelay(_) => s.delayTimer
    case WaitKey(_) => KeyValue(env.awaitedKey)
  }

  /** The registers after an 8XY_ instruction that sets a flag; VF is written second, except by 8XY4. */
  function FlagOpRegisters(V: seq<byte>, instr: Instr): (r: seq<byte>)
    requires |V| == NUM_REGISTERS && IsFlagOp(instr)
    ensures |r| == NUM_REGISTERS
  {
    match instr
    case AddCarry(x, y) =>
      var sum := V[x] as int + V[y];
      V[FLAG_REGISTER := if sum > 0xFF then 0 else 1][x := sum % 0x100]
    case Sub(x, y) =>
      var diff := V[x := (V[x] as int - V[y]) % 0x100];
      diff[FLAG_REGISTER := if diff[x] >= diff[y] then 1 else 0]
    case ShiftRight(x) => V[x := V[x] / 2][FLAG_REGISTER := V[x] % 2]
    case SubReverse(x, y) =>
      var diff := V[x := (V[y] as int - V[x]) % 0x100];
      diff[FLAG_REGISTER := if diff[y] >= diff[x] then 1 else 0]
    case ShiftLeft(x) => V[x := (V[x] as int * 2) % 0x100][FLAG_REGISTER := if V[x] >= 0x80 then 0x80 else 0]
  }

  /** The effect of one decoded instruction, before the timer tick; an unrecognised opcode changes nothing. */
  function Execute(s: State, instr: Instr, env: Inputs): (r: Outcome)
    requires Valid(s)
    ensures r.Continue? ==> Valid(r.state)
    ensures r.Halt? <==> instr.Return? && (s.sp == 0 || s.sp > STACK_SIZE)
  {
    match instr
    case Return => ExecReturn(s)
    case Draw(x, y, n) => Continue(DoDraw(s, x, y, n))
    case StoreBcd(x) => Continue(s.(memory := WriteBcd(s.memory, s.I, s.registers[x]), pc := s.pc + 2))
    case StoreRegisters(x) =>
      Continue(s.(memory := WriteRegisters(s.memory, s.registers, s.I, s.registers[x] as int + 1), pc := s.pc + 2))
    case LoadRegisters(x) => Continue(s.(registers := LoadFrom(s.registers, s.memory, s.I, x, 0), pc := s.pc + 2))
    case Unknown => Continue(s)
    case ClearScreen | Jump(_) | Call(_) | JumpOffset(_) | SkipIfEqualImm(_, _) | SkipIfNotEqualImm(_, _) |
         SkipIfEqual(_, _) | SkipIfNotEqual(_, _) | SkipIfKey(_) | SkipIfNotKey(_) =>
      Continue(ExecControl(s, instr, env))
    case SetIndex(_) | SetDelay(_) | SetSound(_) | AddIndex(_) | FontChar(_) =>
      Continue(ExecIndexOrTimer(s, instr))
    case LoadImm(_, _) | AddImm(_, _) | Move(_, _) | Or(_, _) | And(_, _) | Xor(_, _) | Random(_, _) |
         LoadDelay(_) | WaitKey(_) =>
      Continue(SetV(s, instr.x, LoadedValue(s, instr, env)))
    case AddCarry(_, _) | Sub(_, _) | ShiftRight(_) | SubReverse(_, _) | ShiftLeft(_) =>
      Continue(s.(registers := FlagOpRegisters(s.registers, instr), pc := s.pc + 2))
  }

  // ---------------------------------------------------------------- timers and the cycle

  /** The tick at the end of every cycle: each timer that is above 0 goes down by one. */
  function TickTimers(s: State): (t: State)
    ensures t.(delayTimer := s.delayTimer, soundTimer := s.soundTimer) == s
    ensures s.delayTimer > 0 ==> t.delayTimer + 1 == s.delayTimer
    ensures s.soundTimer > 0 ==> t.soundTimer + 1 == s.soundTimer
    ensures s.delayTimer == 0 ==> t.delayTimer == 0
    ensures s.soundTimer == 0 ==> t.soundTimer == 0
  {
    s.(delayTimer := if s.delayTimer > 0 then s.delayTimer - 1 else s.delayTimer,
       soundTimer := if s.soundTimer > 0 then s.soundTimer - 1 else s.soundTimer)
  }

  /** Does the tick on state `s` play the sound cue: it decrements the sound timer and the result is 1? */
  predicate Beeps(s: State)
    ensures Beeps(s) <==> s.soundTimer == 2
  {
    s.soundTimer > 0 && s.soundTimer - 1 == 1
  }

  /** One `cycle()`: fetch at pc, decode, execute, tick the timers. */
  function Step(s: State, env: Inputs): (r: StepResult)
    requires Valid(s)
    ensures r.Stepped? ==> Valid(r.next)
    ensures r.Faulted? ==> Decode(Fetch(s.memory, s.pc)).Return? && (s.sp == 0 || s.sp > STACK_SIZE)
  {
    match Execute(s, Decode(Fetch(s.memory, s.pc)), env)
    case Halt(f) => Faulted(f)
    case Continue(t) => Stepped(TickTimers(t), Beeps(t))
  }

  // ---------------------------------------------------------------- lifecycle

  /** `n` zero bytes. */
  function Zeros(n: nat): (z: seq<byte>)
    ensures |z| == n
  {
    seq(n, _ => 0)
  }

  /** The memory the constructor builds: zero, with the font at FONTS_START. */
  function FontMemory(): (mem: seq<byte>)
    ensures |mem| == MEMORY_SIZE
  {
    seq(MEMORY_SIZE, a requires 0 <= a < MEMORY_SIZE =>
      if FONTS_START <= a < FONTS_START + |FONT_SET| then FONT_SET[a - FONTS_START] else 0)
  }

  /** The state `new CPU(canvas)` creates. */
  function Initial(): (s: State)
    ensures Valid(s)
  {
    State(FontMemory(), Zeros(NUM_REGISTERS), seq(STACK_SIZE, _ => 0), 0, 0, 0, INIT_HERTZ, INIT_HERTZ, Blank())
  }

  /** Memory with every byte from PROGRAM_START on zeroed. */
  function ClearProgram(mem: seq<byte>): (r: seq<byte>)
    ensures |r| == |mem|
  {
    seq(|mem|, a requires 0 <= a < |mem| => if a < PROGRAM_START then mem[a] else 0)
  }

  /** `reset()`: everything reinitialised except memory below PROGRAM_START. */
  function Reset(s: State): (t: State)
    requires Valid(s)
    ensures Valid(t)
  {
    State(ClearProgram(s.memory), Zeros(NUM_REGISTERS), seq(STACK_SIZE, _ => 0), 0, 0, PROGRAM_START, INIT_HERTZ, INIT_HERTZ, Blank())
  }

  /** Memory after `rom` is copied to PROGRAM_START onward; bytes that would land past the end are dropped. */
  function CopyRom(mem: seq<byte>, rom: seq<byte>): (r: seq<byte>)
    ensures |r| == |mem|
  {
    seq(|mem|, a requires 0 <= a < |mem| =>
      if PROGRAM_START <= a < PROGRAM_START + |rom| then rom[a - PROGRAM_START] else mem[a])
  }

  /** `load_rom(rom)`: reset, pc at PROGRAM_START, the ROM copied in. */
  function LoadRom(s: State, rom: seq<byte>): (t: State)
    requires Valid(s)
    ensures Valid(t)
  {
    var r := Reset(s);
    r.(memory := CopyRom(r.memory, rom), pc := PROGRAM_START)
  }
}
