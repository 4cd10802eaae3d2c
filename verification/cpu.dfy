/**
 * The `CPU` object itself: typed arrays updated in place and the number
 * fields beside them.  Every method is proved against the function of the
 * Machine module that gives its meaning on `Snapshot()`, the State value of
 * the object's fields.
 */
module Cpu {
  import opened Constants
  import opened Decoder
  import opened Machine
  import opened Bits
  import Framebuffer

  /** What `cycle()` ends with: it ran (and maybe played the sound cue), or the model stopped at a fault. */
  datatype Status = Ran(beep: bool) | Halted(fault: Fault)

  class CPU {
    var memory: array<byte>
    var registers: array<byte>
    var stack: array<word>
    var I: nat
    var sp: nat
    var pc: nat
    var delayTimer: byte
    var soundTimer: byte
    var display: array<bool>

    /** The typed arrays have the sizes they are allocated with and are distinct arrays. */
    ghost predicate Valid()
      reads this
    {
      memory.Length == MEMORY_SIZE && registers.Length == NUM_REGISTERS &&
      stack.Length == STACK_SIZE && display.Length == DISPLAY_SIZE &&
      memory != registers && memory as object != stack && registers as object != stack
    }

    /** The fields as a Machine state. */
    ghost function Snapshot(): (s: State)
      reads this, memory, registers, stack, display
      requires Valid()
      ensures Machine.Valid(s)
    {
      State(memory[..], registers[..], stack[..], I, sp, pc, delayTimer, soundTimer, display[..])
    }

    /** `new CPU(canvas)`: zeroed arrays, the font copied to FONTS_START, pc at 0, both timers at 60. */
    constructor ()
      ensures Valid() && Snapshot() == Initial()
    {
      var mem := new byte[MEMORY_SIZE](_ => 0);
      var i := 0;
      while i < |FONT_SET|
        invariant 0 <= i <= |FONT_SET|
        invariant forall a :: 0 <= a < MEMORY_SIZE ==>
          mem[a] == if FONTS_START <= a < FONTS_START + i then FONT_SET[a - FONTS_START] else 0
      {
        mem[FONTS_START + i] := FONT_SET[i];
        i := i + 1;
      }
      var st := new word[STACK_SIZE](_ => 0);
      var regs := new byte[NUM_REGISTERS](_ => 0);
      var cells := new bool[DISPLAY_SIZE](_ => false);
      assert mem[..] == FontMemory();
      assert st[..] == seq(STACK_SIZE, _ => 0);
      assert regs[..] == Zeros(NUM_REGISTERS);
      assert cells[..] == Blank();
      memory, stack, registers, display := mem, st, regs, cells;
      I, sp, pc := 0, 0, 0;
      delayTimer, soundTimer := INIT_HERTZ, INIT_HERTZ;
    }

    /** `clear_display()`: every cell OFF, nothing else changes. */
    method ClearDisplay()
      requires Valid()
      modifies display
      ensures Valid() && Snapshot() == old(Snapshot()).(display := Blank())
    {
      var i := 0;
      while i < display.Length
        invariant 0 <= i <= display.Length
        invariant forall j :: 0 <= j < i ==> !display[j]
      {
        display[i] := false;
        i := i + 1;
      }
      assert display[..] == Blank();
    }

    /**
     * `reset()`: clear the display, zero memory from PROGRAM_START on (the
     * write at index MEMORY_SIZE is dropped), fresh stack and registers, the
     * numbers back to their start values with pc at PROGRAM_START.
     */
    method Reset()
      requires Valid()
      modifies this, memory, display
      ensures Valid() && Snapshot() == Machine.Reset(old(Snapshot()))
      ensures memory == old(memory) && display == old(display)
    {
      ClearDisplay();
      ClearProgramMemory();
      var st := new word[STACK_SIZE](_ => 0);
      var regs := new byte[NUM_REGISTERS](_ => 0);
      assert st[..] == seq(STACK_SIZE, _ => 0);
      assert regs[..] == Zeros(NUM_REGISTERS);
      stack, registers := st, regs;
      I, sp, pc := 0, 0, PROGRAM_START;
      delayTimer, soundTimer := INIT_HERTZ, INIT_HERTZ;
    }

    /** The loop of `reset()` that zeroes memory from PROGRAM_START to MEMORY_SIZE; the last write falls off the end. */
    method ClearProgramMemory()
      requires Valid()
      modifies memory
      ensures Valid() && Snapshot() == old(Snapshot()).(memory := ClearProgram(old(memory[..])))
    {
      var i := PROGRAM_START;
      while i <= MEMORY_SIZE
        invariant PROGRAM_START <= i <= MEMORY_SIZE + 1
        invariant forall a :: 0 <= a < MEMORY_SIZE ==>
          memory[a] == if PROGRAM_START <= a < i then 0 else old(memory[a])
      {
        if i < memory.Length {
          memory[i] := 0;
        }
        i := i + 1;
      }
      assert memory[..] == ClearProgram(old(memory[..]));
    }

    /** `load_rom(rom)`: reset, then copy the ROM to PROGRAM_START on; bytes past the end of memory are dropped. */
    method LoadRom(rom: seq<byte>)
      requires Valid()
      modifies this, memory, display
      ensures Valid() && Snapshot() == Machine.LoadRom(old(Snapshot()), rom)
    {
      Reset();
      ghost var cleared := memory[..];
      pc := PROGRAM_START;
      var pos := pc;
      var i := 0;
      while i < |rom|
        modifies memory
        invariant 0 <= i <= |rom| && pos == PROGRAM_START + i
        invariant memory[..] == CopyRom(cleared, rom[..i])
      {
        if pos < memory.Length {
          memory[pos] := rom[i];
        }
        pos := pos + 1;
        i := i + 1;
      }
      assert rom[..i] == rom;
    }

    /** The opcode at pc, big-endian; bytes past memory read as 0. */
    method FetchOpcode() returns (op: word)
      requires Valid()
      ensures op == Fetch(memory[..], pc)
    {
      var hi := if pc < memory.Length then memory[pc] else 0;
      var lo := if pc + 1 < memory.Length then memory[pc + 1] else 0;
      op := hi as int * 0x100 + lo;
    }

    /** One `cycle()`: fetch, decode, execute, tick the timers. */
    method Cycle(env: Inputs) returns (status: Status)
      requires Valid()
      modifies this, memory, registers, stack, display
      ensures Valid()
      ensures match Step(old(Snapshot()), env)
              case Faulted(f) => status == Halted(f) && Snapshot() == old(Snapshot())
              case Stepped(next, beep) => status == Ran(beep) && Snapshot() == next
    {
      var op := FetchOpcode();
      var fault := Execute(Decode(op), env);
      if fault.Some? {
        return Halted(fault.value);
      }
      var beep := TickTimers();
      return Ran(beep);
    }

    /** The timer tick that ends every cycle; the cue plays when the sound timer comes down to 1. */
    method TickTimers() returns (beep: bool)
      requires Valid()
      modifies this`delayTimer, this`soundTimer
      ensures Valid() && Snapshot() == Machine.TickTimers(old(Snapshot()))
      ensures beep == Beeps(old(Snapshot()))
    {
      if delayTimer > 0 {
        delayTimer := delayTimer - 1;
      }
      beep := false;
      if soundTimer > 0 {
        soundTimer := soundTimer - 1;
        if soundTimer == 1 {
          beep := true;
        }
      }
    }

    /** The switch of `cycle()` on a decoded instruction; an unrecognised opcode changes nothing. */
    method Execute(instr: Instr, env: Inputs) returns (fault: Option<Fault>)
      requires Valid()
      modifies this, memory, registers, stack, display
      ensures Valid()
      ensures match Machine.Execute(old(Snapshot()), instr, env)
              case Halt(f) => fault == Some(f) && Snapshot() == old(Snapshot())
              case Continue(t) => fault == None && Snapshot() == t
    {
      fault := None;
      if instr.Return? {
        fault := ReturnFromCall();
      } else if IsControl(instr) || IsLoad(instr) || IsFlagOp(instr) || IsIndexOrTimer(instr) {
        ExecuteGroup(instr, env);
      } else if instr.Draw? {
        DrawSprite(instr.x, instr.y, instr.n);
      } else if instr.StoreBcd? {
        StoreDigits(instr.x);
      } else if instr.StoreRegisters? {
        DumpRegisters(instr.x);
      } else if instr.LoadRegisters? {
        FillRegisters(instr.x);
      }
    }

    /** The opcodes that touch only pc, the stack, the screen clear, I, the timers or registers, grouped by effect. */
    method ExecuteGroup(instr: Instr, env: Inputs)
      requires Valid() && (IsControl(instr) || IsLoad(instr) || IsFlagOp(instr) || IsIndexOrTimer(instr))
      modifies this, registers, stack, display
      ensures Valid() && Snapshot() == Machine.Execute(old(Snapshot()), instr, env).state
    {
      ghost var s0 := Snapshot();
      if IsControl(instr) {
        assert Machine.Execute(s0, instr, env) == Continue(ExecControl(s0, instr, env));
        Control(instr, env);
      } else if IsLoad(instr) {
        assert Machine.Execute(s0, instr, env) == Continue(SetV(s0, instr.x, LoadedValue(s0, instr, env)));
        SetRegister(instr, env);
      } else if IsFlagOp(instr) {
        assert Machine.Execute(s0, instr, env) ==
               Continue(s0.(registers := FlagOpRegisters(s0.registers, instr), pc := s0.pc + 2));
        FlagArithmetic(instr);
      } else {
        assert Machine.Execute(s0, instr, env) == Continue(ExecIndexOrTimer(s0, instr));
        IndexOrTimer(instr);
      }
    }

    /** 00E0 as this interpreter decodes it: pop the return address, or fault on an empty or overrun stack. */
    method ReturnFromCall() returns (fault: Option<Fault>)
      requires Valid()
      modifies this`sp, this`pc
      ensures Valid()
      ensures match ExecReturn(old(Snapshot()))
              case Halt(f) => fault == Some(f) && Snapshot() == old(Snapshot())
              case Continue(t) => fault == None && Snapshot() == t
    {
      fault := None;
      if sp == 0 {
        fault := Some(StackUnderflow);
      } else if sp > STACK_SIZE {
        fault := Some(ReturnAddressLost);
      } else {
        sp := sp - 1;
        pc := stack[sp];
      }
    }

    /** The instructions that only move pc, plus the call push and the screen clear. */
    method Control(instr: Instr, env: Inputs)
      requires Valid() && IsControl(instr)
      modifies this`sp, this`pc, stack, display
      ensures Valid() && Snapshot() == ExecControl(old(Snapshot()), instr, env)
    {
      match instr
      case ClearScreen =>
        ClearDisplay();
        pc := pc + 2;
      case Jump(a) =>
        pc := a;
      case Call(a) =>
        if sp < stack.Length {
          stack[sp] := (pc + 2) % 0x1_0000;
        }
        sp := sp + 1;
        pc := a;
      case JumpOffset(a) =>
        pc := registers[0] + a;
      case SkipIfEqualImm(x, kk) =>
        pc := pc + if registers[x] == kk then 4 else 2;
      case SkipIfNotEqualImm(x, kk) =>
        pc := pc + if registers[x] != kk then 4 else 2;
      case SkipIfEqual(x, y) =>
        pc := pc + if registers[x] == registers[y] then 4 else 2;
      case SkipIfNotEqual(x, y) =>
        pc := pc + if registers[x] != registers[y] then 4 else 2;
      case SkipIfKey(x) =>
        pc := pc + if env.keyPressed == Some(registers[x]) then 4 else 2;
      case SkipIfNotKey(x) =>
        pc := pc + if env.keyPressed != Some(registers[x]) then 4 else 2;
    }

    /** ANNN, FX15, FX18, FX1E, FX29: set I or a timer and step past. */
    method IndexOrTimer(instr: Instr)
      requires Valid() && IsIndexOrTimer(instr)
      modifies this`I, this`pc, this`delayTimer, this`soundTimer
      ensures Valid() && Snapshot() == ExecIndexOrTimer(old(Snapshot()), instr)
    {
      match instr {
        case SetIndex(a) =>
          I := a;
        case SetDelay(x) =>
          delayTimer := registers[x];
        case SetSound(x) =>
          soundTimer := registers[x];
        case AddIndex(x) =>
          I := I + registers[x];
        case FontChar(x) =>
          I := FONTS_START + FONT_LEN * registers[x];
      }
      pc := pc + 2;
    }

    /** 6XKK, 7XKK, 8XY0 to 8XY3, CXKK, FX07, FX0A: compute one value, store it in Vx, step past. */
    method SetRegister(instr: Instr, env: Inputs)
      requires Valid() && IsLoad(instr)
      modifies this`pc, registers
      ensures Valid() && Snapshot() == SetV(old(Snapshot()), instr.x, LoadedValue(old(Snapshot()), instr, env))
    {
      var v: byte;
      match instr {
        case LoadImm(_, kk) =>
          v := kk;
        case AddImm(x, kk) =>
          v := (registers[x] as int + kk) % 0x100;
        case Move(_, y) =>
          v := registers[y];
        case Or(x, y) =>
          v := Or8(registers[x], registers[y]);
        case And(x, y) =>
          v := And8(registers[x], registers[y]);
        case Xor(x, y) =>
          v := Xor8(registers[x], registers[y]);
        case Random(_, kk) =>
          v := And8(env.random, kk);
        case LoadDelay(_) =>
          v := delayTimer;
        case WaitKey(_) =>
          v := KeyValue(env.awaitedKey);
      }
      registers[instr.x] := v;
      pc := pc + 2;
    }

    /** 8XY4 to 8XYE: Vx and the flag VF, written in the source's order. */
    method FlagArithmetic(instr: Instr)
      requires Valid() && IsFlagOp(instr)
      modifies this`pc, registers
      ensures Valid() && Snapshot() == old(Snapshot()).(registers := FlagOpRegisters(old(registers[..]), instr), pc := old(pc) + 2)
    {
      ghost var V := registers[..];
      match instr {
        case AddCarry(x, y) =>
          var sum := registers[x] as int + registers[y];
          registers[FLAG_REGISTER] := if sum > 0xFF then 0 else 1;
          registers[x] := sum % 0x100;
        case Sub(x, y) =>
          registers[x] := (registers[x] as int - registers[y]) % 0x100;
          registers[FLAG_REGISTER] := if registers[x] >= registers[y] then 1 else 0;
        case ShiftRight(x) =>
          var v := registers[x];
          registers[x] := v / 2;
          registers[FLAG_REGISTER] := v % 2;
        case SubReverse(x, y) =>
          registers[x] := (registers[y] as int - registers[x]) % 0x100;
          registers[FLAG_REGISTER] := if registers[y] >= registers[x] then 1 else 0;
        case ShiftLeft(x) =>
          var v := registers[x];
          registers[x] := (v as int * 2) % 0x100;
          registers[FLAG_REGISTER] := if v >= 0x80 then 0x80 else 0;
      }
      assert registers[..] == FlagOpRegisters(V, instr);
      pc := pc + 2;
    }

    /**
     * The display and the registers after the first `k` steps of a draw of
     * `sprite` at `origin` that started from display `before` and registers
     * `regs` (VF already cleared: it holds whether a step has collided).
     */
    ghost predicate DrawnUpTo(before: seq<bool>, sprite: seq<byte>, origin: nat, regs: seq<byte>, k: nat)
      reads this, registers, display
      requires |regs| == NUM_REGISTERS && k <= |sprite| * SPRITE_WIDTH
    {
      display[..] == Framebuffer.DrawLoop(before, sprite, origin, k) &&
      registers[..] == regs[FLAG_REGISTER := if Framebuffer.CollideLoop(before, sprite, origin, k) then 1 else 0]
    }

    /**
     * DXYN: VF cleared, then for every sprite row and column a set bit
     * toggles the cell `(y + row) * WIDTH + (x + col)` and sets VF when that
     * cell was ON; cells past the end of the display are skipped.
     */
    method DrawSprite(x: nibble, y: nibble, n: nibble)
      requires Valid()
      modifies this`pc, registers, display
      ensures Valid() && Snapshot() == DoDraw(old(Snapshot()), x, y, n)
    {
      var left := registers[x] % WIDTH;
      var top := registers[y] % HEIGHT;
      ghost var origin := top * WIDTH + left;
      ghost var before := display[..];
      ghost var sprite := SpriteRows(memory[..], I, n);
      registers[FLAG_REGISTER] := 0;
      DrawRows(left, top, n, before, sprite, old(registers[..]));
      Framebuffer.DrawLoopAll(before, sprite, origin);
      ghost var s0 := old(Snapshot());
      assert origin == DrawOrigin(s0, x, y) && sprite == SpriteRows(s0.memory, s0.I, n);
      assert display[..] == Framebuffer.Draw(before, sprite, origin);
      assert registers[..] == s0.registers[FLAG_REGISTER := if Framebuffer.Collides(before, sprite, origin) then 1 else 0];
      pc := pc + 2;
    }

    /** The outer loop of DXYN: sprite rows 0 to n - 1, row `row` being `memory[I + row]`. */
    method DrawRows(left: nat, top: nat, n: nibble, ghost before: seq<bool>, ghost sprite: seq<byte>,
                    ghost regs: seq<byte>)
      requires Valid() && |before| == DISPLAY_SIZE && |regs| == NUM_REGISTERS
      requires sprite == SpriteRows(memory[..], I, n)
      requires DrawnUpTo(before, sprite, top * WIDTH + left, regs, 0)
      modifies registers, display
      ensures DrawnUpTo(before, sprite, top * WIDTH + left, regs, n * SPRITE_WIDTH)
    {
      var row := 0;
      while row < n
        invariant 0 <= row <= n && row * SPRITE_WIDTH <= n * SPRITE_WIDTH
        invariant DrawnUpTo(before, sprite, top * WIDTH + left, regs, row * SPRITE_WIDTH)
      {
        var bits := if I + row < memory.Length then memory[I + row] else 0;
        DrawRow(left, top, row, bits, before, sprite, regs);
        row := row + 1;
      }
    }

    /** The inner loop of DXYN: the eight columns of sprite row `row`. */
    method DrawRow(left: nat, top: nat, row: nat, bits: byte, ghost before: seq<bool>, ghost sprite: seq<byte>,
                   ghost regs: seq<byte>)
      requires Valid() && |before| == DISPLAY_SIZE && |regs| == NUM_REGISTERS
      requires row < |sprite| && bits == sprite[row]
      requires DrawnUpTo(before, sprite, top * WIDTH + left, regs, row * SPRITE_WIDTH)
      modifies registers, display
      ensures (row + 1) * SPRITE_WIDTH <= |sprite| * SPRITE_WIDTH
      ensures DrawnUpTo(before, sprite, top * WIDTH + left, regs, (row + 1) * SPRITE_WIDTH)
    {
      var col := 0;
      Framebuffer.StepInRange(row, SPRITE_WIDTH - 1, |sprite|);
      while col < SPRITE_WIDTH
        invariant 0 <= col <= SPRITE_WIDTH
        invariant DrawnUpTo(before, sprite, top * WIDTH + left, regs, row * SPRITE_WIDTH + col)
      {
        DrawCell(left, top, row, col, bits, before, sprite, regs);
        col := col + 1;
      }
      Framebuffer.NextRow(row);
    }

    /** One step of the inner loop: a set bit toggles its cell, if on the display, and flags a cell that was ON. */
    method DrawCell(left: nat, top: nat, row: nat, col: nat, bits: byte, ghost before: seq<bool>,
                    ghost sprite: seq<byte>, ghost regs: seq<byte>)
      requires Valid() && |before| == DISPLAY_SIZE && |regs| == NUM_REGISTERS
      requires row < |sprite| && bits == sprite[row] && col < SPRITE_WIDTH
      requires DrawnUpTo(before, sprite, top * WIDTH + left, regs, row * SPRITE_WIDTH + col)
      modifies registers, display
      ensures row * SPRITE_WIDTH + col + 1 <= |sprite| * SPRITE_WIDTH
      ensures DrawnUpTo(before, sprite, top * WIDTH + left, regs, row * SPRITE_WIDTH + col + 1)
    {
      ghost var origin := top * WIDTH + left;
      var cell := (top + row) * WIDTH + (left + col);
      ghost var k := row * SPRITE_WIDTH + col;
      ghost var drawn := display[..];
      Framebuffer.StepInRange(row, col, |sprite|);
      Framebuffer.CellOfCoordinates(left, top, row, col);
      Framebuffer.StepRowCol(row, col);
      assert Framebuffer.StepCell(origin, k) == cell;
      assert Framebuffer.StepOn(before, sprite, origin, k) == (Framebuffer.SpriteBit(bits, col) && cell < display.Length);
      if Framebuffer.SpriteBit(bits, col) && cell < display.Length {
        if display[cell] {
          registers[FLAG_REGISTER] := 1;
        }
        display[cell] := !display[cell];
        assert display[..] == drawn[cell := !drawn[cell]];
      }
      assert display[..] == Framebuffer.DrawLoop(before, sprite, origin, k + 1);
      assert registers[..] == regs[FLAG_REGISTER := if Framebuffer.CollideLoop(before, sprite, origin, k + 1) then 1 else 0];
    }

    /** FX33: the loop from offset 2 down to 0 writing `val % 10` and dividing `val` by 10. */
    method StoreDigits(x: nibble)
      requires Valid()
      modifies this`pc, memory
      ensures Valid() && Snapshot() == old(Snapshot()).(memory := WriteBcd(old(memory[..]), I, registers[x]), pc := old(pc) + 2)
    {
      var val: nat := registers[x];
      var offset := 2;
      while offset >= 0
        modifies memory
        invariant -1 <= offset <= 2
        invariant WriteDigits(memory[..], I, val, offset) == WriteBcd(old(memory[..]), I, registers[x])
      {
        if I + offset < memory.Length {
          memory[I + offset] := val % 10;
        }
        val := val / 10;
        offset := offset - 1;
      }
      pc := pc + 2;
    }

    /** FX55: `memory[I + i] = registers[i]` for i from 0 to Vx; a register index past V15 stores 0. */
    method DumpRegisters(x: nibble)
      requires Valid()
      modifies this`pc, memory
      ensures Valid() &&
              Snapshot() == old(Snapshot()).(memory := WriteRegisters(old(memory[..]), registers[..], I, registers[x] as int + 1),
                                             pc := old(pc) + 2)
    {
      var i := 0;
      while i <= registers[x]
        modifies memory
        invariant 0 <= i <= registers[x] as int + 1
        invariant memory[..] == WriteRegisters(old(memory[..]), registers[..], I, i)
      {
        ghost var prev := memory[..];
        if I + i < memory.Length {
          memory[I + i] := if i < registers.Length then registers[i] else 0;
        }
        assert memory[..] == WriteByte(prev, I + i, ReadByte(registers[..], i));
        WriteRegistersStep(old(memory[..]), registers[..], I, i);
        i := i + 1;
      }
      pc := pc + 2;
    }

    /** FX65: `registers[i] = memory[I + i]` while `i <= registers[x]`, the bound read again after every store. */
    method FillRegisters(x: nibble)
      requires Valid()
      modifies this`pc, registers
      ensures Valid() &&
              Snapshot() == old(Snapshot()).(registers := LoadFrom(old(registers[..]), memory[..], I, x, 0), pc := old(pc) + 2)
    {
      var i := 0;
      while i <= registers[x]
        modifies registers
        invariant 0 <= i <= 0x100
        invariant LoadFrom(registers[..], memory[..], I, x, i) == LoadFrom(old(registers[..]), memory[..], I, x, 0)
        decreases 0x100 - i
      {
        if i < registers.Length {
          registers[i] := if I + i < memory.Length then memory[I + i] else 0;
        }
        i := i + 1;
      }
      pc := pc + 2;
    }
  }
}
