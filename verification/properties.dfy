/**
 * What one cycle of the interpreter guarantees, instruction family by
 * instruction family, and what `load_rom` and `reset` leave behind.
 */
module Properties {
  import opened Constants
  import opened Decoder
  import opened Machine
  import opened Bits
  import Framebuffer

  /** The state after an instruction that does not fault. */
  function After(s: State, instr: Instr, env: Inputs): (t: State)
    requires Valid(s) && !instr.Return?
    ensures Valid(t)
  {
    Execute(s, instr, env).state
  }

  /** Nothing but the program counter differs. */
  predicate OnlyPcChanged(s: State, t: State)
  {
    t.memory == s.memory && t.registers == s.registers && t.stack == s.stack && t.I == s.I &&
    t.sp == s.sp && t.delayTimer == s.delayTimer && t.soundTimer == s.soundTimer && t.display == s.display
  }

  /** Registers other than `x` keep their values. */
  predicate OthersKept(s: State, t: State, x: nibble)
    requires Valid(s) && Valid(t)
  {
    forall r :: 0 <= r < NUM_REGISTERS && r != x ==> t.registers[r] == s.registers[r]
  }

  // ---------------------------------------------------------------- fetch and jumps

  /** 1NNN: pc becomes `opcode & 0xFFF`; the cycle changes nothing else but the timer tick. */
  lemma JumpStep(s: State, env: Inputs)
    requires Valid(s) && Group(Fetch(s.memory, s.pc)) == 0x1
    ensures Step(s, env) == Stepped(TickTimers(s.(pc := Fetch(s.memory, s.pc) % 0x1000)), Beeps(s))
  {
  }

  /** BNNN: pc becomes V0 + NNN, nothing else changes. */
  lemma JumpOffsetStep(s: State, env: Inputs)
    requires Valid(s) && Group(Fetch(s.memory, s.pc)) == 0xB
    ensures Step(s, env) == Stepped(TickTimers(s.(pc := s.registers[0] + Fetch(s.memory, s.pc) % 0x1000)), Beeps(s))
  {
  }

  // ---------------------------------------------------------------- call and return

  /** A call with room on the stack followed by a return gives back sp and resumes after the call. */
  lemma CallThenReturn(s: State, a: address, env: Inputs)
    requires Valid(s) && s.sp < STACK_SIZE
    ensures var t := After(s, Call(a), env);
            t.pc == a && t.sp == s.sp + 1 && t.stack[s.sp] == (s.pc + 2) % 0x1_0000 &&
            Execute(t, Return, env) == Continue(s.(stack := t.stack, pc := (s.pc + 2) % 0x1_0000))
  {
  }

  /** Two cycles, a call at pc and a return at its target, as fetched from memory. */
  lemma CallThenReturnSteps(s: State, env1: Inputs, env2: Inputs)
    requires Valid(s) && s.sp < STACK_SIZE
    requires Decode(Fetch(s.memory, s.pc)).Call?
    requires Decode(Fetch(s.memory, Decode(Fetch(s.memory, s.pc)).nnn)).Return?
    ensures Step(s, env1).Stepped?
    ensures var t := Step(s, env1).next;
            Step(t, env2).Stepped? &&
            var u := Step(t, env2).next;
            u.sp == s.sp && u.pc == (s.pc + 2) % 0x1_0000 &&
            u.registers == s.registers && u.memory == s.memory && u.display == s.display
  {
    var t := Step(s, env1).next;
    assert t.memory == s.memory;
  }

  /** A call on a full stack drops the return address: the matching return faults. */
  lemma CallOnFullStackLosesReturn(s: State, a: address, env: Inputs)
    requires Valid(s) && s.sp == STACK_SIZE
    ensures var t := After(s, Call(a), env);
            t.stack == s.stack && t.sp == STACK_SIZE + 1 &&
            Execute(t, Return, env) == Halt(ReturnAddressLost)
  {
  }

  /** A return on an empty stack faults. */
  lemma ReturnOnEmptyStack(s: State, env: Inputs)
    requires Valid(s) && s.sp == 0
    ensures Execute(s, Return, env) == Halt(StackUnderflow)
    ensures Decode(Fetch(s.memory, s.pc)).Return? ==> Step(s, env) == Faulted(StackUnderflow)
  {
  }

  // ---------------------------------------------------------------- skips

  /** The condition under which each conditional skip skips. */
  predicate SkipTaken(s: State, instr: Instr, env: Inputs)
    requires Valid(s)
  {
    match instr
    case SkipIfEqualImm(x, kk) => s.registers[x] == kk
    case SkipIfNotEqualImm(x, kk) => s.registers[x] != kk
    case SkipIfEqual(x, y) => s.registers[x] == s.registers[y]
    case SkipIfNotEqual(x, y) => s.registers[x] != s.registers[y]
    case SkipIfKey(x) => env.keyPressed.Some? && env.keyPressed.value == s.registers[x]
    case SkipIfNotKey(x) => !(env.keyPressed.Some? && env.keyPressed.value == s.registers[x])
    case _ => false
  }

  predicate IsSkip(instr: Instr)
  {
    instr.SkipIfEqualImm? || instr.SkipIfNotEqualImm? || instr.SkipIfEqual? ||
    instr.SkipIfNotEqual? || instr.SkipIfKey? || instr.SkipIfNotKey?
  }

  /** A skip advances pc by 4 when its condition holds and by 2 otherwise, and changes nothing else. */
  lemma SkipAdvances(s: State, instr: Instr, env: Inputs)
    requires Valid(s) && IsSkip(instr)
    ensures var t := After(s, instr, env);
            t.pc == s.pc + (if SkipTaken(s, instr, env) then 4 else 2) && OnlyPcChanged(s, t)
  {
  }

  // ---------------------------------------------------------------- arithmetic

  /** 7XKK: Vx wraps modulo 256; no other register, VF included, changes. */
  lemma AddImmWraps(s: State, x: nibble, kk: byte, env: Inputs)
    requires Valid(s)
    ensures var t := After(s, AddImm(x, kk), env);
            t.registers[x] == (s.registers[x] + kk) % 0x100 && OthersKept(s, t, x) && t.pc == s.pc + 2
  {
  }

  /**
   * 8XY4: VF is 0 when the sum overflows and 1 otherwise (the reverse of a
   * carry), so Vx + 256 * (1 - VF) rebuilds the exact sum; with X = F the sum
   * overwrites the flag.
   */
  lemma AddCarryFlag(s: State, x: nibble, y: nibble, env: Inputs)
    requires Valid(s)
    ensures var t := After(s, AddCarry(x, y), env);
            var sum := s.registers[x] as int + s.registers[y];
            t.registers[x] == sum % 0x100 &&
            (x != FLAG_REGISTER ==>
               t.registers[FLAG_REGISTER] == (if sum > 0xFF then 0 else 1) &&
               t.registers[x] as int + 0x100 * (1 - t.registers[FLAG_REGISTER] as int) == sum) &&
            (forall r :: 0 <= r < FLAG_REGISTER && r != x ==> t.registers[r] == s.registers[r])
  {
  }

  /**
   * 8XY5: Vx becomes Vx - Vy modulo 256, then VF is 1 exactly when the NEW Vx
   * is at least Vy.  Vx + Vy gives back the old Vx modulo 256.  With X = Y the
   * comparison reads the register just zeroed on both sides, so Vx = 0 and
   * VF = 1; with X = F the flag overwrites the difference.
   */
  lemma SubFlagAfterUpdate(s: State, x: nibble, y: nibble, env: Inputs)
    requires Valid(s)
    ensures var t := After(s, Sub(x, y), env);
            var d := (s.registers[x] as int - s.registers[y]) % 0x100;
            (x != FLAG_REGISTER ==> t.registers[x] == d && (d + s.registers[y]) % 0x100 == s.registers[x]) &&
            t.registers[FLAG_REGISTER] == (if x == y || d >= s.registers[y] then 1 else 0) &&
            (x == y && x != FLAG_REGISTER ==> t.registers[x] == 0 && t.registers[FLAG_REGISTER] == 1) &&
            (forall r :: 0 <= r < FLAG_REGISTER && r != x ==> t.registers[r] == s.registers[r])
  {
  }

  /**
   * 8XY7: Vx becomes Vy - Vx modulo 256, then VF is 1 exactly when Vy is at
   * least the NEW Vx.  With X = Y both sides are the zeroed register, so Vx = 0
   * and VF = 1.
   */
  lemma SubReverseFlagAfterUpdate(s: State, x: nibble, y: nibble, env: Inputs)
    requires Valid(s)
    ensures var t := After(s, SubReverse(x, y), env);
            var d := (s.registers[y] as int - s.registers[x]) % 0x100;
            (x != FLAG_REGISTER ==> t.registers[x] == d && (d + s.registers[x]) % 0x100 == s.registers[y]) &&
            t.registers[FLAG_REGISTER] == (if x == y || s.registers[y] >= d then 1 else 0) &&
            (x == y && x != FLAG_REGISTER ==> t.registers[x] == 0 && t.registers[FLAG_REGISTER] == 1) &&
            (forall r :: 0 <= r < FLAG_REGISTER && r != x ==> t.registers[r] == s.registers[r])
  {
  }

  /** With V1 = 5 and V2 = 3 there is no borrow, yet 8125 leaves VF = 0: the flag is not "no borrow". */
  lemma SubFlagIsNotNoBorrow(s: State, env: Inputs)
    requires Valid(s) && s.registers[1] == 5 && s.registers[2] == 3
    ensures After(s, Sub(1, 2), env).registers[1] == 2
    ensures After(s, Sub(1, 2), env).registers[FLAG_REGISTER] == 0
  {
  }

  /** 8XY6: VF gets the bit shifted out, so 2 * Vx + VF gives back the old Vx. */
  lemma ShiftRightKeepsBit(s: State, x: nibble, env: Inputs)
    requires Valid(s)
    ensures var t := After(s, ShiftRight(x), env);
            t.registers[FLAG_REGISTER] == s.registers[x] % 2 &&
            (x != FLAG_REGISTER ==> 2 * t.registers[x] + t.registers[FLAG_REGISTER] == s.registers[x]) &&
            (forall r :: 0 <= r < FLAG_REGISTER && r != x ==> t.registers[r] == s.registers[r])
  {
  }

  /** 8XYE: VF gets `Vx & 0x80` (0 or 128, not 0 or 1), so Vx / 2 + VF gives back the old Vx. */
  lemma ShiftLeftKeepsBit(s: State, x: nibble, env: Inputs)
    requires Valid(s)
    ensures var t := After(s, ShiftLeft(x), env);
            t.registers[FLAG_REGISTER] == (if s.registers[x] >= 0x80 then 0x80 else 0) &&
            (x != FLAG_REGISTER ==>
               t.registers[x] == (2 * s.registers[x] as int) % 0x100 &&
               t.registers[x] / 2 + t.registers[FLAG_REGISTER] == s.registers[x]) &&
            (forall r :: 0 <= r < FLAG_REGISTER && r != x ==> t.registers[r] == s.registers[r])
  {
  }

  // ---------------------------------------------------------------- single-register loads

  /**
   * 6XKK, 7XKK, 8XY0 to 8XY3, CXKK, FX07 and FX0A write Vx and advance pc by
   * 2; nothing else changes (VF only when X = F).
   */
  lemma LoadWritesOnlyVx(s: State, instr: Instr, env: Inputs)
    requires Valid(s) && IsLoad(instr)
    ensures var t := After(s, instr, env);
            t.registers[instr.x] == LoadedValue(s, instr, env) && OthersKept(s, t, instr.x) &&
            t.pc == s.pc + 2 && t.memory == s.memory && t.stack == s.stack && t.I == s.I && t.sp == s.sp &&
            t.delayTimer == s.delayTimer && t.soundTimer == s.soundTimer && t.display == s.display
  {
  }

  /**
   * 8XY0 copies Vy into Vx.  After 8XY1 every bit of Vx and of Vy is set in the
   * new Vx; after 8XY2 every bit of the new Vx is set in both.  With X = Y the
   * three logical operations keep Vx, except 8XX3, which clears it.
   */
  lemma LogicOps(s: State, x: nibble, y: nibble, env: Inputs)
    requires Valid(s)
    ensures After(s, Move(x, y), env).registers[x] == s.registers[y]
    ensures var v := After(s, Or(x, y), env).registers[x];
            And8(v, s.registers[x]) == s.registers[x] && And8(v, s.registers[y]) == s.registers[y] &&
            v >= s.registers[x] && v >= s.registers[y]
    ensures var v := After(s, And(x, y), env).registers[x];
            Or8(v, s.registers[x]) == s.registers[x] && Or8(v, s.registers[y]) == s.registers[y] &&
            v <= s.registers[x] && v <= s.registers[y]
    ensures x == y ==> After(s, Or(x, y), env).registers[x] == s.registers[x] &&
                       After(s, And(x, y), env).registers[x] == s.registers[x] &&
                       After(s, Xor(x, y), env).registers[x] == 0
  {
    ByteBits(s.registers[x], s.registers[y]);
  }

  /** 8XY3 is its own inverse: applied twice with X ≠ Y it gives back every register. */
  lemma XorTwiceRestores(s: State, x: nibble, y: nibble, env: Inputs)
    requires Valid(s) && x != y
    ensures After(After(s, Xor(x, y), env), Xor(x, y), env).registers == s.registers
  {
    var v := After(s, Xor(x, y), env).registers[x];
    ByteBits(v, s.registers[y]);
    ByteBits(s.registers[x], s.registers[y]);
  }

  /**
   * CXKK sets no bit outside KK (adding its bits to KK gives KK back), and
   * since `rand(255)` is at most 254 so is the value: CXFF never yields 0xFF.
   */
  lemma RandomMasked(s: State, x: nibble, kk: byte, env: Inputs)
    requires Valid(s)
    ensures var v := After(s, Random(x, kk), env).registers[x];
            Or8(v, kk) == kk && v <= kk && v <= env.random < 0xFF &&
            (kk == 0xFF ==> v == env.random)
  {
    ByteBits(env.random, kk);
  }

  /** FX07 copies the delay timer; FX0A stores the key's code, at most 0xF, and 0 for an unmapped key. */
  lemma TimerAndKeyLoads(s: State, x: nibble, env: Inputs)
    requires Valid(s)
    ensures After(s, LoadDelay(x), env).registers[x] == s.delayTimer
    ensures var v := After(s, WaitKey(x), env).registers[x];
            v <= 0xF && (env.awaitedKey in INPUT_MAP ==> v == INPUT_MAP[env.awaitedKey]) &&
            (env.awaitedKey !in INPUT_MAP ==> v == 0)
  {
  }

  // ---------------------------------------------------------------- draw

  /** DXYN sets VF to 1 exactly on a collision, XORs the sprite at (Vx mod 64, Vy mod 32), and keeps memory, I, the stack and the timers. */
  lemma DrawEffect(s: State, x: nibble, y: nibble, n: nibble, env: Inputs)
    requires Valid(s)
    ensures var t := After(s, Draw(x, y, n), env);
            var sprite := SpriteRows(s.memory, s.I, n);
            var origin := (s.registers[y] % HEIGHT) * WIDTH + s.registers[x] % WIDTH;
            t.display == Framebuffer.Draw(s.display, sprite, origin) &&
            (t.registers[FLAG_REGISTER] == 1 <==> Framebuffer.Collides(s.display, sprite, origin)) &&
            (t.registers[FLAG_REGISTER] == 0 <==> !Framebuffer.Collides(s.display, sprite, origin)) &&
            OthersKept(s, t, FLAG_REGISTER) && t.memory == s.memory && t.I == s.I && t.pc == s.pc + 2 &&
            t.stack == s.stack && t.sp == s.sp && t.delayTimer == s.delayTimer && t.soundTimer == s.soundTimer
  {
  }

  /**
   * Executing the same DXYN twice restores the display when neither
   * coordinate register is VF, and the second one reports a collision exactly
   * when the first turned some sprite cell ON.
   */
  lemma DrawTwice(s: State, x: nibble, y: nibble, n: nibble, env: Inputs)
    requires Valid(s) && x != FLAG_REGISTER && y != FLAG_REGISTER
    ensures var t := After(s, Draw(x, y, n), env);
            var u := After(t, Draw(x, y, n), env);
            var sprite := SpriteRows(s.memory, s.I, n);
            var origin := DrawOrigin(s, x, y);
            u.display == s.display &&
            (u.registers[FLAG_REGISTER] == 1 <==>
               exists i :: 0 <= i < DISPLAY_SIZE && Framebuffer.Hit(sprite, origin, i) && !s.display[i])
  {
    var t := After(s, Draw(x, y, n), env);
    var sprite := SpriteRows(s.memory, s.I, n);
    var origin := DrawOrigin(s, x, y);
    assert DrawOrigin(t, x, y) == origin;
    Framebuffer.DrawTwiceRestores(s.display, sprite, origin);
    Framebuffer.RedrawCollides(s.display, sprite, origin);
  }

  // ---------------------------------------------------------------- FX29, FX33, FX55, FX65

  /** FX29: I points at the glyph of Vx; for a digit 0..F the five bytes there, in the constructor's memory, are that glyph. */
  lemma FontCharAddress(s: State, x: nibble, env: Inputs)
    requires Valid(s)
    ensures var t := After(s, FontChar(x), env);
            t.I == FONTS_START + FONT_LEN * s.registers[x] &&
            (s.registers[x] < 0x10 ==>
               FontMemory()[t.I..t.I + FONT_LEN] ==
               FONT_SET[FONT_LEN * s.registers[x]..FONT_LEN * s.registers[x] + FONT_LEN])
  {
    if s.registers[x] < 0x10 {
      FontGlyph(s.registers[x]);
    }
  }

  /** The five bytes of digit `v`'s glyph sit at FONTS_START + 5v in the constructor's memory. */
  lemma FontGlyph(v: nat)
    requires v < 0x10
    ensures FontMemory()[FONTS_START + FONT_LEN * v..FONTS_START + FONT_LEN * v + FONT_LEN] ==
            FONT_SET[FONT_LEN * v..FONT_LEN * v + FONT_LEN]
  {
    var start := FONTS_START + FONT_LEN * v;
    var glyph := FontMemory()[start..start + FONT_LEN];
    var expected := FONT_SET[FONT_LEN * v..FONT_LEN * v + FONT_LEN];
    forall k | 0 <= k < FONT_LEN ensures glyph[k] == expected[k] {
      assert start + k - FONTS_START == FONT_LEN * v + k;
      assert glyph[k] == FontMemory()[start + k] == FONT_SET[FONT_LEN * v + k];
    }
  }

  /** FX33 writes the hundreds, tens and ones digit of v at I, I+1, I+2 and nothing else; the digits give v back. */
  lemma BcdDigits(mem: seq<byte>, I: nat, v: byte)
    requires I + 2 < |mem|
    ensures var r := WriteBcd(mem, I, v);
            r[I] == v / 100 && r[I + 1] == (v / 10) % 10 && r[I + 2] == v % 10 &&
            100 * r[I] + 10 * r[I + 1] + r[I + 2] == v &&
            forall a :: 0 <= a < |mem| && (a < I || a > I + 2) ==> r[a] == mem[a]
  {
    var m2 := WriteByte(mem, I + 2, v % 10);
    var m1 := WriteByte(m2, I + 1, (v / 10) % 10);
    var m0 := WriteByte(m1, I, (v / 10 / 10) % 10);
    assert WriteBcd(mem, I, v) == m0;
  }

  /** FX33 with Vx = 255 stores 2, 5, 5. */
  lemma Bcd255(mem: seq<byte>, I: nat)
    requires I + 2 < |mem|
    ensures WriteBcd(mem, I, 255)[I..I + 3] == [2, 5, 5]
  {
    BcdDigits(mem, I, 255);
  }

  /** FX55 stores V0..V[Vx] inclusive at I.. (0 for indices past VF), dropping writes past the end, and nothing else. */
  lemma StoreRegistersEffect(s: State, x: nibble, env: Inputs)
    requires Valid(s)
    ensures var t := After(s, StoreRegisters(x), env);
            t.registers == s.registers &&
            forall a :: 0 <= a < MEMORY_SIZE ==>
              t.memory[a] == if s.I <= a <= s.I + s.registers[x] then ReadByte(s.registers, a - s.I) else s.memory[a]
  {
  }

  /**
   * The last index the FX65 loop writes when it starts at `i`: the bound
   * `registers[x]` is read again after the loop has written register x.
   */
  function LoadEnd(regs: seq<byte>, mem: seq<byte>, I: nat, x: nibble, i: nat): int
    requires x < |regs|
  {
    if x < i || regs[x] < x then regs[x]
    else if ReadByte(mem, I + x) < x then x else ReadByte(mem, I + x)
  }

  /** The FX65 loop from `i` loads registers i..LoadEnd from memory and keeps the rest. */
  lemma {:induction false} LoadFromEffect(regs: seq<byte>, mem: seq<byte>, I: nat, x: nibble, i: nat)
    requires x < |regs|
    ensures var r := LoadFrom(regs, mem, I, x, i);
            forall j :: 0 <= j < |regs| ==>
              r[j] == if i <= j <= LoadEnd(regs, mem, I, x, i) then ReadByte(mem, I + j) else regs[j]
    decreases 256 - i
  {
    if i <= regs[x] {
      var next := WriteByte(regs, i, ReadByte(mem, I + i));
      LoadFromEffect(next, mem, I, x, i + 1);
    }
  }

  /**
   * FX65 loads V0 up to V[Vx], where the bound is the value of Vx, and if the
   * loop reaches x the bound becomes the byte just loaded into Vx.
   */
  lemma LoadRegistersEffect(s: State, x: nibble, env: Inputs)
    requires Valid(s)
    ensures var t := After(s, LoadRegisters(x), env);
            var last := if s.registers[x] < x then s.registers[x]
                        else if ReadByte(s.memory, s.I + x) < x then x else ReadByte(s.memory, s.I + x);
            t.memory == s.memory &&
            forall j :: 0 <= j < NUM_REGISTERS ==>
              t.registers[j] == if j <= last then ReadByte(s.memory, s.I + j) else s.registers[j]
  {
    var t := After(s, LoadRegisters(x), env);
    assert t.memory == s.memory && t.registers == LoadFrom(s.registers, s.memory, s.I, x, 0);
    LoadFromEffect(s.registers, s.memory, s.I, x, 0);
  }

  /** FX55 then FX65 with the same X and I leave the registers as they were, when the block fits in memory. */
  lemma StoreThenLoad(s: State, x: nibble, env: Inputs)
    requires Valid(s) && s.I + s.registers[x] < MEMORY_SIZE
    ensures After(After(s, StoreRegisters(x), env), LoadRegisters(x), env).registers == s.registers
  {
    var t := After(s, StoreRegisters(x), env);
    var u := After(t, LoadRegisters(x), env);
    LoadRegistersEffect(t, x, env);
    StoreRegistersEffect(s, x, env);
    assert t.I == s.I && t.registers == s.registers;
    forall j | 0 <= j < NUM_REGISTERS ensures u.registers[j] == s.registers[j] {
      if j <= s.registers[x] {
        assert ReadByte(t.memory, s.I + j) == s.registers[j];
      }
    }
  }

  // ---------------------------------------------------------------- timers

  /** A timer after one tick: one less while above 0, never below 0. */
  function Tick1(t: byte): byte
  {
    if t > 0 then t - 1 else 0
  }

  /** A cycle whose instruction leaves the timers alone ticks both of them once; the cue plays when sound goes from 2 to 1. */
  lemma StepTicksTimers(s: State, env: Inputs)
    requires Valid(s)
    requires var i := Decode(Fetch(s.memory, s.pc)); !i.SetDelay? && !i.SetSound?
    requires Step(s, env).Stepped?
    ensures var r := Step(s, env);
            r.next.delayTimer == Tick1(s.delayTimer) && r.next.soundTimer == Tick1(s.soundTimer) &&
            (r.beep <==> s.soundTimer == 2) && (r.beep <==> r.next.soundTimer == 1 && s.soundTimer != 1)
  {
    var i := Decode(Fetch(s.memory, s.pc));
    assert Execute(s, i, env).state.delayTimer == s.delayTimer && Execute(s, i, env).state.soundTimer == s.soundTimer by {
      match i
      case _ =>
    }
  }

  /** `k` consecutive timer ticks. */
  function TickN(s: State, k: nat): State
    decreases k
  {
    if k == 0 then s else TickN(TickTimers(s), k - 1)
  }

  /** After k ticks each timer has gone down by k, stopping at 0. */
  lemma {:induction false} TimersRunDown(s: State, k: nat)
    ensures TickN(s, k).delayTimer == if s.delayTimer >= k then s.delayTimer - k else 0
    ensures TickN(s, k).soundTimer == if s.soundTimer >= k then s.soundTimer - k else 0
    ensures TickN(s, k).(delayTimer := s.delayTimer, soundTimer := s.soundTimer) == s
    decreases k
  {
    if k > 0 {
      TimersRunDown(TickTimers(s), k - 1);
    }
  }

  // ---------------------------------------------------------------- index and timer setters

  /**
   * ANNN sets I to NNN, FX1E adds Vx to I without wrapping (I may pass 0xFFF),
   * FX15 and FX18 load a timer from Vx; each advances pc by 2 and changes
   * nothing else.
   */
  lemma IndexAndTimerSetters(s: State, a: address, x: nibble, env: Inputs)
    requires Valid(s)
    ensures var t := After(s, SetIndex(a), env);
            t == s.(I := a, pc := s.pc + 2)
    ensures var t := After(s, AddIndex(x), env);
            t.I == s.I + s.registers[x] && t == s.(I := t.I, pc := s.pc + 2)
    ensures var t := After(s, SetDelay(x), env);
            t.delayTimer == s.registers[x] && t == s.(delayTimer := t.delayTimer, pc := s.pc + 2)
    ensures var t := After(s, SetSound(x), env);
            t.soundTimer == s.registers[x] && t == s.(soundTimer := t.soundTimer, pc := s.pc + 2)
  {
  }

  /**
   * FX15 followed by FX07: the value read back is Vx less the one tick at the
   * end of the FX15 cycle, and 0 when Vx was 0.
   */
  lemma DelayRoundTrip(s: State, x: nibble, z: nibble, env1: Inputs, env2: Inputs)
    requires Valid(s)
    ensures var t := TickTimers(After(s, SetDelay(x), env1));
            After(t, LoadDelay(z), env2).registers[z] == Tick1(s.registers[x])
  {
  }

  /** The cycle of an FX18 plays the cue exactly when Vx is 2, whatever the sound timer was. */
  lemma SoundCueAfterSet(s: State, x: nibble, env: Inputs)
    requires Valid(s)
    ensures Beeps(After(s, SetSound(x), env)) <==> s.registers[x] == 2
  {
  }

  // ---------------------------------------------------------------- unknown opcodes

  /** An opcode no case accepts leaves pc, registers and everything else as they were; only the timers tick. */
  lemma UnknownStep(s: State, env: Inputs)
    requires Valid(s) && Decode(Fetch(s.memory, s.pc)).Unknown?
    ensures Step(s, env) == Stepped(TickTimers(s), Beeps(s))
  {
  }

  // ---------------------------------------------------------------- load and reset

  /** `load_rom` reinitialises every field, copies the ROM to 0x200, zeroes the rest above 0x200 and keeps memory below it. */
  lemma LoadRomLayout(s: State, rom: seq<byte>)
    requires Valid(s)
    ensures var t := LoadRom(s, rom);
            t.pc == PROGRAM_START && t.I == 0 && t.sp == 0 &&
            t.delayTimer == INIT_HERTZ && t.soundTimer == INIT_HERTZ &&
            (forall r :: 0 <= r < NUM_REGISTERS ==> t.registers[r] == 0) &&
            (forall k :: 0 <= k < STACK_SIZE ==> t.stack[k] == 0) &&
            (forall c :: 0 <= c < DISPLAY_SIZE ==> !t.display[c]) &&
            (forall k :: 0 <= k < |rom| && PROGRAM_START + k < MEMORY_SIZE ==> t.memory[PROGRAM_START + k] == rom[k]) &&
            (forall a :: PROGRAM_START + |rom| <= a < MEMORY_SIZE ==> t.memory[a] == 0) &&
            (forall a :: 0 <= a < PROGRAM_START ==> t.memory[a] == s.memory[a])
  {
  }

  /**
   * `reset` blanks the display, zeroes memory from 0x200 up and keeps it below,
   * makes fresh registers and stack, sets pc to 0x200 and both timers to 60;
   * `load_rom` of an empty ROM is exactly a reset.
   */
  lemma ResetLayout(s: State)
    requires Valid(s)
    ensures var t := Reset(s);
            t.pc == PROGRAM_START && t.I == 0 && t.sp == 0 &&
            t.delayTimer == INIT_HERTZ && t.soundTimer == INIT_HERTZ &&
            (forall r :: 0 <= r < NUM_REGISTERS ==> t.registers[r] == 0) &&
            (forall k :: 0 <= k < STACK_SIZE ==> t.stack[k] == 0) &&
            (forall c :: 0 <= c < DISPLAY_SIZE ==> !t.display[c]) &&
            (forall a :: PROGRAM_START <= a < MEMORY_SIZE ==> t.memory[a] == 0) &&
            (forall a :: 0 <= a < PROGRAM_START ==> t.memory[a] == s.memory[a])
    ensures LoadRom(s, []) == Reset(s)
  {
    var r := Reset(s);
    assert CopyRom(r.memory, []) == r.memory;
  }

  /** Loaded into a freshly constructed CPU, the font stays at 0x50..0x9F. */
  lemma LoadRomKeepsFont(rom: seq<byte>)
    ensures LoadRom(Initial(), rom).memory[FONTS_START..FONTS_START + |FONT_SET|] == FONT_SET
  {
  }

  /** The state after `load_rom` depends only on the ROM and on memory below 0x200: nothing else survives. */
  lemma LoadRomForgets(s1: State, s2: State, rom: seq<byte>)
    requires Valid(s1) && Valid(s2)
    requires s1.memory[..PROGRAM_START] == s2.memory[..PROGRAM_START]
    ensures LoadRom(s1, rom) == LoadRom(s2, rom)
  {
    var m1, m2 := LoadRom(s1, rom).memory, LoadRom(s2, rom).memory;
    forall a | 0 <= a < MEMORY_SIZE ensures m1[a] == m2[a] {
      if a < PROGRAM_START {
        assert s1.memory[a] == s1.memory[..PROGRAM_START][a];
      }
    }
  }

  /** Loading the same ROM twice gives the same state as loading it once. */
  lemma LoadRomIdempotent(s: State, rom: seq<byte>)
    requires Valid(s)
    ensures LoadRom(LoadRom(s, rom), rom) == LoadRom(s, rom)
  {
    var t := LoadRom(s, rom);
    assert t.memory[..PROGRAM_START] == s.memory[..PROGRAM_START];
    LoadRomForgets(t, s, rom);
  }

  // ---------------------------------------------------------------- short programs

  /** The opcode `load_rom` places at PROGRAM_START + k, for a ROM of at least k + 2 bytes. */
  lemma FetchLoaded(s: State, rom: seq<byte>, k: nat)
    requires Valid(s) && k + 1 < |rom| && PROGRAM_START + k + 1 < MEMORY_SIZE
    ensures Fetch(LoadRom(s, rom).memory, PROGRAM_START + k) == rom[k] as int * 0x100 + rom[k + 1]
  {
    LoadRomLayout(s, rom);
  }

  /** A cycle on 6XKK: Vx := kk, pc past it, then the timer tick. */
  lemma LoadImmCycle(s: State, x: nibble, kk: byte, env: Inputs)
    requires Valid(s) && Decode(Fetch(s.memory, s.pc)) == LoadImm(x, kk)
    ensures Step(s, env) == Stepped(TickTimers(SetV(s, x, kk)), Beeps(s))
  {
  }

  /** A cycle on 8XY4: the inverted-carry add, pc past it, then the timer tick. */
  lemma AddCarryCycle(s: State, x: nibble, y: nibble, env: Inputs)
    requires Valid(s) && Decode(Fetch(s.memory, s.pc)) == AddCarry(x, y)
    ensures Step(s, env) ==
            Stepped(TickTimers(s.(registers := FlagOpRegisters(s.registers, AddCarry(x, y)), pc := s.pc + 2)), Beeps(s))
  {
  }

  /** The three opcodes of the add scenario decode as intended. */
  lemma AddProgramDecodes()
    ensures Decode(0x6005) == LoadImm(0, 5) && Decode(0x6103) == LoadImm(1, 3) && Decode(0x8014) == AddCarry(0, 1)
  {
  }

  /** 6005, 6103, 8014 at pc: V0 ends at 8 and, the sum not overflowing, VF at 1. */
  lemma AddProgramRuns(s: State, env1: Inputs, env2: Inputs, env3: Inputs)
    requires Valid(s)
    requires Fetch(s.memory, s.pc) == 0x6005 && Fetch(s.memory, s.pc + 2) == 0x6103 && Fetch(s.memory, s.pc + 4) == 0x8014
    ensures Step(s, env1).Stepped? &&
            var t := Step(s, env1).next;
            Step(t, env2).Stepped? &&
            var u := Step(t, env2).next;
            Step(u, env3).Stepped? &&
            var v := Step(u, env3).next;
            v.registers[0] == 8 && v.registers[1] == 3 && v.registers[FLAG_REGISTER] == 1 && v.pc == s.pc + 6
  {
    AddProgramDecodes();
    LoadImmCycle(s, 0, 5, env1);
    var t := TickTimers(SetV(s, 0, 5));
    LoadImmCycle(t, 1, 3, env2);
    var u := TickTimers(SetV(t, 1, 3));
    assert u.registers[0] == 5 && u.registers[1] == 3 && u.pc == s.pc + 4 && u.memory == s.memory;
    AddCarryCycle(u, 0, 1, env3);
    var regs := FlagOpRegisters(u.registers, AddCarry(0, 1));
    assert regs == u.registers[FLAG_REGISTER := 1][0 := 8];
  }

  /** The same three instructions as a loaded ROM. */
  lemma AddProgram(env1: Inputs, env2: Inputs, env3: Inputs)
    ensures var s := LoadRom(Initial(), [0x60, 0x05, 0x61, 0x03, 0x80, 0x14]);
            Step(s, env1).Stepped? &&
            var t := Step(s, env1).next;
            Step(t, env2).Stepped? &&
            var u := Step(t, env2).next;
            Step(u, env3).Stepped? &&
            var v := Step(u, env3).next;
            v.registers[0] == 8 && v.registers[1] == 3 && v.registers[FLAG_REGISTER] == 1 && v.pc == PROGRAM_START + 6
  {
    var rom: seq<byte> := [0x60, 0x05, 0x61, 0x03, 0x80, 0x14];
    var s := LoadRom(Initial(), rom);
    FetchLoaded(Initial(), rom, 0);
    FetchLoaded(Initial(), rom, 2);
    FetchLoaded(Initial(), rom, 4);
    AddProgramRuns(s, env1, env2, env3);
  }

  /** 00E0 is a return in this decoder: as the first instruction of a loaded ROM it finds the stack empty. */
  lemma ClearOpcodeReturns(rom: seq<byte>, env: Inputs)
    requires |rom| >= 2 && rom[0] == 0x00 && rom[1] == 0xE0
    ensures Step(LoadRom(Initial(), rom), env) == Faulted(StackUnderflow)
  {
    FetchLoaded(Initial(), rom, 0);
    assert Decode(0x00E0) == Return;
  }

  /** 00EE then 1200: the screen is cleared and pc comes back to PROGRAM_START after these two cycles. */
  lemma ClearThenLoop(env1: Inputs, env2: Inputs)
    ensures var s := LoadRom(Initial(), [0x00, 0xEE, 0x12, 0x00]);
            Step(s, env1).Stepped? &&
            var t := Step(s, env1).next;
            Step(t, env2).Stepped? &&
            var u := Step(t, env2).next;
            u.pc == PROGRAM_START && u.display == Blank() && u.registers == s.registers && u.memory == s.memory
  {
    var rom: seq<byte> := [0x00, 0xEE, 0x12, 0x00];
    var s := LoadRom(Initial(), rom);
    FetchLoaded(Initial(), rom, 0);
    assert Decode(0x00EE) == ClearScreen;
    var t := Step(s, env1).next;
    assert t.memory == s.memory && t.pc == PROGRAM_START + 2;
    FetchLoaded(Initial(), rom, 2);
    assert Decode(0x1200) == Jump(PROGRAM_START);
  }

  /** A jump to its own address runs forever: each cycle changes nothing but the timers. */
  lemma SelfJumpLoops(s: State, env: Inputs)
    requires Valid(s) && s.pc < 0x1000 && Decode(Fetch(s.memory, s.pc)) == Jump(s.pc)
    ensures Step(s, env) == Stepped(TickTimers(s), Beeps(s))
    ensures Decode(Fetch(Step(s, env).next.memory, Step(s, env).next.pc)) == Jump(s.pc)
  {
  }
}
