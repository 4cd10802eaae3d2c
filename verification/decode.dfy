/**
 * The instruction decoder of `CPU.cycle`: the fields of a 16-bit opcode and the
 * two-level dispatch on its top nibble, with the sub-dispatches of groups 0x0,
 * 0x8, 0xE and 0xF.  The source extracts fields with masks and shifts
 * (`(opcode & 0x0F00) >> 8`); on a 16-bit value these are the divisions and
 * remainders written below.
 */
module Decoder {
  import opened Constants

  /** One decoded instruction; `Unknown` is every opcode no case of the dispatch accepts. */
  datatype Instr =
    | Return                                 // group 0, X = 0, low nibble 0 (so 00E0 and 0000)
    | ClearScreen                            // group 0, X = 0, low nibble E (so 00EE)
    | Jump(nnn: address)                     // 1NNN
    | Call(nnn: address)                     // 2NNN
    | SkipIfEqualImm(x: nibble, kk: byte)    // 3XKK
    | SkipIfNotEqualImm(x: nibble, kk: byte) // 4XKK
    | SkipIfEqual(x: nibble, y: nibble)      // 5XY?  (low nibble not checked)
    | LoadImm(x: nibble, kk: byte)           // 6XKK
    | AddImm(x: nibble, kk: byte)            // 7XKK
    | Move(x: nibble, y: nibble)             // 8XY0
    | Or(x: nibble, y: nibble)               // 8XY1
    | And(x: nibble, y: nibble)              // 8XY2
    | Xor(x: nibble, y: nibble)              // 8XY3
    | AddCarry(x: nibble, y: nibble)         // 8XY4
    | Sub(x: nibble, y: nibble)              // 8XY5
    | ShiftRight(x: nibble)                  // 8XY6  (Y not read)
    | SubReverse(x: nibble, y: nibble)       // 8XY7
    | ShiftLeft(x: nibble)                   // 8XYE  (Y not read)
    | SkipIfNotEqual(x: nibble, y: nibble)   // 9XY?  (low nibble not checked)
    | SetIndex(nnn: address)                 // ANNN
    | JumpOffset(nnn: address)               // BNNN
    | Random(x: nibble, kk: byte)            // CXKK
    | Draw(x: nibble, y: nibble, n: nibble)  // DXYN
    | SkipIfKey(x: nibble)                   // EX9E
    | SkipIfNotKey(x: nibble)                // EXA1
    | LoadDelay(x: nibble)                   // FX07
    | WaitKey(x: nibble)                     // FX0A
    | SetDelay(x: nibble)                    // FX15
    | SetSound(x: nibble)                    // FX18
    | AddIndex(x: nibble)                    // FX1E
    | FontChar(x: nibble)                    // FX29
    | StoreBcd(x: nibble)                    // FX33
    | StoreRegisters(x: nibble)              // FX55
    | LoadRegisters(x: nibble)               // FX65
    | Unknown

  /** `(opcode & 0xF000) >> 12`: the major group. */
  function Group(op: word): nibble { op / 0x1000 }

  /** `(opcode & 0x0F00) >> 8`: the first register operand. */
  function RegX(op: word): nibble { (op / 0x100) % 0x10 }

  /** `(opcode & 0x00F0) >> 4`: the second register operand. */
  function RegY(op: word): nibble { (op / 0x10) % 0x10 }

  /** `opcode & 0x000F`: the low nibble. */
  function Low(op: word): nibble { op % 0x10 }

  /** `opcode & 0x00FF`: the immediate byte. */
  function Imm(op: word): byte { op % 0x100 }

  /** `opcode & 0x0FFF`: the 12-bit address. */
  function Addr(op: word): address { op % 0x1000 }

  /**
   * What each mask takes: the group is the top nibble of the opcode, X the top
   * nibble of its low 12 bits, Y the top nibble of its low byte, and the low
   * nibble, KK and NNN are what is left after removing a multiple of 16, 256
   * and 4096.
   */
  lemma FieldMasks(op: word)
    ensures Group(op) * 0x1000 <= op < Group(op) * 0x1000 + 0x1000
    ensures RegX(op) * 0x100 <= op % 0x1000 < RegX(op) * 0x100 + 0x100
    ensures RegY(op) * 0x10 <= op % 0x100 < RegY(op) * 0x10 + 0x10
    ensures (op - Low(op)) % 0x10 == 0 && (op - Imm(op)) % 0x100 == 0 && (op - Addr(op)) % 0x1000 == 0
  {
    FieldsReassemble(op);
    var rest := RegX(op) * 0x100 + Imm(op);
    DivMod4096(Group(op), rest);
    DivMod256(Group(op) * 0x10 + RegX(op), Imm(op));
    DivMod16(op / 0x10, Low(op));
  }

  /** The fields split the opcode without loss: group, X, Y and low nibble reassemble it. */
  lemma FieldsReassemble(op: word)
    ensures op == Group(op) * 0x1000 + RegX(op) * 0x100 + RegY(op) * 0x10 + Low(op)
    ensures Imm(op) == RegY(op) * 0x10 + Low(op)
    ensures Addr(op) == RegX(op) * 0x100 + Imm(op)
  {
    var a := op / 0x10;
    var c := a / 0x10;
    var d := c / 0x10;
    var lo := (a % 0x10) * 0x10 + op % 0x10;
    assert op == c * 0x100 + lo;
    DivMod256(c, lo);
    assert op == d * 0x1000 + ((c % 0x10) * 0x100 + lo);
    DivMod4096(d, (c % 0x10) * 0x100 + lo);
  }

  /** Is `k` one of the low bytes the 0xF group dispatches on? */
  predicate IsGroupFCode(k: byte)
  {
    k == 0x07 || k == 0x0A || k == 0x15 || k == 0x18 || k == 0x1E ||
    k == 0x29 || k == 0x33 || k == 0x55 || k == 0x65
  }

  /** The dispatch of `cycle`; the postcondition lists exactly the opcodes that fall to a default case. */
  function Decode(op: word): (i: Instr)
    ensures i.Unknown? <==>
      (Group(op) == 0x0 && (RegX(op) != 0 || (Low(op) != 0x0 && Low(op) != 0xE))) ||
      (Group(op) == 0x8 && ((0x8 <= Low(op) <= 0xD) || Low(op) == 0xF)) ||
      (Group(op) == 0xE && Imm(op) != 0x9E && Imm(op) != 0xA1) ||
      (Group(op) == 0xF && !IsGroupFCode(Imm(op)))
  {
    var x, y := RegX(op), RegY(op);
    match Group(op)
    case 0x0 =>
      if RegX(op) != 0 then Unknown
      else if Low(op) == 0xE then ClearScreen
      else if Low(op) == 0x0 then Return
      else Unknown
    case 0x1 => Jump(Addr(op))
    case 0x2 => Call(Addr(op))
    case 0x3 => SkipIfEqualImm(x, Imm(op))
    case 0x4 => SkipIfNotEqualImm(x, Imm(op))
    case 0x5 => SkipIfEqual(x, y)
    case 0x6 => LoadImm(x, Imm(op))
    case 0x7 => AddImm(x, Imm(op))
    case 0x8 =>
      (match Low(op)
       case 0x0 => Move(x, y)
       case 0x1 => Or(x, y)
       case 0x2 => And(x, y)
       case 0x3 => Xor(x, y)
       case 0x4 => AddCarry(x, y)
       case 0x5 => Sub(x, y)
       case 0x6 => ShiftRight(x)
       case 0x7 => SubReverse(x, y)
       case 0xE => ShiftLeft(x)
       case _ => Unknown)
    case 0x9 => SkipIfNotEqual(x, y)
    case 0xA => SetIndex(Addr(op))
    case 0xB => JumpOffset(Addr(op))
    case 0xC => Random(x, Imm(op))
    case 0xD => Draw(x, y, Low(op))
    case 0xE =>
      if Imm(op) == 0x9E then SkipIfKey(x)
      else if Imm(op) == 0xA1 then SkipIfNotKey(x)
      else Unknown
    case 0xF =>
      (match Imm(op)
       case 0x07 => LoadDelay(x)
       case 0x0A => WaitKey(x)
       case 0x15 => SetDelay(x)
       case 0x18 => SetSound(x)
       case 0x1E => AddIndex(x)
       case 0x29 => FontChar(x)
       case 0x33 => StoreBcd(x)
       case 0x55 => StoreRegisters(x)
       case 0x65 => LoadRegisters(x)
       case _ => Unknown)
  }

  /**
   * A canonical opcode for each known instruction: the inverse of Decode.
   * Group 0 follows this decoder, so Return is 00E0 and ClearScreen 00EE;
   * the operand-free nibbles are written as 0.
   */
  function Encode(i: Instr): word
    requires !i.Unknown?
  {
    match i
    case Return => 0x00E0
    case ClearScreen => 0x00EE
    case Jump(a) => Op3(0x1, a)
    case Call(a) => Op3(0x2, a)
    case SkipIfEqualImm(x, kk) => OpXK(0x3, x, kk)
    case SkipIfNotEqualImm(x, kk) => OpXK(0x4, x, kk)
    case SkipIfEqual(x, y) => OpXYN(0x5, x, y, 0)
    case LoadImm(x, kk) => OpXK(0x6, x, kk)
    case AddImm(x, kk) => OpXK(0x7, x, kk)
    case Move(x, y) => OpXYN(0x8, x, y, 0x0)
    case Or(x, y) => OpXYN(0x8, x, y, 0x1)
    case And(x, y) => OpXYN(0x8, x, y, 0x2)
    case Xor(x, y) => OpXYN(0x8, x, y, 0x3)
    case AddCarry(x, y) => OpXYN(0x8, x, y, 0x4)
    case Sub(x, y) => OpXYN(0x8, x, y, 0x5)
    case ShiftRight(x) => OpXYN(0x8, x, 0, 0x6)
    case SubReverse(x, y) => OpXYN(0x8, x, y, 0x7)
    case ShiftLeft(x) => OpXYN(0x8, x, 0, 0xE)
    case SkipIfNotEqual(x, y) => OpXYN(0x9, x, y, 0)
    case SetIndex(a) => Op3(0xA, a)
    case JumpOffset(a) => Op3(0xB, a)
    case Random(x, kk) => OpXK(0xC, x, kk)
    case Draw(x, y, n) => OpXYN(0xD, x, y, n)
    case SkipIfKey(x) => OpXK(0xE, x, 0x9E)
    case SkipIfNotKey(x) => OpXK(0xE, x, 0xA1)
    case LoadDelay(x) => OpXK(0xF, x, 0x07)
    case WaitKey(x) => OpXK(0xF, x, 0x0A)
    case SetDelay(x) => OpXK(0xF, x, 0x15)
    case SetSound(x) => OpXK(0xF, x, 0x18)
    case AddIndex(x) => OpXK(0xF, x, 0x1E)
    case FontChar(x) => OpXK(0xF, x, 0x29)
    case StoreBcd(x) => OpXK(0xF, x, 0x33)
    case StoreRegisters(x) => OpXK(0xF, x, 0x55)
    case LoadRegisters(x) => OpXK(0xF, x, 0x65)
  }

  /** Decoding the canonical opcode gives the instruction back. */
  lemma DecodeEncode(i: Instr)
    requires !i.Unknown?
    ensures Decode(Encode(i)) == i
  {
    match i
    case Return =>
    case ClearScreen =>
    case Jump(a) =>
    case Call(a) =>
    case SkipIfEqualImm(x, kk) =>
    case SkipIfNotEqualImm(x, kk) =>
    case SkipIfEqual(x, y) =>
    case LoadImm(x, kk) =>
    case AddImm(x, kk) =>
    case Move(_, _) | Or(_, _) | And(_, _) | Xor(_, _) | AddCarry(_, _) | Sub(_, _) |
         ShiftRight(_) | SubReverse(_, _) | ShiftLeft(_) =>
      DecodeEncodeGroup8(i);
    case SkipIfNotEqual(x, y) =>
    case SetIndex(a) =>
    case JumpOffset(a) =>
    case Random(x, kk) =>
    case Draw(x, y, n) =>
    case SkipIfKey(x) =>
    case SkipIfNotKey(x) =>
    case LoadDelay(_) | WaitKey(_) | SetDelay(_) | SetSound(_) | AddIndex(_) | FontChar(_) |
         StoreBcd(_) | StoreRegisters(_) | LoadRegisters(_) =>
      DecodeEncodeGroupF(i);
  }

  /**
   * `e` agrees with `op` on every nibble the dispatch of `op` reads: all of
   * them except Y in group 0 (00E0 and 0000 are both the return), the low
   * nibble of 5XYN and 9XYN, and Y of 8XY6 and 8XYE.
   */
  predicate ReadFieldsAgree(op: word, e: word)
  {
    Group(e) == Group(op) && RegX(e) == RegX(op) &&
    (Group(op) != 0x0 && !(Group(op) == 0x8 && (Low(op) == 0x6 || Low(op) == 0xE)) ==> RegY(e) == RegY(op)) &&
    (Group(op) != 0x5 && Group(op) != 0x9 ==> Low(e) == Low(op))
  }

  /**
   * The other direction of the round trip: re-encoding a recognised opcode
   * changes only the nibbles its case never reads, so every field of the
   * decoded instruction is the opcode's own.
   */
  lemma EncodeDecode(op: word)
    requires !Decode(op).Unknown?
    ensures ReadFieldsAgree(op, Encode(Decode(op)))
    ensures Decode(Encode(Decode(op))) == Decode(op)
  {
    DecodeEncode(Decode(op));
    var g := Group(op);
    if g == 0x0 {
      EncodeDecodeGroup0(op);
    } else if g == 0x1 || g == 0x2 || g == 0xA || g == 0xB {
      EncodeDecodeAddr(op);
    } else if g == 0x3 || g == 0x4 || g == 0x6 || g == 0x7 || g == 0xC || g == 0xE || g == 0xF {
      EncodeDecodeImm(op);
    } else if g == 0x8 {
      EncodeDecodeGroup8(op);
    } else {
      EncodeDecodeRegs(op);
    }
  }

  lemma EncodeDecodeGroup0(op: word)
    requires Group(op) == 0x0 && !Decode(op).Unknown?
    ensures ReadFieldsAgree(op, Encode(Decode(op)))
  {
  }

  /** 1NNN, 2NNN, ANNN, BNNN keep the whole 12-bit address. */
  lemma EncodeDecodeAddr(op: word)
    requires Group(op) == 0x1 || Group(op) == 0x2 || Group(op) == 0xA || Group(op) == 0xB
    ensures ReadFieldsAgree(op, Encode(Decode(op)))
  {
    var e := Encode(Decode(op));
    assert Group(e) == Group(op) && Addr(e) == Addr(op);
    AddrFields(op);
    AddrFields(e);
  }

  /** The XKK groups, including the E and F groups whose KK selects the case. */
  lemma EncodeDecodeImm(op: word)
    requires Group(op) == 0x3 || Group(op) == 0x4 || Group(op) == 0x6 || Group(op) == 0x7 || Group(op) == 0xC ||
             Group(op) == 0xE || Group(op) == 0xF
    requires !Decode(op).Unknown?
    ensures ReadFieldsAgree(op, Encode(Decode(op)))
  {
    var e := Encode(Decode(op));
    assert Group(e) == Group(op) && RegX(e) == RegX(op) && Imm(e) == Imm(op);
    ImmFields(op);
    ImmFields(e);
  }

  /** The 8XYN group: N selects the case, and Y is read except by 8XY6 and 8XYE. */
  lemma EncodeDecodeGroup8(op: word)
    requires Group(op) == 0x8 && !Decode(op).Unknown?
    ensures ReadFieldsAgree(op, Encode(Decode(op)))
  {
  }

  /** 5XYN, 9XYN and DXYN. */
  lemma EncodeDecodeRegs(op: word)
    requires Group(op) == 0x5 || Group(op) == 0x9 || Group(op) == 0xD
    ensures ReadFieldsAgree(op, Encode(Decode(op)))
  {
  }

  /** X and KK are the high and low parts of NNN. */
  lemma AddrFields(op: word)
    ensures RegX(op) == Addr(op) / 0x100 && Imm(op) == Addr(op) % 0x100
  {
    FieldsReassemble(op);
    DivMod256(RegX(op), Imm(op));
  }

  /** Y and N are the high and low nibbles of KK. */
  lemma ImmFields(op: word)
    ensures RegY(op) == Imm(op) / 0x10 && Low(op) == Imm(op) % 0x10
  {
    FieldsReassemble(op);
    DivMod16(RegY(op), Low(op));
  }

  /** The round trip for the 8XYN arithmetic opcodes. */
  lemma DecodeEncodeGroup8(i: Instr)
    requires i.Move? || i.Or? || i.And? || i.Xor? || i.AddCarry? || i.Sub? ||
             i.ShiftRight? || i.SubReverse? || i.ShiftLeft?
    ensures Decode(Encode(i)) == i
  {
    match i
    case Move(x, y) =>
    case Or(x, y) =>
    case And(x, y) =>
    case Xor(x, y) =>
    case AddCarry(x, y) =>
    case Sub(x, y) =>
    case ShiftRight(x) =>
    case SubReverse(x, y) =>
    case ShiftLeft(x) =>
  }

  /** The round trip for the FXKK opcodes. */
  lemma DecodeEncodeGroupF(i: Instr)
    requires i.LoadDelay? || i.WaitKey? || i.SetDelay? || i.SetSound? || i.AddIndex? ||
             i.FontChar? || i.StoreBcd? || i.StoreRegisters? || i.LoadRegisters?
    ensures Decode(Encode(i)) == i
  {
    var op := Encode(i);
    assert Group(op) == 0xF && RegX(op) == i.x;
    match i
    case LoadDelay(x) => assert Imm(op) == 0x07;
    case WaitKey(x) => assert Imm(op) == 0x0A;
    case SetDelay(x) => assert Imm(op) == 0x15;
    case SetSound(x) => assert Imm(op) == 0x18;
    case AddIndex(x) => assert Imm(op) == 0x1E;
    case FontChar(x) => assert Imm(op) == 0x29;
    case StoreBcd(x) => assert Imm(op) == 0x33;
    case StoreRegisters(x) => assert Imm(op) == 0x55;
    case LoadRegisters(x) => assert Imm(op) == 0x65;
  }

  /** Opcode `gNNN`. */
  function Op3(g: nibble, a: address): (op: word)
    ensures Group(op) == g && Addr(op) == a
  {
    DivMod4096(g, a);
    g * 0x1000 + a
  }

  /** Opcode `gXKK`. */
  function OpXK(g: nibble, x: nibble, kk: byte): (op: word)
    ensures Group(op) == g && RegX(op) == x && Imm(op) == kk
  {
    DivMod4096(g, x * 0x100 + kk);
    DivMod256(g * 0x10 + x, kk);
    DivMod16(g, x);
    g * 0x1000 + x * 0x100 + kk
  }

  /** Opcode `gXYN`. */
  function OpXYN(g: nibble, x: nibble, y: nibble, n: nibble): (op: word)
    ensures Group(op) == g && RegX(op) == x && RegY(op) == y && Low(op) == n
    ensures Imm(op) == y * 0x10 + n
  {
    var lo := y * 0x10 + n;
    var op := g * 0x1000 + x * 0x100 + lo;
    assert op == (g * 0x10 + x) * 0x100 + lo;
    DivMod256(g * 0x10 + x, lo);
    DivMod16(g, x);
    assert op == (g * 0x100 + x * 0x10 + y) * 0x10 + n;
    DivMod16(g * 0x100 + x * 0x10 + y, n);
    DivMod16(g * 0x10 + x, y);
    DivMod4096(g, x * 0x100 + lo);
    op
  }

  /** Division by 16 with remainder is unique. */
  lemma DivMod16(q: nat, r: nat)
    requires r < 0x10
    ensures (q * 0x10 + r) / 0x10 == q && (q * 0x10 + r) % 0x10 == r
  {
  }

  /** Division by 256 with remainder is unique. */
  lemma DivMod256(q: nat, r: nat)
    requires r < 0x100
    ensures (q * 0x100 + r) / 0x100 == q && (q * 0x100 + r) % 0x100 == r
  {
  }

  /** Division by 4096 with remainder is unique. */
  lemma DivMod4096(q: nat, r: nat)
    requires r < 0x1000
    ensures (q * 0x1000 + r) / 0x1000 == q && (q * 0x1000 + r) % 0x1000 == r
  {
  }

  /** The swap of the two group-0 opcodes: 00E0 returns and 00EE clears the screen. */
  lemma GroupZeroSwapped()
    ensures Decode(0x00E0) == Return && Decode(0x00EE) == ClearScreen
    ensures Decode(0x0000) == Return
  {
  }
}
