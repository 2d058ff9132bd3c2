/**
 * CHIP-8 instruction words: the operand fields the interpreter extracts from a
 * 16-bit opcode, and the decoding of an opcode into the instruction it runs.
 */
module Opcodes {
  import opened Bytes
  import opened Wrappers

  type addr = x: int | 0 <= x < 0x1000

  /** The high nibble, `opcode & 0xF000` shifted down, on which dispatch is keyed. */
  function Group(op: u16): nibble { op / 0x1000 }

  /** `(opcode & 0x0F00) >> 8` */
  function X(op: u16): nibble { op / 0x100 % 0x10 }

  /** `(opcode & 0x00F0) >> 4` */
  function Y(op: u16): nibble { op / 0x10 % 0x10 }

  /** `opcode & 0x000F` */
  function N(op: u16): nibble { op % 0x10 }

  /** `opcode & 0x00FF` */
  function NN(op: u16): byte { op % 0x100 }

  /** `opcode & 0x0FFF` */
  function NNN(op: u16): addr { op % 0x1000 }

  /** The four nibbles reassemble the opcode, and NN and NNN are made of the low ones. */
  lemma OpcodeFields(op: u16)
    ensures op == Group(op) * 0x1000 + X(op) * 0x100 + Y(op) * 0x10 + N(op)
    ensures NN(op) == Y(op) * 0x10 + N(op)
    ensures NNN(op) == X(op) * 0x100 + NN(op)
  {
  }

  /** The ALU group 8XY_, selected by the low nibble. */
  datatype AluOp =
    | Assign    // 8XY0
    | OrWith     // 8XY1
    | AndWith    // 8XY2
    | XorWith    // 8XY3
    | AddCarry    // 8XY4
    | SubBorrow    // 8XY5
    | ShiftRight    // 8XY6
    | SubReverse   // 8XY7
    | ShiftLeft    // 8XYE

  datatype Instruction =
    | ClearScreen                          // 00E0
    | Return                               // 00EE
    | Sys(addr: addr)                      // 0NNN, run as a call
    | Jump(addr: addr)                     // 1NNN
    | Call(addr: addr)                     // 2NNN
    | SkipEqImm(x: nibble, nn: byte)       // 3XNN
    | SkipNeImm(x: nibble, nn: byte)       // 4XNN
    | SkipEqReg(x: nibble, y: nibble)      // 5XYN, N ignored
    | LoadImm(x: nibble, nn: byte)         // 6XNN
    | AddImm(x: nibble, nn: byte)          // 7XNN
    | Alu(op: AluOp, x: nibble, y: nibble) // 8XY_
    | SkipNeReg(x: nibble, y: nibble)      // 9XYN, N ignored
    | LoadIndex(addr: addr)                // ANNN
    | JumpOffset(addr: addr)               // BNNN
    | Random(x: nibble, nn: byte)          // CXNN
    | Draw(x: nibble, y: nibble, n: nibble) // DXYN
    | SkipKeyDown(x: nibble)               // EX9E
    | SkipKeyUp(x: nibble)                 // EXA1
    | ReadDelay(x: nibble)                 // FX07
    | WaitKey(x: nibble)                   // FX0A
    | SetDelay(x: nibble)                  // FX15
    | SetSound(x: nibble)                  // FX18
    | AddIndex(x: nibble)                  // FX1E
    | FontChar(x: nibble)                  // FX29
    | StoreBcd(x: nibble)                  // FX33
    | StoreRegs(x: nibble)                 // FX55
    | LoadRegs(x: nibble)                  // FX65

  function AluFromCode(n: nibble): Option<AluOp>
  {
    match n
    case 0x0 => Some(Assign)
    case 0x1 => Some(OrWith)
    case 0x2 => Some(AndWith)
    case 0x3 => Some(XorWith)
    case 0x4 => Some(AddCarry)
    case 0x5 => Some(SubBorrow)
    case 0x6 => Some(ShiftRight)
    case 0x7 => Some(SubReverse)
    case 0xE => Some(ShiftLeft)
    case _ => None
  }

  function AluCode(op: AluOp): nibble
  {
    match op
    case Assign => 0x0
    case OrWith => 0x1
    case AndWith => 0x2
    case XorWith => 0x3
    case AddCarry => 0x4
    case SubBorrow => 0x5
    case ShiftRight => 0x6
    case SubReverse => 0x7
    case ShiftLeft => 0xE
  }

  /** The E group, selected by NN. */
  function KeyFromCode(x: nibble, nn: byte): Option<Instruction>
  {
    if nn == 0x9E then Some(SkipKeyDown(x))
    else if nn == 0xA1 then Some(SkipKeyUp(x))
    else None
  }

  /** The F group, selected by NN. */
  function MiscFromCode(x: nibble, nn: byte): Option<Instruction>
  {
    match nn
    case 0x07 => Some(ReadDelay(x))
    case 0x0A => Some(WaitKey(x))
    case 0x15 => Some(SetDelay(x))
    case 0x18 => Some(SetSound(x))
    case 0x1E => Some(AddIndex(x))
    case 0x29 => Some(FontChar(x))
    case 0x33 => Some(StoreBcd(x))
    case 0x55 => Some(StoreRegs(x))
    case 0x65 => Some(LoadRegs(x))
    case _ => None
  }

  /**
   * The instruction an opcode runs, or None for the encodings the interpreter
   * rejects as invalid: the ALU group with a low nibble of 8..D or F, and the E
   * and F groups with an NN outside their tables.
   */
  function Decode(op: u16): Option<Instruction>
  {
    DecodeFields(Group(op), X(op), Y(op), N(op), NN(op), NNN(op))
  }

  /** Dispatch on the high nibble g, then on N or NN, given the opcode's fields. */
  function DecodeFields(g: nibble, x: nibble, y: nibble, n: nibble, nn: byte, nnn: addr): Option<Instruction>
  {
    match g
    case 0x0 =>
      // within group 0 the whole opcode is NNN
      if nnn == 0x0EE then Some(Return)
      else if nnn == 0x0E0 then Some(ClearScreen)
      else Some(Sys(nnn))
    case 0x1 => Some(Jump(nnn))
    case 0x2 => Some(Call(nnn))
    case 0x3 => Some(SkipEqImm(x, nn))
    case 0x4 => Some(SkipNeImm(x, nn))
    case 0x5 => Some(SkipEqReg(x, y))
    case 0x6 => Some(LoadImm(x, nn))
    case 0x7 => Some(AddImm(x, nn))
    case 0x8 =>
      (match AluFromCode(n)
       case Some(alu) => Some(Alu(alu, x, y))
       case None => None)
    case 0x9 => Some(SkipNeReg(x, y))
    case 0xA => Some(LoadIndex(nnn))
    case 0xB => Some(JumpOffset(nnn))
    case 0xC => Some(Random(x, nn))
    case 0xD => Some(Draw(x, y, n))
    case 0xE => KeyFromCode(x, nn)
    case _ => MiscFromCode(x, nn)
  }

  /** The instructions that have an encoding of their own: 0NNN cannot name 0E0 or 0EE. */
  predicate Encodable(ins: Instruction)
  {
    ins.Sys? ==> ins.addr != 0x0E0 && ins.addr != 0x0EE
  }

  /** The canonical opcode of an instruction (low nibble 0 for 5XY0 and 9XY0). */
  function Encode(ins: Instruction): u16
  {
    match ins
    case ClearScreen => 0x00E0
    case Return => 0x00EE
    case Sys(a) => a
    case Jump(a) => 0x1000 + a
    case Call(a) => 0x2000 + a
    case SkipEqImm(x, nn) => 0x3000 + x * 0x100 + nn
    case SkipNeImm(x, nn) => 0x4000 + x * 0x100 + nn
    case SkipEqReg(x, y) => 0x5000 + x * 0x100 + y * 0x10
    case LoadImm(x, nn) => 0x6000 + x * 0x100 + nn
    case AddImm(x, nn) => 0x7000 + x * 0x100 + nn
    case Alu(op, x, y) => 0x8000 + x * 0x100 + y * 0x10 + AluCode(op)
    case SkipNeReg(x, y) => 0x9000 + x * 0x100 + y * 0x10
    case LoadIndex(a) => 0xA000 + a
    case JumpOffset(a) => 0xB000 + a
    case Random(x, nn) => 0xC000 + x * 0x100 + nn
    case Draw(x, y, n) => 0xD000 + x * 0x100 + y * 0x10 + n
    case SkipKeyDown(x) => 0xE09E + x * 0x100
    case SkipKeyUp(x) => 0xE0A1 + x * 0x100
    case ReadDelay(x) => 0xF007 + x * 0x100
    case WaitKey(x) => 0xF00A + x * 0x100
    case SetDelay(x) => 0xF015 + x * 0x100
    case SetSound(x) => 0xF018 + x * 0x100
    case AddIndex(x) => 0xF01E + x * 0x100
    case FontChar(x) => 0xF029 + x * 0x100
    case StoreBcd(x) => 0xF033 + x * 0x100
    case StoreRegs(x) => 0xF055 + x * 0x100
    case LoadRegs(x) => 0xF065 + x * 0x100
  }

  /** The fields of an opcode assembled from a group, a register nibble and a low byte. */
  lemma FieldsOf(op: u16, g: nibble, x: nibble, nn: byte)
    requires op == g * 0x1000 + x * 0x100 + nn
    ensures Group(op) == g && X(op) == x && Y(op) == nn / 0x10 && N(op) == nn % 0x10
    ensures NN(op) == nn && NNN(op) == x * 0x100 + nn
  {
    DivUnique(op, 0x1000, g, x * 0x100 + nn);
    DivUnique(op, 0x100, g * 0x10 + x, nn);
    DivUnique(g * 0x10 + x, 0x10, g, x);
    DivUnique(op, 0x10, g * 0x100 + x * 0x10 + nn / 0x10, nn % 0x10);
    DivUnique(g * 0x100 + x * 0x10 + nn / 0x10, 0x10, g * 0x10 + x, nn / 0x10);
  }

  /** Every encodable instruction decodes back from its canonical opcode. */
  lemma DecodeEncode(ins: Instruction)
    requires Encodable(ins)
    ensures Decode(Encode(ins)) == Some(ins)
  {
    if ins.ClearScreen? || ins.Return? || ins.Sys? || ins.Jump? || ins.Call? || ins.LoadIndex? || ins.JumpOffset? {
      DecodeEncodeFlow(ins);
    } else if ins.SkipEqImm? || ins.SkipNeImm? || ins.LoadImm? || ins.AddImm? || ins.Random? {
      DecodeEncodeImmediate(ins);
    } else if ins.SkipEqReg? || ins.SkipNeReg? || ins.Draw? || ins.Alu? {
      DecodeEncodePair(ins);
    } else if ins.SkipKeyDown? || ins.SkipKeyUp? || ins.ReadDelay? || ins.WaitKey? || ins.SetDelay? {
      DecodeEncodeKey(ins);
    } else {
      DecodeEncodeMisc(ins);
    }
  }

  lemma DecodeEncodeFlow(ins: Instruction)
    requires Encodable(ins)
    requires ins.ClearScreen? || ins.Return? || ins.Sys? || ins.Jump? || ins.Call? || ins.LoadIndex? || ins.JumpOffset?
    ensures Decode(Encode(ins)) == Some(ins)
  {
    match ins {
      case ClearScreen => FieldsOf(Encode(ins), 0, 0, 0xE0);
      case Return => FieldsOf(Encode(ins), 0, 0, 0xEE);
      case Sys(a) => FieldsOf(Encode(ins), 0, a / 0x100, a % 0x100);
      case Jump(a) => FieldsOf(Encode(ins), 1, a / 0x100, a % 0x100);
      case Call(a) => FieldsOf(Encode(ins), 2, a / 0x100, a % 0x100);
      case LoadIndex(a) => FieldsOf(Encode(ins), 0xA, a / 0x100, a % 0x100);
      case JumpOffset(a) => FieldsOf(Encode(ins), 0xB, a / 0x100, a % 0x100);
    }
  }

  lemma DecodeEncodeImmediate(ins: Instruction)
    requires Encodable(ins)
    requires ins.SkipEqImm? || ins.SkipNeImm? || ins.LoadImm? || ins.AddImm? || ins.Random?
    ensures Decode(Encode(ins)) == Some(ins)
  {
    match ins {
      case SkipEqImm(x, nn) => FieldsOf(Encode(ins), 3, x, nn);
      case SkipNeImm(x, nn) => FieldsOf(Encode(ins), 4, x, nn);
      case LoadImm(x, nn) => FieldsOf(Encode(ins), 6, x, nn);
      case AddImm(x, nn) => FieldsOf(Encode(ins), 7, x, nn);
      case Random(x, nn) => FieldsOf(Encode(ins), 0xC, x, nn);
    }
  }

  lemma DecodeEncodePair(ins: Instruction)
    requires Encodable(ins)
    requires ins.SkipEqReg? || ins.SkipNeReg? || ins.Draw? || ins.Alu?
    ensures Decode(Encode(ins)) == Some(ins)
  {
    match ins {
      case SkipEqReg(x, y) => FieldsOf(Encode(ins), 5, x, y * 0x10);
      case Alu(alu, x, y) => DecodeEncodeAlu(alu, x, y);
      case SkipNeReg(x, y) => FieldsOf(Encode(ins), 9, x, y * 0x10);
      case Draw(x, y, n) => FieldsOf(Encode(ins), 0xD, x, y * 0x10 + n);
    }
  }

  lemma DecodeEncodeAlu(alu: AluOp, x: nibble, y: nibble)
    ensures Decode(Encode(Alu(alu, x, y))) == Some(Alu(alu, x, y))
  {
    var nn := y * 0x10 + AluCode(alu);
    FieldsOf(Encode(Alu(alu, x, y)), 8, x, nn);
    assert nn / 0x10 == y && nn % 0x10 == AluCode(alu);
  }

  lemma DecodeEncodeKey(ins: Instruction)
    requires Encodable(ins)
    requires ins.SkipKeyDown? || ins.SkipKeyUp? || ins.ReadDelay? || ins.WaitKey? || ins.SetDelay?
    ensures Decode(Encode(ins)) == Some(ins)
  {
    match ins {
      case SkipKeyDown(x) => FieldsOf(Encode(ins), 0xE, x, 0x9E);
      case SkipKeyUp(x) => FieldsOf(Encode(ins), 0xE, x, 0xA1);
      case ReadDelay(x) => FieldsOf(Encode(ins), 0xF, x, 0x07);
      case WaitKey(x) => FieldsOf(Encode(ins), 0xF, x, 0x0A);
      case SetDelay(x) => FieldsOf(Encode(ins), 0xF, x, 0x15);
    }
  }

  lemma DecodeEncodeMisc(ins: Instruction)
    requires Encodable(ins)
    requires ins.SetSound? || ins.AddIndex? || ins.FontChar? || ins.StoreBcd? || ins.StoreRegs? || ins.LoadRegs?
    ensures Decode(Encode(ins)) == Some(ins)
  {
    match ins {
      case SetSound(x) => FieldsOf(Encode(ins), 0xF, x, 0x18);
      case AddIndex(x) => FieldsOf(Encode(ins), 0xF, x, 0x1E);
      case FontChar(x) => FieldsOf(Encode(ins), 0xF, x, 0x29);
      case StoreBcd(x) => FieldsOf(Encode(ins), 0xF, x, 0x33);
      case StoreRegs(x) => FieldsOf(Encode(ins), 0xF, x, 0x55);
      case LoadRegs(x) => FieldsOf(Encode(ins), 0xF, x, 0x65);
    }
  }

  /**
   * Decoding loses only the low nibble of 5XYN and 9XYN: every other decoded
   * opcode is the canonical encoding of its instruction.
   */
  lemma EncodeDecode(op: u16)
    requires Decode(op).Some?
    ensures Encodable(Decode(op).value)
    ensures Encode(Decode(op).value) == if Group(op) == 5 || Group(op) == 9 then op - N(op) else op
  {
    if Group(op) < 8 {
      EncodeDecodeLow(op);
    } else {
      EncodeDecodeHigh(op);
    }
  }

  lemma EncodeDecodeLow(op: u16)
    requires Decode(op).Some? && Group(op) < 8
    ensures Encodable(Decode(op).value)
    ensures Encode(Decode(op).value) == if Group(op) == 5 then op - N(op) else op
  {
    OpcodeFields(op);
  }

  lemma EncodeDecodeHigh(op: u16)
    requires Decode(op).Some? && Group(op) >= 8
    ensures Encodable(Decode(op).value)
    ensures Encode(Decode(op).value) == if Group(op) == 9 then op - N(op) else op
  {
    OpcodeFields(op);
    var g := Group(op);
    if g == 8 {
      assert AluCode(AluFromCode(N(op)).value) == N(op);
    } else if g == 0xE {
      assert Decode(op) == KeyFromCode(X(op), NN(op));
    } else if g == 0xF {
      assert Decode(op) == MiscFromCode(X(op), NN(op));
    }
  }}
