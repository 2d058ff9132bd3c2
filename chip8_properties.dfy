/**
 * What the CHIP-8 transitions of module Chip8 guarantee: the start state,
 * fetch and decoding, calls and returns, the ALU flags, the register and
 * memory transfers, the key wait and the timers.
 */
module Chip8Properties {
  import opened Bytes
  import opened Wrappers
  import opened Opcodes
  import opened FrameBuffers
  import opened Chip8
  import Calico

  // ---------------------------------------------------------------- start state and loading

  /** After `new`: the font at 0x050..0x0A0, all other memory zero, registers, I and timers zero, stack empty. */
  lemma InitialState(soundEnabled: bool)
    ensures var m := Initial(soundEnabled);
      && m.pc == 0x200 && m.i == 0 && m.stack == [] && m.opcode == 0
      && m.delayTimer == 0 && m.soundTimer == 0 && m.soundEnabled == soundEnabled
      && m.memory[FontStart..FontStart + 80] == FontSet
      && (forall k :: 0 <= k < MemorySize && !(FontStart <= k < FontStart + 80) ==> m.memory[k] == 0)
      && (forall r :: 0 <= r < 16 ==> m.v[r] == 0 && !m.keypad[r])
      && m.screen == Blank() && !m.drawFlag
  {
    var m := Initial(soundEnabled);
    assert m.memory[FontStart..FontStart + 80] == FontSet;
  }

  /** A program that fits can be loaded into the start state, and then the font is still in place. */
  lemma LoadKeepsFont(soundEnabled: bool, rom: seq<byte>)
    requires |rom| <= MaxRomSize
    ensures LoadRom(Initial(soundEnabled), rom).Ok?
    ensures var m := LoadRom(Initial(soundEnabled), rom).value;
      m.memory[FontStart..FontStart + 80] == FontSet && m.pc == ProgramStart
  {
    InitialState(soundEnabled);
    var m0 := Initial(soundEnabled);
    var m := LoadRom(m0, rom).value;
    forall k | FontStart <= k < FontStart + 80
      ensures m.memory[k] == m0.memory[k]
    {
    }
    assert m.memory[FontStart..FontStart + 80] == m0.memory[FontStart..FontStart + 80];
  }

  // ---------------------------------------------------------------- fetch and decode

  /** The encodings `execute_next_instruction` accepts, read off its match arms. */
  predicate Accepted(op: u16)
  {
    var g, n, nn := Group(op), N(op), NN(op);
    && (g == 0x8 ==> n <= 0x7 || n == 0xE)
    && (g == 0xE ==> nn == 0x9E || nn == 0xA1)
    && (g == 0xF ==> nn == 0x07 || nn == 0x0A || nn == 0x15 || nn == 0x18 || nn == 0x1E
                     || nn == 0x29 || nn == 0x33 || nn == 0x55 || nn == 0x65)
  }

  /** An opcode decodes exactly when it is one the interpreter accepts. */
  lemma DecodeDefinedIff(op: u16)
    ensures Decode(op).Some? <==> Accepted(op)
  {
  }

  /** 5XYN and 9XYN compare the registers whatever the low nibble N. */
  lemma RegisterSkipsIgnoreN(x: nibble, y: nibble, n: nibble)
    ensures Decode(0x5000 + x * 0x100 + y * 0x10 + n) == Some(SkipEqReg(x, y))
    ensures Decode(0x9000 + x * 0x100 + y * 0x10 + n) == Some(SkipNeReg(x, y))
  {
    FieldsOf(0x5000 + x * 0x100 + y * 0x10 + n, 5, x, y * 0x10 + n);
    FieldsOf(0x9000 + x * 0x100 + y * 0x10 + n, 9, x, y * 0x10 + n);
  }

  /**
   * The fetch is big-endian: the byte at PC gives the group and X, the byte
   * after it gives NN; PC moves past both.
   */
  lemma FetchBigEndian(m: Machine)
    requires WellFormed(m) && m.pc + 1 < MemorySize
    ensures Fetch(m) == m.memory[m.pc] as int * 0x100 + m.memory[m.pc + 1] as int
    ensures Group(Fetch(m)) == m.memory[m.pc] / 0x10 && X(Fetch(m)) == m.memory[m.pc] % 0x10
    ensures NN(Fetch(m)) == m.memory[m.pc + 1]
    ensures Fetched(m).pc == m.pc + 2 && Fetched(m).opcode == Fetch(m)
  {
    var hi, lo := m.memory[m.pc], m.memory[m.pc + 1];
    FieldsOf(Fetch(m), hi / 0x10, hi % 0x10, lo);
  }

  /** An opcode the interpreter rejects fails with the address it was fetched from, after the fetch. */
  lemma RejectedOpcode(m: Machine, rnd: byte)
    requires CanStep(m) && !Accepted(Fetch(m))
    ensures Step(m, rnd) == Transition(Fetched(m), Fail(InvalidOpcode(m.pc, Fetch(m))))
  {
    DecodeDefinedIff(Fetch(m));
  }

  /** The instructions that neither jump, call, return, skip nor wait. */
  predicate Sequential(ins: Instruction)
  {
    !(ins.Return? || ins.Sys? || ins.Jump? || ins.Call? || ins.JumpOffset? || ins.WaitKey?
      || ins.SkipEqImm? || ins.SkipNeImm? || ins.SkipEqReg? || ins.SkipNeReg?
      || ins.SkipKeyDown? || ins.SkipKeyUp?)
  }

  /** Every other instruction succeeds, moves PC to the next opcode and leaves the stack alone. */
  lemma SequentialAdvances(m: Machine, rnd: byte)
    requires CanStep(m) && Decode(Fetch(m)).Some? && Sequential(Decode(Fetch(m)).value)
    ensures Step(m, rnd).outcome == Pass
    ensures Step(m, rnd).next.pc == m.pc + 2 && Step(m, rnd).next.stack == m.stack
    ensures Step(m, rnd).next.opcode == Fetch(m)
  {
  }

  /** A skip succeeds and moves PC past one or two opcodes, two exactly when its condition holds. */
  lemma SkipAdvances(m: Machine, rnd: byte)
    requires CanStep(m) && Decode(Fetch(m)).Some?
    requires var ins := Decode(Fetch(m)).value;
      ins.SkipEqImm? || ins.SkipNeImm? || ins.SkipEqReg? || ins.SkipNeReg? || ins.SkipKeyDown? || ins.SkipKeyUp?
    ensures var t, ins := Step(m, rnd), Decode(Fetch(m)).value;
      && t.outcome == Pass && t.next == Fetched(m).(pc := t.next.pc)
      && (t.next.pc == m.pc + 4 <==>
            match ins
            case SkipEqImm(x, nn) => m.v[x] == nn
            case SkipNeImm(x, nn) => m.v[x] != nn
            case SkipEqReg(x, y) => m.v[x] == m.v[y]
            case SkipNeReg(x, y) => m.v[x] != m.v[y]
            case SkipKeyDown(x) => m.keypad[m.v[x]]
            case SkipKeyUp(x) => !m.keypad[m.v[x]]
            case _ => false)
      && (t.next.pc == m.pc + 2 || t.next.pc == m.pc + 4)
  {
  }

  // ---------------------------------------------------------------- calls and returns

  /** 0NNN is run exactly as 2NNN. */
  lemma SysIsCall(m: Machine, a: addr, rnd: byte)
    requires PostFetch(m)
    ensures Exec(m, Sys(a), rnd) == Exec(m, Call(a), rnd)
  {
  }

  /** A call to any 16-bit address pushes PC whatever the stack depth, and the return that follows restores the whole state. */
  lemma CallThenReturn(m: Machine, a: u16)
    ensures var c := CallTo(m, a);
      && c.pc == a && c.stack == m.stack + [m.pc]
      && ReturnFrom(c) == Transition(m, Pass)
  {
    var c := CallTo(m, a);
    assert c.stack[..|c.stack| - 1] == m.stack;
  }

  /** The call/return unit test: from the start state, a call to 0x2540 and a return give back PC 0x200 and the whole state. */
  lemma CallReturnExample()
    ensures var m := Initial(false);
      && ReturnFrom(CallTo(m, 0x2540)) == Transition(m, Pass)
      && ReturnFrom(CallTo(m, 0x2540)).next.pc == 0x200
  {
    CallThenReturn(Initial(false), 0x2540);
  }

  /**
   * Two steps: a 2NNN at PC whose target holds 00EE comes back to the opcode
   * after the call with the stack as it was.
   */
  lemma CallReturnSteps(m: Machine, a: addr, rnd: byte, rnd': byte)
    requires WellFormed(m) && m.pc + 1 < MemorySize && a + 1 < MemorySize
    requires Fetch(m) == 0x2000 + a && m.memory[a] == 0x00 && m.memory[a + 1] == 0xEE
    ensures CanStep(m)
    ensures var t := Step(m, rnd);
      && t.outcome == Pass && t.next.pc == a && t.next.stack == m.stack + [m.pc + 2]
      && CanStep(t.next)
      && Step(t.next, rnd') == Transition(m.(pc := m.pc + 2, opcode := 0x00EE), Pass)
  {
    FieldsOf(0x2000 + a, 2, a / 0x100, a % 0x100);
    assert Decode(Fetch(m)) == Some(Call(a));
    var t := Step(m, rnd).next;
    assert t == m.(opcode := 0x2000 + a, pc := a, stack := m.stack + [m.pc + 2]);
    assert Fetch(t) == 0x00EE;
    FieldsOf(0x00EE, 0, 0, 0xEE);
    assert Decode(0x00EE) == Some(Return);
    assert t.stack[..|t.stack| - 1] == m.stack;
  }

  /** 00EE with nothing to return to fails with the PC already past the 00EE. */
  lemma ReturnUnderflow(m: Machine, rnd: byte)
    requires WellFormed(m) && m.pc + 1 < MemorySize && Fetch(m) == 0x00EE && m.stack == []
    ensures CanStep(m)
    ensures Step(m, rnd) == Transition(Fetched(m), Fail(StackUnderflow(m.pc + 2)))
  {
    FieldsOf(0x00EE, 0, 0, 0xEE);
    assert Decode(0x00EE) == Some(Return);
  }

  // ---------------------------------------------------------------- the ALU

  /** 8XY4: V[X] is the sum mod 256 and VF the carry out; for X = F the carry wins. */
  lemma AddCarryFlag(v: seq<byte>, x: nibble, y: nibble)
    requires |v| == 16
    ensures var r := AluRegisters(v, AddCarry, x, y);
      && r[0xF] == (if v[x] as int + v[y] as int > 0xFF then 1 else 0)
      && (x != 0xF ==> r[x] as int + 0x100 * (r[0xF] as int) == v[x] as int + v[y] as int)
      && (forall k :: 0 <= k < 0xF && k != x ==> r[k] == v[k])
  {
  }

  /**
   * 8XY5: V[X] is the difference mod 256 and VF is 1 exactly when there is no
   * borrow; the flag is written last.
   */
  lemma SubBorrowFlag(v: seq<byte>, x: nibble, y: nibble)
    requires |v| == 16
    ensures var r := AluRegisters(v, SubBorrow, x, y);
      && r[0xF] == (if v[x] >= v[y] then 1 else 0)
      && (x != 0xF ==> r[x] == (v[x] as int - v[y] as int) % 0x100 && r[x] == v[x] as int - v[y] as int + 0x100 * (1 - r[0xF] as int))
      && (forall k :: 0 <= k < 0xF && k != x ==> r[k] == v[k])
  {
    AsU8OfTruncRem(v[x] as int - v[y] as int);
  }

  /** 8XY7: as 8XY5 with the operands swapped. */
  lemma SubReverseFlag(v: seq<byte>, x: nibble, y: nibble)
    requires |v| == 16
    ensures var r := AluRegisters(v, SubReverse, x, y);
      && r[0xF] == (if v[y] >= v[x] then 1 else 0)
      && (x != 0xF ==> r[x] == (v[y] as int - v[x] as int) % 0x100 && r[x] == v[y] as int - v[x] as int + 0x100 * (1 - r[0xF] as int))
      && (forall k :: 0 <= k < 0xF && k != x ==> r[k] == v[k])
  {
    AsU8OfTruncRem(v[y] as int - v[x] as int);
  }

  /**
   * 8XY6: VF is the bit shifted out and V[X] the rest; as VF is written first,
   * 8FY6 leaves the shifted flag, which is 0.
   */
  lemma ShiftRightFlag(v: seq<byte>, x: nibble, y: nibble)
    requires |v| == 16
    ensures var r := AluRegisters(v, ShiftRight, x, y);
      && (x != 0xF ==> r[0xF] == v[x] % 2 && r[x] == v[x] / 2 && 2 * r[x] as int + r[0xF] == v[x])
      && (x == 0xF ==> r[0xF] == 0)
      && (forall k :: 0 <= k < 0xF && k != x ==> r[k] == v[k])
  {
    SingleBitMask(v[x], 0, 8);
  }

  /**
   * 8XYE: VF is the bit shifted out at the top and V[X] the rest; 8FYE leaves
   * that flag shifted left, 0 or 2.
   */
  lemma ShiftLeftFlag(v: seq<byte>, x: nibble, y: nibble)
    requires |v| == 16
    ensures var r := AluRegisters(v, ShiftLeft, x, y);
      && (x != 0xF ==> r[0xF] == v[x] / 0x80 && r[x] as int + 0x100 * (r[0xF] as int) == 2 * v[x] as int)
      && (x == 0xF ==> r[0xF] == 2 * (v[x] / 0x80) as int)
      && (forall k :: 0 <= k < 0xF && k != x ==> r[k] == v[k])
  {
    assert Pow2(7) == 0x80;
    SingleBitMask(v[x], 7, 8);
  }

  /** 8XY1, 8XY2 and 8XY3 combine V[X] and V[Y] bit by bit and touch nothing else. */
  lemma BitwiseAlu(v: seq<byte>, x: nibble, y: nibble, k: nat)
    requires |v| == 16 && k < 8
    ensures Bit(AluRegisters(v, OrWith, x, y)[x], k) == (Bit(v[x], k) || Bit(v[y], k))
    ensures Bit(AluRegisters(v, AndWith, x, y)[x], k) == (Bit(v[x], k) && Bit(v[y], k))
    ensures Bit(AluRegisters(v, XorWith, x, y)[x], k) == (Bit(v[x], k) != Bit(v[y], k))
    ensures forall op :: op in {OrWith, AndWith, XorWith} ==> AluRegisters(v, op, x, y) == v[x := AluRegisters(v, op, x, y)[x]]
  {
    BitwiseBit(Or, v[x], v[y], 8, k);
    BitwiseBit(And, v[x], v[y], 8, k);
    BitwiseBit(Xor, v[x], v[y], 8, k);
  }

  /** CXNN: the random byte is masked by NN, so V[X] has no bit NN lacks. */
  lemma RandomMasked(m: Machine, x: nibble, nn: byte, rnd: byte, k: nat)
    requires PostFetch(m) && k < 8
    ensures var r := Exec(m, Random(x, nn), rnd).next;
      && Bit(r.v[x], k) == (Bit(rnd, k) && Bit(nn, k))
      && r == m.(v := m.v[x := r.v[x]])
  {
    BitwiseBit(And, rnd, nn, 8, k);
  }

  /** 7XNN adds modulo 256 and leaves VF alone. */
  lemma AddImmWraps(m: Machine, x: nibble, nn: byte, rnd: byte)
    requires PostFetch(m)
    ensures var r := Exec(m, AddImm(x, nn), rnd).next;
      && (m.v[x] + nn < 0x100 ==> r.v[x] == m.v[x] + nn)
      && (m.v[x] + nn >= 0x100 ==> r.v[x] == m.v[x] + nn - 0x100)
      && (x != 0xF ==> r.v[0xF] == m.v[0xF])
  {
  }

  // ---------------------------------------------------------------- memory transfers

  /** FX33: three decimal digits, most significant first, that spell V[X]; only those three bytes change. */
  lemma BcdDigits(m: Machine, x: nibble, rnd: byte)
    requires PostFetch(m) && m.i + 2 < MemorySize
    ensures var r := Exec(m, StoreBcd(x), rnd).next;
      var h, t, u := r.memory[m.i], r.memory[m.i + 1], r.memory[m.i + 2];
      && h <= 9 && t <= 9 && u <= 9 && 100 * h + 10 * t + u == m.v[x]
      && r == m.(memory := r.memory)
      && (forall k :: 0 <= k < MemorySize && !(m.i <= k <= m.i + 2) ==> r.memory[k] == m.memory[k])
  {
  }

  /** FX55 copies V0..VX to memory at I and changes nothing else, I included. */
  lemma StoreRegsCopies(m: Machine, x: nibble, rnd: byte)
    requires PostFetch(m) && m.i + x < MemorySize
    ensures var r := Exec(m, StoreRegs(x), rnd).next;
      && WellFormed(r) && r == m.(memory := r.memory)
      && r.memory[m.i..m.i + x + 1] == m.v[..x + 1]
      && (forall k :: 0 <= k < MemorySize && !(m.i <= k <= m.i + x) ==> r.memory[k] == m.memory[k])
  {
    var r := Exec(m, StoreRegs(x), rnd).next;
    assert r.memory[m.i..m.i + x + 1] == m.v[..x + 1];
  }

  /** FX65 loads V0..VX from memory at I and changes nothing else, I included. */
  lemma LoadRegsCopies(m: Machine, x: nibble, rnd: byte)
    requires PostFetch(m) && m.i + x < MemorySize
    ensures var r := Exec(m, LoadRegs(x), rnd).next;
      && WellFormed(r) && r == m.(v := r.v)
      && r.v[..x + 1] == m.memory[m.i..m.i + x + 1]
      && (forall k :: x < k < 16 ==> r.v[k] == m.v[k])
  {
    var r := Exec(m, LoadRegs(x), rnd).next;
    assert r.v[..x + 1] == m.memory[m.i..m.i + x + 1];
  }

  /** FX55 then FX65 with the same X and I gives back the registers that were stored. */
  lemma StoreThenLoad(m: Machine, x: nibble, rnd: byte, rnd': byte)
    requires PostFetch(m) && m.i + x < MemorySize
    ensures var s := Exec(m, StoreRegs(x), rnd).next;
      PostFetch(s) && s.i == m.i && Exec(s, LoadRegs(x), rnd').next == s.(v := m.v)
  {
    StoreRegsCopies(m, x, rnd);
    var s := Exec(m, StoreRegs(x), rnd).next;
    LoadRegsCopies(s, x, rnd');
    var l := Exec(s, LoadRegs(x), rnd').next;
    assert l.v == l.v[..x + 1] + l.v[x + 1..];
    assert m.v == m.v[..x + 1] + m.v[x + 1..];
  }

  /** In the start memory, the five bytes at 5 * d are zero and glyph d of the font sits at 0x050 + 5 * d. */
  lemma StartMemoryGlyph(d: nat)
    requires d < 16
    ensures var mem := Initial(false).memory;
      && mem[5 * d..5 * d + 5] == [0, 0, 0, 0, 0]
      && mem[FontStart + 5 * d..FontStart + 5 * d + 5] == FontSet[5 * d..5 * d + 5]
  {
    InitialState(false);
    var mem := Initial(false).memory;
    assert mem[5 * d..5 * d + 5] == [0, 0, 0, 0, 0];
    assert mem[FontStart + 5 * d..FontStart + 5 * d + 5] == mem[FontStart..FontStart + 80][5 * d..5 * d + 5];
  }

  /**
   * FX29 points I at V[X] * 5, which is where glyph V[X] sits within the font
   * table but 0x050 below where the font is stored: in the start memory the
   * five bytes at I are zero and the glyph is found at 0x050 + I.
   */
  lemma FontCharAddress(m: Machine, x: nibble, rnd: byte)
    requires PostFetch(m) && m.memory == Initial(false).memory && m.v[x] < 16
    ensures var r := Exec(m, FontChar(x), rnd).next;
      && r.i == 5 * m.v[x] && r.memory == m.memory
      && r.memory[r.i..r.i + 5] == [0, 0, 0, 0, 0]
      && r.memory[FontStart + r.i..FontStart + r.i + 5] == FontSet[r.i..r.i + 5]
  {
    var d := m.v[x];
    assert Exec(m, FontChar(x), rnd).next == m.(i := 5 * d);
    StartMemoryGlyph(d);
  }

  // ---------------------------------------------------------------- keys and timers

  /**
   * FX0A: with a key of 1..15 down, V[X] becomes the highest such key and PC
   * moves on; with none down PC is back at the FX0A, so it runs again.
   */
  lemma WaitKeyOutcomes(m: Machine, x: nibble, rnd: byte)
    requires WellFormed(m) && m.pc + 1 < MemorySize && Fetch(m) == 0xF00A + x * 0x100
    ensures CanStep(m)
    ensures Step(m, rnd) == Transition(
      match HighestPressed(m.keypad, 16)
      case None => Fetched(m).(pc := m.pc)
      case Some(k) => Fetched(m).(v := m.v[x := k]), Pass)
  {
    FieldsOf(0xF00A + x * 0x100, 0xF, x, 0x0A);
    var f := Fetched(m);
    assert Decode(f.opcode) == Some(WaitKey(x));
    assert Step(m, rnd) == Transition(Effect(f, WaitKey(x), rnd), Pass);
  }

  /** Pressing one key on an idle keypad is what the next FX0A reports, except the key at ordinal 0, which it never sees. */
  lemma PressThenWait(m: Machine, key: Calico.CalicoKey)
    requires WellFormed(m) && key != Calico.CalicoKey.Other
    requires forall k :: 0 <= k < 16 ==> !m.keypad[k]
    ensures var r := HandleEvent(m, Calico.KeyDown, key);
      HighestPressed(r.keypad, 16) == if Calico.Ordinal(key) == 0 then None else Some(Calico.Ordinal(key))
  {
  }

  /** A key-up after a key-down of the same key leaves the keypad as it was when that key was up. */
  lemma PressRelease(m: Machine, key: Calico.CalicoKey)
    requires WellFormed(m) && key != Calico.CalicoKey.Other && !m.keypad[Calico.Ordinal(key)]
    ensures HandleEvent(HandleEvent(m, Calico.KeyDown, key), Calico.KeyUp, key) == m
  {
    var r := HandleEvent(HandleEvent(m, Calico.KeyDown, key), Calico.KeyUp, key);
    assert r.keypad == m.keypad;
  }

  /** The state after k calls of `tick_timers`. */
  function Ticks(m: Machine, k: nat): Machine
  {
    if k == 0 then m else TickTimers(Ticks(m, k - 1))
  }

  /** Each timer counts down by one per tick and stays at zero; nothing else changes. */
  lemma {:induction false} TicksCountDown(m: Machine, k: nat)
    ensures var r := Ticks(m, k);
      && r.delayTimer == (if m.delayTimer >= k then m.delayTimer - k else 0)
      && r.soundTimer == (if m.soundTimer >= k then m.soundTimer - k else 0)
      && r == m.(delayTimer := r.delayTimer, soundTimer := r.soundTimer)
  {
    if k > 0 {
      TicksCountDown(m, k - 1);
    }
  }

  /** After k ticks the sound plays exactly when it is enabled and the sound timer started above k. */
  lemma SoundAfterTicks(m: Machine, k: nat)
    ensures ShouldPlaySound(Ticks(m, k)) <==> m.soundEnabled && m.soundTimer > k
  {
    TicksCountDown(m, k);
  }
}
