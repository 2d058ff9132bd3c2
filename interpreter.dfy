/**
 * The interpreter as the source has it: an object whose memory, registers
 * and keypad are arrays updated in place, with the framebuffer beside them.
 * Every method is proved to perform the transition of module Chip8 on the
 * state it reads.
 */
module Interpreter {
  import opened Bytes
  import opened Wrappers
  import opened Opcodes
  import opened FrameBuffers
  import opened Chip8
  import Calico
  import SpriteProperties

  // ---------------------------------------------------------------- the draw loop's progress

  /** Cell k is landed on by a sprite pixel before (dx, dy) in the draw's row-by-row order. */
  ghost predicate DoneBefore(k: nat, xc: byte, yc: byte, dx: nat, dy: nat)
  {
    RowOf(k, yc) < dy || (RowOf(k, yc) == dy && ColumnOf(k, xc) < dx)
  }

  /** The screen once the sprite pixels before (dx, dy) have been XOR-ed onto s0. */
  ghost function PartlyDrawn(s0: seq<bool>, memory: seq<byte>, i: nat, xc: byte, yc: byte, n: nat, dx: nat, dy: nat): (r: seq<bool>)
    requires |s0| == Size && SpriteInMemory(memory, i, n)
    ensures |r| == Size
  {
    seq(Size, k requires 0 <= k < Size => s0[k] != (Covers(memory, i, xc, yc, n, k) && DoneBefore(k, xc, yc, dx, dy)))
  }

  /** Whether a sprite pixel before (dx, dy) has landed on a pixel of s0 that was on. */
  ghost predicate PartlyCollides(s0: seq<bool>, memory: seq<byte>, i: nat, xc: byte, yc: byte, n: nat, dx: nat, dy: nat)
    requires |s0| == Size && SpriteInMemory(memory, i, n)
  {
    exists k :: 0 <= k < Size && Covers(memory, i, xc, yc, n, k) && DoneBefore(k, xc, yc, dx, dy) && s0[k]
  }

  /** Nothing is drawn before the first pixel. */
  lemma DrawStart(s0: seq<bool>, memory: seq<byte>, i: nat, xc: byte, yc: byte, n: nat)
    requires |s0| == Size && SpriteInMemory(memory, i, n)
    ensures PartlyDrawn(s0, memory, i, xc, yc, n, 0, 0) == s0
    ensures !PartlyCollides(s0, memory, i, xc, yc, n, 0, 0)
  {
    assert PartlyDrawn(s0, memory, i, xc, yc, n, 0, 0) == s0;
  }

  /** Finishing a row is starting the next one. */
  lemma DrawNextRow(s0: seq<bool>, memory: seq<byte>, i: nat, xc: byte, yc: byte, n: nat, dy: nat)
    requires |s0| == Size && SpriteInMemory(memory, i, n)
    ensures PartlyDrawn(s0, memory, i, xc, yc, n, 8, dy) == PartlyDrawn(s0, memory, i, xc, yc, n, 0, dy + 1)
    ensures PartlyCollides(s0, memory, i, xc, yc, n, 8, dy) == PartlyCollides(s0, memory, i, xc, yc, n, 0, dy + 1)
  {
    assert PartlyDrawn(s0, memory, i, xc, yc, n, 8, dy) == PartlyDrawn(s0, memory, i, xc, yc, n, 0, dy + 1);
    if PartlyCollides(s0, memory, i, xc, yc, n, 8, dy) {
      var k :| 0 <= k < Size && Covers(memory, i, xc, yc, n, k) && DoneBefore(k, xc, yc, 8, dy) && s0[k];
      assert DoneBefore(k, xc, yc, 0, dy + 1);
    }
    if PartlyCollides(s0, memory, i, xc, yc, n, 0, dy + 1) {
      var k :| 0 <= k < Size && Covers(memory, i, xc, yc, n, k) && DoneBefore(k, xc, yc, 0, dy + 1) && s0[k];
      assert DoneBefore(k, xc, yc, 8, dy);
    }
  }

  /** After the last row the whole sprite is drawn. */
  lemma DrawEnd(s0: seq<bool>, memory: seq<byte>, i: nat, xc: byte, yc: byte, n: nat)
    requires |s0| == Size && SpriteInMemory(memory, i, n)
    ensures PartlyDrawn(s0, memory, i, xc, yc, n, 0, n) == Drawn(s0, memory, i, xc, yc, n)
    ensures PartlyCollides(s0, memory, i, xc, yc, n, 0, n) == Collides(s0, memory, i, xc, yc, n)
  {
    assert PartlyDrawn(s0, memory, i, xc, yc, n, 0, n) == Drawn(s0, memory, i, xc, yc, n);
  }

  /**
   * One pixel of the sprite: the screen gains a flip at its cell exactly when
   * its bit is set, and the collision flag gains whether that cell was on.
   */
  lemma DrawPixel(s0: seq<bool>, memory: seq<byte>, i: nat, xc: byte, yc: byte, n: nibble, dx: nat, dy: nat)
    requires |s0| == Size && SpriteInMemory(memory, i, n) && dx < 8 && dy < n
    ensures var c, bit := SpriteCell(xc, yc, dx, dy), SpriteBit(memory[i + dy], dx);
      && c < Size
      && PartlyDrawn(s0, memory, i, xc, yc, n, dx + 1, dy)
         == (if bit then PartlyDrawn(s0, memory, i, xc, yc, n, dx, dy)[c := !s0[c]]
             else PartlyDrawn(s0, memory, i, xc, yc, n, dx, dy))
      && PartlyDrawn(s0, memory, i, xc, yc, n, dx, dy)[c] == s0[c]
      && PartlyCollides(s0, memory, i, xc, yc, n, dx + 1, dy)
         == (PartlyCollides(s0, memory, i, xc, yc, n, dx, dy) || (bit && s0[c]))
  {
    var c, bit := SpriteCell(xc, yc, dx, dy), SpriteBit(memory[i + dy], dx);
    SpriteProperties.SpriteCellCoordinates(xc, yc, dx, dy);
    SpriteProperties.SpriteCellInverse(xc, yc, dx, dy, c);
    var before := PartlyDrawn(s0, memory, i, xc, yc, n, dx, dy);
    var after := PartlyDrawn(s0, memory, i, xc, yc, n, dx + 1, dy);
    forall k | 0 <= k < Size && k != c
      ensures after[k] == before[k]
      ensures (DoneBefore(k, xc, yc, dx + 1, dy) <==> DoneBefore(k, xc, yc, dx, dy))
    {
      SpriteProperties.SpriteCellInverse(xc, yc, dx, dy, k);
    }
    assert after == if bit then before[c := !s0[c]] else before;
    if PartlyCollides(s0, memory, i, xc, yc, n, dx + 1, dy) {
      var k :| 0 <= k < Size && Covers(memory, i, xc, yc, n, k) && DoneBefore(k, xc, yc, dx + 1, dy) && s0[k];
      if k != c {
        assert DoneBefore(k, xc, yc, dx, dy);
      }
    }
  }

  // ---------------------------------------------------------------- the interpreter object

  class Chip8Interpreter {
    const frameBuffer: FrameBuffer
    var drawFlag: bool
    const memory: array<byte>
    var stack: seq<u16>
    const keypad: array<bool>
    const registers: array<byte>
    var pc: u16
    var i: u16
    var delayTimer: byte
    var soundTimer: byte
    const soundEnabled: bool
    var currentOpcode: u16

    ghost predicate Valid()
      reads this, frameBuffer
    {
      && frameBuffer.Valid()
      && memory.Length == MemorySize && keypad.Length == 16 && registers.Length == 16
      && memory != registers && keypad != frameBuffer.pixels
    }

    /** The interpreter's state as a value. */
    ghost function State(): (m: Machine)
      reads this, memory, registers, keypad, frameBuffer, frameBuffer.pixels
      requires Valid()
      ensures WellFormed(m)
    {
      Machine(memory[..], stack, keypad[..], registers[..], pc, i, delayTimer, soundTimer,
              soundEnabled, currentOpcode, frameBuffer.pixels[..], drawFlag)
    }

    /** `new`: everything zero or empty, PC at 0x200, and the font copied in at 0x050. */
    constructor (soundEnabled: bool)
      ensures Valid() && fresh(memory) && fresh(registers) && fresh(keypad)
      ensures fresh(frameBuffer) && fresh(frameBuffer.pixels)
      ensures State() == Initial(soundEnabled)
    {
      frameBuffer := new FrameBuffer();
      drawFlag := false;
      memory := new byte[MemorySize](_ => 0);
      stack := [];
      keypad := new bool[16](_ => false);
      registers := new byte[16](_ => 0);
      pc := 0x200;
      i := 0;
      delayTimer := 0;
      soundTimer := 0;
      this.soundEnabled := soundEnabled;
      currentOpcode := 0;
      new;
      LoadFont();
      assert keypad[..] == Initial(soundEnabled).keypad;
      assert registers[..] == Initial(soundEnabled).v;
    }

    /** The constructor's loop copying the font into zeroed memory at 0x050. */
    method LoadFont()
      requires Valid() && forall j :: 0 <= j < MemorySize ==> memory[j] == 0
      modifies memory
      ensures Valid() && memory[..] == Initial(soundEnabled).memory
    {
      var k := 0;
      while k < |FontSet|
        invariant 0 <= k <= |FontSet|
        invariant forall j :: 0 <= j < MemorySize ==>
                    memory[j] == if FontStart <= j < FontStart + k then FontSet[j - FontStart] else 0
        modifies memory
      {
        memory[k + FontStart] := FontSet[k];
        k := k + 1;
      }
    }

    /** `load_rom` on the bytes of the file: refused when too large, else copied to 0x200 on. */
    method LoadRom(rom: seq<byte>) returns (r: Outcome<LoadError>)
      requires Valid()
      modifies memory
      ensures Valid()
      ensures var expected := Chip8.LoadRom(old(State()), rom);
        && (expected.Err? ==> r == Fail(RomTooLarge) && State() == old(State()))
        && (expected.Ok? ==> r == Pass && State() == expected.value)
    {
      if |rom| > MaxRomSize {
        return Fail(RomTooLarge);
      }
      var k := 0;
      while k < |rom|
        invariant 0 <= k <= |rom|
        invariant memory[..] == old(memory[..])[..ProgramStart] + rom[..k] + old(memory[..])[ProgramStart + k..]
      {
        memory[k + ProgramStart] := rom[k];
        k := k + 1;
        assert rom[..k] == rom[..k - 1] + [rom[k - 1]];
      }
      assert rom[..k] == rom;
      r := Pass;
    }

    /** `handle_event` */
    method HandleEvent(event: Calico.CalicoEvent, key: Calico.CalicoKey)
      requires Valid()
      modifies keypad
      ensures Valid() && State() == Chip8.HandleEvent(old(State()), event, key)
    {
      if key == Calico.CalicoKey.Other || event == Calico.CalicoEvent.Other {
        return;
      }
      var keyIndex := Calico.Ordinal(key);
      keypad[keyIndex] := if event == Calico.KeyDown then true else false;
    }

    /** `tick_timers` */
    method TickTimers()
      requires Valid()
      modifies this
      ensures Valid() && State() == Chip8.TickTimers(old(State()))
    {
      if delayTimer > 0 {
        delayTimer := delayTimer - 1;
      }
      if soundTimer > 0 {
        soundTimer := soundTimer - 1;
      }
    }

    /** `should_play_sound` */
    function ShouldPlaySound(): (r: bool)
      reads this, memory, registers, keypad, frameBuffer, frameBuffer.pixels
      requires Valid()
      ensures r == Chip8.ShouldPlaySound(State())
    {
      soundTimer != 0 && soundEnabled
    }

    /** `fn_call`: push PC, the stack having no depth limit, and jump. */
    method FnCall(address: u16)
      requires Valid()
      modifies this
      ensures Valid() && State() == CallTo(old(State()), address)
    {
      stack := stack + [pc];
      pc := address;
    }

    /** `fn_return` */
    method FnReturn() returns (r: Outcome<InterpreterError>)
      requires Valid()
      modifies this
      ensures Valid() && Transition(State(), r) == ReturnFrom(old(State()))
    {
      if |stack| == 0 {
        return Fail(StackUnderflow(pc));
      }
      pc := stack[|stack| - 1];
      stack := stack[..|stack| - 1];
      r := Pass;
    }

    /** `draw`: XOR the N-row sprite at I onto the screen at (V[X], V[Y]) and set VF on collision. */
    method Draw(x: nibble, y: nibble, height: nibble)
      requires Valid() && SpriteInMemory(memory[..], i, height)
      modifies this, registers, frameBuffer.pixels
      ensures Valid() && State() == DrawSprite(old(State()), x, y, height)
    {
      var xCord, yCord := registers[x], registers[y];
      ghost var s0 := frameBuffer.pixels[..];
      var pixelFlipped := false;
      DrawStart(s0, memory[..], i, xCord, yCord, height);
      var diffY := 0;
      while diffY < height
        invariant 0 <= diffY <= height
        invariant frameBuffer.pixels[..] == PartlyDrawn(s0, memory[..], i, xCord, yCord, height, 0, diffY)
        invariant pixelFlipped == PartlyCollides(s0, memory[..], i, xCord, yCord, height, 0, diffY)
        modifies frameBuffer.pixels
      {
        pixelFlipped := DrawRow(s0, xCord, yCord, height, diffY, pixelFlipped);
        diffY := diffY + 1;
      }
      DrawEnd(s0, memory[..], i, xCord, yCord, height);
      registers[0xF] := if pixelFlipped then 1 else 0;
      drawFlag := true;
    }

    /** The inner loop of `draw`: the eight pixels of sprite row diffY. */
    method DrawRow(ghost s0: seq<bool>, xCord: byte, yCord: byte, height: nibble, diffY: nat, pixelFlipped: bool)
      returns (flipped: bool)
      requires Valid() && |s0| == Size && SpriteInMemory(memory[..], i, height) && diffY < height
      requires frameBuffer.pixels[..] == PartlyDrawn(s0, memory[..], i, xCord, yCord, height, 0, diffY)
      requires pixelFlipped == PartlyCollides(s0, memory[..], i, xCord, yCord, height, 0, diffY)
      modifies frameBuffer.pixels
      ensures frameBuffer.pixels[..] == PartlyDrawn(s0, memory[..], i, xCord, yCord, height, 0, diffY + 1)
      ensures flipped == PartlyCollides(s0, memory[..], i, xCord, yCord, height, 0, diffY + 1)
    {
      ghost var mem := memory[..];
      var row := memory[i + diffY];
      flipped := pixelFlipped;
      var diffX := 0;
      while diffX < 8
        invariant 0 <= diffX <= 8
        invariant frameBuffer.pixels[..] == PartlyDrawn(s0, mem, i, xCord, yCord, height, diffX, diffY)
        invariant flipped == PartlyCollides(s0, mem, i, xCord, yCord, height, diffX, diffY)
        modifies frameBuffer.pixels
      {
        DrawPixel(s0, mem, i, xCord, yCord, height, diffX, diffY);
        assert Pow2(7 - diffX) <= Pow2(7) == 0x80;
        var px, py := (xCord + diffX) % 0x100, (yCord + diffY) % 0x100;
        ghost var c := SpriteCell(xCord, yCord, diffX, diffY);
        assert c == CalculateIndex(px, py, Width, Height);
        if Bitwise(And, row, Pow2(7 - diffX), 8) != 0 {
          frameBuffer.FlipPixel(px, py);
          if !frameBuffer.GetPixel(px, py) {
            flipped := true;
          }
        }
        diffX := diffX + 1;
      }
      DrawNextRow(s0, mem, i, xCord, yCord, height, diffY);
    }

    /**
     * `execute_next_instruction`: fetch the big-endian opcode at PC, move PC
     * past it, then run it; `rnd` is the byte the random generator yields for CXNN.
     */
    method ExecuteNextInstruction(rnd: byte) returns (r: Outcome<InterpreterError>)
      requires Valid() && CanStep(State())
      modifies this, memory, registers, frameBuffer.pixels
      ensures Valid() && Transition(State(), r) == Step(old(State()), rnd)
    {
      var hiByte := memory[pc];
      var loByte := memory[pc + 1];
      currentOpcode := hiByte as int * 0x100 + loByte as int;
      pc := pc + 2;
      assert State() == Fetched(old(State()));
      r := RunOpcode(rnd);
    }

    /** The match on the high nibble of the fetched opcode. */
    method RunOpcode(rnd: byte) returns (r: Outcome<InterpreterError>)
      requires Valid() && CanDispatch(State())
      modifies this, memory, registers, frameBuffer.pixels
      ensures Valid() && Transition(State(), r) == Dispatch(old(State()), rnd)
    {
      var op := currentOpcode;
      OpcodeFields(op);
      var group := op / 0x1000;
      if group == 0x0 {
        r := RunSystem();
      } else if group <= 0x2 {
        r := RunJump();
      } else if group <= 0x5 || group == 0x9 {
        r := RunSkip();
      } else if group <= 0x7 {
        r := RunLoad();
      } else if group == 0x8 {
        r := RunAlu();
      } else if group <= 0xD {
        r := RunMemory(rnd);
      } else if group == 0xE {
        r := RunKey();
      } else {
        r := RunMisc();
      }
    }

    /** 00EE, 00E0 and 0NNN, keyed on the whole opcode. */
    method RunSystem() returns (r: Outcome<InterpreterError>)
      requires Valid() && CanDispatch(State()) && Group(currentOpcode) == 0x0
      modifies this, frameBuffer.pixels
      ensures Valid() && forall rnd: byte :: Transition(State(), r) == Dispatch(old(State()), rnd)
    {
      if currentOpcode == 0x00EE {
        assert Decode(currentOpcode) == Some(Return);
        r := FnReturn();
      } else if currentOpcode == 0x00E0 {
        assert Decode(currentOpcode) == Some(ClearScreen);
        frameBuffer.Clear();
        drawFlag := true;
        r := Pass;
      } else {
        assert Decode(currentOpcode) == Some(Sys(NNN(currentOpcode)));
        FnCall(NNN(currentOpcode));
        r := Pass;
      }
    }

    /** 1NNN and 2NNN: jump and call. */
    method RunJump() returns (r: Outcome<InterpreterError>)
      requires Valid() && CanDispatch(State())
      requires Group(currentOpcode) == 0x1 || Group(currentOpcode) == 0x2
      modifies this
      ensures Valid() && forall rnd: byte :: Transition(State(), r) == Dispatch(old(State()), rnd)
    {
      var op := currentOpcode;
      var nnn := NNN(op);
      r := Pass;
      if Group(op) == 0x1 {
        assert Decode(op) == Some(Jump(nnn));
        pc := nnn;
      } else {
        assert Decode(op) == Some(Call(nnn));
        FnCall(nnn);
      }
    }

    /** 3XNN, 4XNN, 5XY0 and 9XY0: skip the next instruction on a comparison. */
    method RunSkip() returns (r: Outcome<InterpreterError>)
      requires Valid() && CanDispatch(State())
      requires 0x3 <= Group(currentOpcode) <= 0x5 || Group(currentOpcode) == 0x9
      modifies this
      ensures Valid() && forall rnd: byte :: Transition(State(), r) == Dispatch(old(State()), rnd)
    {
      var op := currentOpcode;
      var group, x, y, nn := Group(op), X(op), Y(op), NN(op);
      r := Pass;
      if group == 0x3 {
        assert Decode(op) == Some(SkipEqImm(x, nn));
        if registers[x] == nn {
          pc := pc + 2;
        }
      } else if group == 0x4 {
        assert Decode(op) == Some(SkipNeImm(x, nn));
        if registers[x] != nn {
          pc := pc + 2;
        }
      } else if group == 0x5 {
        assert Decode(op) == Some(SkipEqReg(x, y));
        if registers[x] == registers[y] {
          pc := pc + 2;
        }
      } else {
        assert Decode(op) == Some(SkipNeReg(x, y));
        if registers[x] != registers[y] {
          pc := pc + 2;
        }
      }
    }

    /** 6XNN and 7XNN: load and add an immediate byte. */
    method RunLoad() returns (r: Outcome<InterpreterError>)
      requires Valid() && CanDispatch(State())
      requires Group(currentOpcode) == 0x6 || Group(currentOpcode) == 0x7
      modifies registers
      ensures Valid() && forall rnd: byte :: Transition(State(), r) == Dispatch(old(State()), rnd)
    {
      var op := currentOpcode;
      var x, nn := X(op), NN(op);
      r := Pass;
      if Group(op) == 0x6 {
        assert Decode(op) == Some(LoadImm(x, nn));
        registers[x] := nn;
      } else {
        assert Decode(op) == Some(AddImm(x, nn));
        registers[x] := (registers[x] as int + nn as int) % 0x100;
      }
    }

    /** 8XY_: the ALU, selected by N; an N outside its table is an invalid opcode. */
    method RunAlu() returns (r: Outcome<InterpreterError>)
      requires Valid() && CanDispatch(State()) && Group(currentOpcode) == 0x8
      modifies registers
      ensures Valid() && forall rnd: byte :: Transition(State(), r) == Dispatch(old(State()), rnd)
    {
      var op := currentOpcode;
      var x, y, n := X(op), Y(op), N(op);
      if n <= 0x7 || n == 0xE {
        assert Decode(op) == Some(Alu(AluFromCode(n).value, x, y));
        AluWrite(x, y, n);
        r := Pass;
      } else {
        r := Fail(InvalidOpcode(pc - 2, currentOpcode));
      }
    }

    /** The register writes of 8XYN, flag writes in the source's order. */
    method AluWrite(x: nibble, y: nibble, n: nibble)
      requires Valid() && AluFromCode(n).Some?
      modifies registers
      ensures registers[..] == AluRegisters(old(registers[..]), AluFromCode(n).value, x, y)
    {
      if n == 0x0 {
        registers[x] := registers[y];
      } else if n == 0x1 {
        registers[x] := Op8(Or, registers[x], registers[y]);
      } else if n == 0x2 {
        registers[x] := Op8(And, registers[x], registers[y]);
      } else if n == 0x3 {
        registers[x] := Op8(Xor, registers[x], registers[y]);
      } else if n == 0x4 {
        var regX, regY := registers[x], registers[y];
        var result := regX as int + regY as int;
        registers[x] := AsU8(result);
        registers[0xF] := if result > 0xFF then 1 else 0;
      } else if n == 0x5 {
        var regX, regY := registers[x], registers[y];
        var result := regX as int - regY as int;
        registers[x] := AsU8(TruncRem(result, 0x100));
        registers[0xF] := if result >= 0 then 1 else 0;
      } else if n == 0x6 {
        var regX := registers[x];
        registers[0xF] := if Op8(And, regX, 1) == 1 then 1 else 0;
        registers[x] := registers[x] / 2;
      } else if n == 0x7 {
        var regX, regY := registers[x], registers[y];
        var result := regY as int - regX as int;
        registers[x] := AsU8(TruncRem(result, 0x100));
        registers[0xF] := if result >= 0 then 1 else 0;
      } else {
        var regX := registers[x];
        registers[0xF] := if Op8(And, regX, 0x80) == 0x80 then 1 else 0;
        registers[x] := registers[x] as int * 2 % 0x100;
      }
    }

    /** ANNN, BNNN, CXNN and DXYN. */
    method RunMemory(rnd: byte) returns (r: Outcome<InterpreterError>)
      requires Valid() && CanDispatch(State()) && 0xA <= Group(currentOpcode) <= 0xD
      modifies this, registers, frameBuffer.pixels
      ensures Valid() && Transition(State(), r) == Dispatch(old(State()), rnd)
    {
      var op := currentOpcode;
      var group, x, y, n, nn, nnn := Group(op), X(op), Y(op), N(op), NN(op), NNN(op);
      r := Pass;
      if group == 0xA {
        i := nnn;
      } else if group == 0xB {
        pc := (nnn + registers[0]) % 0x1_0000;
      } else if group == 0xC {
        var randomByte := Op8(And, rnd, nn);
        registers[x] := randomByte;
      } else {
        assert Decode(op) == Some(Instruction.Draw(x, y, n));
        Draw(x, y, n);
      }
    }

    /** EX9E and EXA1, selected by NN. */
    method RunKey() returns (r: Outcome<InterpreterError>)
      requires Valid() && CanDispatch(State()) && Group(currentOpcode) == 0xE
      modifies this
      ensures Valid() && forall rnd: byte :: Transition(State(), r) == Dispatch(old(State()), rnd)
    {
      var op := currentOpcode;
      var x, nn := X(op), NN(op);
      r := Pass;
      if nn == 0x9E {
        var regX := registers[x];
        if keypad[regX] {
          pc := pc + 2;
        }
      } else if nn == 0xA1 {
        var regX := registers[x];
        if !keypad[regX] {
          pc := pc + 2;
        }
      } else {
        r := Fail(InvalidOpcode(pc - 2, currentOpcode));
      }
    }

    /** The FX__ group, selected by NN. */
    method RunMisc() returns (r: Outcome<InterpreterError>)
      requires Valid() && CanDispatch(State()) && Group(currentOpcode) == 0xF
      modifies this, memory, registers
      ensures Valid() && forall rnd: byte :: Transition(State(), r) == Dispatch(old(State()), rnd)
    {
      var op := currentOpcode;
      var x, nn := X(op), NN(op);
      r := Pass;
      if nn == 0x0A {
        assert Decode(op) == Some(Instruction.WaitKey(x));
        WaitKey(x);
      } else if nn == 0x07 || nn == 0x15 || nn == 0x18 {
        RunTimers();
      } else if nn == 0x1E || nn == 0x29 {
        RunIndex();
      } else if nn == 0x33 || nn == 0x55 || nn == 0x65 {
        RunTransfer();
      } else {
        r := Fail(InvalidOpcode(pc - 2, currentOpcode));
      }
    }

    /** FX07, FX15 and FX18. */
    method RunTimers()
      requires Valid() && CanDispatch(State()) && Group(currentOpcode) == 0xF
      requires NN(currentOpcode) in {0x07, 0x15, 0x18}
      modifies this, registers
      ensures Valid() && forall rnd: byte :: Transition(State(), Pass) == Dispatch(old(State()), rnd)
    {
      ghost var m := State();
      var op := currentOpcode;
      var x, nn := X(op), NN(op);
      if nn == 0x07 {
        DispatchEffectFixed(m, ReadDelay(x));
        registers[x] := delayTimer;
        assert State() == m.(v := m.v[x := m.delayTimer]);
      } else if nn == 0x15 {
        DispatchEffectFixed(m, SetDelay(x));
        delayTimer := registers[x];
        assert State() == m.(delayTimer := m.v[x]);
      } else {
        DispatchEffectFixed(m, SetSound(x));
        soundTimer := registers[x];
        assert State() == m.(soundTimer := m.v[x]);
      }
    }

    /** FX1E and FX29. */
    method RunIndex()
      requires Valid() && CanDispatch(State()) && Group(currentOpcode) == 0xF
      requires NN(currentOpcode) in {0x1E, 0x29}
      modifies this
      ensures Valid() && forall rnd: byte :: Transition(State(), Pass) == Dispatch(old(State()), rnd)
    {
      var op := currentOpcode;
      var x, nn := X(op), NN(op);
      if nn == 0x1E {
        assert Decode(op) == Some(AddIndex(x));
        var regX := registers[x];
        i := (i + regX) % 0x1_0000;
      } else {
        assert Decode(op) == Some(FontChar(x));
        i := registers[x] as int * 5;
      }
    }

    /** FX33, FX55 and FX65. */
    method RunTransfer()
      requires Valid() && CanDispatch(State()) && Group(currentOpcode) == 0xF
      requires NN(currentOpcode) in {0x33, 0x55, 0x65}
      modifies memory, registers
      ensures Valid() && forall rnd: byte :: Transition(State(), Pass) == Dispatch(old(State()), rnd)
    {
      ghost var m := State();
      var op := currentOpcode;
      var x, nn := X(op), NN(op);
      if nn == 0x33 {
        DispatchEffectFixed(m, StoreBcd(x));
        StoreDecimal(x);
        assert State() == m.(memory := BcdStored(m.memory, m.i, m.v[x]));
      } else if nn == 0x55 {
        DispatchEffectFixed(m, StoreRegs(x));
        StoreRegisters(x);
        assert State() == m.(memory := RegsStored(m.memory, m.i, m.v, x));
      } else {
        DispatchEffectFixed(m, LoadRegs(x));
        LoadRegisters(x);
        assert State() == m.(v := RegsLoaded(m.memory, m.i, m.v, x));
      }
    }

    /** FX33: the hundreds, tens and units digits of V[X] at I, I + 1 and I + 2. */
    method StoreDecimal(x: nibble)
      requires Valid() && i + 2 < MemorySize
      modifies memory
      ensures Valid() && memory[..] == BcdStored(old(memory[..]), i, registers[x])
    {
      var regX := registers[x];
      memory[i] := regX / 100;
      memory[i + 1] := (regX / 10) % 10;
      memory[i + 2] := regX % 10;
    }

    /** FX0A: scan keys 1..15, each pressed one overwriting V[X]; with none pressed, step PC back. */
    method WaitKey(x: nibble)
      requires Valid() && PostFetch(State())
      modifies this, registers
      ensures Valid()
      ensures var m := old(State());
        match HighestPressed(m.keypad, 16)
        case Some(k) => State() == m.(v := m.v[x := k])
        case None => State() == m.(pc := m.pc - 2)
    {
      var keyPressed := false;
      var k := 1;
      while k < 16
        invariant 1 <= k <= 16
        invariant keyPressed == HighestPressed(keypad[..], k).Some?
        invariant keyPressed ==> registers[..] == old(registers[..])[x := HighestPressed(keypad[..], k).value]
        invariant !keyPressed ==> registers[..] == old(registers[..])
        modifies registers
      {
        if keypad[k] {
          registers[x] := k;
          keyPressed := true;
        }
        k := k + 1;
      }
      if !keyPressed {
        pc := pc - 2;
      }
    }

    /** FX55: copy V0..VX to memory at I, one byte at a time. */
    method StoreRegisters(x: nibble)
      requires Valid() && i + x < MemorySize
      modifies memory
      ensures Valid() && memory[..] == RegsStored(old(memory[..]), i, registers[..], x)
    {
      var endIndex: int := x;
      var k := 0;
      while k < endIndex + 1
        invariant 0 <= k <= endIndex + 1
        invariant memory[..] == old(memory[..])[..i] + registers[..k] + old(memory[..])[i + k..]
        modifies memory
      {
        memory[i + k] := registers[k];
        k := k + 1;
        assert registers[..k] == registers[..k - 1] + [registers[k - 1]];
      }
    }

    /** FX65: load V0..VX from memory at I, one byte at a time. */
    method LoadRegisters(x: nibble)
      requires Valid() && i + x < MemorySize
      modifies registers
      ensures Valid() && registers[..] == RegsLoaded(memory[..], i, old(registers[..]), x)
    {
      ghost var mem, regs := memory[..], registers[..];
      var endIndex: int := x;
      var k := 0;
      while k < endIndex + 1
        invariant 0 <= k <= endIndex + 1
        invariant forall j :: 0 <= j < k ==> registers[j] == mem[i + j]
        invariant forall j :: k <= j < 16 ==> registers[j] == regs[j]
        modifies registers
      {
        registers[k] := memory[i + k];
        k := k + 1;
      }
      assert registers[..] == RegsLoaded(mem, i, regs, x);
    }
  }
}
