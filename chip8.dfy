/**
 * The CHIP-8 virtual machine as values: the interpreter's whole state as a
 * record, and each of its operations as a function from state to state. The
 * class in interpreter.dfy is proved to perform exactly these transitions.
 */
module Chip8 {
  import opened Bytes
  import opened Wrappers
  import opened Opcodes
  import opened FrameBuffers
  import Calico

  const MemorySize: nat := 4096
  const ProgramStart: nat := 0x200
  const MaxRomSize: nat := MemorySize - ProgramStart
  const FontStart: nat := 0x050

  /** Sixteen glyphs, 0 to F, five rows of four pixels each (the high nibble of every byte). */
  const FontSet: seq<byte> := [
    0xF0, 0x90, 0x90, 0x90, 0xF0,
    0x20, 0x60, 0x20, 0x20, 0x70,
    0xF0, 0x10, 0xF0, 0x80, 0xF0,
    0xF0, 0x10, 0xF0, 0x10, 0xF0,
    0x90, 0x90, 0xF0, 0x10, 0x10,
    0xF0, 0x80, 0xF0, 0x10, 0xF0,
    0xF0, 0x80, 0xF0, 0x90, 0xF0,
    0xF0, 0x10, 0x20, 0x40, 0x40,
    0xF0, 0x90, 0xF0, 0x90, 0xF0,
    0xF0, 0x90, 0xF0, 0x10, 0xF0,
    0xF0, 0x90, 0xF0, 0x90, 0x90,
    0xE0, 0x90, 0xE0, 0x90, 0xE0,
    0xF0, 0x80, 0x80, 0x80, 0xF0,
    0xE0, 0x90, 0x90, 0x90, 0xE0,
    0xF0, 0x80, 0xF0, 0x80, 0xF0,
    0xF0, 0x80, 0xF0, 0x80, 0x80
  ]

  datatype InterpreterError = StackUnderflow(pc: u16) | InvalidOpcode(pc: u16, opcode: u16)

  /** Loading a program larger than the memory above 0x200. */
  datatype LoadError = RomTooLarge

  /**
   * The interpreter's state: memory, return stack, keypad, registers V0..VF,
   * PC, I, the two timers, whether sound is enabled, the opcode last fetched,
   * the framebuffer and the draw flag.
   */
  datatype Machine = Machine(
    memory: seq<byte>,
    stack: seq<u16>,
    keypad: seq<bool>,
    v: seq<byte>,
    pc: u16,
    i: u16,
    delayTimer: byte,
    soundTimer: byte,
    soundEnabled: bool,
    opcode: u16,
    screen: seq<bool>,
    drawFlag: bool)

  predicate WellFormed(m: Machine)
  {
    |m.memory| == MemorySize && |m.keypad| == 16 && |m.v| == 16 && |m.screen| == Size
  }

  /** The state after one instruction, and whether it failed. */
  datatype Transition = Transition(next: Machine, outcome: Outcome<InterpreterError>)

  // ---------------------------------------------------------------- construction and loading

  /** The state `new` builds: the font at 0x050, PC at 0x200, everything else zero or empty. */
  function Initial(soundEnabled: bool): (m: Machine)
    ensures WellFormed(m)
  {
    Machine(
      seq(MemorySize, k => if FontStart <= k < FontStart + |FontSet| then FontSet[k - FontStart] else 0),
      [], seq(16, _ => false), seq(16, _ => 0),
      ProgramStart, 0, 0, 0, soundEnabled, 0, Blank(), false)
  }

  /**
   * `load_rom` on the bytes read from the file: a program of more than 3584
   * bytes is refused and changes nothing; otherwise it is copied to 0x200
   * onwards and nothing else changes.
   */
  function LoadRom(m: Machine, rom: seq<byte>): (r: Result<Machine, LoadError>)
    requires WellFormed(m)
    ensures r.Err? <==> |rom| > MaxRomSize
    ensures r.Ok? ==> WellFormed(r.value) && r.value == m.(memory := r.value.memory)
    ensures r.Ok? ==> r.value.memory[ProgramStart..ProgramStart + |rom|] == rom
    ensures r.Ok? ==> forall k :: 0 <= k < MemorySize && !(ProgramStart <= k < ProgramStart + |rom|)
                        ==> r.value.memory[k] == m.memory[k]
  {
    if |rom| > MaxRomSize then Err(RomTooLarge)
    else
      var mem := m.memory[..ProgramStart] + rom + m.memory[ProgramStart + |rom|..];
      assert mem[ProgramStart..ProgramStart + |rom|] == rom;
      Ok(m.(memory := mem))
  }

  // ---------------------------------------------------------------- keypad, timers, sound

  /**
   * `handle_event`: a key-down or key-up of one of the sixteen keys sets that
   * key's entry to pressed or released; any other event or key changes nothing.
   */
  function HandleEvent(m: Machine, event: Calico.CalicoEvent, key: Calico.CalicoKey): (r: Machine)
    requires WellFormed(m)
    ensures WellFormed(r)
    ensures r == m.(keypad := r.keypad)
    ensures event == Calico.CalicoEvent.Other || key == Calico.CalicoKey.Other ==> r == m
    ensures event != Calico.CalicoEvent.Other && key != Calico.CalicoKey.Other ==>
      r.keypad[Calico.Ordinal(key)] == (event == Calico.KeyDown)
      && forall k :: 0 <= k < 16 && k != Calico.Ordinal(key) ==> r.keypad[k] == m.keypad[k]
  {
    if key == Calico.CalicoKey.Other || event == Calico.CalicoEvent.Other then m
    else m.(keypad := m.keypad[Calico.Ordinal(key) := event == Calico.KeyDown])
  }

  /** `tick_timers`: each timer that is above zero goes down by one. */
  function TickTimers(m: Machine): Machine
  {
    m.(delayTimer := if m.delayTimer > 0 then m.delayTimer - 1 else 0,
       soundTimer := if m.soundTimer > 0 then m.soundTimer - 1 else 0)
  }

  /** `should_play_sound` */
  predicate ShouldPlaySound(m: Machine)
  {
    m.soundTimer != 0 && m.soundEnabled
  }

  // ---------------------------------------------------------------- the sprite draw

  /** `row & (1 << (7 - dx)) != 0`: the pixel of column dx of a sprite row is set (column 0 is the high bit). */
  predicate SpriteBit(row: byte, dx: nat)
    requires dx < 8
  {
    Bitwise(And, row, Pow2(7 - dx), 8) != 0
  }

  /** The framebuffer cell that sprite column dx and row dy land on: u8 sums, then the screen's wrap. */
  function SpriteCell(xc: byte, yc: byte, dx: nat, dy: nat): nat
    requires dx < 8 && dy < 16
  {
    CalculateIndex((xc + dx) % 0x100, (yc + dy) % 0x100, Width, Height)
  }

  /** The only sprite column that can land on cell k. */
  function ColumnOf(k: nat, xc: byte): nat
  {
    (k % Width - xc) % Width
  }

  /** The only sprite row that can land on cell k. */
  function RowOf(k: nat, yc: byte): nat
  {
    (k / Width - yc) % Height
  }

  predicate SpriteInMemory(memory: seq<byte>, i: nat, n: nat)
  {
    |memory| == MemorySize && (n == 0 || i + n <= MemorySize)
  }

  /** Whether a set bit of the n-row sprite at memory[i..] drawn at (xc, yc) lands on cell k. */
  predicate Covers(memory: seq<byte>, i: nat, xc: byte, yc: byte, n: nat, k: nat)
    requires SpriteInMemory(memory, i, n)
  {
    var dx, dy := ColumnOf(k, xc), RowOf(k, yc);
    dx < 8 && dy < n && SpriteBit(memory[i + dy], dx)
  }

  /** The screen after XOR-ing the sprite onto it. */
  function Drawn(screen: seq<bool>, memory: seq<byte>, i: nat, xc: byte, yc: byte, n: nat): (r: seq<bool>)
    requires |screen| == Size && SpriteInMemory(memory, i, n)
    ensures |r| == Size
  {
    seq(Size, k requires 0 <= k < Size => screen[k] != Covers(memory, i, xc, yc, n, k))
  }

  /** Whether the sprite lands on a pixel that is on: that pixel is switched off. */
  predicate Collides(screen: seq<bool>, memory: seq<byte>, i: nat, xc: byte, yc: byte, n: nat)
    requires |screen| == Size && SpriteInMemory(memory, i, n)
  {
    exists k :: 0 <= k < Size && Covers(memory, i, xc, yc, n, k) && screen[k]
  }

  function DrawSprite(m: Machine, x: nibble, y: nibble, n: nibble): (r: Machine)
    requires WellFormed(m) && SpriteInMemory(m.memory, m.i, n)
    ensures WellFormed(r)
  {
    var xc, yc := m.v[x], m.v[y];
    m.(screen := Drawn(m.screen, m.memory, m.i, xc, yc, n),
       v := m.v[0xF := if Collides(m.screen, m.memory, m.i, xc, yc, n) then 1 else 0],
       drawFlag := true)
  }

  // ---------------------------------------------------------------- the other instructions

  /**
   * The FX0A scan over keys 1..end-1 (key 0 is never looked at): the highest
   * pressed one, if any.
   */
  function HighestPressed(keypad: seq<bool>, end: nat): (r: Option<nibble>)
    requires end <= |keypad| == 16
    ensures r.Some? ==> 1 <= r.value < end && keypad[r.value]
                        && forall k :: r.value < k < end ==> !keypad[k]
    ensures r.None? <==> forall k :: 1 <= k < end ==> !keypad[k]
    decreases end
  {
    if end <= 1 then None
    else if keypad[end - 1] then Some(end - 1)
    else HighestPressed(keypad, end - 1)
  }

  /** The register file after an 8XY_ instruction, writes in the source's order. */
  function AluRegisters(v: seq<byte>, op: AluOp, x: nibble, y: nibble): (r: seq<byte>)
    requires |v| == 16
    ensures |r| == 16
  {
    var vx, vy := v[x], v[y];
    match op
    case Assign => v[x := vy]
    case OrWith => v[x := Op8(Or, vx, vy)]
    case AndWith => v[x := Op8(And, vx, vy)]
    case XorWith => v[x := Op8(Xor, vx, vy)]
    case AddCarry =>
      var sum := vx as int + vy as int;
      v[x := AsU8(sum)][0xF := if sum > 0xFF then 1 else 0]
    case SubBorrow =>
      var diff := vx as int - vy as int;
      v[x := AsU8(TruncRem(diff, 0x100))][0xF := if diff >= 0 then 1 else 0]
    case ShiftRight =>
      // VF first, then V[X] is shifted as it is after that write
      var flagged := v[0xF := if Op8(And, vx, 1) == 1 then 1 else 0];
      flagged[x := flagged[x] / 2]
    case SubReverse =>
      var diff := vy as int - vx as int;
      v[x := AsU8(TruncRem(diff, 0x100))][0xF := if diff >= 0 then 1 else 0]
    case ShiftLeft =>
      var flagged := v[0xF := if Op8(And, vx, 0x80) == 0x80 then 1 else 0];
      flagged[x := flagged[x] as int * 2 % 0x100]
  }

  /** PC + 2 when the condition holds. */
  function SkipIf(m: Machine, cond: bool): Machine
    requires m.pc + 2 < 0x1_0000
  {
    if cond then m.(pc := m.pc + 2) else m
  }

  /** `fn_call`: push PC, the stack having no depth limit, and jump to any 16-bit address. */
  function CallTo(m: Machine, target: u16): Machine
  {
    m.(stack := m.stack + [m.pc], pc := target)
  }

  /** `fn_return`: pop the return address into PC; an empty stack fails with the current PC. */
  function ReturnFrom(m: Machine): Transition
  {
    if |m.stack| == 0 then Transition(m, Fail(StackUnderflow(m.pc)))
    else Transition(m.(pc := m.stack[|m.stack| - 1], stack := m.stack[..|m.stack| - 1]), Pass)
  }

  /** A state just after a fetch: PC has moved past the opcode. */
  predicate PostFetch(m: Machine)
  {
    WellFormed(m) && 2 <= m.pc <= MemorySize
  }

  /** The memory and keypad accesses of the instruction stay in range (out of range the source panics). */
  predicate InBounds(m: Machine, ins: Instruction)
    requires WellFormed(m)
  {
    match ins
    case Draw(_, _, n) => SpriteInMemory(m.memory, m.i, n)
    case SkipKeyDown(x) => m.v[x] < 16
    case SkipKeyUp(x) => m.v[x] < 16
    case StoreBcd(_) => m.i + 2 < MemorySize
    case StoreRegs(x) => m.i + x < MemorySize
    case LoadRegs(x) => m.i + x < MemorySize
    case _ => true
  }

  /** Memory with the decimal digits of vx, hundreds first, at i, i + 1 and i + 2. */
  function BcdStored(memory: seq<byte>, i: nat, vx: byte): (r: seq<byte>)
    requires i + 2 < |memory|
    ensures |r| == |memory|
  {
    memory[i := vx / 100][i + 1 := vx / 10 % 10][i + 2 := vx % 10]
  }

  /** Memory with V0..VX written from i on. */
  function RegsStored(memory: seq<byte>, i: nat, v: seq<byte>, x: nibble): (r: seq<byte>)
    requires i + x < |memory| && |v| == 16
    ensures |r| == |memory|
  {
    memory[..i] + v[..x + 1] + memory[i + x + 1..]
  }

  /** Registers with V0..VX read from memory at i on. */
  function RegsLoaded(memory: seq<byte>, i: nat, v: seq<byte>, x: nibble): (r: seq<byte>)
    requires i + x < |memory| && |v| == 16
    ensures |r| == 16
  {
    memory[i..i + x + 1] + v[x + 1..]
  }

  /** Executing a decoded instruction in the state just after its fetch: only 00EE can fail. */
  function Exec(m: Machine, ins: Instruction, rnd: byte): (t: Transition)
    requires PostFetch(m) && InBounds(m, ins)
    ensures WellFormed(t.next)
  {
    if ins.Return? then ReturnFrom(m) else Transition(Effect(m, ins, rnd), Pass)
  }

  /** Dispatching a decoded instruction other than 00EE passes with its effect. */
  lemma DispatchEffect(m: Machine, ins: Instruction, rnd: byte)
    requires CanDispatch(m) && Decode(m.opcode) == Some(ins) && !ins.Return?
    ensures InBounds(m, ins) && Dispatch(m, rnd) == Transition(Effect(m, ins, rnd), Pass)
  {
  }

  /** The same, for an instruction other than CXNN: the effect does not depend on the random byte. */
  lemma DispatchEffectFixed(m: Machine, ins: Instruction)
    requires CanDispatch(m) && Decode(m.opcode) == Some(ins) && !ins.Return? && !ins.Random?
    ensures InBounds(m, ins) && forall rnd: byte :: Dispatch(m, rnd) == Transition(Effect(m, ins, 0), Pass)
  {
    forall rnd: byte ensures Dispatch(m, rnd) == Transition(Effect(m, ins, 0), Pass) {
      DispatchEffect(m, ins, rnd);
    }
  }

  /** The new state after an instruction other than 00EE. */
  function Effect(m: Machine, ins: Instruction, rnd: byte): (r: Machine)
    requires PostFetch(m) && InBounds(m, ins)
    ensures WellFormed(r)
  {
    match ins
    case ClearScreen => m.(screen := Blank(), drawFlag := true)
    case Return => m
    case Sys(a) => CallTo(m, a)
    case Jump(a) => m.(pc := a)
    case Call(a) => CallTo(m, a)
    case SkipEqImm(x, nn) => SkipIf(m, m.v[x] == nn)
    case SkipNeImm(x, nn) => SkipIf(m, m.v[x] != nn)
    case SkipEqReg(x, y) => SkipIf(m, m.v[x] == m.v[y])
    case LoadImm(x, nn) => m.(v := m.v[x := nn])
    case AddImm(x, nn) => m.(v := m.v[x := (m.v[x] + nn) % 0x100])
    case Alu(op, x, y) => m.(v := AluRegisters(m.v, op, x, y))
    case SkipNeReg(x, y) => SkipIf(m, m.v[x] != m.v[y])
    case LoadIndex(a) => m.(i := a)
    case JumpOffset(a) => m.(pc := (a + m.v[0]) % 0x1_0000)
    case Random(x, nn) => m.(v := m.v[x := Op8(And, rnd, nn)])
    case Draw(x, y, n) => DrawSprite(m, x, y, n)
    case SkipKeyDown(x) => SkipIf(m, m.keypad[m.v[x]])
    case SkipKeyUp(x) => SkipIf(m, !m.keypad[m.v[x]])
    case ReadDelay(x) => m.(v := m.v[x := m.delayTimer])
    case WaitKey(x) =>
      (match HighestPressed(m.keypad, 16)
       case Some(k) => m.(v := m.v[x := k])
       case None => m.(pc := m.pc - 2))
    case SetDelay(x) => m.(delayTimer := m.v[x])
    case SetSound(x) => m.(soundTimer := m.v[x])
    case AddIndex(x) => m.(i := (m.i + m.v[x]) % 0x1_0000)
    case FontChar(x) => m.(i := m.v[x] as int * 5)
    case StoreBcd(x) =>
      m.(memory := BcdStored(m.memory, m.i, m.v[x]))
    case StoreRegs(x) =>
      m.(memory := RegsStored(m.memory, m.i, m.v, x))
    case LoadRegs(x) =>
      m.(v := RegsLoaded(m.memory, m.i, m.v, x))
  }

  // ---------------------------------------------------------------- fetch and dispatch

  /** `mem[pc] << 8 | mem[pc + 1]`: the big-endian opcode at PC. */
  function Fetch(m: Machine): u16
    requires WellFormed(m) && m.pc + 1 < MemorySize
  {
    m.memory[m.pc] as int * 0x100 + m.memory[m.pc + 1] as int
  }

  function Fetched(m: Machine): Machine
    requires WellFormed(m) && m.pc + 1 < MemorySize
  {
    m.(opcode := Fetch(m), pc := m.pc + 2)
  }

  /** The post-fetch state can run its opcode without an out-of-range access. */
  predicate CanDispatch(m: Machine)
  {
    PostFetch(m) && (Decode(m.opcode).Some? ==> InBounds(m, Decode(m.opcode).value))
  }

  /** Everything after the fetch: run the decoded instruction, or fail on an undecodable opcode. */
  function Dispatch(m: Machine, rnd: byte): Transition
    requires CanDispatch(m)
  {
    match Decode(m.opcode)
    case None => Transition(m, Fail(InvalidOpcode(m.pc - 2, m.opcode)))
    case Some(ins) => Exec(m, ins, rnd)
  }

  /** The state in which `execute_next_instruction` neither reads outside memory nor indexes the keypad out of range. */
  predicate CanStep(m: Machine)
  {
    WellFormed(m) && m.pc + 1 < MemorySize && CanDispatch(Fetched(m))
  }

  /** `execute_next_instruction`, with `rnd` the byte the random generator would draw for CXNN. */
  function Step(m: Machine, rnd: byte): Transition
    requires CanStep(m)
  {
    Dispatch(Fetched(m), rnd)
  }
}
