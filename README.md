# A verified model of the rusty-calico-c8 CHIP-8 interpreter

This project models the core of a CHIP-8 interpreter written in Rust, and its
command-line option parser. The interpreter has 4 KiB of memory with the font
at 0x050 and programs loaded at 0x200. It has sixteen 8-bit registers V0..VF,
a 16-bit index register I and a program counter PC. Its call stack has no
depth limit. It also has a sixteen-key keypad, a delay timer, a sound timer
and a 64 × 32 monochrome framebuffer.

The model has two layers.

- **Values.** Modules `Opcodes`, `Chip8` and `FrameBuffers` describe every
  operation as a function on values:
  - a `Machine` datatype;
  - the decoder `Decode` from a 16-bit opcode to an `Instruction`;
  - one transition per instruction, `Exec`/`Effect`;
  - the step `Step` = fetch, then `Dispatch`.
- **Objects.** Class `Interpreter.Chip8Interpreter` keeps the shape of the
  Rust struct.
  - Memory, registers and keypad are arrays updated in place, and the
    framebuffer is a `FrameBuffers.FrameBuffer` object over an array.
  - Every method, including `execute_next_instruction` with all its loops,
    is proved to make the transition of the value layer on `State()`, the
    value its fields spell.

The properties are lemmas about the value layer, in modules
`Chip8Properties`, `SpriteProperties` and `CmdArgsProperties`. They cover:

- the start state and ROM loading;
- decode/encode round trips;
- the ALU flags and the register and memory transfers;
- call/return;
- the XOR sprite draw and its collision flag;
- the key wait and the timers;
- the option parser's error order and field updates.

Two details of the code that the model keeps as written:

- **8XY6 and 8XYE write VF before the shift.** The shift then re-reads
  V[X], so for X = F the shifted value wins over the flag: 0 for 8FY6, and
  0 or 2 for 8FYE. See `Chip8Properties.ShiftRightFlag` and `ShiftLeftFlag`.
- **The collision flag** is set when a pixel is off after being flipped,
  that is, on an on→off transition. See
  `SpriteProperties.CollisionMeansSwitchedOff`.

Other behaviour of the code that the model keeps:

- **`fn_call`** takes any 16-bit address, not only the 12-bit NNN of an
  opcode.
- **FX29** sets I to V[X] * 5, with no 0x050 font offset, so I points below
  the font. `Chip8Properties.FontCharAddress` shows that for the start
  memory.
- **FX0A** scans keys 1..15 and never key 0. The highest pressed key wins.
  With none pressed, PC is stepped back so the instruction runs again.
- **5XYN and 9XYN** ignore N.
- **Sprite coordinates** are u8 sums, wrapped mod 256 before the screen's
  own wrap.
- **The error PCs.** `InvalidOpcode` reports the PC of the opcode.
  `StackUnderflow` reports the PC after the fetch.

## Model

| member | source | states |
|---|---|---|
| FrameBuffers.Blank | src/frame_buffer.rs:4-6 | a fresh framebuffer has 2048 pixels, all off |
| FrameBuffers.CalculateIndex | src/frame_buffer.rs:8-15 | the cell is inside the w × h grid, and its column and row read back as x mod w and y mod h |
| FrameBuffers.SameCell | src/frame_buffer.rs:8-15 | two coordinate pairs hit the same cell exactly when they agree mod 64 and mod 32 |
| FrameBuffers.CalculateIndexExamples | src/frame_buffer.rs:41-45 | the unit test's values: (0,0)→0, (0,1)→10, (7,5)→57 on a 10 × 10 grid |
| FrameBuffers.GetPixelWraps | src/frame_buffer.rs:17-21 | reading a pixel depends only on the coordinates mod the screen size |
| FrameBuffers.FlipTogglesOnlyItsCell | src/frame_buffer.rs:23-27 | flipping changes the pixel at the wrapped coordinates and no other |
| FrameBuffers.FlipTwiceRestores | src/frame_buffer.rs:23-27 | flipping the same coordinates twice gives back the screen |
| FrameBuffers.PixelAt | src/frame_buffer.rs:17-21 | defines the pixel read at wrapped coordinates; `GetPixelWraps` states its wrap-around |
| FrameBuffers.FrameBuffer.GetPixel | src/frame_buffer.rs:17-21 | `get_pixel` on the object's array; it reads what `PixelAt` reads on its contents |
| FrameBuffers.Flipped | src/frame_buffer.rs:23-27 | the screen after `flip_pixel`: the same length, with only the wrapped cell negated; `FlipTogglesOnlyItsCell` and `FlipTwiceRestores` state its properties |
| FrameBuffers.FrameBuffer.constructor | src/frame_buffer.rs:4-6 | the pixel array is fresh and blank |
| FrameBuffers.FrameBuffer.FlipPixel | src/frame_buffer.rs:23-27 | the pixels become `Flipped` of the old pixels |
| FrameBuffers.FrameBuffer.Clear | src/frame_buffer.rs:29-33 | the loop leaves every pixel off |
| Calico.Ordinal | src/interpreter.rs:59-78 | each of the sixteen keypad keys has an ordinal below 16, in declaration order |
| Opcodes.Group | src/interpreter.rs:229 | the top nibble `opcode & 0xF000` that selects the match arm; `OpcodeFields` relates it to the other fields |
| Opcodes.X | src/interpreter.rs:165-167 | `get_x_from_opcode`, the second nibble; see `OpcodeFields` |
| Opcodes.Y | src/interpreter.rs:169-171 | `get_y_from_opcode`, the third nibble; see `OpcodeFields` |
| Opcodes.NNN | src/interpreter.rs:173-175 | `get_nnn_from_opcode`, the low twelve bits; see `OpcodeFields` |
| Opcodes.NN | src/interpreter.rs:177-179 | `get_nn_from_opcode`, the low byte; see `OpcodeFields` |
| Opcodes.N | src/interpreter.rs:181-183 | `get_n_from_opcode`, the low nibble; see `OpcodeFields` |
| Opcodes.Decode | src/interpreter.rs:229-431 | which instruction the match arms of `execute_next_instruction` run for an opcode, or none when an arm returns `InvalidOpcode`; `DecodeEncode`, `EncodeDecode` and `DecodeDefinedIff` state its properties |
| Opcodes.DecodeFields | src/interpreter.rs:229-431 | the same match, on the opcode's fields |
| Opcodes.OpcodeFields | src/interpreter.rs:165-183 | the opcode is G·0x1000 + X·0x100 + Y·0x10 + N, NN = Y·0x10 + N and NNN = X·0x100 + NN |
| Opcodes.FieldsOf | src/interpreter.rs:165-183 | the extractors read back the group, X and low byte an opcode was built from |
| Opcodes.DecodeEncode | src/interpreter.rs:229-431 | every instruction with its own encoding decodes back from that encoding |
| Opcodes.EncodeDecode | src/interpreter.rs:229-431 | every accepted opcode re-encodes to itself, except that 5XYN and 9XYN lose N |
| Chip8.Initial | src/interpreter.rs:96-117 | the state `new` builds; `InitialState` lists it field by field |
| Chip8.TickTimers | src/interpreter.rs:151-159 | each timer goes down by one unless it is zero; `TicksCountDown` states it over k ticks |
| Chip8.ShouldPlaySound | src/interpreter.rs:161-163 | sound plays when it is enabled and the sound timer is not zero; see `SoundAfterTicks` |
| Chip8.DrawSprite | src/interpreter.rs:185-206 | the state after DXYN; the `SpriteProperties` lemmas state what it changes |
| Chip8.CallTo | src/interpreter.rs:208-211 | `fn_call` on any 16-bit address; `CallThenReturn` pairs it with `ReturnFrom` |
| Chip8.ReturnFrom | src/interpreter.rs:213-220 | `fn_return`: pop into PC, or fail at the current PC; see `CallThenReturn` and `ReturnUnderflow` |
| Chip8.AluRegisters | src/interpreter.rs:273-325 | the registers after 8XYN; the ALU lemmas in `Chip8Properties` state its flags and results |
| Chip8.Fetch | src/interpreter.rs:223-226 | the big-endian opcode at PC; see `FetchBigEndian` |
| Chip8.Fetched | src/interpreter.rs:223-227 | the state after the fetch, with PC moved on by 2; see `FetchBigEndian` |
| Chip8.Exec | src/interpreter.rs:229-431 | one decoded instruction: 00EE through `ReturnFrom`, every other one passes with `Effect` |
| Chip8.Effect | src/interpreter.rs:229-431 | the new state after each match arm other than 00EE; a well-formed state stays well formed |
| Chip8.Dispatch | src/interpreter.rs:229-431 | the match after the fetch: `Exec` of the decoded instruction, or `InvalidOpcode` at the opcode's own PC |
| Chip8.Step | src/interpreter.rs:222-434 | `execute_next_instruction`: fetch, then `Dispatch`; the `Chip8Properties` lemmas state what one step does |
| Chip8.LoadRom | src/interpreter.rs:119-135 | a ROM fails exactly when it is over 3584 bytes; otherwise it lands at 0x200 and nothing else changes |
| Chip8.HandleEvent | src/interpreter.rs:137-149 | a key-down or key-up of a keypad key sets that key's entry and no other; any other event or key changes nothing |
| Chip8.HighestPressed | src/interpreter.rs:375-390 | the FX0A scan gives the highest pressed key among 1..15, or none exactly when none of them is pressed |
| Chip8Properties.InitialState | src/interpreter.rs:96-117 | after `new`: the font is at 0x050..0x0A0 and all other memory, the registers, I and the timers are zero; PC is 0x200; the stack is empty; the screen is blank |
| Chip8Properties.LoadKeepsFont | src/interpreter.rs:125-135 | a ROM that fits always loads into the start state, and the font survives |
| Chip8Properties.PressRelease | src/interpreter.rs:137-149 | a key-down then a key-up of the same key restores the state |
| Chip8Properties.PressThenWait | src/interpreter.rs:375-390 | after one key press on an idle keypad, FX0A reports that key, or nothing for key 0 |
| Chip8Properties.TicksCountDown | src/interpreter.rs:151-159 | after k ticks each timer has gone down by k, stopping at zero, and nothing else has changed |
| Chip8Properties.SoundAfterTicks | src/interpreter.rs:161-163 | after k ticks the sound plays exactly when it is enabled and the sound timer started above k |
| Chip8Properties.DecodeDefinedIff | src/interpreter.rs:229-431 | an opcode decodes exactly when a match arm of `execute_next_instruction` accepts it |
| Chip8Properties.RegisterSkipsIgnoreN | src/interpreter.rs:259-263 | 5XYN and 9XYN compare V[X] with V[Y] whatever N is |
| Chip8Properties.FetchBigEndian | src/interpreter.rs:223-227 | the opcode is the byte at PC, then the next byte; PC moves on by 2 |
| Chip8Properties.RejectedOpcode | src/interpreter.rs:327 | an unaccepted opcode fails with `InvalidOpcode` carrying the PC it was fetched from, after the fetch |
| Chip8Properties.SequentialAdvances | src/interpreter.rs:222-434 | every instruction that neither jumps, calls, returns, skips nor waits passes, moves PC to the next opcode and keeps the stack |
| Chip8Properties.SkipAdvances | src/interpreter.rs:247-263 | a skip passes and moves PC by 4 exactly when its condition holds, by 2 otherwise, and changes nothing else |
| Chip8Properties.SysIsCall | src/interpreter.rs:239 | 0NNN runs exactly as 2NNN |
| Chip8Properties.CallThenReturn | src/interpreter.rs:208-220 | a call to any 16-bit address pushes PC whatever the stack depth and jumps there; the return that follows passes and restores the whole state |
| Chip8Properties.CallReturnExample | src/interpreter.rs:441-450 | the unit test: from the start state, `fn_call(0x2540)` then `fn_return` passes and gives back PC 0x200 and the whole state |
| Chip8Properties.CallReturnSteps | src/interpreter.rs:229-245 | two steps, 2NNN then the 00EE at NNN, come back to the opcode after the call with the stack as before |
| Chip8Properties.ReturnUnderflow | src/interpreter.rs:213-220 | 00EE on an empty stack fails with `StackUnderflow` at the post-fetch PC |
| Chip8Properties.AddCarryFlag | src/interpreter.rs:283-291 | 8XY4: V[X] + 256·VF is the sum, VF is the carry, and no other register below VF changes |
| Chip8Properties.SubBorrowFlag | src/interpreter.rs:293-301 | 8XY5: V[X] is the difference mod 256 and VF is 1 exactly when V[X] ≥ V[Y] |
| Chip8Properties.ShiftRightFlag | src/interpreter.rs:303-308 | 8XY6: VF is the bit shifted out and V[X] the rest; 8FY6 leaves VF = 0 |
| Chip8Properties.SubReverseFlag | src/interpreter.rs:310-318 | 8XY7: V[X] is V[Y] − V[X] mod 256 and VF is 1 exactly when V[Y] ≥ V[X] |
| Chip8Properties.ShiftLeftFlag | src/interpreter.rs:320-325 | 8XYE: VF is the top bit shifted out and V[X] + 256·VF is 2·V[X]; 8FYE leaves 2·VF |
| Chip8Properties.BitwiseAlu | src/interpreter.rs:277-281 | 8XY1/2/3 make each bit of V[X] the OR/AND/XOR of the operands' bits and change only V[X] |
| Chip8Properties.RandomMasked | src/interpreter.rs:341-345 | CXNN: each bit of V[X] is the random bit AND the NN bit; only V[X] changes |
| Chip8Properties.AddImmWraps | src/interpreter.rs:267-271 | 7XNN adds mod 256 and leaves VF alone |
| Chip8Properties.BcdDigits | src/interpreter.rs:404-410 | FX33 stores three decimal digits, hundreds first, that spell V[X], and changes no other byte |
| Chip8Properties.StoreRegsCopies | src/interpreter.rs:412-418 | FX55 copies V0..VX to I.. and changes no other byte, and I stays |
| Chip8Properties.LoadRegsCopies | src/interpreter.rs:420-424 | FX65 loads V0..VX from I.., keeps the higher registers, and I stays |
| Chip8Properties.StoreThenLoad | src/interpreter.rs:412-424 | FX55 then FX65 with the same X gives back the stored registers |
| Chip8Properties.StartMemoryGlyph | src/interpreter.rs:112-114 | in the start memory, glyph d of the font is at 0x050 + 5·d, and the five bytes at 5·d are zero |
| Chip8Properties.FontCharAddress | src/interpreter.rs:402 | FX29 sets I = 5·V[X]; in the start memory the five bytes there are zero and the glyph sits at 0x050 + I |
| Chip8Properties.WaitKeyOutcomes | src/interpreter.rs:375-390 | a FX0A step passes; it loads the highest pressed key, or steps PC back to the FX0A when none is pressed |
| SpriteProperties.SpriteBitIsBit | src/interpreter.rs:195 | `row & (1 << (7 - dx)) != 0` tests bit 7 − dx of the row |
| SpriteProperties.SpriteCellCoordinates | src/interpreter.rs:196 | sprite pixel (dx, dy) lands in column (V[X] + dx) mod 64 and row (V[Y] + dy) mod 32 |
| SpriteProperties.SpriteCellInverse | src/interpreter.rs:191-202 | cell k gets pixel (dx, dy) exactly when dx and dy are the column and row read back from k |
| SpriteProperties.DrawTogglesSprite | src/interpreter.rs:191-202 | DXYN toggles a cell exactly when some set sprite bit lands on it |
| SpriteProperties.DrawFlipsSpritePixel | src/interpreter.rs:194-197 | seen through coordinates, each pixel under a sprite bit is XOR-ed with that bit |
| SpriteProperties.CollisionMeansSwitchedOff | src/interpreter.rs:196-204 | VF is set exactly when a pixel went from on to off, that is, when a set bit lands on a lit pixel |
| SpriteProperties.DrawTwiceRestores | src/interpreter.rs:185-206 | drawing the same sprite at the same place twice restores the screen |
| SpriteProperties.DrawSpriteEffect | src/interpreter.rs:185-206 | DXYN changes only the screen, VF (0 or 1) and the draw flag |
| SpriteProperties.DrawSpriteTwice | src/interpreter.rs:185-206 | the same DXYN twice, with X and Y other than F, leaves the screen unchanged |
| Interpreter.DrawPixel | src/interpreter.rs:194-200 | one pass of the inner draw loop flips that pixel's cell when its bit is set, and raises the flag when that cell was lit |
| Interpreter.Chip8Interpreter.constructor | src/interpreter.rs:96-117 | a new interpreter's state is `Initial(soundEnabled)` |
| Interpreter.Chip8Interpreter.LoadFont | src/interpreter.rs:112-114 | the font loop turns zeroed memory into the start memory |
| Interpreter.Chip8Interpreter.LoadRom | src/interpreter.rs:119-135 | fails with `RomTooLarge` leaving the state alone, or loads the program as `Chip8.LoadRom` does |
| Interpreter.Chip8Interpreter.HandleEvent | src/interpreter.rs:137-149 | the new state is `Chip8.HandleEvent` of the old |
| Interpreter.Chip8Interpreter.TickTimers | src/interpreter.rs:151-159 | the new state is `Chip8.TickTimers` of the old |
| Interpreter.Chip8Interpreter.ShouldPlaySound | src/interpreter.rs:161-163 | the answer is `Chip8.ShouldPlaySound` of the state |
| Interpreter.Chip8Interpreter.FnCall | src/interpreter.rs:208-211 | PC is pushed with no depth limit and becomes the address |
| Interpreter.Chip8Interpreter.FnReturn | src/interpreter.rs:213-220 | pops into PC, or fails with `StackUnderflow(pc)` on an empty stack, as `ReturnFrom` |
| Interpreter.Chip8Interpreter.Draw | src/interpreter.rs:185-206 | the nested loops leave the state `DrawSprite` gives |
| Interpreter.Chip8Interpreter.DrawRow | src/interpreter.rs:194-201 | the inner loop draws one more sprite row and keeps the collision flag |
| Interpreter.Chip8Interpreter.ExecuteNextInstruction | src/interpreter.rs:222-434 | the new state and the outcome are `Step` of the old state |
| Interpreter.Chip8Interpreter.RunOpcode | src/interpreter.rs:229-431 | the match on the top nibble makes the `Dispatch` transition |
| Interpreter.Chip8Interpreter.RunSystem | src/interpreter.rs:230-241 | 00EE, 00E0 and 0NNN as `Dispatch` |
| Interpreter.Chip8Interpreter.RunJump | src/interpreter.rs:243-245 | 1NNN and 2NNN as `Dispatch` |
| Interpreter.Chip8Interpreter.RunSkip | src/interpreter.rs:247-263 | 3XNN, 4XNN, 5XYN and 9XYN as `Dispatch` |
| Interpreter.Chip8Interpreter.RunLoad | src/interpreter.rs:265-271 | 6XNN and 7XNN as `Dispatch` |
| Interpreter.Chip8Interpreter.RunAlu | src/interpreter.rs:273-329 | 8XYN as `Dispatch`, failing `InvalidOpcode` for an N outside the table |
| Interpreter.Chip8Interpreter.AluWrite | src/interpreter.rs:274-325 | the registers become `AluRegisters` for that N |
| Interpreter.Chip8Interpreter.RunMemory | src/interpreter.rs:337-347 | ANNN, BNNN, CXNN and DXYN as `Dispatch` |
| Interpreter.Chip8Interpreter.RunKey | src/interpreter.rs:349-369 | EX9E and EXA1 as `Dispatch`, failing `InvalidOpcode` for another NN |
| Interpreter.Chip8Interpreter.RunMisc | src/interpreter.rs:371-428 | FXNN as `Dispatch`, failing `InvalidOpcode` for an NN outside the table |
| Interpreter.Chip8Interpreter.RunTimers | src/interpreter.rs:373-394 | FX07, FX15 and FX18 as `Dispatch` |
| Interpreter.Chip8Interpreter.RunIndex | src/interpreter.rs:396-402 | FX1E and FX29 as `Dispatch` |
| Interpreter.Chip8Interpreter.RunTransfer | src/interpreter.rs:404-424 | FX33, FX55 and FX65 as `Dispatch` |
| Interpreter.Chip8Interpreter.StoreDecimal | src/interpreter.rs:404-410 | memory becomes `BcdStored` of the old memory |
| Interpreter.Chip8Interpreter.WaitKey | src/interpreter.rs:375-390 | the scan loads `HighestPressed` into V[X], or steps PC back by 2 when no key is pressed |
| Interpreter.Chip8Interpreter.StoreRegisters | src/interpreter.rs:412-418 | the copy loop leaves memory as `RegsStored` |
| Interpreter.Chip8Interpreter.LoadRegisters | src/interpreter.rs:420-424 | the copy loop leaves the registers as `RegsLoaded` |
| CmdArgs.New | src/cmd_args.rs:43-50 | the defaults: sound on, window 640 × 320, clock 600 |
| CmdArgs.Split | src/cmd_args.rs:60 | `split(":")` gives at least one token, and no token contains ':' |
| CmdArgs.JoinSplit | src/cmd_args.rs:60 | joining the tokens with ':' gives back the argument |
| CmdArgs.SplitJoin | src/cmd_args.rs:60 | splitting a ':'-join of ':'-free tokens gives back the tokens |
| CmdArgs.ParseUnsigned | src/cmd_args.rs:76-79 | an accepted number is below the type's limit, and the text starts with a digit or '+' |
| CmdArgs.ParseDecimal | src/cmd_args.rs:76-95 | every value below the limit parses back from its decimal digits, with or without a leading '+' |
| CmdArgs.ParseRejectsNonDigit | src/cmd_args.rs:76-95 | any character other than a digit, apart from a leading '+', makes the parse fail |
| CmdArgs.ParseRejectsOverflow | src/cmd_args.rs:76-95 | a value at or above the limit, written as its decimal digits, does not parse |
| CmdArgs.ParseUnsignedIff | src/cmd_args.rs:76-95 | for every text: it parses to v exactly when, after an optional leading '+', it is one or more digits whose value is v and v is below the limit |
| CmdArgs.ParseRejectsEmpty | src/cmd_args.rs:76-95 | the empty text and a lone '+' do not parse |
| CmdArgs.ParseLeadingZero | src/cmd_args.rs:76-95 | a leading zero, with or without '+', is accepted and does not change the result, so "0780" parses as 780 and an overflow stays an overflow |
| CmdArgs.Options | src/cmd_args.rs:55-58 | the arguments at positions 0 and 1 are skipped |
| CmdArgs.ApplyArg | src/cmd_args.rs:60-97 | one argument of the loop applied to the settings so far; `UnknownNameRule`, `TokenCountRule`, `ParseErrorRule`, `OptionSetsOnlyItsField` and the per-option lemmas state what it does |
| CmdArgs.ApplyArgs | src/cmd_args.rs:55-102 | the arguments applied left to right, stopping at the first error; see `ApplyArgsAppend`, `StopsAtFirstError` and `ErrorHasFirstCause` |
| CmdArgs.FromArgs | src/cmd_args.rs:52-103 | `new_from_args` as a value: the options applied to the defaults; `NewFromArgs` is proved to compute it |
| CmdArgs.NewFromArgs | src/cmd_args.rs:52-103 | the loop with its early returns computes `FromArgs`, the fold of the options over the defaults |
| CmdArgsProperties.ShortArgsGiveDefaults | src/cmd_args.rs:53-58 | two or fewer arguments give the defaults |
| CmdArgsProperties.FirstTwoIgnored | src/cmd_args.rs:55-58 | the first two arguments never affect the result |
| CmdArgsProperties.ApplyArgsAppend | src/cmd_args.rs:55-102 | processing a + b is processing a, then b from its result, unless a failed |
| CmdArgsProperties.StopsAtFirstError | src/cmd_args.rs:55-102 | an argument that fails after the earlier ones succeeded is the result, whatever follows |
| CmdArgsProperties.ErrorHasFirstCause | src/cmd_args.rs:55-102 | every error is the error of one argument whose predecessors were all accepted |
| CmdArgsProperties.OptionSetsOnlyItsField | src/cmd_args.rs:63-96 | an accepted `-no_sound`, `-clock_speed` or `-window_size` changes only its own fields |
| CmdArgsProperties.ArgumentIndependentOfSettings | src/cmd_args.rs:62-98 | whether an argument is accepted, its error and the values it sets do not depend on the earlier settings |
| CmdArgsProperties.LaterOverrides | src/cmd_args.rs:55-102 | of two accepted arguments for the same option, the later wins |
| CmdArgsProperties.NoSoundArg | src/cmd_args.rs:63-69 | `-no_sound` turns the sound off |
| CmdArgsProperties.ClockSpeedArg | src/cmd_args.rs:71-80 | `-clock_speed:v` sets the clock to v, or fails naming v when v is not a u64 |
| CmdArgsProperties.WindowSizeArg | src/cmd_args.rs:82-96 | `-window_size:w:h` sets both sizes, checking w before h, and fails naming the first bad token |
| CmdArgsProperties.ClockSpeedCount | src/cmd_args.rs:71-74 | a `-clock_speed` with two values has the wrong token count |
| CmdArgsProperties.UnknownNameRule | src/cmd_args.rs:62-96 | an argument fails with `InvalidArgument(arg)` exactly when its first token is none of the three option names, and that is the only way to get that error |
| CmdArgsProperties.TokenCountRule | src/cmd_args.rs:62-93 | an argument fails with `InvalidArgumentOptionCount(arg)` exactly when it names an option with the wrong token count (1 for `-no_sound`, 2 for `-clock_speed`, 3 for `-window_size`), and every count error is such a case |
| CmdArgsProperties.ParseErrorRule | src/cmd_args.rs:71-93 | every `InvalidArgumentOptionParse` error comes from a known option with the right count, names the whole argument, and carries a value token that does not parse as the option's type |
| CmdArgsProperties.ValidExample | src/cmd_args.rs:111-121 | the valid test arguments give sound off, clock 780 and window 1280 × 640 |
| CmdArgsProperties.UnknownOptionExample | src/cmd_args.rs:125-130 | `-sound` fails as `InvalidArgument("-sound")` |
| CmdArgsProperties.BadNumberExample | src/cmd_args.rs:132-140 | `-window_size:12o0:640` fails as `InvalidArgumentOptionParse` with the value "12o0" |
| CmdArgsProperties.BadCountExample | src/cmd_args.rs:142-147 | `-clock_speed:780:12` fails as `InvalidArgumentOptionCount` |

## Left out

- src/emulator.rs, src/audio.rs and src/main.rs: the SDL window and event loop, frame pacing, the audio callback and process start-up. They hold no emulation logic.
- Opening and reading the ROM file (src/interpreter.rs:120-123): `LoadRom` takes the file's bytes, and I/O errors are not modelled.
- `rand::thread_rng()` in CXNN: the random byte is a parameter `rnd` of `Step`, `Exec` and the methods.
- The `Display` impls of `InterpreterError` and `CommandLineArgError`: they only format text.
- The SDL keycode to `CalicoKey` mapping: only the key ordinals that `handle_event` uses are modelled.
- `str::parse` for u32/u64 is modelled as an optional '+', then one or more ASCII digits, with a value below 2^32 or 2^64. The standard library's code is not part of this model.
- Index panics. An access the source would make out of range (memory at I.., the keypad at V[X], PC past the end of memory) is a precondition: `InBounds`, `CanStep`, `SpriteInMemory`.
- Debug-build overflow panics. The sprite coordinate sums `x_cord + diff_x` and `y_cord + diff_y`, and PC + 2, are modelled with release semantics: u8 sums mod 256, and PC kept within memory by `CanStep`.
- src/interpreter.rs:430: this catch-all arm is unreachable, because the top nibble has only sixteen values and all are matched. The model has no such case.
