# CHIP-8 interpreter core

A Dafny model of the interpreter engine of a small CHIP-8 emulator written in Rust.
The model covers the `Chip8` machine, the older `Cpu` subset, the `Memory` store,
the `Gfx` framebuffer and the `Keypad` table.

The `Chip8` machine has sixteen 8-bit registers V0..VF, a delay timer and a sound
timer, a program counter, a call stack of 16-bit addresses, the index register I,
4096 bytes of memory, a 64 × 32 display of byte cells and sixteen key flags.
`emulate` fetches the big-endian word at `pc` and `execute_op` runs it.
`execute_op` dispatches on the top nibble and updates the machine in place.

Files and modules:

- `bits.dfy` (`Bits`): `u8`/`u16` as integer ranges, the bitwise operators (through `bv8`), and the display cell, a `bv8`.
- `opcode.dfy` (`Opcode`): opcode fields (`nnn`, `x`, `y`, `n`, `kk`) and `fetch_op`.
- `memory.dfy` (`Memory`): the `Memory` class with `get_mem`, `set_mem` and `load_rom`.
- `gfx.dfy` (`Gfx`): the `display` array with `has_pixel`, `set_pixel` and `clear`, plus `SetCell`, a function on screen values.
- `keypad.dfy` (`Keypad`): the keycode table and the `Keypad` class.
- `sprite.dfy` (`Sprite`): the `Dxyn` loops as functions over a (screen, registers) value, and a closed form for them.
- `interpreter.dfy` (`Interpreter`): `Execute`, the effect of one instruction on a `Machine` value, with lemmas for the arms.
- `chip8.dfy` (`Chip8`): the `Chip8` class. Its methods mutate arrays and fields. `ExecuteOp`, `Emulate` and the per-class dispatch methods are proved to match `Execute`; `DrainTimers` against the old machine with both timers at 0; the draw loops `DrawRows`/`DrawRow`/`DrawBit` against `Sprite.RowsDone`/`RowBits`/`BitStep`; the `8xy?` helpers against `ArithRegs`; and `WriteBcd`/`StoreRegisters`/`LoadRegisters` against `Interpreter.Bcd`/`StoreRegisters`/`LoadRegisters`.
- `cpu.dfy` (`Cpu`): the `Cpu` class, its specification `CpuExecute`, and how it relates to `Chip8`.

The model follows the code, not the usual CHIP-8 instruction set. Where the two differ:

- `Bnnn` sets I to `nnn`, exactly as `Annn` does.
- `8xy7` computes `Vx - Vy`, with VF set to `Vy > Vx`.
- `8xy6` and `8xyE` both take VF from the low bit of Vx.
- `Ex9E` and `ExA1` test `key[x]` (the nibble), not `key[Vx]`.
- `Fx55` and `Fx65` move V0..V(x-1) to and from addresses `1..x`. They do not use I.
- `Dxyn` visits 7 bits of each row, does not wrap, and XORs the whole row byte into each visited cell.
- The drawing loop re-reads Vx and Vy for every bit, so a draw with `x` or `y` equal to 0xF sees VF change under it (`Sprite.BitStep`).
- `2nnn` pushes the address of the call itself. A later `00EE` therefore returns to the call instruction, and the call runs again.
- `5xy0`, `Fx0A` and every other undefined pattern leave the machine unchanged, `pc` included.
- The stack has no depth limit.
- The timers are drained to zero once per frame.

Rust's unchecked arithmetic panics on overflow in debug builds, and so does an
out-of-range index. Such an operation becomes a precondition (`Interpreter.CanExecute`,
`Sprite.DrawSafe`):

- the `u8` subtractions of `8xy5`/`8xy7`;
- the doubling in `8xyE`;
- `I + Vx` in `Fx1E`;
- `coordx + j` in `Dxyn` (which the display bound already implies);
- the memory reads of `Dxyn` and the memory writes of `Fx33`;
- popping an empty stack in `00EE`.

The explicit `as u8` casts of `7xkk` and `8xy4` wrap modulo 256.

## Model

| member | source | states |
|---|---|---|
| Bits.BitOr | src/chip8/chip8.rs:181 | the in-place OR of `8xy1`: the bitwise OR of two bytes, through `bv8` |
| Bits.BitAnd | src/chip8/chip8.rs:187 | `Vx &= Vy` of `8xy2`, and `kk & random` of `Cxkk` (line 276): the bitwise AND of two bytes |
| Bits.BitXor | src/chip8/chip8.rs:193 | `Vx ^= Vy` of `8xy3`: the bitwise XOR of two bytes |
| Bits.XorCell | src/driver/gfx.rs:38 | `display[x][y] ^= color`: the cell XORed with the colour byte |
| Bits.LowBitSet | src/chip8/chip8.rs:221 | `Vx & 0x01 == 0x01`, the low-bit test of `8xy6` and `8xyE` (line 242) |
| Bits.SpriteBit | src/chip8/chip8.rs:290 | `pixel & (0x80 >> j) != 0`: bit `j` of a sprite row, counted from the most significant bit |
| Bits.XorCellTwice | src/driver/gfx.rs:37-39 | XOR-ing the same colour into a display cell twice gives back the original cell |
| Opcode.Class | src/chip8/chip8.rs:131 | `opcode & 0xf000`, as the top nibble: below 16 |
| Opcode.X | src/chip8/chip8.rs:140 | `(opcode & 0x0F00) >> 8`: below 16 |
| Opcode.Y | src/chip8/chip8.rs:257 | `(opcode & 0x00F0) >> 4`: below 16 |
| Opcode.N | src/chip8/chip8.rs:171 | `opcode & 0x000F`: below 16 |
| Opcode.Kk | src/chip8/chip8.rs:141 | `(opcode & 0x00FF) as u8`, a byte; `FieldsCompose` proves it is `y·16 + n` |
| Opcode.DecodeOp | src/chip8/chip8.rs:125-127 | the decoded `nnn` is below 0x1000 and, together with the top nibble, rebuilds the opcode |
| Opcode.FieldsCompose | src/chip8/chip8.rs:125-127 | the nibbles rebuild the opcode; `kk` is `y·16 + n` and `nnn` is `x·256 + kk` |
| Opcode.Fetch | src/chip8/chip8.rs:122-124 | the fetched word's high byte is `mem[pc]` and its low byte is `mem[pc+1]` |
| Memory.NonzeroCount | src/chip8/memory.rs:38-44 | the count of nonzero buffer bytes is at most the length, and equals it exactly when no byte is zero |
| Memory.Memory.constructor | src/chip8/memory.rs:13-18 | a new memory holds 4096 zero bytes and `size == 0` |
| Memory.Memory.GetMem | src/chip8/memory.rs:19-21 | returns `mem[i]` and changes nothing; requires `i < 4096` |
| Memory.Memory.SetMem | src/chip8/memory.rs:22-24 | `mem[i]` becomes the value; every other byte keeps its value |
| Memory.Memory.LoadRom | src/chip8/memory.rs:25-45 | the fonts land at `0..|fonts|`; a nonzero byte `b` at buffer index `i` gives `mem[512+i] == b`, a zero byte leaves that cell alone; every other byte keeps its value; `size` grows by the number of nonzero bytes |
| Memory.Memory.CopyFonts | src/chip8/memory.rs:27-29 | the font bytes land at `0..|fonts|`; every byte above them keeps its value |
| Memory.Memory.PlaceProgram | src/chip8/memory.rs:38-44 | each nonzero buffer byte lands at `512 + i`, a zero byte leaves that cell alone, memory below 512 is kept, and `size` grows by the nonzero count |
| Gfx.Blank | src/driver/gfx.rs:31 | a 64 × 32 screen whose cells are all 0 |
| Gfx.SetCell | src/driver/gfx.rs:37-39 | cell `(x, y)` becomes its old value XOR the colour; every other cell keeps its value |
| Gfx.SetCellTwice | src/driver/gfx.rs:37-39 | two identical `set_pixel` calls restore the screen |
| Gfx.BlankHasNoPixel | src/driver/gfx.rs:56-58 | after `clear`, `has_pixel` is false everywhere |
| Gfx.Gfx.Screen | src/driver/gfx.rs:15 | the `display` array as a 64 × 32 screen value, cell for cell |
| Gfx.Gfx.constructor | src/driver/gfx.rs:29-32 | the display starts 64 × 32 and all zero |
| Gfx.Gfx.HasPixel | src/driver/gfx.rs:34-36 | true exactly when the cell is nonzero; changes nothing |
| Gfx.Gfx.SetPixel | src/driver/gfx.rs:37-39 | the new screen is `SetCell` of the old one at `(x, y)` with the colour |
| Gfx.Gfx.Clear | src/driver/gfx.rs:56-58 | the display is replaced by a blank one |
| Keypad.KeyIndex | src/driver/keypad.rs:17-35 | every mapped keycode has an index below 16, and only `Other` has none |
| Keypad.KeyIndexBijective | src/driver/keypad.rs:18-33 | the table is a bijection between the 16 mapped keycodes and the indices 0..15 |
| Keypad.Keypad.constructor | src/driver/keypad.rs:8-12 | all 16 keys start released |
| Keypad.Keypad.IsPressed | src/driver/keypad.rs:13-15 | returns `keys[x]` and changes nothing; requires `x < 16` |
| Keypad.Keypad.Press | src/driver/keypad.rs:16-36 | a mapped keycode sets exactly its own slot to the state; an unmapped one changes nothing |
| Sprite.DrawSafe | src/chip8/chip8.rs:291 | the no-panic condition of the draw: every set bit's cell `(Vx + j, Vy + i)` is on the display (for `x` or `y` equal to 0xF it always is) |
| Sprite.Start | src/chip8/chip8.rs:284 | `VF = 0` before the loops: VF is 0, the other registers and the screen are untouched |
| Sprite.BitStep | src/chip8/chip8.rs:288-296 | one bit of a row, as the loop body runs it: the non-VF registers are kept and VF stays 0 or 1 |
| Sprite.RowBits | src/chip8/chip8.rs:287-297 | bits `0..j` of a row, in order; they keep the same facts |
| Sprite.RowsDone | src/chip8/chip8.rs:285-298 | rows `0..i` of the sprite, in order; they keep the same facts |
| Sprite.Draw | src/chip8/chip8.rs:284-298 | VF is set to 0 first, then the rows are drawn; the other registers are unchanged and VF ends 0 or 1 |
| Sprite.DrawClosedForm | src/chip8/chip8.rs:284-298 | for `x`, `y` other than 0xF: VF is 1 exactly when a visited cell held 1 and the other registers are unchanged; the screen is `Toggled`: each visited cell is XORed with its row byte and the other cells are unchanged |
| Sprite.DrawTwiceRestores | src/chip8/chip8.rs:284-298 | for `x`, `y` other than 0xF: drawing the same sprite twice restores the screen |
| Interpreter.ArithSafe | src/chip8/chip8.rs:216 | the no-panic condition of `8xy5`, `8xy7` (line 237) and `8xyE` (line 247): after the flag write, `Vx >= Vy` for the subtractions and `2·Vx < 256` for the doubling |
| Interpreter.RowsInMemory | src/chip8/chip8.rs:286 | the bytes `I..I+n` that `Dxyn` reads lie in memory (nothing is read when `n == 0`) |
| Interpreter.CanExecute | src/chip8/chip8.rs:128-396 | the no-panic condition of one instruction: a nonempty stack for `00EE` (line 381), `ArithSafe` for `8xy?`, `RowsInMemory` and `DrawSafe` for `Dxyn`, `I + 2 < 4096` for `Fx33` (lines 349-351), and no `u16` overflow of `I + Vx` for `Fx1E` (line 370) |
| Interpreter.Bcd | src/chip8/chip8.rs:349-351 | the memory after the three `Fx33` writes, of the same length; `BcdDigits` proves their digits and the frame |
| Interpreter.StoreRegisters | src/chip8/chip8.rs:356-358 | the memory after the `Fx55` loop, 4096 bytes; `StoreRegistersEffect` proves which bytes change |
| Interpreter.LoadRegisters | src/chip8/chip8.rs:363-365 | the registers after the `Fx65` loop, sixteen of them; `LoadRegistersEffect` proves which change |
| Interpreter.Flagged | src/chip8/chip8.rs:200-204 | the registers after an ALU arm's VF write (here and at lines 211-215, 221-225, 232-236, 242-246), before Vx is written |
| Interpreter.SpriteBytes | src/chip8/chip8.rs:285-286 | row `k` of the sprite is `mem[I + k]`, for `k < n` |
| Interpreter.ArithRegs | src/chip8/chip8.rs:170-254 | the `8xy?` register update keeps all sixteen registers |
| Interpreter.ExecuteArith | src/chip8/chip8.rs:170-254 | the `0x8000` arms change only the registers and `pc`; `pc` advances by 2 exactly for a defined pattern, and an undefined one (lines 250-252) leaves the registers as well |
| Interpreter.ExecuteDraw | src/chip8/chip8.rs:279-305 | `Dxyn` changes only the screen, the registers and `pc`, which advances by 2 |
| Interpreter.ExecuteKeySkip | src/chip8/chip8.rs:306-324 | the `0xE000` arms change only `pc`: `Ex9E`/`ExA1` move it by 2 or 4, and any other pattern (line 322) changes nothing |
| Interpreter.ExecuteMisc | src/chip8/chip8.rs:325-377 | the `0xF000` arms leave the screen, the stack and the keys alone; each of the eight defined arms advances `pc` by 2, and any other pattern (lines 373-375) changes nothing |
| Interpreter.Execute | src/chip8/chip8.rs:128-396 | one instruction keeps the machine well formed and never changes the keys |
| Interpreter.AddImmediate | src/chip8/chip8.rs:160-169 | `7xkk`: `Vx := (Vx + kk) mod 256`; the other registers (VF too) are unchanged; `pc += 2`; nothing else changes |
| Interpreter.AddRegisters | src/chip8/chip8.rs:196-207 | `8xy4`: Vx is the sum mod 256; for `x ≠ F`, VF is 1 exactly when the sum exceeds 255; the other registers are unchanged; `pc += 2` |
| Interpreter.SubtractRegisters | src/chip8/chip8.rs:208-218 | `8xy5`: Vx loses Vy; VF is 1 exactly when `Vx > Vy`; the other 14 registers keep their values; `pc += 2`; nothing else changes |
| Interpreter.SkipAdvance | src/chip8/chip8.rs:139-154 | `3xkk`, `4xkk` here, `9xy0` at lines 255-262, `Ex9E`/`ExA1` at lines 306-321: `pc` moves by 4 when the condition holds and by 2 otherwise; nothing else changes |
| Interpreter.CallThenReturn | src/chip8/chip8.rs:135-138 | for `pc` below 0x10000 (the push truncates with `as u16`): `2nnn` jumps to `nnn` and pushes its own `pc`; a following `00EE` (lines 380-382) can run and restores the machine before the call, `pc` included |
| Interpreter.SetIndex | src/chip8/chip8.rs:263-270 | `Annn` and `Bnnn` set I to `nnn` and `pc += 2`; nothing else changes |
| Interpreter.ClearScreen | src/chip8/chip8.rs:383-386 | `00E0` zeroes every cell and `pc += 2`; nothing else changes |
| Interpreter.BcdDigits | src/chip8/chip8.rs:347-353 | `Fx33`: three digits below 10 at I, I+1 and I+2 with `100a + 10b + c == Vx`; no other byte changes; `pc += 2` |
| Interpreter.StoreRegistersEffect | src/chip8/chip8.rs:354-360 | `Fx55`: `mem[i+1] == Vi` for `i < x`; the other bytes are unchanged; `pc += 2` |
| Interpreter.LoadRegistersEffect | src/chip8/chip8.rs:361-367 | `Fx65`: `Vi == mem[i+1]` for `i < x`; registers `x..15` are unchanged; `pc += 2` |
| Interpreter.Recognised | src/chip8/chip8.rs:131-395 | the opcodes `execute_op` has an arm for: `00E0`, `00EE`, classes 1-4, 6, 7, 9, A-D, the nine `8xy?` patterns, `Ex9E`/`ExA1` and the eight `Fx??` patterns |
| Interpreter.UnrecognisedIsNoOp | src/chip8/chip8.rs:387-394 | every opcode without an arm (the fall-through arms here and at lines 250-252, 322 and 373-375) can run and leaves the whole machine unchanged, `pc` included |
| Interpreter.DrawFlag | src/chip8/chip8.rs:279-305 | `Dxyn`, for `x`, `y` other than 0xF: VF is 1 exactly when a visited cell held 1; the other registers are unchanged |
| Interpreter.DrawScreen | src/chip8/chip8.rs:279-305 | `Dxyn`, for `x`, `y` other than 0xF: each visited cell is XORed with its row byte and the other cells are unchanged |
| Interpreter.DrawFrame | src/chip8/chip8.rs:279-305 | `Dxyn`, for any `x`, `y`: only the screen and the registers change, memory included, and `pc += 2` |
| Interpreter.DrawTwice | src/chip8/chip8.rs:279-305 | running the same `Dxyn` twice restores the screen |
| Chip8.Chip8.Abs | src/chip8/chip8.rs:14-27 | the non-SDL fields as a well-formed `Machine` value |
| Chip8.Chip8.constructor | src/chip8/chip8.rs:30-47 | zero registers and timers, `pc == 0x200`, empty stack, I == 0, zero memory, blank display, no key down |
| Chip8.Chip8.FetchOp | src/chip8/chip8.rs:122-124 | returns `Fetch(mem, pc)` without changing anything |
| Chip8.Chip8.Emulate | src/chip8/chip8.rs:118-121 | the new machine is `Execute` of the old one, applied to the word fetched at the old `pc` |
| Chip8.Chip8.DrainTimers | src/chip8/chip8.rs:108-113 | both timers end at 0; nothing else changes |
| Chip8.Chip8.ExecuteOp | src/chip8/chip8.rs:128-396 | the new machine is `Execute` of the old machine and the opcode |
| Chip8.Chip8.ExecuteFlow | src/chip8/chip8.rs:132-138 | `1nnn`, `2nnn`, and (lines 378-391) `00EE`, `00E0` and the other `0nnn` no-ops update the fields as `Execute` says |
| Chip8.Chip8.ExecuteSkip | src/chip8/chip8.rs:139-154 | `3xkk`, `4xkk`, `9xy0`, `Ex9E`, `ExA1` update `pc` as `Execute` says |
| Chip8.Chip8.KeySkip | src/chip8/chip8.rs:306-324 | `Ex9E`/`ExA1` move `pc` as `Execute` says (an unknown `Ex??` changes nothing) |
| Chip8.Chip8.ExecuteLoad | src/chip8/chip8.rs:155-169 | `6xkk`, `7xkk` here and `Annn`, `Bnnn`, `Cxkk` at lines 263-278 update the fields as `Execute` says |
| Chip8.Chip8.LoadRegister | src/chip8/chip8.rs:155-169 | `6xkk`, `7xkk` here and `Cxkk` at lines 271-278 update Vx and `pc` as `Execute` says |
| Chip8.Chip8.ExecuteArith | src/chip8/chip8.rs:170-254 | a defined `8xy?` leaves the registers as `ArithRegs` says and sets `pc += 2`; an undefined one changes nothing |
| Chip8.Chip8.ArithArms | src/chip8/chip8.rs:171-249 | a defined `8xy?` leaves the registers as `ArithRegs` says; `pc += 2` |
| Chip8.Chip8.LogicArms | src/chip8/chip8.rs:172-195 | `8xy0`..`8xy3` leave the registers as `ArithRegs` says; `pc += 2` |
| Chip8.Chip8.AddSubArms | src/chip8/chip8.rs:196-218 | `8xy4`, `8xy5` (and `8xy7`, lines 229-239) leave the registers as `ArithRegs` says; `pc += 2` |
| Chip8.Chip8.ShiftArms | src/chip8/chip8.rs:219-228 | `8xy6` (and `8xyE`, lines 240-249) leave the registers as `ArithRegs` says; `pc += 2` |
| Chip8.Chip8.ExecuteDraw | src/chip8/chip8.rs:279-305 | `Dxyn` updates the machine as `Execute` says |
| Chip8.Chip8.DrawSprite | src/chip8/chip8.rs:280-298 | the display and registers end as `Sprite.Draw` of the old ones and the `n` bytes at I says; `pc += 2` |
| Chip8.Chip8.DrawRows | src/chip8/chip8.rs:285-298 | the outer loop leaves the screen and registers as `Sprite.RowsDone` says |
| Chip8.Chip8.DrawRow | src/chip8/chip8.rs:287-297 | one pass of the outer loop leaves the screen and registers as `Sprite.RowBits` says |
| Chip8.Chip8.DrawBit | src/chip8/chip8.rs:288-296 | one pass of the inner loop changes the screen and registers as `Sprite.BitStep` says |
| Chip8.Chip8.ExecuteMisc | src/chip8/chip8.rs:325-377 | the `Fx??` arms update the machine as `Execute` says |
| Chip8.Chip8.TimerArms | src/chip8/chip8.rs:327-341 | `Fx07`, `Fx15`, `Fx18` update the machine as `Execute` says |
| Chip8.Chip8.IndexArms | src/chip8/chip8.rs:342-346 | `Fx29` (and `Fx1E`, lines 368-372) update the machine as `Execute` says |
| Chip8.Chip8.MemoryArms | src/chip8/chip8.rs:347-367 | `Fx33`, `Fx55`, `Fx65` update the machine as `Execute` says |
| Chip8.Chip8.WriteBcd | src/chip8/chip8.rs:349-351 | memory becomes `Interpreter.Bcd` of the old memory at I and Vx |
| Chip8.Chip8.StoreRegisters | src/chip8/chip8.rs:356-358 | memory becomes `Interpreter.StoreRegisters` of the old memory |
| Chip8.Chip8.LoadRegisters | src/chip8/chip8.rs:363-365 | the registers become `Interpreter.LoadRegisters` of the old registers |
| Cpu.CpuCanExecute | src/chip8/cpu.rs:55 | the no-panic condition of `Cpu::execute_op`: `00EE` needs a nonempty stack for its `unwrap` |
| Cpu.CpuRecognised | src/chip8/cpu.rs:38-61 | the opcodes `Cpu::execute_op` has an arm for: `Annn`, `2nnn`, `6xkk`, `00EE` |
| Cpu.CpuExecute | src/chip8/cpu.rs:35-62 | `execute_op` keeps all sixteen registers and never touches the timers |
| Cpu.CpuUnrecognisedIsNoOp | src/chip8/cpu.rs:57-60 | any opcode other than `Annn`, `2nnn`, `6xkk`, `00EE` leaves the state unchanged, `pc` included |
| Cpu.CpuLoads | src/chip8/cpu.rs:39-51 | `Annn` sets I to `nnn`; `6xkk` sets Vx to `kk` and leaves the other registers alone; both do `pc += 2`; the stack is unchanged |
| Cpu.CpuCallThenReturn | src/chip8/cpu.rs:43-56 | for `pc` below 0x10000 (the push truncates with `as u16`): `2nnn` then `00EE` restores the state before the call, `pc` included |
| Cpu.Project | src/chip8/cpu.rs:3-10 | the `Cpu` fields of a `Chip8` machine |
| Cpu.CpuAgreesWithChip8 | src/chip8/cpu.rs:35-62 | on the four opcodes `Cpu` decodes, it changes its fields exactly as `Chip8` does |
| Cpu.Cpu.Abs | src/chip8/cpu.rs:3-10 | the six fields as a well-formed `CpuState` |
| Cpu.Cpu.constructor | src/chip8/cpu.rs:13-22 | zero registers and timers, `pc == 0x200`, an empty stack, I == 0 |
| Cpu.Cpu.FetchOp | src/chip8/cpu.rs:28-31 | returns the big-endian word at `pc` of the given memory |
| Cpu.Cpu.ExecuteOp | src/chip8/cpu.rs:35-62 | the new state is `CpuExecute` of the old state and the opcode |
| Cpu.Cpu.Emulate | src/chip8/cpu.rs:23-27 | the memory is left unchanged, and the new state is `CpuExecute` of the word fetched at the old `pc` |

## Left out

- The SDL context, the `EventPump`, and the SDL fields of `Chip8::new`: they are foreign library handles.
- The event loop of `run`, its host-key mapping (`Num0`..`Num5`, the escape key) and `thread::sleep`: they are I/O and timing. The timer loops of `run` are `Chip8.Chip8.DrainTimers`.
- `init` and the file handling in `load_rom` (`File::open`, `expect`, the partial `read`): file I/O. `LoadRom` takes the 3584-byte buffer as its input.
- The `FONTS` table: its contents are not part of this model. `LoadRom` takes it as a parameter of at most 0x200 bytes.
- `rand::thread_rng` in `Cxkk`: randomness. The drawn byte, below 255 as `gen_range(0, 255)` gives, is a parameter.
- `Gfx::new`'s window and renderer, `draw_screen`, `color`, and the `draw_screen` call and result match inside `Dxyn`: they only render.
- The `fmt::Display` impls and all `println!` logging: they only format output.
- `src/driver/audio.rs`, `src/main.rs` and the `mod.rs` files: audio device, host loop and module declarations.
- The build-level inconsistencies between files (private `display` used from `chip8.rs`, the missing `gfx.update`, the `draw_screen` result match): they do not change behaviour.
- `pc` overflow: `pc` is a `usize`, so it is modelled as an unbounded `nat`. The push in `2nnn` keeps its `as u16` truncation (`pc % 0x10000`).
- The opcode masks and shifts are written as division and remainder by powers of 16. `FieldsCompose` proves they split the opcode.
- Ownership: Rust guarantees that the `Chip8`/`Cpu` register array and the memory are distinct objects. The model states this as `registers != mem.mem`.
- Interpreter.DrawFlag: states the closed form only when `x` and `y` are not 0xF. Otherwise VF changes during the loop, and `Sprite.Draw` gives the step-by-step meaning.
- Interpreter.SubtractRegisters: states its result only when `x` and `y` are not 0xF. Otherwise the flag write changes an operand, and `Interpreter.ArithRegs` gives the meaning.
- Interpreter.DrawScreen: stated only when `x` and `y` are not 0xF, for the same reason.
- Sprite.DrawClosedForm: states the closed form only when `x` and `y` are not 0xF. Otherwise the bits read VF as a coordinate while the draw changes it, and `Sprite.Draw` gives the step-by-step meaning.
- Sprite.DrawTwiceRestores: stated only when `x` and `y` are not 0xF. With `x` or `y` equal to 0xF the second draw can hit other cells than the first: in `DF01` with all registers 0, row byte 0xC0 and cell (0, 0) holding 1, the first draw raises VF and its second bit lands in column 2, while the second draw starts from VF = 0 and puts that bit in column 1. The screen is then not restored.
- Interpreter.DrawTwice: stated only when `x` and `y` are not 0xF, for the same reason.
- Interpreter.AddRegisters: states the carry in VF only when `x` is not 0xF. Otherwise the sum overwrites the carry.
