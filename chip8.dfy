/** The `Chip8` machine of `src/chip8/chip8.rs` (its non-SDL fields), updated in place.
    `ExecuteOp`, `Emulate` and the per-class dispatch methods are proved to change the
    fields as `Interpreter.Execute` says; `DrainTimers` against the old machine with both
    timers at 0; the draw loops `DrawRows`/`DrawRow`/`DrawBit` against `Sprite.RowsDone`/
    `RowBits`/`BitStep`; the `8xy?` helpers against `ArithRegs`; and `WriteBcd`/
    `StoreRegisters`/`LoadRegisters` against `Interpreter.Bcd`/`StoreRegisters`/`LoadRegisters`. */
module Chip8 {
  import opened Bits
  import opened Opcode
  import opened Sprite
  import opened Interpreter
  import Gfx
  import Memory
  import Keypad

  class Chip8 {
    var registers: array<Byte>
    var delayTimer: Byte
    var soundTimer: Byte
    var pc: nat
    var stack: seq<Word>
    var mem: Memory.Memory
    var gfx: Gfx.Gfx
    var indexRegister: Word
    var key: array<bool>

    ghost predicate Valid()
      reads this, mem, gfx
    {
      registers.Length == RegisterCount && key.Length == Keypad.KeyCount &&
      mem.Valid() && gfx.Valid() && registers != mem.mem
    }

    /** The plain fields of `Chip8::new`: zero registers and timers, `pc == 0x200`, an
        empty stack, I == 0, zeroed memory, a blank display and no key down. */
    constructor ()
      ensures Valid() && fresh(registers) && fresh(key) && fresh(mem) && fresh(mem.mem)
      ensures fresh(gfx) && fresh(gfx.display)
      ensures Abs() == Machine(seq(RegisterCount, _ => 0), 0, 0, 0x200, [], 0,
                               seq(Memory.MemorySize, _ => 0), Gfx.Blank(), seq(Keypad.KeyCount, _ => false))
    {
      registers := new Byte[RegisterCount](_ => 0);
      delayTimer, soundTimer := 0, 0;
      pc := 0x200;
      stack := [];
      indexRegister := 0;
      mem := new Memory.Memory();
      gfx := new Gfx.Gfx();
      key := new bool[Keypad.KeyCount](_ => false);
      new;
      assert registers[..] == seq(RegisterCount, _ => 0);
      assert mem.mem[..] == seq(Memory.MemorySize, _ => 0);
      assert key[..] == seq(Keypad.KeyCount, _ => false);
    }

    /** The machine value the fields hold. */
    ghost function Abs(): (m: Machine)
      reads this, registers, mem, mem.mem, gfx, gfx.display, key
      requires Valid()
      ensures WellFormed(m)
    {
      Machine(registers[..], delayTimer, soundTimer, pc, stack, indexRegister,
              mem.mem[..], gfx.Screen(), key[..])
    }

    /** `fetch_op`: a read of the big-endian word at `pc`. */
    method FetchOp() returns (op: Word)
      requires Valid() && pc + 1 < Memory.MemorySize
      ensures op == Fetch(mem.mem[..], pc)
    {
      op := mem.mem[pc] as int * 0x100 + mem.mem[pc + 1] as int;
    }

    /** `emulate`: fetch the word at `pc`, then execute it. */
    method Emulate(rnd: RandomByte)
      requires Valid() && pc + 1 < Memory.MemorySize && CanExecute(Abs(), Fetch(mem.mem[..], pc))
      modifies this`pc, this`stack, this`indexRegister, this`delayTimer, this`soundTimer
      modifies registers, mem.mem, gfx, gfx.display
      ensures Valid()
      ensures Abs() == Execute(old(Abs()), Fetch(old(mem.mem[..]), old(pc)), rnd)
    {
      var opcode := FetchOp();
      ExecuteOp(opcode, rnd);
    }

    /** The timer loops of `run`: each timer is counted down to 0 in one frame. */
    method DrainTimers()
      requires Valid()
      modifies this`delayTimer, this`soundTimer
      ensures Valid()
      ensures Abs() == old(Abs()).(delay := 0, sound := 0)
    {
      while delayTimer > 0
        decreases delayTimer
      {
        delayTimer := delayTimer - 1;
      }
      while soundTimer > 0
        invariant delayTimer == 0
        decreases soundTimer
      {
        soundTimer := soundTimer - 1;
      }
    }

    /** `execute_op`: dispatch on `opcode & 0xf000`; `rnd` is the byte `Cxkk` draws. */
    method ExecuteOp(opcode: Word, rnd: RandomByte)
      requires Valid() && CanExecute(Abs(), opcode)
      modifies this`pc, this`stack, this`indexRegister, this`delayTimer, this`soundTimer
      modifies registers, mem.mem, gfx, gfx.display
      ensures Valid()
      ensures Abs() == Execute(old(Abs()), opcode, rnd)
    {
      match Class(opcode)
      case 0x0 | 0x1 | 0x2 =>
        ExecuteFlow(opcode, rnd);
      case 0x3 | 0x4 | 0x9 | 0xE =>
        ExecuteSkip(opcode, rnd);
      case 0x6 | 0x7 | 0xA | 0xB | 0xC =>
        ExecuteLoad(opcode, rnd);
      case 0x8 =>
        ExecuteArith(opcode, rnd);
      case 0xD =>
        ExecuteDraw(opcode, rnd);
      case 0xF =>
        ExecuteMisc(opcode);
      case _ =>
    }

    /** The arms that move `pc` by jumping: `00EE`, `00E0`, `1nnn`, `2nnn`. */
    method ExecuteFlow(opcode: Word, rnd: RandomByte)
      requires Valid() && CanExecute(Abs(), opcode) && Class(opcode) in {0x0, 0x1, 0x2}
      modifies this`pc, this`stack, gfx
      ensures Valid()
      ensures Abs() == Execute(old(Abs()), opcode, rnd)
    {
      var decoded := DecodeOp(opcode);
      match Class(opcode)
      case 0x1 =>
        pc := decoded;
      case 0x2 =>
        stack := stack + [pc % 0x1_0000];
        pc := decoded;
      case 0x0 =>
        if opcode == 0x00EE {
          pc := stack[|stack| - 1];
          stack := stack[..|stack| - 1];
        } else if opcode == 0x00E0 {
          gfx.Clear();
          pc := pc + 2;
        }
    }

    /** The conditional skips: `3xkk`, `4xkk`, `9xy0`, `Ex9E`, `ExA1`. */
    method ExecuteSkip(opcode: Word, rnd: RandomByte)
      requires Valid() && CanExecute(Abs(), opcode) && Class(opcode) in {0x3, 0x4, 0x9, 0xE}
      modifies this`pc
      ensures Valid()
      ensures Abs() == Execute(old(Abs()), opcode, rnd)
    {
      var x, kk := X(opcode), Kk(opcode);
      match Class(opcode)
      case 0x3 =>
        pc := pc + if registers[x] == kk then 4 else 2;
      case 0x4 =>
        pc := pc + if registers[x] != kk then 4 else 2;
      case 0x9 =>
        pc := pc + if registers[x] != registers[Y(opcode)] then 4 else 2;
      case 0xE =>
        KeySkip(opcode, rnd);
    }

    /** `Ex9E`, `ExA1`: skip when `key[x]`, indexed by the nibble `x` and not by Vx, is (is not) down. */
    method KeySkip(opcode: Word, rnd: RandomByte)
      requires Valid() && CanExecute(Abs(), opcode) && Class(opcode) == 0xE
      modifies this`pc
      ensures Valid()
      ensures Abs() == Execute(old(Abs()), opcode, rnd)
    {
      ExecuteIsKeySkip(Abs(), opcode, rnd);
      var x, kk := X(opcode), Kk(opcode);
      if kk == 0x9E {
        pc := pc + 2;
        if key[x] {
          pc := pc + 2;
        }
      } else if kk == 0xA1 {
        pc := pc + 2;
        if !key[x] {
          pc := pc + 2;
        }
      }
    }

    /** The loads: `6xkk`, `7xkk`, `Annn`, `Bnnn`, `Cxkk`. */
    method ExecuteLoad(opcode: Word, rnd: RandomByte)
      requires Valid() && CanExecute(Abs(), opcode) && Class(opcode) in {0x6, 0x7, 0xA, 0xB, 0xC}
      modifies this`pc, this`indexRegister, registers
      ensures Valid()
      ensures Abs() == Execute(old(Abs()), opcode, rnd)
    {
      if Class(opcode) in {0xA, 0xB} {
        indexRegister := DecodeOp(opcode);
        pc := pc + 2;
      } else {
        LoadRegister(opcode, rnd);
      }
    }

    /** `6xkk`, `7xkk`, `Cxkk`: Vx gets kk, Vx + kk wrapped to a byte, or `rnd & kk`. */
    method LoadRegister(opcode: Word, rnd: RandomByte)
      requires Valid() && CanExecute(Abs(), opcode) && Class(opcode) in {0x6, 0x7, 0xC}
      modifies this`pc, registers
      ensures Valid()
      ensures Abs() == Execute(old(Abs()), opcode, rnd)
    {
      var x, kk := X(opcode), Kk(opcode);
      match Class(opcode)
      case 0x6 =>
        registers[x] := kk;
        pc := pc + 2;
      case 0x7 =>
        var result := registers[x] as int + kk as int;
        registers[x] := result % 0x100;
        pc := pc + 2;
      case 0xC =>
        registers[x] := BitAnd(kk, rnd);
        pc := pc + 2;
    }

    /** The `0x8000` arms. */
    method ExecuteArith(opcode: Word, rnd: RandomByte)
      requires Valid() && CanExecute(Abs(), opcode) && Class(opcode) == 0x8
      modifies this`pc, registers
      ensures Valid()
      ensures Abs() == Execute(old(Abs()), opcode, rnd)
    {
      ExecuteIsArith(Abs(), opcode, rnd);
      if ArithDefined(opcode) {
        ArithArms(opcode);
      }
    }

    /** The defined `8xy?` arms, on the registers and `pc` alone. */
    method ArithArms(opcode: Word)
      requires registers.Length == RegisterCount && Class(opcode) == 0x8 && ArithDefined(opcode)
      requires ArithSafe(registers[..], opcode)
      modifies this`pc, registers
      ensures registers[..] == ArithRegs(old(registers[..]), opcode) && pc == old(pc) + 2
    {
      match N(opcode)
      case 0x0 | 0x1 | 0x2 | 0x3 =>
        LogicArms(opcode);
      case 0x4 | 0x5 | 0x7 =>
        AddSubArms(opcode);
      case 0x6 | 0xE =>
        ShiftArms(opcode);
    }

    /** `8xy0`..`8xy3`: copy, OR, AND, XOR into Vx. */
    method LogicArms(opcode: Word)
      requires registers.Length == RegisterCount && Class(opcode) == 0x8 && N(opcode) <= 0x3
      modifies this`pc, registers
      ensures registers[..] == ArithRegs(old(registers[..]), opcode) && pc == old(pc) + 2
    {
      var x, y := X(opcode), Y(opcode);
      ghost var regs := registers[..];
      match N(opcode)
      case 0x0 =>
        registers[x] := registers[y];
        pc := pc + 2;
        assert registers[..] == regs[x := regs[y]];
      case 0x1 =>
        registers[x] := BitOr(registers[x], registers[y]);
        pc := pc + 2;
        assert registers[..] == regs[x := BitOr(regs[x], regs[y])];
      case 0x2 =>
        registers[x] := BitAnd(registers[x], registers[y]);
        pc := pc + 2;
        assert registers[..] == regs[x := BitAnd(regs[x], regs[y])];
      case 0x3 =>
        registers[x] := BitXor(registers[x], registers[y]);
        pc := pc + 2;
        assert registers[..] == regs[x := BitXor(regs[x], regs[y])];
    }

    /** `8xy4`, `8xy5`, `8xy7`: add or subtract, VF set first from the operands. */
    method AddSubArms(opcode: Word)
      requires registers.Length == RegisterCount && Class(opcode) == 0x8 && N(opcode) in {0x4, 0x5, 0x7}
      requires ArithSafe(registers[..], opcode)
      modifies this`pc, registers
      ensures registers[..] == ArithRegs(old(registers[..]), opcode) && pc == old(pc) + 2
    {
      var x, y := X(opcode), Y(opcode);
      ghost var regs := registers[..];
      match N(opcode)
      case 0x4 =>
        var r := registers[x] as int + registers[y] as int;
        registers[VF] := if r > 0xFF then 1 else 0;
        registers[x] := r % 0x100;
        pc := pc + 2;
        assert registers[..] == Flagged(regs, r > 0xFF)[x := r % 0x100];
      case 0x5 =>
        registers[VF] := if registers[x] > registers[y] then 1 else 0;
        ghost var f := registers[..];
        assert f == Flagged(regs, regs[x] > regs[y]);
        registers[x] := registers[x] - registers[y];
        pc := pc + 2;
        assert registers[..] == f[x := f[x] - f[y]];
      case 0x7 =>
        registers[VF] := if registers[y] > registers[x] then 1 else 0;
        ghost var f := registers[..];
        assert f == Flagged(regs, regs[y] > regs[x]);
        registers[x] := registers[x] - registers[y];
        pc := pc + 2;
        assert registers[..] == f[x := f[x] - f[y]];
    }

    /** `8xy6`, `8xyE`: shift Vx, VF set first from its low bit. */
    method ShiftArms(opcode: Word)
      requires registers.Length == RegisterCount && Class(opcode) == 0x8 && N(opcode) in {0x6, 0xE}
      requires ArithSafe(registers[..], opcode)
      modifies this`pc, registers
      ensures registers[..] == ArithRegs(old(registers[..]), opcode) && pc == old(pc) + 2
    {
      var x := X(opcode);
      ghost var regs := registers[..];
      registers[VF] := if LowBitSet(registers[x]) then 1 else 0;
      ghost var f := registers[..];
      assert f == Flagged(regs, LowBitSet(regs[x]));
      if N(opcode) == 0x6 {
        registers[x] := registers[x] / 2;
        pc := pc + 2;
        assert registers[..] == f[x := f[x] / 2];
      } else {
        registers[x] := registers[x] * 2;
        pc := pc + 2;
        assert registers[..] == f[x := f[x] * 2];
      }
    }

    /** The `0xD000` arm. */
    method ExecuteDraw(opcode: Word, rnd: RandomByte)
      requires Valid() && CanExecute(Abs(), opcode) && Class(opcode) == 0xD
      modifies this`pc, registers, gfx.display
      ensures Valid()
      ensures Abs() == Execute(old(Abs()), opcode, rnd)
    {
      DrawSprite(X(opcode), Y(opcode), N(opcode));
    }

    /** `Dxyn`: rows `0..n` of the sprite at I, bits `0..7` of each row. */
    method DrawSprite(x: nat, y: nat, n: nat)
      requires registers.Length == RegisterCount && mem.Valid() && gfx.Valid() && registers != mem.mem
      requires x < RegisterCount && y < RegisterCount && n < 0x10 && (n == 0 || indexRegister + n <= Memory.MemorySize)
      requires DrawSafe(registers[..], x, y, SpriteBytes(mem.mem[..], indexRegister, n))
      modifies this`pc, registers, gfx.display
      ensures var d := Draw(old(gfx.Screen()), old(registers[..]), x, y, old(SpriteBytes(mem.mem[..], indexRegister, n)));
        gfx.Screen() == d.screen && registers[..] == d.regs && pc == old(pc) + 2
    {
      ghost var regs0 := registers[..];
      ghost var rows := SpriteBytes(mem.mem[..], indexRegister, n);
      registers[VF] := 0;
      assert DrawState(gfx.Screen(), registers[..]) == Start(old(gfx.Screen()), regs0);
      DrawRows(registers, gfx, mem.mem, indexRegister, x, y, n, regs0, rows);
      pc := pc + 2;
    }

    /** The outer `Dxyn` loop: rows `0..n`, read from memory at `base`. */
    static method DrawRows(regs: array<Byte>, g: Gfx.Gfx, mem: array<Byte>, base: nat, x: nat, y: nat, n: nat,
                           ghost regs0: seq<Byte>, ghost rows: seq<Byte>)
      requires regs.Length == RegisterCount && g.Valid() && regs != mem
      requires Args(regs0, x, y, rows) && |rows| == n && (n == 0 || base + n <= mem.Length)
      requires forall k :: 0 <= k < n ==> mem[base + k] == rows[k]
      requires Keeps(DrawState(g.Screen(), regs[..]), regs0)
      modifies regs, g.display
      ensures DrawState(g.Screen(), regs[..]) == RowsDone(old(DrawState(g.Screen(), regs[..])), regs0, x, y, rows, n)
    {
      ghost var st0 := DrawState(g.Screen(), regs[..]);
      for i := 0 to n
        invariant DrawState(g.Screen(), regs[..]) == RowsDone(st0, regs0, x, y, rows, i)
      {
        var pixel := mem[base + i];
        DrawRow(regs, g, x, y, i, pixel, regs0, rows);
      }
    }

    /** The inner `Dxyn` loop: bits `0..7` of row `i`. */
    static method DrawRow(regs: array<Byte>, g: Gfx.Gfx, x: nat, y: nat, i: nat, pixel: Byte,
                          ghost regs0: seq<Byte>, ghost rows: seq<Byte>)
      requires regs.Length == RegisterCount && g.Valid()
      requires Args(regs0, x, y, rows) && i < |rows| && pixel == rows[i]
      requires Keeps(DrawState(g.Screen(), regs[..]), regs0)
      modifies regs, g.display
      ensures DrawState(g.Screen(), regs[..]) == RowBits(old(DrawState(g.Screen(), regs[..])), regs0, x, y, rows, i, BitsPerRow)
    {
      ghost var rowStart := DrawState(g.Screen(), regs[..]);
      for j := 0 to BitsPerRow
        invariant DrawState(g.Screen(), regs[..]) == RowBits(rowStart, regs0, x, y, rows, i, j)
      {
        DrawBit(regs, g, x, y, i, j, pixel, regs0, rows);
      }
    }

    /** One pass of the inner `Dxyn` loop: bit `j` of row `i`, read with the current V[x], V[y]. */
    static method DrawBit(regs: array<Byte>, g: Gfx.Gfx, x: nat, y: nat, i: nat, j: nat, pixel: Byte,
                          ghost regs0: seq<Byte>, ghost rows: seq<Byte>)
      requires regs.Length == RegisterCount && g.Valid()
      requires Args(regs0, x, y, rows) && i < |rows| && j < BitsPerRow && pixel == rows[i]
      requires Keeps(DrawState(g.Screen(), regs[..]), regs0)
      modifies regs, g.display
      ensures DrawState(g.Screen(), regs[..]) == BitStep(old(DrawState(g.Screen(), regs[..])), regs0, x, y, rows, i, j)
    {
      ghost var before := DrawState(g.Screen(), regs[..]);
      var coordx := regs[x];
      var coordy := regs[y];
      if SpriteBit(pixel, j) {
        StepInBounds(before, regs0, x, y, rows, i, j);
        if g.display[coordx + j, coordy + i] == 1 {
          regs[VF] := 1;
        }
        ghost var flagged := regs[..];
        assert flagged == if before.screen[coordx + j][coordy + i] == 1 then before.regs[VF := 1] else before.regs;
        assert g.Screen() == before.screen;
        g.SetPixel(coordx + j, coordy + i, pixel);
      }
    }

    /** The `0xF000` arms. */
    method ExecuteMisc(opcode: Word)
      requires Valid() && Class(opcode) == 0xF && CanExecute(Abs(), opcode)
      modifies this`pc, this`indexRegister, this`delayTimer, this`soundTimer, registers, mem.mem
      ensures Valid()
      ensures Abs() == Interpreter.ExecuteMisc(old(Abs()), opcode)
    {
      match Kk(opcode)
      case 0x07 | 0x15 | 0x18 =>
        TimerArms(opcode);
      case 0x29 | 0x1E =>
        IndexArms(opcode);
      case 0x33 | 0x55 | 0x65 =>
        MemoryArms(opcode);
      case _ =>
    }

    /** `Fx07`, `Fx15`, `Fx18`: moves between Vx and the timers. */
    method TimerArms(opcode: Word)
      requires Valid() && Class(opcode) == 0xF && Kk(opcode) in {0x07, 0x15, 0x18}
      modifies this`pc, this`delayTimer, this`soundTimer, registers
      ensures Valid()
      ensures Abs() == Interpreter.ExecuteMisc(old(Abs()), opcode)
    {
      var x := X(opcode);
      match Kk(opcode)
      case 0x07 =>
        registers[x] := delayTimer;
        pc := pc + 2;
      case 0x15 =>
        delayTimer := registers[x];
        pc := pc + 2;
      case 0x18 =>
        soundTimer := registers[x];
        pc := pc + 2;
    }

    /** `Fx29`, `Fx1E`: writes to I. */
    method IndexArms(opcode: Word)
      requires Valid() && Class(opcode) == 0xF && Kk(opcode) in {0x29, 0x1E} && CanExecute(Abs(), opcode)
      modifies this`pc, this`indexRegister
      ensures Valid()
      ensures Abs() == Interpreter.ExecuteMisc(old(Abs()), opcode)
    {
      var x := X(opcode);
      match Kk(opcode)
      case 0x29 =>
        indexRegister := registers[x] as int * 5;
        pc := pc + 2;
      case 0x1E =>
        indexRegister := indexRegister as int + registers[x] as int;
        pc := pc + 2;
    }

    /** `Fx33`, `Fx55`, `Fx65`: moves between registers and memory. */
    method MemoryArms(opcode: Word)
      requires Valid() && Class(opcode) == 0xF && Kk(opcode) in {0x33, 0x55, 0x65} && CanExecute(Abs(), opcode)
      modifies this`pc, registers, mem.mem
      ensures Valid()
      ensures Abs() == Interpreter.ExecuteMisc(old(Abs()), opcode)
    {
      var x := X(opcode);
      match Kk(opcode)
      case 0x33 =>
        WriteBcd(x);
        pc := pc + 2;
      case 0x55 =>
        StoreRegisters(x);
        pc := pc + 2;
      case 0x65 =>
        LoadRegisters(x);
        pc := pc + 2;
    }

    /** The writes of `Fx33`: hundreds, tens and units of Vx at I, I + 1, I + 2. */
    method WriteBcd(x: nat)
      requires Valid() && x < RegisterCount && indexRegister + 2 < Memory.MemorySize
      modifies mem.mem
      ensures mem.mem[..] == Bcd(old(mem.mem[..]), indexRegister, registers[x])
    {
      mem.mem[indexRegister] := registers[x] / 100;
      mem.mem[indexRegister as int + 1] := (registers[x] % 100) / 10;
      mem.mem[indexRegister as int + 2] := registers[x] % 10;
    }

    /** The loop of `Fx55`: `mem[i + 1] = V[i]` for `i in 0..x`. */
    method StoreRegisters(x: nat)
      requires Valid() && x < RegisterCount
      modifies mem.mem
      ensures mem.mem[..] == Interpreter.StoreRegisters(old(mem.mem[..]), registers[..], x)
    {
      ghost var before := mem.mem[..];
      for i := 0 to x
        invariant forall k :: 0 <= k < Memory.MemorySize ==> mem.mem[k] == if 1 <= k <= i then registers[k - 1] else before[k]
      {
        mem.mem[i + 1] := registers[i];
      }
      assert forall k :: 0 <= k < Memory.MemorySize ==> mem.mem[..][k] == Interpreter.StoreRegisters(before, registers[..], x)[k];
    }

    /** The loop of `Fx65`: `V[i] = mem[i + 1]` for `i in 0..x`. */
    method LoadRegisters(x: nat)
      requires Valid() && x < RegisterCount
      modifies registers
      ensures registers[..] == Interpreter.LoadRegisters(old(registers[..]), mem.mem[..], x)
    {
      ghost var before := registers[..];
      for i := 0 to x
        invariant forall k :: 0 <= k < RegisterCount ==> registers[k] == if k < i then mem.mem[k + 1] else before[k]
      {
        registers[i] := mem.mem[i + 1];
      }
      assert forall k :: 0 <= k < RegisterCount ==> registers[..][k] == Interpreter.LoadRegisters(before, mem.mem[..], x)[k];
    }
  }
}
