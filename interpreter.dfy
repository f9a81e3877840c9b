/** What one instruction does to the machine of `src/chip8/chip8.rs`, as a function
    on machine values. `Chip8.Chip8.ExecuteOp` is proved to update its fields exactly
    as `Execute` says; the lemmas below state what the arms promise.

    The arms follow the code, which departs from the usual instruction set in places:
    `Bnnn` sets I as `Annn` does; `8xy7` computes `Vx - Vy`; `8xyE` tests the low bit;
    `Ex9E`/`ExA1` test `key[x]`; `Fx55`/`Fx65` move `V0..V(x-1)` to and from address 1
    onwards; `2nnn` pushes the address of the call itself; `5xy0`, `Fx0A` and every
    other undefined pattern leave the machine as it was, `pc` included. */
module Interpreter {
  import opened Bits
  import opened Opcode
  import opened Gfx
  import opened Sprite
  import opened Memory
  import Keypad

  /** A value of `rng.gen_range(0, 255)`: 255 itself is never produced. */
  type RandomByte = r: int | 0 <= r < 255

  /** The non-SDL fields of `Chip8`, with the framebuffer's cells and the memory bytes. */
  datatype Machine = Machine(
    regs: seq<Byte>,
    delay: Byte,
    sound: Byte,
    pc: nat,
    stack: seq<Word>,
    index: Word,
    mem: seq<Byte>,
    screen: seq<seq<Cell>>,
    keys: seq<bool>)

  predicate WellFormed(m: Machine)
  {
    |m.regs| == RegisterCount && |m.mem| == MemorySize && IsScreen(m.screen) && |m.keys| == Keypad.KeyCount
  }

  /** The registers after an ALU arm has written its flag to VF, before it writes Vx. */
  function Flagged(regs: seq<Byte>, flag: bool): (r: seq<Byte>)
    requires |regs| == RegisterCount
  {
    regs[VF := if flag then 1 else 0]
  }

  /** The `u8` subtractions and doubling of the `8xy?` arms must not overflow (they panic). */
  predicate ArithSafe(regs: seq<Byte>, op: Word)
    requires |regs| == RegisterCount
  {
    var x, y := X(op), Y(op);
    (N(op) == 0x5 ==> var f := Flagged(regs, regs[x] > regs[y]); f[x] >= f[y]) &&
    (N(op) == 0x7 ==> var f := Flagged(regs, regs[y] > regs[x]); f[x] >= f[y]) &&
    (N(op) == 0xE ==> var f := Flagged(regs, LowBitSet(regs[x])); f[x] as int * 2 < 0x100)
  }

  predicate RowsInMemory(m: Machine, op: Word)
  {
    N(op) == 0 || m.index as int + N(op) <= MemorySize
  }

  /** The `n` bytes from address `i` (none when `n == 0`, wherever `i` points). */
  function SpriteBytes(mem: seq<Byte>, i: nat, n: nat): (rows: seq<Byte>)
    requires n == 0 || i + n <= |mem|
    ensures |rows| == n
    ensures forall k :: 0 <= k < n ==> rows[k] == mem[i + k]
  {
    if n == 0 then [] else mem[i..i + n]
  }

  /** The `n` sprite bytes at I that `Dxyn` reads. */
  function SpriteRows(m: Machine, op: Word): (rows: seq<Byte>)
    requires WellFormed(m) && RowsInMemory(m, op)
    ensures |rows| == N(op)
  {
    SpriteBytes(m.mem, m.index, N(op))
  }

  /** Everything the arm of `op` needs in order not to panic: no `u8`/`u16` overflow,
      no index outside memory or the display, no pop of an empty stack. */
  predicate CanExecute(m: Machine, op: Word)
    requires WellFormed(m)
  {
    var c := Class(op);
    (c == 0x0 && op == 0x00EE ==> |m.stack| > 0) &&
    (c == 0x8 ==> ArithSafe(m.regs, op)) &&
    (c == 0xD ==> RowsInMemory(m, op) && DrawSafe(m.regs, X(op), Y(op), SpriteRows(m, op))) &&
    (c == 0xF && Kk(op) == 0x33 ==> m.index as int + 2 < MemorySize) &&
    (c == 0xF && Kk(op) == 0x1E ==> m.index as int + m.regs[X(op)] as int < 0x1_0000)
  }

  /** `Fx33`: hundreds, tens and units of `v` at `i`, `i + 1`, `i + 2`. */
  function Bcd(mem: seq<Byte>, i: nat, v: Byte): (r: seq<Byte>)
    requires i + 2 < |mem|
    ensures |r| == |mem|
  {
    mem[i := v / 100][i + 1 := (v % 100) / 10][i + 2 := v % 10]
  }

  /** `Fx55`: `mem[i + 1] = V[i]` for `i in 0..x`. */
  function StoreRegisters(mem: seq<Byte>, regs: seq<Byte>, x: nat): (r: seq<Byte>)
    requires |regs| == RegisterCount && x < RegisterCount && |mem| == MemorySize
    ensures |r| == MemorySize
  {
    seq(MemorySize, k requires 0 <= k < MemorySize => if 1 <= k <= x then regs[k - 1] else mem[k])
  }

  /** `Fx65`: `V[i] = mem[i + 1]` for `i in 0..x`. */
  function LoadRegisters(regs: seq<Byte>, mem: seq<Byte>, x: nat): (r: seq<Byte>)
    requires |regs| == RegisterCount && x < RegisterCount && |mem| == MemorySize
    ensures |r| == RegisterCount
  {
    seq(RegisterCount, k requires 0 <= k < RegisterCount => if k < x then mem[k + 1] else regs[k])
  }

  /** The `8xy?` patterns `execute_op` has an arm for. */
  predicate ArithDefined(op: Word)
  {
    N(op) in {0x0, 0x1, 0x2, 0x3, 0x4, 0x5, 0x6, 0x7, 0xE}
  }

  /** The registers after an `8xy?` arm, selected by `opcode & 0x000F`. */
  function ArithRegs(regs: seq<Byte>, op: Word): (r: seq<Byte>)
    requires |regs| == RegisterCount && ArithSafe(regs, op)
    ensures |r| == RegisterCount
  {
    var x, y := X(op), Y(op);
    match N(op)
    case 0x0 => regs[x := regs[y]]
    case 0x1 => regs[x := BitOr(regs[x], regs[y])]
    case 0x2 => regs[x := BitAnd(regs[x], regs[y])]
    case 0x3 => regs[x := BitXor(regs[x], regs[y])]
    case 0x4 =>
      var sum := regs[x] as int + regs[y] as int;
      var f := Flagged(regs, sum > 0xFF);
      f[x := sum % 0x100]
    case 0x5 =>
      var f := Flagged(regs, regs[x] > regs[y]);
      f[x := f[x] - f[y]]
    case 0x6 =>
      var f := Flagged(regs, LowBitSet(regs[x]));
      f[x := f[x] / 2]
    case 0x7 =>
      var f := Flagged(regs, regs[y] > regs[x]);
      f[x := f[x] - f[y]]
    case 0xE =>
      var f := Flagged(regs, LowBitSet(regs[x]));
      f[x := f[x] * 2]
    case _ => regs
  }

  /** The `0x8000` arms: an undefined pattern is reported and changes nothing, not even `pc`. */
  function ExecuteArith(m: Machine, op: Word): (r: Machine)
    requires WellFormed(m) && Class(op) == 0x8 && CanExecute(m, op)
    ensures WellFormed(r)
    ensures r.(regs := m.regs, pc := m.pc) == m
    ensures r.pc == if ArithDefined(op) then m.pc + 2 else m.pc
    ensures !ArithDefined(op) ==> r.regs == m.regs
  {
    if ArithDefined(op) then m.(regs := ArithRegs(m.regs, op), pc := m.pc + 2) else m
  }

  /** `Dxyn`, followed by `pc += 2`. */
  function ExecuteDraw(m: Machine, op: Word): (r: Machine)
    requires WellFormed(m) && Class(op) == 0xD && CanExecute(m, op)
    ensures WellFormed(r)
    ensures r.(screen := m.screen, regs := m.regs, pc := m.pc) == m && r.pc == m.pc + 2
  {
    var d := Draw(m.screen, m.regs, X(op), Y(op), SpriteRows(m, op));
    m.(screen := d.screen, regs := d.regs, pc := m.pc + 2)
  }

  /** The `0xE000` arms, selected by `opcode & 0x00FF`. */
  function ExecuteKeySkip(m: Machine, op: Word): (r: Machine)
    requires WellFormed(m) && Class(op) == 0xE
    ensures WellFormed(r)
    ensures r.(pc := m.pc) == m
    ensures Kk(op) in {0x9E, 0xA1} ==> r.pc == m.pc + 2 || r.pc == m.pc + 4
    ensures Kk(op) !in {0x9E, 0xA1} ==> r == m
  {
    var x := X(op);
    match Kk(op)
    case 0x9E => m.(pc := m.pc + 2 + (if m.keys[x] then 2 else 0))
    case 0xA1 => m.(pc := m.pc + 2 + (if !m.keys[x] then 2 else 0))
    case _ => m
  }

  /** The `0xF000` arms, selected by `opcode & 0x00FF`. */
  function ExecuteMisc(m: Machine, op: Word): (r: Machine)
    requires WellFormed(m) && Class(op) == 0xF && CanExecute(m, op)
    ensures WellFormed(r)
    ensures r.screen == m.screen && r.stack == m.stack && r.keys == m.keys
    ensures Kk(op) in {0x07, 0x15, 0x18, 0x29, 0x33, 0x55, 0x65, 0x1E} ==> r.pc == m.pc + 2
    ensures Kk(op) !in {0x07, 0x15, 0x18, 0x29, 0x33, 0x55, 0x65, 0x1E} ==> r == m
  {
    var x := X(op);
    match Kk(op)
    case 0x07 => m.(regs := m.regs[x := m.delay], pc := m.pc + 2)
    case 0x15 => m.(delay := m.regs[x], pc := m.pc + 2)
    case 0x18 => m.(sound := m.regs[x], pc := m.pc + 2)
    case 0x29 => m.(index := m.regs[x] as int * 5, pc := m.pc + 2)
    case 0x33 => m.(mem := Bcd(m.mem, m.index, m.regs[x]), pc := m.pc + 2)
    case 0x55 => m.(mem := StoreRegisters(m.mem, m.regs, x), pc := m.pc + 2)
    case 0x65 => m.(regs := LoadRegisters(m.regs, m.mem, x), pc := m.pc + 2)
    case 0x1E => m.(index := m.index as int + m.regs[x] as int, pc := m.pc + 2)
    case _ => m
  }

  /** `execute_op`: dispatch on `opcode & 0xf000`. `rnd` is the value `Cxkk` draws. */
  function Execute(m: Machine, op: Word, rnd: RandomByte): (r: Machine)
    requires WellFormed(m) && CanExecute(m, op)
    ensures WellFormed(r)
    ensures r.keys == m.keys
  {
    var x, y, kk, nnn := X(op), Y(op), Kk(op), DecodeOp(op);
    match Class(op)
    case 0x1 => m.(pc := nnn)
    case 0x2 => m.(stack := m.stack + [m.pc % 0x1_0000], pc := nnn)
    case 0x3 => m.(pc := m.pc + if m.regs[x] == kk then 4 else 2)
    case 0x4 => m.(pc := m.pc + if m.regs[x] != kk then 4 else 2)
    case 0x6 => m.(regs := m.regs[x := kk], pc := m.pc + 2)
    case 0x7 => m.(regs := m.regs[x := (m.regs[x] as int + kk as int) % 0x100], pc := m.pc + 2)
    case 0x8 => ExecuteArith(m, op)
    case 0x9 => m.(pc := m.pc + if m.regs[x] != m.regs[y] then 4 else 2)
    case 0xA => m.(index := nnn, pc := m.pc + 2)
    case 0xB => m.(index := nnn, pc := m.pc + 2)
    case 0xC => m.(regs := m.regs[x := BitAnd(kk, rnd)], pc := m.pc + 2)
    case 0xD => ExecuteDraw(m, op)
    case 0xE => ExecuteKeySkip(m, op)
    case 0xF => ExecuteMisc(m, op)
    case 0x0 =>
      if op == 0x00EE then m.(pc := m.stack[|m.stack| - 1], stack := m.stack[..|m.stack| - 1])
      else if op == 0x00E0 then m.(screen := Blank(), pc := m.pc + 2)
      else m
    case _ => m
  }

  // ---- Properties ----

  /** `7xkk`: Vx gains kk modulo 256, no other register (VF included) changes, `pc += 2`. */
  lemma AddImmediate(m: Machine, op: Word, rnd: RandomByte)
    requires WellFormed(m) && CanExecute(m, op) && Class(op) == 0x7
    ensures var r := Execute(m, op, rnd);
      r.regs[X(op)] == (m.regs[X(op)] as int + Kk(op) as int) % 0x100 &&
      (forall k :: 0 <= k < RegisterCount && k != X(op) ==> r.regs[k] == m.regs[k]) &&
      r.pc == m.pc + 2 && r.(regs := m.regs, pc := m.pc) == m
  {
  }

  /** `8xy4`: VF is the carry `Vx + Vy > 255`, then Vx is the sum modulo 256 (with
      `x == 0xF` the sum overwrites the carry), `pc += 2`. */
  lemma AddRegisters(m: Machine, op: Word, rnd: RandomByte)
    requires WellFormed(m) && CanExecute(m, op) && Class(op) == 0x8 && N(op) == 0x4
    ensures var r := Execute(m, op, rnd);
      var sum := m.regs[X(op)] as int + m.regs[Y(op)] as int;
      r.regs[X(op)] == sum % 0x100 &&
      (X(op) != VF ==> (r.regs[VF] == 1 <==> sum > 0xFF) && (r.regs[VF] == 0 <==> sum <= 0xFF)) &&
      (forall k :: 0 <= k < RegisterCount && k != X(op) && k != VF ==> r.regs[k] == m.regs[k]) &&
      r.pc == m.pc + 2 && r.(regs := m.regs, pc := m.pc) == m
  {
  }

  /** `8xy5`: VF is `Vx > Vy`, then Vx loses the (new) Vy, `pc += 2`. */
  lemma SubtractRegisters(m: Machine, op: Word, rnd: RandomByte)
    requires WellFormed(m) && CanExecute(m, op) && Class(op) == 0x8 && N(op) == 0x5
    requires X(op) != VF && Y(op) != VF
    ensures var r := Execute(m, op, rnd);
      r.regs[X(op)] == m.regs[X(op)] - m.regs[Y(op)] &&
      (r.regs[VF] == 1 <==> m.regs[X(op)] > m.regs[Y(op)]) &&
      (r.regs[VF] == 0 <==> m.regs[X(op)] <= m.regs[Y(op)]) &&
      (forall k :: 0 <= k < RegisterCount && k != X(op) && k != VF ==> r.regs[k] == m.regs[k]) &&
      r.pc == m.pc + 2 && r.(regs := m.regs, pc := m.pc) == m
  {
  }

  /** The condition under which a skip instruction skips. */
  predicate SkipCondition(m: Machine, op: Word)
    requires WellFormed(m)
  {
    var c, x := Class(op), X(op);
    (c == 0x3 && m.regs[x] == Kk(op)) ||
    (c == 0x4 && m.regs[x] != Kk(op)) ||
    (c == 0x9 && m.regs[x] != m.regs[Y(op)]) ||
    (c == 0xE && Kk(op) == 0x9E && m.keys[x]) ||
    (c == 0xE && Kk(op) == 0xA1 && !m.keys[x])
  }

  predicate IsSkip(op: Word)
  {
    Class(op) in {0x3, 0x4, 0x9} || (Class(op) == 0xE && Kk(op) in {0x9E, 0xA1})
  }

  /** Skip instructions move `pc` on by 4 when their condition holds and by 2
      otherwise, and change nothing else. */
  lemma SkipAdvance(m: Machine, op: Word, rnd: RandomByte)
    requires WellFormed(m) && CanExecute(m, op) && IsSkip(op)
    ensures var r := Execute(m, op, rnd);
      r.(pc := m.pc) == m &&
      (SkipCondition(m, op) ==> r.pc == m.pc + 4) &&
      (!SkipCondition(m, op) ==> r.pc == m.pc + 2)
  {
  }

  /** `2nnn` then `00EE` gives back the machine as it was before the call: the stack as
      before, and `pc` at the call instruction itself (the call pushes its own address). */
  lemma {:induction false} CallThenReturn(m: Machine, op: Word, rnd: RandomByte, rnd': RandomByte)
    requires WellFormed(m) && Class(op) == 0x2 && m.pc < 0x1_0000
    ensures CanExecute(m, op)
    ensures var called := Execute(m, op, rnd);
      called.pc == DecodeOp(op) && called.stack == m.stack + [m.pc] &&
      CanExecute(called, 0x00EE) && Execute(called, 0x00EE, rnd') == m
  {
    var called := Execute(m, op, rnd);
    assert called.stack[..|called.stack| - 1] == m.stack;
  }

  /** `Annn` and `Bnnn` alike set I to `nnn` and move on; neither jumps. */
  lemma SetIndex(m: Machine, op: Word, rnd: RandomByte)
    requires WellFormed(m) && Class(op) in {0xA, 0xB}
    ensures CanExecute(m, op)
    ensures var r := Execute(m, op, rnd);
      r.index == op % 0x1000 && r.pc == m.pc + 2 && r.(index := m.index, pc := m.pc) == m
  {
  }

  /** `00E0` blanks every cell and changes nothing else but `pc`. */
  lemma ClearScreen(m: Machine, rnd: RandomByte)
    requires WellFormed(m)
    ensures CanExecute(m, 0x00E0)
    ensures var r := Execute(m, 0x00E0, rnd);
      (forall a, b :: 0 <= a < Width && 0 <= b < Height ==> r.screen[a][b] == 0) &&
      r.pc == m.pc + 2 && r.(screen := m.screen, pc := m.pc) == m
  {
  }

  /** `Fx33` stores the three decimal digits of Vx at I, I+1, I+2 and nothing else. */
  lemma BcdDigits(m: Machine, op: Word, rnd: RandomByte)
    requires WellFormed(m) && CanExecute(m, op) && Class(op) == 0xF && Kk(op) == 0x33
    ensures var r := Execute(m, op, rnd);
      var i, v := m.index, m.regs[X(op)];
      r.mem[i] < 10 && r.mem[i + 1] < 10 && r.mem[i + 2] < 10 &&
      100 * r.mem[i] + 10 * r.mem[i + 1] + r.mem[i + 2] == v &&
      (forall k :: 0 <= k < MemorySize && k != i && k != i + 1 && k != i + 2 ==> r.mem[k] == m.mem[k]) &&
      r.pc == m.pc + 2 && r.(mem := m.mem, pc := m.pc) == m
  {
    var v := m.regs[X(op)];
    assert 100 * (v / 100) + 10 * ((v % 100) / 10) + v % 10 == v;
  }

  /** `Fx55` writes `V0..V(x-1)` to addresses `1..x` and nothing else. */
  lemma StoreRegistersEffect(m: Machine, op: Word, rnd: RandomByte)
    requires WellFormed(m) && CanExecute(m, op) && Class(op) == 0xF && Kk(op) == 0x55
    ensures var r := Execute(m, op, rnd);
      (forall i :: 0 <= i < X(op) ==> r.mem[i + 1] == m.regs[i]) &&
      (forall k :: 0 <= k < MemorySize && !(1 <= k <= X(op)) ==> r.mem[k] == m.mem[k]) &&
      r.pc == m.pc + 2 && r.(mem := m.mem, pc := m.pc) == m
  {
  }

  /** `Fx65` reads `V0..V(x-1)` from addresses `1..x`; the other registers keep their values. */
  lemma LoadRegistersEffect(m: Machine, op: Word, rnd: RandomByte)
    requires WellFormed(m) && CanExecute(m, op) && Class(op) == 0xF && Kk(op) == 0x65
    ensures var r := Execute(m, op, rnd);
      (forall i :: 0 <= i < X(op) ==> r.regs[i] == m.mem[i + 1]) &&
      (forall k :: X(op) <= k < RegisterCount ==> r.regs[k] == m.regs[k]) &&
      r.pc == m.pc + 2 && r.(regs := m.regs, pc := m.pc) == m
  {
  }

  /** The bit patterns `execute_op` has an arm for. */
  predicate Recognised(op: Word)
  {
    var c := Class(op);
    (c == 0x0 && (op == 0x00E0 || op == 0x00EE)) ||
    c in {0x1, 0x2, 0x3, 0x4, 0x6, 0x7, 0x9, 0xA, 0xB, 0xC, 0xD} ||
    (c == 0x8 && N(op) in {0x0, 0x1, 0x2, 0x3, 0x4, 0x5, 0x6, 0x7, 0xE}) ||
    (c == 0xE && Kk(op) in {0x9E, 0xA1}) ||
    (c == 0xF && Kk(op) in {0x07, 0x15, 0x18, 0x29, 0x33, 0x55, 0x65, 0x1E})
  }

  /** An unrecognised opcode (`5xy0`, `Fx0A`, `0nnn` other than `00E0`/`00EE`, an
      undefined `8xy?`, `Ex??` or `Fx??`) can always run and leaves the whole machine,
      `pc` included, unchanged. */
  lemma UnrecognisedIsNoOp(m: Machine, op: Word, rnd: RandomByte)
    requires WellFormed(m) && !Recognised(op)
    ensures CanExecute(m, op) && Execute(m, op, rnd) == m
  {
  }

  /** `Dxyn` replaces the screen and the registers by those of `Draw` and advances `pc`. */
  lemma ExecuteIsDraw(m: Machine, op: Word, rnd: RandomByte)
    requires WellFormed(m) && CanExecute(m, op) && Class(op) == 0xD
    ensures var d := Draw(m.screen, m.regs, X(op), Y(op), SpriteRows(m, op));
      Execute(m, op, rnd) == m.(screen := d.screen, regs := d.regs, pc := m.pc + 2)
  {
  }

  /** `Dxyn` with `x` and `y` other than 0xF: VF is 1 exactly when a toggled cell held 1,
      and the other registers are unchanged. */
  lemma DrawFlag(m: Machine, op: Word, rnd: RandomByte)
    requires WellFormed(m) && CanExecute(m, op) && Class(op) == 0xD && X(op) != VF && Y(op) != VF
    ensures Execute(m, op, rnd).regs ==
            m.regs[VF := if Collides(m.screen, m.regs[X(op)], m.regs[Y(op)], SpriteRows(m, op)) then 1 else 0]
  {
    ExecuteDrawRegs(m, op, rnd);
    DrawClosedForm(m.screen, m.regs, X(op), Y(op), SpriteRows(m, op));
  }

  /** The `0xE000` arms of `Execute` are those of `ExecuteKeySkip`. */
  lemma ExecuteIsKeySkip(m: Machine, op: Word, rnd: RandomByte)
    requires WellFormed(m) && CanExecute(m, op) && Class(op) == 0xE
    ensures Execute(m, op, rnd) == ExecuteKeySkip(m, op)
  {
  }

  /** The `0x8000` arms of `Execute` are those of `ExecuteArith`. */
  lemma ExecuteIsArith(m: Machine, op: Word, rnd: RandomByte)
    requires WellFormed(m) && CanExecute(m, op) && Class(op) == 0x8
    ensures Execute(m, op, rnd) == ExecuteArith(m, op)
  {
  }

  /** The registers `Dxyn` leaves are those `Draw` computes. */
  lemma ExecuteDrawRegs(m: Machine, op: Word, rnd: RandomByte)
    requires WellFormed(m) && CanExecute(m, op) && Class(op) == 0xD
    ensures Execute(m, op, rnd).regs == Draw(m.screen, m.regs, X(op), Y(op), SpriteRows(m, op)).regs
  {
  }

  /** The screen `Dxyn` leaves is the one `Draw` computes. */
  lemma ExecuteDrawScreen(m: Machine, op: Word, rnd: RandomByte)
    requires WellFormed(m) && CanExecute(m, op) && Class(op) == 0xD
    ensures Execute(m, op, rnd).screen == Draw(m.screen, m.regs, X(op), Y(op), SpriteRows(m, op)).screen
  {
  }

  /** `Dxyn` with `x` and `y` other than 0xF: each toggled cell is XORed with its row
      byte and every other cell is unchanged. */
  lemma DrawScreen(m: Machine, op: Word, rnd: RandomByte)
    requires WellFormed(m) && CanExecute(m, op) && Class(op) == 0xD && X(op) != VF && Y(op) != VF
    ensures Toggled(Execute(m, op, rnd).screen, m.screen, m.regs[X(op)], m.regs[Y(op)], SpriteRows(m, op))
  {
    ExecuteDrawScreen(m, op, rnd);
    DrawClosedForm(m.screen, m.regs, X(op), Y(op), SpriteRows(m, op));
  }

  /** `Dxyn` changes only the screen and the registers, and advances `pc` by 2. */
  lemma DrawFrame(m: Machine, op: Word, rnd: RandomByte)
    requires WellFormed(m) && CanExecute(m, op) && Class(op) == 0xD
    ensures var r := Execute(m, op, rnd);
      r.pc == m.pc + 2 && r.(screen := m.screen, regs := m.regs, pc := m.pc) == m
  {
    ExecuteIsDraw(m, op, rnd);
  }

  /** Executing the same `Dxyn` twice (with `x`, `y` other than 0xF) restores the screen. */
  lemma DrawTwice(m: Machine, op: Word, rnd: RandomByte, rnd': RandomByte)
    requires WellFormed(m) && CanExecute(m, op) && Class(op) == 0xD && X(op) != VF && Y(op) != VF
    ensures var once := Execute(m, op, rnd);
      CanExecute(once, op) && Execute(once, op, rnd').screen == m.screen
  {
    var once := Execute(m, op, rnd);
    ExecuteIsDraw(m, op, rnd);
    DrawTwiceRestores(m.screen, m.regs, X(op), Y(op), SpriteRows(m, op));
    assert SpriteRows(once, op) == SpriteRows(m, op);
    ExecuteDrawScreen(once, op, rnd');
  }
}
