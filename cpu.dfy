/** `src/chip8/cpu.rs`: an earlier, smaller processor that decodes only `Annn`, `2nnn`,
    `6xkk` and `00EE`, and reads its instructions from a `Memory` it does not own. */
module Cpu {
  import opened Bits
  import opened Opcode
  import opened Sprite
  import Interpreter
  import Memory

  /** The six fields of `Cpu`. */
  datatype CpuState = CpuState(
    regs: seq<Byte>,
    delay: Byte,
    sound: Byte,
    pc: nat,
    stack: seq<Word>,
    index: Word)


  predicate CpuWellFormed(s: CpuState)
  {
    |s.regs| == RegisterCount
  }

  /** `00EE` pops with `unwrap`, which panics on an empty stack. */
  predicate CpuCanExecute(s: CpuState, op: Word)
  {
    Class(op) == 0x0 && op == 0x00EE ==> |s.stack| > 0
  }

  /** What `execute_op` does to the fields. */
  function CpuExecute(s: CpuState, op: Word): (r: CpuState)
    requires CpuWellFormed(s) && CpuCanExecute(s, op)
    ensures CpuWellFormed(r)
    ensures r.delay == s.delay && r.sound == s.sound
  {
    match Class(op)
    case 0xA => s.(index := DecodeOp(op), pc := s.pc + 2)
    case 0x2 => s.(stack := s.stack + [s.pc % 0x1_0000], pc := DecodeOp(op))
    case 0x6 => s.(regs := s.regs[X(op) := Kk(op)], pc := s.pc + 2)
    case 0x0 =>
      if op == 0x00EE then s.(pc := s.stack[|s.stack| - 1], stack := s.stack[..|s.stack| - 1])
      else s
    case _ => s
  }

  predicate CpuRecognised(op: Word)
  {
    Class(op) in {0xA, 0x2, 0x6} || op == 0x00EE
  }

  /** Any other opcode is ignored: nothing changes and `pc` does not advance. */
  lemma CpuUnrecognisedIsNoOp(s: CpuState, op: Word)
    requires CpuWellFormed(s) && !CpuRecognised(op)
    ensures CpuCanExecute(s, op) && CpuExecute(s, op) == s
  {
  }

  /** `6xkk` writes `kk` to Vx and nothing else; `Annn` writes `nnn` to I. */
  lemma CpuLoads(s: CpuState, op: Word)
    requires CpuWellFormed(s) && Class(op) in {0x6, 0xA}
    ensures CpuCanExecute(s, op)
    ensures var r := CpuExecute(s, op);
      r.pc == s.pc + 2 && r.stack == s.stack &&
      (Class(op) == 0x6 ==> r.index == s.index && r.regs[X(op)] == op % 0x100 &&
                            forall k :: 0 <= k < RegisterCount && k != X(op) ==> r.regs[k] == s.regs[k]) &&
      (Class(op) == 0xA ==> r.regs == s.regs && r.index == op % 0x1000)
  {
  }

  /** A call followed by `00EE` gives back the state before the call (the return
      address pushed is the call's own). */
  lemma {:induction false} CpuCallThenReturn(s: CpuState, op: Word)
    requires CpuWellFormed(s) && Class(op) == 0x2 && s.pc < 0x1_0000
    ensures CpuCanExecute(s, op)
    ensures var called := CpuExecute(s, op);
      called.pc == op % 0x1000 && called.stack == s.stack + [s.pc] &&
      CpuCanExecute(called, 0x00EE) && CpuExecute(called, 0x00EE) == s
  {
    var called := CpuExecute(s, op);
    assert called.stack[..|called.stack| - 1] == s.stack;
  }

  /** The `Cpu` fields of a `Chip8` machine. */
  function Project(m: Interpreter.Machine): (s: CpuState)
    ensures s.regs == m.regs && s.pc == m.pc && s.stack == m.stack && s.index == m.index
  {
    CpuState(m.regs, m.delay, m.sound, m.pc, m.stack, m.index)
  }

  /** On the four opcodes `Cpu` decodes it behaves as `Chip8` does. */
  lemma {:induction false} CpuAgreesWithChip8(m: Interpreter.Machine, op: Word, rnd: Interpreter.RandomByte)
    requires Interpreter.WellFormed(m) && CpuRecognised(op) && Interpreter.CanExecute(m, op)
    ensures CpuCanExecute(Project(m), op)
    ensures Project(Interpreter.Execute(m, op, rnd)) == CpuExecute(Project(m), op)
  {
    assert Class(op) == 0x0 ==> op == 0x00EE;
  }

  class Cpu {
    var registers: array<Byte>
    var delayTimer: Byte
    var soundTimer: Byte
    var pc: nat
    var stack: seq<Word>
    var indexRegister: Word

    ghost predicate Valid()
      reads this
    {
      registers.Length == RegisterCount
    }

    ghost function Abs(): (s: CpuState)
      reads this, registers
      requires Valid()
      ensures CpuWellFormed(s)
    {
      CpuState(registers[..], delayTimer, soundTimer, pc, stack, indexRegister)
    }

    /** `Cpu::new`: zero registers and timers, `pc == 0x200`, an empty stack, I == 0. */
    constructor ()
      ensures Valid() && fresh(registers)
      ensures Abs() == CpuState(seq(RegisterCount, _ => 0), 0, 0, 0x200, [], 0)
    {
      registers := new Byte[RegisterCount](_ => 0);
      delayTimer, soundTimer := 0, 0;
      pc := 0x200;
      stack := [];
      indexRegister := 0;
      new;
      assert registers[..] == seq(RegisterCount, _ => 0);
    }

    /** `fetch_op`: the big-endian word at `pc` of `mem`. */
    method FetchOp(mem: Memory.Memory) returns (op: Word)
      requires Valid() && mem.Valid() && pc + 1 < Memory.MemorySize
      ensures op == Fetch(mem.mem[..], pc)
    {
      op := mem.mem[pc] as int * 0x100 + mem.mem[pc + 1] as int;
    }

    /** `execute_op`. */
    method ExecuteOp(opcode: Word)
      requires Valid() && CpuCanExecute(Abs(), opcode)
      modifies this`pc, this`stack, this`indexRegister, registers
      ensures Valid()
      ensures Abs() == CpuExecute(old(Abs()), opcode)
    {
      var decoded := DecodeOp(opcode);
      match Class(opcode)
      case 0xA =>
        indexRegister := decoded;
        pc := pc + 2;
      case 0x2 =>
        stack := stack + [pc % 0x1_0000];
        pc := decoded;
      case 0x6 =>
        var x := X(opcode);
        registers[x] := Kk(opcode);
        pc := pc + 2;
      case 0x0 =>
        if opcode == 0x00EE {
          pc := stack[|stack| - 1];
          stack := stack[..|stack| - 1];
        }
      case _ =>
    }

    /** `emulate`: fetch from the borrowed memory, then execute; the memory is only read. */
    method Emulate(mem: Memory.Memory)
      requires Valid() && mem.Valid() && pc + 1 < Memory.MemorySize && registers != mem.mem
      requires CpuCanExecute(Abs(), Fetch(mem.mem[..], pc))
      modifies this`pc, this`stack, this`indexRegister, registers
      ensures Valid() && mem.mem[..] == old(mem.mem[..])
      ensures Abs() == CpuExecute(old(Abs()), Fetch(old(mem.mem[..]), old(pc)))
    {
      var opcode := FetchOp(mem);
      ExecuteOp(opcode);
    }
  }
}
