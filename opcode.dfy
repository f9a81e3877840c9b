/** The fixed sub-fields of a 16-bit instruction word and the big-endian fetch.
    The Rust masks and shifts (`opcode & 0x0F00 >> 8` and so on) are written as
    division and remainder by powers of two, which is what they compute. */
module Opcode {
  import opened Bits

  /** `opcode & 0xf000`, as the nibble 0x0..0xF it selects. */
  function Class(op: Word): (c: nat)
    ensures c < 0x10
  {
    op / 0x1000
  }

  /** `(opcode & 0x0F00) >> 8` */
  function X(op: Word): (x: nat)
    ensures x < 0x10
  {
    op / 0x100 % 0x10
  }

  /** `(opcode & 0x00F0) >> 4` */
  function Y(op: Word): (y: nat)
    ensures y < 0x10
  {
    op / 0x10 % 0x10
  }

  /** `opcode & 0x000F` */
  function N(op: Word): (n: nat)
    ensures n < 0x10
  {
    op % 0x10
  }

  /** `(opcode & 0x00FF) as u8` */
  function Kk(op: Word): Byte
  {
    op % 0x100
  }

  /** `decode_op`: `opcode & 0x0FFF`, the 12-bit address operand. */
  function DecodeOp(op: Word): (nnn: Word)
    ensures nnn < 0x1000
    ensures op == Class(op) * 0x1000 + nnn
  {
    op % 0x1000
  }

  /** The nibble fields partition the word: together they rebuild it. */
  lemma FieldsCompose(op: Word)
    ensures op == Class(op) * 0x1000 + X(op) * 0x100 + Y(op) * 0x10 + N(op)
    ensures Kk(op) == Y(op) * 0x10 + N(op)
    ensures DecodeOp(op) == X(op) * 0x100 + Kk(op)
  {
    var nnn := op % 0x1000;
    assert op == Class(op) * 0x1000 + nnn;
    assert nnn == X(op) * 0x100 + nnn % 0x100;
    assert nnn % 0x100 == Kk(op);
    assert Kk(op) == Y(op) * 0x10 + N(op);
  }

  /** `(mem[pc] as u16) << 8 | mem[pc + 1] as u16`: the high byte is at `pc`, the low byte at `pc + 1`. */
  function Fetch(mem: seq<Byte>, pc: nat): (op: Word)
    requires pc + 1 < |mem|
    ensures op / 0x100 == mem[pc] && op % 0x100 == mem[pc + 1]
  {
    mem[pc] as int * 0x100 + mem[pc + 1] as int
  }
}
