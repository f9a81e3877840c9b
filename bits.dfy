/** Fixed-width unsigned integers and the bitwise operations the interpreter uses.
    Registers and memory bytes are integers in range; the bitwise operators go
    through `bv8`, and a display cell is a `bv8` itself. */
module Bits {
  /** Rust `u8`. */
  type Byte = b: int | 0 <= b < 0x100

  /** Rust `u16`. */
  type Word = w: int | 0 <= w < 0x1_0000

  /** A `u8` cell of the display, as the bit vector it is XORed as. */
  type Cell = bv8

  function ToBv(a: Byte): bv8 { a as bv8 }

  function ToByte(v: bv8): Byte { v as int }

  /** `a | b` */
  function BitOr(a: Byte, b: Byte): Byte { ToByte(ToBv(a) | ToBv(b)) }

  /** `a & b` */
  function BitAnd(a: Byte, b: Byte): Byte { ToByte(ToBv(a) & ToBv(b)) }

  /** `a ^ b` */
  function BitXor(a: Byte, b: Byte): Byte { ToByte(ToBv(a) ^ ToBv(b)) }

  /** `cell ^= color`, the update `set_pixel` makes. */
  function XorCell(c: Cell, color: Byte): Cell { c ^ ToBv(color) }

  /** XOR-ing the same colour into a cell twice gives back the original cell. */
  lemma XorCellTwice(c: Cell, color: Byte)
    ensures XorCell(XorCell(c, color), color) == c
  {
  }

  /** `a & 0x01 == 0x01`: the least significant bit is set. */
  predicate LowBitSet(a: Byte) { ToBv(a) & 1 == 1 }

  /** `row & (0x80 >> j) != 0`: bit `j` of a sprite row, counted from the most significant bit. */
  predicate SpriteBit(row: Byte, j: nat)
    requires j < 8
  {
    ToBv(row) & (0x80 >> j) != 0
  }
}
