/** The 4 KB memory store (`src/chip8/memory.rs`): the font table at address 0 and the
    program image placed from 0x200. The font table is a parameter because its
    contents are not part of this model; the ROM file is the 3584-byte buffer it is
    read into. */
module Memory {
  import opened Bits

  const MemorySize: nat := 4096
  /** Programs are placed from address 512. */
  const RomStart: nat := 0x200
  /** `[0u8; 3584]`, the read buffer: exactly the room left above `RomStart`. */
  const RomBufferSize: nat := 3584

  /** How many bytes of `buf` are nonzero (each of those bumps `size`). */
  function NonzeroCount(buf: seq<Byte>): (c: nat)
    ensures c <= |buf|
    ensures c == |buf| <==> forall i :: 0 <= i < |buf| ==> buf[i] != 0
  {
    if buf == [] then 0
    else NonzeroCount(buf[..|buf| - 1]) + (if buf[|buf| - 1] != 0 then 1 else 0)
  }

  class Memory {
    var mem: array<Byte>
    var size: nat

    ghost predicate Valid()
      reads this
    {
      mem.Length == MemorySize
    }

    /** `Memory::new`: 4096 zero bytes, `size == 0`. */
    constructor ()
      ensures Valid() && fresh(mem)
      ensures forall k :: 0 <= k < MemorySize ==> mem[k] == 0
      ensures size == 0
    {
      mem := new Byte[MemorySize](_ => 0);
      size := 0;
    }

    /** `get_mem`: a read; indexing past 4095 panics. */
    method GetMem(i: nat) returns (v: Byte)
      requires Valid() && i < MemorySize
      ensures v == mem[i]
    {
      v := mem[i];
    }

    /** `set_mem`: one byte written, every other byte kept. */
    method SetMem(i: nat, value: Byte)
      requires Valid() && i < MemorySize
      modifies mem
      ensures mem[i] == value
      ensures forall k :: 0 <= k < MemorySize && k != i ==> mem[k] == old(mem[k])
    {
      mem[i] := value;
    }

    /** `load_rom` with the file already read into `buffer`: copy the fonts to the
        bottom of memory, then place every nonzero buffer byte at `512 + i` and count
        it in `size`. Zero bytes leave memory as it was. */
    method LoadRom(fonts: seq<Byte>, buffer: seq<Byte>)
      requires Valid() && |fonts| <= RomStart && |buffer| == RomBufferSize
      modifies this`size, mem
      ensures forall k :: 0 <= k < |fonts| ==> mem[k] == fonts[k]
      ensures forall k :: |fonts| <= k < RomStart ==> mem[k] == old(mem[k])
      ensures forall i :: 0 <= i < RomBufferSize ==>
                mem[RomStart + i] == if buffer[i] != 0 then buffer[i] else old(mem[RomStart + i])
      ensures size == old(size) + NonzeroCount(buffer)
    {
      CopyFonts(fonts);
      PlaceProgram(buffer);
    }

    /** The first loop of `load_rom`: `mem[i] = FONTS[i]` for every font byte. */
    method CopyFonts(fonts: seq<Byte>)
      requires Valid() && |fonts| <= RomStart
      modifies mem
      ensures forall k :: 0 <= k < |fonts| ==> mem[k] == fonts[k]
      ensures forall k :: |fonts| <= k < MemorySize ==> mem[k] == old(mem[k])
    {
      for i := 0 to |fonts|
        invariant forall k :: 0 <= k < i ==> mem[k] == fonts[k]
        invariant forall k :: i <= k < MemorySize ==> mem[k] == old(mem[k])
      {
        mem[i] := fonts[i];
      }
    }

    /** The second loop of `load_rom`: each nonzero buffer byte goes to `512 + i` and
        bumps `size`; memory below `RomStart` is kept. */
    method PlaceProgram(buffer: seq<Byte>)
      requires Valid() && |buffer| == RomBufferSize
      modifies this`size, mem
      ensures forall k :: 0 <= k < RomStart ==> mem[k] == old(mem[k])
      ensures forall i :: 0 <= i < RomBufferSize ==>
                mem[RomStart + i] == if buffer[i] != 0 then buffer[i] else old(mem[RomStart + i])
      ensures size == old(size) + NonzeroCount(buffer)
    {
      for i := 0 to |buffer|
        invariant forall k :: 0 <= k < RomStart ==> mem[k] == old(mem[k])
        invariant forall k :: 0 <= k < i ==>
                    mem[RomStart + k] == if buffer[k] != 0 then buffer[k] else old(mem[RomStart + k])
        invariant forall k :: RomStart + i <= k < MemorySize ==> mem[k] == old(mem[k])
        invariant size == old(size) + NonzeroCount(buffer[..i])
      {
        var bit := buffer[i];
        if bit != 0 {
          size := size + 1;
          mem[i + RomStart] := bit;
        }
        assert buffer[..i + 1][..i] == buffer[..i];
      }
      assert buffer[..|buffer|] == buffer;
    }
  }
}
