/** The framebuffer of `src/driver/gfx.rs`: 64 columns by 32 rows of `u8` cells,
    indexed `[x][y]`. Only the cell array is modelled; the SDL canvas is not. */
module Gfx {
  import opened Bits

  const Width: nat := 64
  const Height: nat := 32

  /** A screen as a value: `Width` columns, each of `Height` cells. */
  predicate IsScreen(s: seq<seq<Cell>>)
  {
    |s| == Width && forall x :: 0 <= x < Width ==> |s[x]| == Height
  }

  /** The all-zero screen. */
  function Blank(): (s: seq<seq<Cell>>)
    ensures IsScreen(s)
    ensures forall x, y :: 0 <= x < Width && 0 <= y < Height ==> s[x][y] == 0
  {
    seq(Width, _ => seq(Height, _ => 0))
  }

  /** `display[x][y] ^= color` on a screen value. */
  function SetCell(s: seq<seq<Cell>>, x: nat, y: nat, color: Byte): (r: seq<seq<Cell>>)
    requires IsScreen(s) && x < Width && y < Height
    ensures IsScreen(r)
    ensures r[x][y] == XorCell(s[x][y], color)
    ensures forall a, b :: 0 <= a < Width && 0 <= b < Height && (a != x || b != y) ==> r[a][b] == s[a][b]
  {
    var column: seq<Cell> := s[x][y := XorCell(s[x][y], color)];
    s[x := column]
  }

  /** Two `set_pixel` calls with the same arguments restore the screen. */
  lemma SetCellTwice(s: seq<seq<Cell>>, x: nat, y: nat, color: Byte)
    requires IsScreen(s) && x < Width && y < Height
    ensures SetCell(SetCell(s, x, y, color), x, y, color) == s
  {
    XorCellTwice(s[x][y], color);
    var r := SetCell(SetCell(s, x, y, color), x, y, color);
    assert r[x] == s[x];
  }

  class Gfx {
    var display: array2<Cell>

    ghost predicate Valid()
      reads this
    {
      display.Length0 == Width && display.Length1 == Height
    }

    /** The cells as a screen value. */
    ghost function Screen(): (s: seq<seq<Cell>>)
      reads this, display
      requires Valid()
      ensures IsScreen(s)
      ensures forall x, y :: 0 <= x < Width && 0 <= y < Height ==> s[x][y] == display[x, y]
    {
      var d := display;
      seq(Width, x requires 0 <= x < d.Length0 reads d =>
        seq(Height, y requires 0 <= y < d.Length1 reads d => d[x, y]))
    }

    /** The cell array of `Gfx::new`: every cell 0. */
    constructor ()
      ensures Valid() && fresh(display)
      ensures Screen() == Blank()
    {
      display := new Cell[Width, Height]((_, _) => 0);
      new;
      assert forall x :: 0 <= x < Width ==> Screen()[x] == Blank()[x];
    }

    /** `has_pixel`: a nonzero cell; a read only. */
    method HasPixel(x: nat, y: nat) returns (b: bool)
      requires Valid() && x < Width && y < Height
      ensures b <==> display[x, y] != 0
    {
      b := display[x, y] != 0;
    }

    /** `set_pixel`: XOR `color` into one cell, leave every other cell. */
    method SetPixel(x: nat, y: nat, color: Byte)
      requires Valid() && x < Width && y < Height
      modifies display
      ensures Screen() == SetCell(old(Screen()), x, y, color)
    {
      ghost var before := Screen();
      display[x, y] := XorCell(display[x, y], color);
      ghost var after := SetCell(before, x, y, color);
      assert forall a :: 0 <= a < Width ==> Screen()[a] == after[a];
    }

    /** `clear`: the display is replaced by an all-zero one. */
    method Clear()
      modifies this
      ensures Valid() && fresh(display)
      ensures Screen() == Blank()
    {
      display := new Cell[Width, Height]((_, _) => 0);
      assert forall x :: 0 <= x < Width ==> Screen()[x] == Blank()[x];
    }
  }

  /** After `clear`, `has_pixel` is false everywhere. */
  lemma BlankHasNoPixel(x: nat, y: nat)
    requires x < Width && y < Height
    ensures !(Blank()[x][y] != 0)
  {
  }
}
