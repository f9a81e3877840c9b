/** The `Dxyn` sprite draw of `src/chip8/chip8.rs` as a value-level specification.

    The source sets VF to 0, then for each row `i < n` and each bit `j < 7` (bit 7,
    the least significant one, is never visited) reads `Vx` and `Vy` afresh; when
    the bit is set it raises VF if the cell `(Vx + j, Vy + i)` holds exactly 1 and
    XORs the whole row byte into that cell. Coordinates do not wrap. Because `Vx`
    and `Vy` are re-read, drawing with `x == 0xF` or `y == 0xF` moves with VF;
    `BitStep` reads the registers of the current state, as the loop does. */
module Sprite {
  import opened Bits
  import opened Gfx

  const VF: nat := 0xF
  const RegisterCount: nat := 16
  /** `for j in 0..7` */
  const BitsPerRow: nat := 7

  /** The part of the machine the draw loop touches: the screen and the registers (of which only VF changes). */
  datatype DrawState = DrawState(screen: seq<seq<Cell>>, regs: seq<Byte>)

  /** What the draw needs to stay in bounds: every set bit lands on the screen.
      With `x == 0xF` the column is `VF + j <= 7` and with `y == 0xF` the row is
      `VF + i <= 15`, which are always on the screen. */
  predicate DrawSafe(regs: seq<Byte>, x: nat, y: nat, rows: seq<Byte>)
    requires |regs| == RegisterCount && x < RegisterCount && y < RegisterCount
  {
    forall i, j :: 0 <= i < |rows| && 0 <= j < BitsPerRow && SpriteBit(rows[i], j) ==>
      (x == VF || regs[x] + j < Width) && (y == VF || regs[y] + i < Height)
  }

  /** A state of the loop started from registers `regs0`: a screen, and registers
      that differ from `regs0` at most in VF, which is 0 or 1. */
  predicate Keeps(st: DrawState, regs0: seq<Byte>)
    requires |regs0| == RegisterCount
  {
    IsScreen(st.screen) && |st.regs| == RegisterCount && st.regs[VF] <= 1 &&
    st.regs == regs0[VF := st.regs[VF]]
  }

  /** The arguments every step shares. */
  predicate Args(regs0: seq<Byte>, x: nat, y: nat, rows: seq<Byte>)
  {
    |regs0| == RegisterCount && x < RegisterCount && y < RegisterCount && |rows| < 16 &&
    DrawSafe(regs0, x, y, rows)
  }

  /** A set bit of the sprite lands on the screen, whatever VF holds by then. */
  lemma StepInBounds(st: DrawState, regs0: seq<Byte>, x: nat, y: nat, rows: seq<Byte>, i: nat, j: nat)
    requires Args(regs0, x, y, rows) && Keeps(st, regs0) && i < |rows| && j < BitsPerRow
    requires SpriteBit(rows[i], j)
    ensures st.regs[x] + j < Width && st.regs[y] + i < Height
  {
  }

  /** One pass of the inner loop body: bit `j` of row `i`. */
  function BitStep(st: DrawState, regs0: seq<Byte>, x: nat, y: nat, rows: seq<Byte>, i: nat, j: nat): (r: DrawState)
    requires Args(regs0, x, y, rows) && Keeps(st, regs0) && i < |rows| && j < BitsPerRow
    ensures Keeps(r, regs0)
  {
    if !SpriteBit(rows[i], j) then st
    else
      var cx := st.regs[x] + j;
      var cy := st.regs[y] + i;
      var regs := if st.screen[cx][cy] == 1 then st.regs[VF := 1] else st.regs;
      DrawState(SetCell(st.screen, cx, cy, rows[i]), regs)
  }

  /** Bits `0..j` of row `i`. */
  function RowBits(st: DrawState, regs0: seq<Byte>, x: nat, y: nat, rows: seq<Byte>, i: nat, j: nat): (r: DrawState)
    requires Args(regs0, x, y, rows) && Keeps(st, regs0) && i < |rows| && j <= BitsPerRow
    ensures Keeps(r, regs0)
    decreases j
  {
    if j == 0 then st
    else BitStep(RowBits(st, regs0, x, y, rows, i, j - 1), regs0, x, y, rows, i, j - 1)
  }

  /** Rows `0..i`. */
  function RowsDone(st: DrawState, regs0: seq<Byte>, x: nat, y: nat, rows: seq<Byte>, i: nat): (r: DrawState)
    requires Args(regs0, x, y, rows) && Keeps(st, regs0) && i <= |rows|
    ensures Keeps(r, regs0)
    decreases i
  {
    if i == 0 then st
    else RowBits(RowsDone(st, regs0, x, y, rows, i - 1), regs0, x, y, rows, i - 1, BitsPerRow)
  }

  /** The loop's start: VF cleared, the screen and the other registers untouched. */
  function Start(screen: seq<seq<Cell>>, regs: seq<Byte>): (st: DrawState)
    requires IsScreen(screen) && |regs| == RegisterCount
    ensures Keeps(st, regs) && st.regs[VF] == 0 && st.screen == screen
  {
    DrawState(screen, regs[VF := 0])
  }

  /** The whole draw of `rows` at `(Vx, Vy)`. */
  function Draw(screen: seq<seq<Cell>>, regs: seq<Byte>, x: nat, y: nat, rows: seq<Byte>): (r: DrawState)
    requires IsScreen(screen) && Args(regs, x, y, rows)
    ensures IsScreen(r.screen) && |r.regs| == RegisterCount && r.regs[VF] <= 1
    ensures forall k :: 0 <= k < RegisterCount && k != VF ==> r.regs[k] == regs[k]
  {
    RowsDone(Start(screen, regs), regs, x, y, rows, |rows|)
  }

  // ---- Closed form when neither coordinate register is VF ----

  /** Cell `(a, b)` is one the draw toggles: it lies under bit `a - vx` of row `b - vy`, and that bit is set. */
  predicate Visited(vx: nat, vy: nat, rows: seq<Byte>, a: nat, b: nat)
  {
    vx <= a < vx + BitsPerRow && vy <= b < vy + |rows| && SpriteBit(rows[b - vy], a - vx)
  }

  /** As `Visited`, restricted to the steps before bit `j` of row `i`. */
  predicate VisitedBefore(vx: nat, vy: nat, rows: seq<Byte>, a: nat, b: nat, i: nat, j: nat)
  {
    Visited(vx, vy, rows, a, b) && (b - vy < i || (b - vy == i && a - vx < j))
  }

  /** Some set bit falls on a cell that held exactly 1. */
  predicate Collides(screen: seq<seq<Cell>>, vx: nat, vy: nat, rows: seq<Byte>)
    requires IsScreen(screen)
  {
    exists i, j :: 0 <= i < |rows| && 0 <= j < BitsPerRow && SpriteBit(rows[i], j) &&
      vx + j < Width && vy + i < Height && screen[vx + j][vy + i] == 1
  }

  predicate CollidesBefore(screen: seq<seq<Cell>>, vx: nat, vy: nat, rows: seq<Byte>, i: nat, j: nat)
    requires IsScreen(screen)
  {
    exists i', j' :: 0 <= i' < |rows| && 0 <= j' < BitsPerRow && (i' < i || (i' == i && j' < j)) &&
      SpriteBit(rows[i'], j') && vx + j' < Width && vy + i' < Height && screen[vx + j'][vy + i'] == 1
  }

  /** The state after every step before bit `j` of row `i`, in closed form. */
  predicate DoneUpTo(st: DrawState, screen: seq<seq<Cell>>, regs: seq<Byte>, x: nat, y: nat, rows: seq<Byte>, i: nat, j: nat)
    requires IsScreen(screen) && |regs| == RegisterCount && x < RegisterCount && y < RegisterCount
  {
    IsScreen(st.screen) &&
    st.regs == regs[VF := if CollidesBefore(screen, regs[x], regs[y], rows, i, j) then 1 else 0] &&
    ScreenUpTo(st.screen, screen, regs[x], regs[y], rows, i, j)
  }

  /** Step `(i, j)` adds exactly its own cell to the visited set. */
  lemma VisitedStep(vx: nat, vy: nat, rows: seq<Byte>, i: nat, j: nat, a: nat, b: nat)
    requires i < |rows| && j < BitsPerRow
    ensures VisitedBefore(vx, vy, rows, a, b, i, j + 1) <==>
            VisitedBefore(vx, vy, rows, a, b, i, j) || (SpriteBit(rows[i], j) && a == vx + j && b == vy + i)
  {
  }

  /** Step `(i, j)` adds exactly its own cell to the collision test. */
  lemma {:induction false} CollidesStep(screen: seq<seq<Cell>>, vx: nat, vy: nat, rows: seq<Byte>, i: nat, j: nat)
    requires IsScreen(screen) && i < |rows| && j < BitsPerRow
    requires SpriteBit(rows[i], j) ==> vx + j < Width && vy + i < Height
    ensures CollidesBefore(screen, vx, vy, rows, i, j + 1) <==>
            CollidesBefore(screen, vx, vy, rows, i, j) || (SpriteBit(rows[i], j) && screen[vx + j][vy + i] == 1)
  {
    if CollidesBefore(screen, vx, vy, rows, i, j + 1) && !(SpriteBit(rows[i], j) && screen[vx + j][vy + i] == 1) {
      var i', j' :| 0 <= i' < |rows| && 0 <= j' < BitsPerRow && (i' < i || (i' == i && j' < j + 1)) &&
        SpriteBit(rows[i'], j') && vx + j' < Width && vy + i' < Height && screen[vx + j'][vy + i'] == 1;
      assert i' != i || j' != j;
      assert CollidesBefore(screen, vx, vy, rows, i, j);
    }
    if SpriteBit(rows[i], j) && screen[vx + j][vy + i] == 1 {
      assert CollidesBefore(screen, vx, vy, rows, i, j + 1) by {
        var i', j' := i, j;
        assert 0 <= i' < |rows| && 0 <= j' < BitsPerRow && (i' < i || (i' == i && j' < j + 1)) &&
          SpriteBit(rows[i'], j') && vx + j' < Width && vy + i' < Height && screen[vx + j'][vy + i'] == 1;
      }
    }
  }

  /** The closed form of the screen alone. */
  predicate ScreenUpTo(cur: seq<seq<Cell>>, screen: seq<seq<Cell>>, vx: nat, vy: nat, rows: seq<Byte>, i: nat, j: nat)
    requires IsScreen(cur) && IsScreen(screen)
  {
    forall a, b :: 0 <= a < Width && 0 <= b < Height ==>
      cur[a][b] == if VisitedBefore(vx, vy, rows, a, b, i, j) then XorCell(screen[a][b], rows[b - vy]) else screen[a][b]
  }

  lemma ScreenStepUnset(cur: seq<seq<Cell>>, screen: seq<seq<Cell>>, vx: nat, vy: nat, rows: seq<Byte>, i: nat, j: nat)
    requires IsScreen(cur) && IsScreen(screen) && i < |rows| && j < BitsPerRow && !SpriteBit(rows[i], j)
    requires ScreenUpTo(cur, screen, vx, vy, rows, i, j)
    ensures ScreenUpTo(cur, screen, vx, vy, rows, i, j + 1)
  {
    forall a, b | 0 <= a < Width && 0 <= b < Height
      ensures VisitedBefore(vx, vy, rows, a, b, i, j + 1) == VisitedBefore(vx, vy, rows, a, b, i, j)
    {
      VisitedStep(vx, vy, rows, i, j, a, b);
    }
  }

  lemma ScreenStepSet(cur: seq<seq<Cell>>, screen: seq<seq<Cell>>, vx: nat, vy: nat, rows: seq<Byte>, i: nat, j: nat)
    requires IsScreen(cur) && IsScreen(screen) && i < |rows| && j < BitsPerRow && SpriteBit(rows[i], j)
    requires vx + j < Width && vy + i < Height
    requires ScreenUpTo(cur, screen, vx, vy, rows, i, j)
    ensures cur[vx + j][vy + i] == screen[vx + j][vy + i]
    ensures ScreenUpTo(SetCell(cur, vx + j, vy + i, rows[i]), screen, vx, vy, rows, i, j + 1)
  {
    assert !VisitedBefore(vx, vy, rows, vx + j, vy + i, i, j);
    var next := SetCell(cur, vx + j, vy + i, rows[i]);
    forall a, b | 0 <= a < Width && 0 <= b < Height
      ensures next[a][b] == if VisitedBefore(vx, vy, rows, a, b, i, j + 1)
                            then XorCell(screen[a][b], rows[b - vy]) else screen[a][b]
    {
      VisitedStep(vx, vy, rows, i, j, a, b);
    }
  }

  lemma {:induction false} BitStepDone(st: DrawState, screen: seq<seq<Cell>>, regs: seq<Byte>, x: nat, y: nat, rows: seq<Byte>, i: nat, j: nat)
    requires IsScreen(screen) && Args(regs, x, y, rows) && x != VF && y != VF
    requires Keeps(st, regs) && i < |rows| && j < BitsPerRow
    requires DoneUpTo(st, screen, regs, x, y, rows, i, j)
    ensures DoneUpTo(BitStep(st, regs, x, y, rows, i, j), screen, regs, x, y, rows, i, j + 1)
  {
    var vx, vy := regs[x], regs[y];
    assert st.regs[x] == vx && st.regs[y] == vy;
    assert ScreenUpTo(st.screen, screen, vx, vy, rows, i, j);
    CollidesStep(screen, vx, vy, rows, i, j);
    var r := BitStep(st, regs, x, y, rows, i, j);
    if SpriteBit(rows[i], j) {
      ScreenStepSet(st.screen, screen, vx, vy, rows, i, j);
      assert ScreenUpTo(r.screen, screen, vx, vy, rows, i, j + 1);
    } else {
      ScreenStepUnset(st.screen, screen, vx, vy, rows, i, j);
      assert ScreenUpTo(r.screen, screen, vx, vy, rows, i, j + 1);
    }
  }

  lemma {:induction false} RowBitsDone(st: DrawState, screen: seq<seq<Cell>>, regs: seq<Byte>, x: nat, y: nat, rows: seq<Byte>, i: nat, j: nat)
    requires IsScreen(screen) && Args(regs, x, y, rows) && x != VF && y != VF
    requires Keeps(st, regs) && i < |rows| && j <= BitsPerRow
    requires DoneUpTo(st, screen, regs, x, y, rows, i, 0)
    ensures DoneUpTo(RowBits(st, regs, x, y, rows, i, j), screen, regs, x, y, rows, i, j)
    decreases j
  {
    if j > 0 {
      RowBitsDone(st, screen, regs, x, y, rows, i, j - 1);
      BitStepDone(RowBits(st, regs, x, y, rows, i, j - 1), screen, regs, x, y, rows, i, j - 1);
    }
  }

  /** Finishing row `i - 1` is the same as starting row `i`. */
  lemma RowBoundary(st: DrawState, screen: seq<seq<Cell>>, regs: seq<Byte>, x: nat, y: nat, rows: seq<Byte>, i: nat)
    requires IsScreen(screen) && |regs| == RegisterCount && x < RegisterCount && y < RegisterCount && 0 < i
    requires DoneUpTo(st, screen, regs, x, y, rows, i - 1, BitsPerRow)
    ensures DoneUpTo(st, screen, regs, x, y, rows, i, 0)
  {
    var vx, vy := regs[x], regs[y];
    assert CollidesBefore(screen, vx, vy, rows, i - 1, BitsPerRow) == CollidesBefore(screen, vx, vy, rows, i, 0);
    forall a, b | 0 <= a < Width && 0 <= b < Height
      ensures VisitedBefore(vx, vy, rows, a, b, i - 1, BitsPerRow) == VisitedBefore(vx, vy, rows, a, b, i, 0)
    {
    }
  }

  lemma StartDone(screen: seq<seq<Cell>>, regs: seq<Byte>, x: nat, y: nat, rows: seq<Byte>)
    requires IsScreen(screen) && |regs| == RegisterCount && x < RegisterCount && y < RegisterCount
    ensures DoneUpTo(Start(screen, regs), screen, regs, x, y, rows, 0, 0)
  {
    assert !CollidesBefore(screen, regs[x], regs[y], rows, 0, 0);
  }

  /** Drawing row `i - 1` in full takes the loop from the start of that row to the start of row `i`. */
  lemma RowDone(st: DrawState, screen: seq<seq<Cell>>, regs: seq<Byte>, x: nat, y: nat, rows: seq<Byte>, i: nat)
    requires IsScreen(screen) && Args(regs, x, y, rows) && x != VF && y != VF
    requires Keeps(st, regs) && 0 < i <= |rows|
    requires DoneUpTo(st, screen, regs, x, y, rows, i - 1, 0)
    ensures DoneUpTo(RowBits(st, regs, x, y, rows, i - 1, BitsPerRow), screen, regs, x, y, rows, i, 0)
  {
    RowBitsDone(st, screen, regs, x, y, rows, i - 1, BitsPerRow);
    RowBoundary(RowBits(st, regs, x, y, rows, i - 1, BitsPerRow), screen, regs, x, y, rows, i);
  }

  /** Rows `0..i` are rows `0..i - 1` followed by row `i - 1`. */
  lemma RowsDoneLast(st: DrawState, regs0: seq<Byte>, x: nat, y: nat, rows: seq<Byte>, i: nat)
    requires Args(regs0, x, y, rows) && Keeps(st, regs0) && 0 < i <= |rows|
    ensures RowsDone(st, regs0, x, y, rows, i) == RowBits(RowsDone(st, regs0, x, y, rows, i - 1), regs0, x, y, rows, i - 1, BitsPerRow)
  {
  }

  lemma {:induction false} RowsDoneDone(screen: seq<seq<Cell>>, regs: seq<Byte>, x: nat, y: nat, rows: seq<Byte>, i: nat)
    requires IsScreen(screen) && Args(regs, x, y, rows) && x != VF && y != VF && i <= |rows|
    ensures DoneUpTo(RowsDone(Start(screen, regs), regs, x, y, rows, i), screen, regs, x, y, rows, i, 0)
    decreases i
  {
    if i == 0 {
      StartDone(screen, regs, x, y, rows);
    } else {
      RowsDoneDone(screen, regs, x, y, rows, i - 1);
      assert DoneUpTo(RowsDone(Start(screen, regs), regs, x, y, rows, i - 1), screen, regs, x, y, rows, i - 1, 0);
      RowsDoneStep(Start(screen, regs), screen, regs, x, y, rows, i);
    }
  }

  /** From any loop start, finishing rows `0..i - 1` and then row `i - 1` finishes rows `0..i`. */
  lemma RowsDoneStep(st: DrawState, screen: seq<seq<Cell>>, regs: seq<Byte>, x: nat, y: nat, rows: seq<Byte>, i: nat)
    requires IsScreen(screen) && Args(regs, x, y, rows) && x != VF && y != VF
    requires Keeps(st, regs) && 0 < i <= |rows|
    requires DoneUpTo(RowsDone(st, regs, x, y, rows, i - 1), screen, regs, x, y, rows, i - 1, 0)
    ensures DoneUpTo(RowsDone(st, regs, x, y, rows, i), screen, regs, x, y, rows, i, 0)
  {
    RowDone(RowsDone(st, regs, x, y, rows, i - 1), screen, regs, x, y, rows, i);
    RowsDoneLast(st, regs, x, y, rows, i);
  }

  /** `after` is `screen` with exactly the visited cells XORed with their row byte. */
  predicate Toggled(after: seq<seq<Cell>>, screen: seq<seq<Cell>>, vx: nat, vy: nat, rows: seq<Byte>)
    requires IsScreen(after) && IsScreen(screen)
  {
    forall a, b :: 0 <= a < Width && 0 <= b < Height ==>
      after[a][b] == if Visited(vx, vy, rows, a, b) then XorCell(screen[a][b], rows[b - vy]) else screen[a][b]
  }

  /** With neither coordinate register being VF, the draw toggles exactly the
      visited cells, each by XOR with its row byte, leaves every other cell, and
      sets VF to 1 exactly when some visited cell held 1. */
  lemma DrawClosedForm(screen: seq<seq<Cell>>, regs: seq<Byte>, x: nat, y: nat, rows: seq<Byte>)
    requires IsScreen(screen) && Args(regs, x, y, rows) && x != VF && y != VF
    ensures var r := Draw(screen, regs, x, y, rows);
      r.regs == regs[VF := if Collides(screen, regs[x], regs[y], rows) then 1 else 0] &&
      Toggled(r.screen, screen, regs[x], regs[y], rows)
  {
    var vx, vy := regs[x], regs[y];
    RowsDoneDone(screen, regs, x, y, rows, |rows|);
    assert CollidesBefore(screen, vx, vy, rows, |rows|, 0) == Collides(screen, vx, vy, rows);
    forall a, b | 0 <= a < Width && 0 <= b < Height
      ensures VisitedBefore(vx, vy, rows, a, b, |rows|, 0) == Visited(vx, vy, rows, a, b)
    {
    }
  }

  /** Drawing the same sprite twice at the same place restores the screen. */
  lemma DrawTwiceRestores(screen: seq<seq<Cell>>, regs: seq<Byte>, x: nat, y: nat, rows: seq<Byte>)
    requires IsScreen(screen) && Args(regs, x, y, rows) && x != VF && y != VF
    ensures var once := Draw(screen, regs, x, y, rows);
      Args(once.regs, x, y, rows) && Draw(once.screen, once.regs, x, y, rows).screen == screen
  {
    var once := Draw(screen, regs, x, y, rows);
    DrawClosedForm(screen, regs, x, y, rows);
    assert once.regs[x] == regs[x] && once.regs[y] == regs[y];
    assert DrawSafe(once.regs, x, y, rows);
    DrawClosedForm(once.screen, once.regs, x, y, rows);
    var twice := Draw(once.screen, once.regs, x, y, rows);
    forall a, b | 0 <= a < Width && 0 <= b < Height
      ensures twice.screen[a][b] == screen[a][b]
    {
      if Visited(regs[x], regs[y], rows, a, b) {
        XorCellTwice(screen[a][b], rows[b - regs[y]]);
      }
    }
    assert forall a :: 0 <= a < Width ==> twice.screen[a] == screen[a];
  }
}
