/**
 * The sprite draw of `Dxyn` (apps/chip8/vm.c:172-185), stated declaratively.
 *
 * A sprite is the list of its row bytes `rows` (memory[i..i+n]). Sprite
 * column `col` (0..7) and row `row` (0..n-1) land on the screen cell
 * `((vx + col) mod 64, (vy + row) mod 32)`, stored at index `x * 32 + y`.
 */
module Sprite {
  import opened Chip8Types

  /** The screen index of sprite cell (col, row) drawn at (vx, vy). */
  function Cell(vx: byte, vy: byte, col: nat, row: nat): (k: nat)
    ensures k < SCREEN_CELLS
  {
    ((vx + col) % SCREEN_WIDTH) * SCREEN_HEIGHT + (vy + row) % SCREEN_HEIGHT
  }

  /** The sprite column a screen index lies in, counted from vx with wrap-around. */
  function ColOffset(vx: byte, k: nat): nat
  {
    (k / SCREEN_HEIGHT - vx) % SCREEN_WIDTH
  }

  /** The sprite row a screen index lies in, counted from vy with wrap-around. */
  function RowOffset(vy: byte, k: nat): nat
  {
    (k % SCREEN_HEIGHT - vy) % SCREEN_HEIGHT
  }

  /** Screen index k is one of the 8 x |rows| cells the sprite touches. */
  predicate Covered(rows: seq<byte>, vx: byte, vy: byte, k: nat)
  {
    ColOffset(vx, k) < 8 && RowOffset(vy, k) < |rows|
  }

  /**
   * The bit the draw loop samples for sprite column `col`:
   * `(b & (1 << (8 - col))) > 0`. Column 0 tests bit 8, which a byte never
   * has (see ColumnZeroIsBlank), and bit 0 is never tested; the
   * textbook CHIP-8 draw tests bit `7 - col`.
   */
  function SpriteBit(b: byte, col: nat): bool
    requires col < 8
  {
    (b as bv16) & ((1 as bv16) << (8 - col)) != 0
  }

  /** The bit drawn onto covered screen index k. */
  function BitAt(rows: seq<byte>, vx: byte, vy: byte, k: nat): bool
    requires Covered(rows, vx, vy, k)
  {
    SpriteBit(rows[RowOffset(vy, k)], ColOffset(vx, k))
  }

  /** The screen after the draw: every covered cell is XOR-ed with its bit. */
  function DrawScreen(screen: seq<bool>, rows: seq<byte>, vx: byte, vy: byte): (r: seq<bool>)
    requires |screen| == SCREEN_CELLS
    ensures |r| == SCREEN_CELLS
  {
    seq(SCREEN_CELLS, k requires 0 <= k < SCREEN_CELLS =>
      if Covered(rows, vx, vy, k) then screen[k] != BitAt(rows, vx, vy, k) else screen[k])
  }

  /** The collision flag: some sampled bit is set on a cell that was on. */
  predicate Collides(screen: seq<bool>, rows: seq<byte>, vx: byte, vy: byte)
    requires |screen| == SCREEN_CELLS
  {
    exists col: nat, row: nat :: col < 8 && row < |rows|
      && screen[Cell(vx, vy, col, row)] && SpriteBit(rows[row], col)
  }

  // ---------------------------------------------------------------------------
  // Cell arithmetic

  /** x mod m is r when x is r plus a multiple of m (m is the width or the height). */
  lemma ModOfMultiple(x: int, k: int, r: int, m: int)
    requires m == SCREEN_WIDTH || m == SCREEN_HEIGHT
    requires x == k * m + r && 0 <= r < m
    ensures x % m == r
  {
    if m == SCREEN_WIDTH {
      ModOfMultiple64(x, k, r);
    } else {
      ModOfMultiple32(x, k, r);
    }
  }

  lemma ModOfMultiple64(x: int, k: int, r: int)
    requires x == k * 64 + r && 0 <= r < 64
    ensures x % 64 == r
  {
  }

  lemma ModOfMultiple32(x: int, k: int, r: int)
    requires x == k * 32 + r && 0 <= r < 32
    ensures x % 32 == r
  {
  }

  /** Reducing a column or row offset mod the screen size and adding the
      origin back gives the coordinate again. */
  lemma WrapBack(a: int, b: int, m: int)
    requires m == SCREEN_WIDTH || m == SCREEN_HEIGHT
    requires 0 <= a < m
    ensures (b + (a - b) % m) % m == a
  {
    var k := (a - b) / m;
    assert a - b == k * m + (a - b) % m;
    ModOfMultiple(b + (a - b) % m, -k, a, m);
  }

  /** The offset of a wrapped coordinate from its origin is the offset itself. */
  lemma WrapOffset(base: int, off: int, m: int)
    requires m == SCREEN_WIDTH || m == SCREEN_HEIGHT
    requires 0 <= off < m
    ensures ((base + off) % m - base) % m == off
  {
    var k := (base + off) / m;
    assert base + off == k * m + (base + off) % m;
    ModOfMultiple((base + off) % m - base, -k, off, m);
  }

  /** A sprite cell's screen index leads back to the same column and row. */
  lemma {:induction false} CellOffsets(vx: byte, vy: byte, col: nat, row: nat)
    requires col < 8 && row < SCREEN_HEIGHT
    ensures ColOffset(vx, Cell(vx, vy, col, row)) == col
    ensures RowOffset(vy, Cell(vx, vy, col, row)) == row
  {
    var c := (vx + col) % SCREEN_WIDTH;
    var r := (vy + row) % SCREEN_HEIGHT;
    var k := c * SCREEN_HEIGHT + r;
    assert k / SCREEN_HEIGHT == c && k % SCREEN_HEIGHT == r;
    WrapOffset(vx, col, SCREEN_WIDTH);
    WrapOffset(vy, row, SCREEN_HEIGHT);
  }

  /** Every screen index is the cell of its own column and row offsets. */
  lemma {:induction false} OffsetsDetermineCell(vx: byte, vy: byte, k: nat)
    requires k < SCREEN_CELLS
    ensures k == Cell(vx, vy, ColOffset(vx, k), RowOffset(vy, k))
  {
    var c := k / SCREEN_HEIGHT;
    var r := k % SCREEN_HEIGHT;
    assert k == c * SCREEN_HEIGHT + r;
    WrapBack(c, vx, SCREEN_WIDTH);
    WrapBack(r, vy, SCREEN_HEIGHT);
  }

  // ---------------------------------------------------------------------------
  // Properties of the draw

  /** Column 0 tests bit 8, which no byte has: the first column is never drawn. */
  lemma ColumnZeroIsBlank(b: byte)
    ensures !SpriteBit(b, 0)
  {}

  /** Each of the 8 x n wrapped sprite cells becomes its old value XOR its sampled bit. */
  lemma {:induction false} DrawFlipsSpriteCells(screen: seq<bool>, rows: seq<byte>, vx: byte, vy: byte, col: nat, row: nat)
    requires |screen| == SCREEN_CELLS && |rows| <= SCREEN_HEIGHT
    requires col < 8 && row < |rows|
    ensures DrawScreen(screen, rows, vx, vy)[Cell(vx, vy, col, row)]
         == (screen[Cell(vx, vy, col, row)] != SpriteBit(rows[row], col))
  {
    CellOffsets(vx, vy, col, row);
  }

  /** A cell that is no sprite cell keeps its value. */
  lemma {:induction false} DrawKeepsOtherCells(screen: seq<bool>, rows: seq<byte>, vx: byte, vy: byte, k: nat)
    requires |screen| == SCREEN_CELLS && k < SCREEN_CELLS
    requires forall col: nat, row: nat :: col < 8 && row < |rows| ==> k != Cell(vx, vy, col, row)
    ensures DrawScreen(screen, rows, vx, vy)[k] == screen[k]
  {
    OffsetsDetermineCell(vx, vy, k);
  }

  /** Drawing the same sprite at the same place twice restores the screen. */
  lemma DrawTwiceRestores(screen: seq<bool>, rows: seq<byte>, vx: byte, vy: byte)
    requires |screen| == SCREEN_CELLS
    ensures DrawScreen(DrawScreen(screen, rows, vx, vy), rows, vx, vy) == screen
  {
    var once := DrawScreen(screen, rows, vx, vy);
    var twice := DrawScreen(once, rows, vx, vy);
    forall k | 0 <= k < SCREEN_CELLS
      ensures twice[k] == screen[k]
    {}
  }

  /** The second of two identical draws collides exactly where a sampled bit
      lands on a cell that was off before the first draw; on a blank screen,
      exactly when the sprite has a sampled bit set at all. */
  lemma {:induction false} RedrawCollides(screen: seq<bool>, rows: seq<byte>, vx: byte, vy: byte)
    requires |screen| == SCREEN_CELLS && |rows| <= SCREEN_HEIGHT
    ensures Collides(DrawScreen(screen, rows, vx, vy), rows, vx, vy)
        <==> exists col: nat, row: nat :: col < 8 && row < |rows|
               && !screen[Cell(vx, vy, col, row)] && SpriteBit(rows[row], col)
  {
    var once := DrawScreen(screen, rows, vx, vy);
    forall col: nat, row: nat | col < 8 && row < |rows|
      ensures once[Cell(vx, vy, col, row)] == (screen[Cell(vx, vy, col, row)] != SpriteBit(rows[row], col))
    {
      DrawFlipsSpriteCells(screen, rows, vx, vy, col, row);
    }
  }

  // ---------------------------------------------------------------------------
  // The draw loop, one cell at a time

  /** The loop visits column by column, and within a column row by row:
      cell (col, row) comes before the loop position (xl, yl). */
  predicate Before(col: nat, row: nat, xl: nat, yl: nat)
  {
    col < xl || (col == xl && row < yl)
  }

  /** The screen once the loop has handled every cell before (xl, yl). */
  function PartialDraw(screen: seq<bool>, rows: seq<byte>, vx: byte, vy: byte, xl: nat, yl: nat): (r: seq<bool>)
    requires |screen| == SCREEN_CELLS
    ensures |r| == SCREEN_CELLS
  {
    seq(SCREEN_CELLS, k requires 0 <= k < SCREEN_CELLS =>
      if Covered(rows, vx, vy, k) && Before(ColOffset(vx, k), RowOffset(vy, k), xl, yl)
      then screen[k] != BitAt(rows, vx, vy, k)
      else screen[k])
  }

  /** Cell (col, row) of the sprite is set and lands on a lit screen cell. */
  predicate Hit(screen: seq<bool>, rows: seq<byte>, vx: byte, vy: byte, col: nat, row: nat)
    requires |screen| == SCREEN_CELLS
  {
    col < 8 && row < |rows| && screen[Cell(vx, vy, col, row)] && SpriteBit(rows[row], col)
  }

  /** The collision flag once the loop has handled every cell before (xl, yl),
      accumulated in the order of the loop. */
  predicate CollidesBefore(screen: seq<bool>, rows: seq<byte>, vx: byte, vy: byte, xl: nat, yl: nat)
    requires |screen| == SCREEN_CELLS && yl <= |rows|
    decreases xl, yl
  {
    if yl > 0 then CollidesBefore(screen, rows, vx, vy, xl, yl - 1) || Hit(screen, rows, vx, vy, xl, yl - 1)
    else xl > 0 && CollidesBefore(screen, rows, vx, vy, xl - 1, |rows|)
  }

  /** The accumulated flag says some cell before (xl, yl) is a hit. */
  lemma {:induction false} CollidesBeforeMeans(screen: seq<bool>, rows: seq<byte>, vx: byte, vy: byte, xl: nat, yl: nat)
    requires |screen| == SCREEN_CELLS && yl <= |rows|
    ensures CollidesBefore(screen, rows, vx, vy, xl, yl)
        <==> exists col: nat, row: nat :: Before(col, row, xl, yl) && Hit(screen, rows, vx, vy, col, row)
    decreases xl, yl
  {
    if yl > 0 {
      CollidesBeforeMeans(screen, rows, vx, vy, xl, yl - 1);
      if Hit(screen, rows, vx, vy, xl, yl - 1) {
        assert Before(xl, yl - 1, xl, yl);
      }
      if exists col: nat, row: nat :: Before(col, row, xl, yl) && Hit(screen, rows, vx, vy, col, row) {
        var col: nat, row: nat :| Before(col, row, xl, yl) && Hit(screen, rows, vx, vy, col, row);
        if !(col == xl && row == yl - 1) {
          assert Before(col, row, xl, yl - 1);
        }
      }
    } else if xl > 0 {
      CollidesBeforeMeans(screen, rows, vx, vy, xl - 1, |rows|);
      if exists col: nat, row: nat :: Before(col, row, xl, 0) && Hit(screen, rows, vx, vy, col, row) {
        var col: nat, row: nat :| Before(col, row, xl, 0) && Hit(screen, rows, vx, vy, col, row);
        assert Before(col, row, xl - 1, |rows|);
      }
    }
  }

  /** Before the loop nothing is drawn and nothing has collided. */
  lemma PartialDrawStart(screen: seq<bool>, rows: seq<byte>, vx: byte, vy: byte)
    requires |screen| == SCREEN_CELLS
    ensures PartialDraw(screen, rows, vx, vy, 0, 0) == screen
    ensures !CollidesBefore(screen, rows, vx, vy, 0, 0)
  {}

  /** Handling cell (xl, yl) XORs its bit into that one cell, which until
      then still held its original value, and adds it to the collision test. */
  lemma {:induction false} PartialDrawStep(screen: seq<bool>, rows: seq<byte>, vx: byte, vy: byte, xl: nat, yl: nat)
    requires |screen| == SCREEN_CELLS && |rows| <= SCREEN_HEIGHT
    requires xl < 8 && yl < |rows|
    ensures PartialDraw(screen, rows, vx, vy, xl, yl)[Cell(vx, vy, xl, yl)] == screen[Cell(vx, vy, xl, yl)]
    ensures PartialDraw(screen, rows, vx, vy, xl, yl)[Cell(vx, vy, xl, yl) := screen[Cell(vx, vy, xl, yl)] != SpriteBit(rows[yl], xl)]
         == PartialDraw(screen, rows, vx, vy, xl, yl + 1)
    ensures CollidesBefore(screen, rows, vx, vy, xl, yl + 1)
        <==> CollidesBefore(screen, rows, vx, vy, xl, yl) || (screen[Cell(vx, vy, xl, yl)] && SpriteBit(rows[yl], xl))
  {
    var cell := Cell(vx, vy, xl, yl);
    var before := PartialDraw(screen, rows, vx, vy, xl, yl);
    var after := PartialDraw(screen, rows, vx, vy, xl, yl + 1);
    CellOffsets(vx, vy, xl, yl);
    forall k | 0 <= k < SCREEN_CELLS && k != cell
      ensures before[k] == after[k]
    {
      OffsetsDetermineCell(vx, vy, k);
    }
    assert before[cell := screen[cell] != SpriteBit(rows[yl], xl)] == after;
  }

  /** The end of a column is the start of the next one. */
  lemma {:induction false} PartialDrawNextColumn(screen: seq<bool>, rows: seq<byte>, vx: byte, vy: byte, xl: nat)
    requires |screen| == SCREEN_CELLS
    ensures PartialDraw(screen, rows, vx, vy, xl, |rows|) == PartialDraw(screen, rows, vx, vy, xl + 1, 0)
    ensures CollidesBefore(screen, rows, vx, vy, xl, |rows|) <==> CollidesBefore(screen, rows, vx, vy, xl + 1, 0)
  {
  }

  /** After all 8 columns the loop has drawn the whole sprite. */
  lemma {:induction false} PartialDrawDone(screen: seq<bool>, rows: seq<byte>, vx: byte, vy: byte)
    requires |screen| == SCREEN_CELLS
    ensures PartialDraw(screen, rows, vx, vy, 8, 0) == DrawScreen(screen, rows, vx, vy)
    ensures CollidesBefore(screen, rows, vx, vy, 8, 0) <==> Collides(screen, rows, vx, vy)
  {
    CollidesBeforeMeans(screen, rows, vx, vy, 8, 0);
    if Collides(screen, rows, vx, vy) {
      var col: nat, row: nat :| col < 8 && row < |rows|
        && screen[Cell(vx, vy, col, row)] && SpriteBit(rows[row], col);
      assert Before(col, row, 8, 0) && Hit(screen, rows, vx, vy, col, row);
    }
  }
}
