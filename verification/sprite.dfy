/**
 * The DXYN sprite drawing loop.
 *
 * A sprite is `height` bytes read from memory[I..]; byte `line` is row `line`
 * and its bit 7 is the leftmost pixel.  Every 1-bit toggles the video cell at
 * `x + col + (y + line) * 64`.  The source does not wrap coordinates at the
 * screen edge; a pixel that falls past the end of the video buffer is a fault.
 */
module Sprite {
  import opened Bits
  import opened Results
  import opened Machine

  /** Pixel `col` of a sprite row: bit `7 - col`, so bit 7 is the leftmost pixel. */
  predicate SpriteBit(row: Byte, col: nat)
    requires col < 8
  {
    Bit(row, 7 - col) == 1
  }

  /** The source's mask `0x80 >> col` is the single bit `7 - col`. */
  function PixelMask(col: nat): (r: nat)
    requires col < 8
    ensures r == Pow2(7 - col)
  {
    ShiftMask(col);
    0x80 / Pow2(col)
  }

  lemma ShiftMask(col: nat)
    requires col < 8
    ensures 0x80 / Pow2(col) == Pow2(7 - col)
  {
    assert Pow2(1) == 2 && Pow2(2) == 4 && Pow2(3) == 8;
    assert Pow2(4) == 0x10 && Pow2(5) == 0x20 && Pow2(6) == 0x40 && Pow2(7) == 0x80;
    if col == 0 {
    } else if col == 1 {
    } else if col == 2 {
    } else if col == 3 {
    } else if col == 4 {
    } else if col == 5 {
    } else if col == 6 {
    } else {
    }
  }

  /** The source's test `row & (0x80 >> col)` selects the same pixels. */
  lemma SpriteBitIsMask(row: Byte, col: nat)
    requires col < 8
    ensures SpriteBit(row, col) <==> BitAnd(row, PixelMask(col), 8) != 0
  {
    AndPow2(row, 7 - col, 8);
  }

  /** A video cell after `cell ^= 1`: the lowest bit flips. */
  function Toggle(cell: Byte): Byte
  {
    if cell % 2 == 0 then cell + 1 else cell - 1
  }

  lemma ToggleIsXor(cell: Byte)
    ensures Toggle(cell) == Xor8(cell, 1)
  {
    Pow2Values();
    XorOne(cell, 8);
  }

  lemma ToggleTwice(cell: Byte)
    ensures Toggle(Toggle(cell)) == cell
  {
  }

  /** The video cells while a sprite is drawn, and whether a lit pixel was erased. */
  datatype Canvas = Canvas(cells: seq<Byte>, collided: bool)

  /** The inner loop of DXYN: pixels `col..7` of one sprite row starting at cell `base`. */
  function PlotRow(cv: Canvas, base: nat, row: Byte, col: nat): (r: Result<Canvas, Fault>)
    requires col <= 8
    ensures r.Err? ==> r.error == VideoOutOfRange
    decreases 8 - col
  {
    if col == 8 then Ok(cv)
    else if !SpriteBit(row, col) then PlotRow(cv, base, row, col + 1)
    else if base + col >= |cv.cells| then Err(VideoOutOfRange)
    else
      var k := base + col;
      var plotted := Canvas(cv.cells[k := Toggle(cv.cells[k])], cv.collided || cv.cells[k] == 1);
      PlotRow(plotted, base, row, col + 1)
  }

  /** The outer loop of DXYN: sprite rows `line..height-1`. */
  function PlotRows(cv: Canvas, memory: seq<Byte>, i: nat, x: nat, y: nat, line: nat, height: nat)
    : (r: Result<Canvas, Fault>)
    requires line <= height
    ensures r.Err? ==> r.error == VideoOutOfRange || r.error == MemoryOutOfRange
    decreases height - line
  {
    if line == height then Ok(cv)
    else if i + line >= |memory| then Err(MemoryOutOfRange)
    else
      var next :- PlotRow(cv, x + (y + line) * ScreenWidth, memory[i + line], 0);
      PlotRows(next, memory, i, x, y, line + 1, height)
  }

  /** Draws the `height`-row sprite at memory[i..] at (x, y) onto `video`. */
  function Draw(video: seq<Byte>, memory: seq<Byte>, i: nat, x: nat, y: nat, height: nat)
    : (r: Result<Canvas, Fault>)
    ensures r.Err? ==> r.error == VideoOutOfRange || r.error == MemoryOutOfRange
  {
    PlotRows(Canvas(video, false), memory, i, x, y, 0, height)
  }

  // ---------------------------------------------------------------------------
  // Closed-form description of a draw

  /**
   * Cell `k` lies under a set pixel of sprite rows `line..height-1`:
   * with `d = k - x - 64 * y`, the pixel is row `d / 64`, column `d % 64`.
   */
  predicate CoversFrom(memory: seq<Byte>, i: nat, x: nat, y: nat, line: nat, height: nat, k: int)
  {
    var d := k - x - y * ScreenWidth;
    && 0 <= d
    && line <= d / ScreenWidth < height
    && d % ScreenWidth < 8
    && i + d / ScreenWidth < |memory|
    && SpriteBit(memory[i + d / ScreenWidth], d % ScreenWidth)
  }

  /** Cell `k` lies under a set pixel of the whole sprite. */
  predicate Covers(memory: seq<Byte>, i: nat, x: nat, y: nat, height: nat, k: int)
  {
    CoversFrom(memory, i, x, y, 0, height, k)
  }

  /** Every memory byte and every lit pixel of rows `line..height-1` is in range. */
  predicate FitsFrom(memory: seq<Byte>, i: nat, x: nat, y: nat, line: nat, height: nat, size: nat)
  {
    && (line < height ==> i + height <= |memory|)
    && forall a, c :: i + line <= a < i + height && a < |memory| && c < 8 && SpriteBit(memory[a], c)
         ==> x + c + (y + a - i) * ScreenWidth < size
  }

  // ---------------------------------------------------------------------------
  // The same cells, in the order the loops visit them

  /** Cell `k` is under a set pixel among columns `col..7` of the row that starts at `base`. */
  predicate RowHits(base: nat, row: Byte, col: nat, k: int)
    requires col <= 8
    decreases 8 - col
  {
    col < 8 && ((k == base + col && SpriteBit(row, col)) || RowHits(base, row, col + 1, k))
  }

  /** Cell `k` is under a set pixel of rows `line..height-1`. */
  predicate Hits(memory: seq<Byte>, i: nat, x: nat, y: nat, line: nat, height: nat, k: int)
    requires line <= height
    decreases height - line
  {
    && line < height
    && i + line < |memory|
    && (RowHits(x + (y + line) * ScreenWidth, memory[i + line], 0, k) || Hits(memory, i, x, y, line + 1, height, k))
  }

  lemma {:induction false} RowHitsWindow(base: nat, row: Byte, col: nat, k: int)
    requires col <= 8
    ensures RowHits(base, row, col, k) <==> base + col <= k < base + 8 && SpriteBit(row, k - base)
    decreases 8 - col
  {
    if col < 8 {
      RowHitsWindow(base, row, col + 1, k);
    }
  }

  /** Rows from `line` on lie at or after the start of row `line`. */
  lemma {:induction false} HitsBelow(memory: seq<Byte>, i: nat, x: nat, y: nat, line: nat, height: nat, k: int)
    requires line <= height
    ensures Hits(memory, i, x, y, line, height, k) ==> k >= x + (y + line) * ScreenWidth
    decreases height - line
  {
    if line < height && i + line < |memory| {
      RowHitsWindow(x + (y + line) * ScreenWidth, memory[i + line], 0, k);
      HitsBelow(memory, i, x, y, line + 1, height, k);
    }
  }

  /** Row `line` of the sprite occupies exactly the cells whose offset falls in that row. */
  lemma RowWindow(x: nat, y: nat, line: nat, k: int)
    ensures var base := x + (y + line) * ScreenWidth;
            var d := k - x - y * ScreenWidth;
            (base <= k < base + 8) <==> (0 <= d && d / ScreenWidth == line && d % ScreenWidth < 8)
    ensures var base := x + (y + line) * ScreenWidth;
            var d := k - x - y * ScreenWidth;
            base <= k < base + 8 ==> d % ScreenWidth == k - base
  {
  }

  /** The loop-order description and the closed form agree. */
  lemma {:induction false} HitsClosedForm(memory: seq<Byte>, i: nat, x: nat, y: nat, line: nat, height: nat, k: int)
    requires line <= height
    ensures Hits(memory, i, x, y, line, height, k) <==> CoversFrom(memory, i, x, y, line, height, k)
    decreases height - line
  {
    if line < height {
      HitsClosedForm(memory, i, x, y, line + 1, height, k);
      RowWindow(x, y, line, k);
      if i + line < |memory| {
        RowHitsWindow(x + (y + line) * ScreenWidth, memory[i + line], 0, k);
      }
    } else {
      assert !CoversFrom(memory, i, x, y, line, height, k);
    }
  }

  // ---------------------------------------------------------------------------
  // What the loops compute

  lemma {:induction false} PlotRowOk(cv: Canvas, base: nat, row: Byte, col: nat)
    requires col <= 8
    ensures PlotRow(cv, base, row, col).Ok? <==>
            forall c :: col <= c < 8 && SpriteBit(row, c) ==> base + c < |cv.cells|
    decreases 8 - col
  {
    if col < 8 {
      if !SpriteBit(row, col) {
        PlotRowOk(cv, base, row, col + 1);
      } else if base + col < |cv.cells| {
        var k0 := base + col;
        var plotted := Canvas(cv.cells[k0 := Toggle(cv.cells[k0])], cv.collided || cv.cells[k0] == 1);
        PlotRowOk(plotted, base, row, col + 1);
      }
    }
  }

  lemma {:induction false} PlotRowCells(cv: Canvas, base: nat, row: Byte, col: nat)
    requires col <= 8
    requires PlotRow(cv, base, row, col).Ok?
    ensures var cells := PlotRow(cv, base, row, col).value.cells;
            && |cells| == |cv.cells|
            && forall k :: 0 <= k < |cv.cells| ==>
                 cells[k] == if RowHits(base, row, col, k) then Toggle(cv.cells[k]) else cv.cells[k]
    decreases 8 - col
  {
    if col < 8 && SpriteBit(row, col) {
      var k0 := base + col;
      var plotted := Canvas(cv.cells[k0 := Toggle(cv.cells[k0])], cv.collided || cv.cells[k0] == 1);
      assert PlotRow(cv, base, row, col) == PlotRow(plotted, base, row, col + 1);
      PlotRowCells(plotted, base, row, col + 1);
      RowHitsWindow(base, row, col + 1, k0);
      forall k | 0 <= k < |cv.cells|
        ensures RowHits(base, row, col, k) <==> k == k0 || RowHits(base, row, col + 1, k)
      {
      }
    } else if col < 8 {
      assert PlotRow(cv, base, row, col) == PlotRow(cv, base, row, col + 1);
      PlotRowCells(cv, base, row, col + 1);
      forall k | 0 <= k < |cv.cells|
        ensures RowHits(base, row, col, k) <==> RowHits(base, row, col + 1, k)
      {
      }
    }
  }

  lemma {:induction false} PlotRowCollided(cv: Canvas, base: nat, row: Byte, col: nat)
    requires col <= 8
    requires PlotRow(cv, base, row, col).Ok?
    ensures PlotRow(cv, base, row, col).value.collided <==>
            cv.collided || exists k :: 0 <= k < |cv.cells| && RowHits(base, row, col, k) && cv.cells[k] == 1
    decreases 8 - col
  {
    if col < 8 && SpriteBit(row, col) {
      var k0 := base + col;
      var plotted := Canvas(cv.cells[k0 := Toggle(cv.cells[k0])], cv.collided || cv.cells[k0] == 1);
      assert PlotRow(cv, base, row, col) == PlotRow(plotted, base, row, col + 1);
      PlotRowCollided(plotted, base, row, col + 1);
      LitPixelStep(cv.cells, base, row, col);
    } else if col < 8 {
      assert PlotRow(cv, base, row, col) == PlotRow(cv, base, row, col + 1);
      PlotRowCollided(cv, base, row, col + 1);
      LitPixelSkip(cv.cells, base, row, col);
    }
  }

  /** A lit cell under columns `col..` is the one plotted first, or lies under a later column after it. */
  lemma LitPixelStep(cells: seq<Byte>, base: nat, row: Byte, col: nat)
    requires col < 8 && SpriteBit(row, col) && base + col < |cells|
    ensures var k0 := base + col;
            var after := cells[k0 := Toggle(cells[k0])];
            (exists k :: 0 <= k < |cells| && RowHits(base, row, col, k) && cells[k] == 1) <==>
            cells[k0] == 1 || exists k :: 0 <= k < |after| && RowHits(base, row, col + 1, k) && after[k] == 1
  {
    var k0 := base + col;
    var after := cells[k0 := Toggle(cells[k0])];
    RowHitsWindow(base, row, col + 1, k0);
    if k :| 0 <= k < |after| && RowHits(base, row, col + 1, k) && after[k] == 1 {
      assert k != k0 && RowHits(base, row, col, k) && cells[k] == 1;
    }
    if k :| 0 <= k < |cells| && RowHits(base, row, col, k) && cells[k] == 1 && k != k0 {
      assert RowHits(base, row, col + 1, k) && after[k] == 1;
    }
  }

  /** Skipping a clear pixel leaves the lit cells under the row unchanged. */
  lemma LitPixelSkip(cells: seq<Byte>, base: nat, row: Byte, col: nat)
    requires col < 8 && !SpriteBit(row, col)
    ensures (exists k :: 0 <= k < |cells| && RowHits(base, row, col, k) && cells[k] == 1) <==>
            exists k :: 0 <= k < |cells| && RowHits(base, row, col + 1, k) && cells[k] == 1
  {
    if k :| 0 <= k < |cells| && RowHits(base, row, col, k) && cells[k] == 1 {
      assert RowHits(base, row, col + 1, k);
    }
  }

  lemma {:induction false} PlotRowsOk(cv: Canvas, memory: seq<Byte>, i: nat, x: nat, y: nat, line: nat, height: nat)
    requires line <= height
    ensures PlotRows(cv, memory, i, x, y, line, height).Ok? <==> FitsFrom(memory, i, x, y, line, height, |cv.cells|)
    decreases height - line
  {
    if line < height && i + line < |memory| {
      var base := x + (y + line) * ScreenWidth;
      var row := memory[i + line];
      PlotRowOk(cv, base, row, 0);
      var step := PlotRow(cv, base, row, 0);
      if step.Err? {
        var c :| 0 <= c < 8 && SpriteBit(row, c) && base + c >= |cv.cells|;
        assert SpriteBit(memory[i + line], c);
      } else {
        PlotRowCells(cv, base, row, 0);
        PlotRowsOk(step.value, memory, i, x, y, line + 1, height);
        if FitsFrom(memory, i, x, y, line, height, |cv.cells|) {
          assert FitsFrom(memory, i, x, y, line + 1, height, |cv.cells|);
          assert PlotRows(cv, memory, i, x, y, line, height) == PlotRows(step.value, memory, i, x, y, line + 1, height);
        }
      }
    }
  }

  lemma {:induction false} PlotRowsCells(cv: Canvas, memory: seq<Byte>, i: nat, x: nat, y: nat, line: nat, height: nat)
    requires line <= height
    requires PlotRows(cv, memory, i, x, y, line, height).Ok?
    ensures var cells := PlotRows(cv, memory, i, x, y, line, height).value.cells;
            && |cells| == |cv.cells|
            && forall k :: 0 <= k < |cv.cells| ==>
                 cells[k] == if Hits(memory, i, x, y, line, height, k) then Toggle(cv.cells[k]) else cv.cells[k]
    decreases height - line
  {
    if line < height {
      var base := x + (y + line) * ScreenWidth;
      var row := memory[i + line];
      var next := PlotRow(cv, base, row, 0).value;
      assert PlotRows(cv, memory, i, x, y, line, height) == PlotRows(next, memory, i, x, y, line + 1, height);
      PlotRowCells(cv, base, row, 0);
      PlotRowsCells(next, memory, i, x, y, line + 1, height);
      forall k | 0 <= k < |cv.cells|
        ensures RowHits(base, row, 0, k) ==> !Hits(memory, i, x, y, line + 1, height, k)
      {
        RowBeforeRest(memory, i, x, y, line, height, k);
      }
    }
  }

  /** A cell of row `line` is not under any later row. */
  lemma RowBeforeRest(memory: seq<Byte>, i: nat, x: nat, y: nat, line: nat, height: nat, k: int)
    requires line < height && i + line < |memory|
    ensures RowHits(x + (y + line) * ScreenWidth, memory[i + line], 0, k) ==> !Hits(memory, i, x, y, line + 1, height, k)
  {
    RowHitsWindow(x + (y + line) * ScreenWidth, memory[i + line], 0, k);
    HitsBelow(memory, i, x, y, line + 1, height, k);
  }

  lemma {:induction false} PlotRowsCollided(cv: Canvas, memory: seq<Byte>, i: nat, x: nat, y: nat, line: nat, height: nat)
    requires line <= height
    requires PlotRows(cv, memory, i, x, y, line, height).Ok?
    ensures PlotRows(cv, memory, i, x, y, line, height).value.collided <==>
            cv.collided ||
            exists k :: 0 <= k < |cv.cells| && Hits(memory, i, x, y, line, height, k) && cv.cells[k] == 1
    decreases height - line
  {
    if line < height {
      var base := x + (y + line) * ScreenWidth;
      var row := memory[i + line];
      var next := PlotRow(cv, base, row, 0).value;
      assert PlotRows(cv, memory, i, x, y, line, height) == PlotRows(next, memory, i, x, y, line + 1, height);
      PlotRowCells(cv, base, row, 0);
      PlotRowCollided(cv, base, row, 0);
      PlotRowsCollided(next, memory, i, x, y, line + 1, height);
      RowThenRest(cv.cells, next.cells, memory, i, x, y, line, height);
    }
  }

  /** A lit cell under rows `line..` is lit under row `line` before it is plotted, or under later rows after. */
  lemma RowThenRest(cells: seq<Byte>, next: seq<Byte>, memory: seq<Byte>, i: nat, x: nat, y: nat, line: nat, height: nat)
    requires line < height && i + line < |memory|
    requires |next| == |cells|
    requires forall k :: 0 <= k < |cells| ==>
               next[k] == if RowHits(x + (y + line) * ScreenWidth, memory[i + line], 0, k) then Toggle(cells[k]) else cells[k]
    ensures (exists k :: 0 <= k < |cells| && Hits(memory, i, x, y, line, height, k) && cells[k] == 1) <==>
            (exists k :: 0 <= k < |cells| && RowHits(x + (y + line) * ScreenWidth, memory[i + line], 0, k) && cells[k] == 1) ||
            (exists k :: 0 <= k < |next| && Hits(memory, i, x, y, line + 1, height, k) && next[k] == 1)
  {
    var base := x + (y + line) * ScreenWidth;
    var row := memory[i + line];
    if k :| 0 <= k < |next| && Hits(memory, i, x, y, line + 1, height, k) && next[k] == 1 {
      RowHitsWindow(base, row, 0, k);
      HitsBelow(memory, i, x, y, line + 1, height, k);
      assert cells[k] == 1 && Hits(memory, i, x, y, line, height, k);
    }
    if k :| 0 <= k < |cells| && Hits(memory, i, x, y, line, height, k) && cells[k] == 1 {
      if !RowHits(base, row, 0, k) {
        assert next[k] == 1;
      }
    }
  }

  /**
   * Drawing toggles exactly the cells under set sprite pixels and reports a
   * collision exactly when one of those cells was lit (equal to 1).
   */
  lemma DrawEffect(video: seq<Byte>, memory: seq<Byte>, i: nat, x: nat, y: nat, height: nat)
    ensures var r := Draw(video, memory, i, x, y, height);
            r.Ok? <==> FitsFrom(memory, i, x, y, 0, height, |video|)
    ensures var r := Draw(video, memory, i, x, y, height);
            r.Ok? ==>
              && |r.value.cells| == |video|
              && (forall k :: 0 <= k < |video| ==>
                    r.value.cells[k] == if Covers(memory, i, x, y, height, k) then Toggle(video[k]) else video[k])
              && (r.value.collided <==>
                    exists k :: 0 <= k < |video| && Covers(memory, i, x, y, height, k) && video[k] == 1)
  {
    PlotRowsOk(Canvas(video, false), memory, i, x, y, 0, height);
    if Draw(video, memory, i, x, y, height).Ok? {
      PlotRowsCells(Canvas(video, false), memory, i, x, y, 0, height);
      PlotRowsCollided(Canvas(video, false), memory, i, x, y, 0, height);
      forall k {
        HitsClosedForm(memory, i, x, y, 0, height, k);
      }
    }
  }

  /** Drawing the same sprite at the same place twice restores the video cells. */
  lemma DrawTwice(video: seq<Byte>, memory: seq<Byte>, i: nat, x: nat, y: nat, height: nat)
    requires Draw(video, memory, i, x, y, height).Ok?
    ensures var once := Draw(video, memory, i, x, y, height).value.cells;
            var twice := Draw(once, memory, i, x, y, height);
            twice.Ok? && twice.value.cells == video
  {
    var once := Draw(video, memory, i, x, y, height).value.cells;
    DrawEffect(video, memory, i, x, y, height);
    DrawEffect(once, memory, i, x, y, height);
    var twice := Draw(once, memory, i, x, y, height).value.cells;
    forall k | 0 <= k < |video| ensures twice[k] == video[k] {
      ToggleTwice(video[k]);
    }
  }
}
