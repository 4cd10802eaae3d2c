/**
 * The 64x32 display and the XOR sprite draw of DXYN.  A cell is `true` when it
 * holds ON (0xFFFFFFFF) and `false` when it holds OFF (0); draw only ever
 * toggles a cell between the two.
 *
 * The source visits sprite row `row` and column `col` at the flat index
 * `(y + row) * WIDTH + (x + col)`: a column past the right edge spills into the
 * next display row, and an index at or past WIDTH * HEIGHT is neither read as
 * ON nor written.  With `origin = y * WIDTH + x` the index is
 * `origin + row * WIDTH + col`, which is what `Hit` inverts.
 */
module Framebuffer {
  import opened Constants
  import opened Bits

  /**
   * `(byte & (0x80 >> col)) !== 0`, with `0x80 >> col` written as 2^(7 - col):
   * column `col` of a sprite row is set exactly when bit 7 - col of the byte
   * is, so column 0 is the most significant bit.
   */
  predicate SpriteBit(b: byte, col: nat)
    requires col < SPRITE_WIDTH
    ensures SpriteBit(b, col) <==> (b / Pow2(SPRITE_WIDTH - 1 - col)) % 2 == 1
  {
    AndPowerOfTwo(b, SPRITE_WIDTH - 1 - col);
    Bitwise(BitAnd, b, Pow2(SPRITE_WIDTH - 1 - col)) != 0
  }

  /** Does a set sprite bit land on cell `i`?  `sprite` holds one byte per row. */
  predicate Hit(sprite: seq<byte>, origin: int, i: int)
  {
    var d := i - origin;
    0 <= d && d / WIDTH < |sprite| && d % WIDTH < SPRITE_WIDTH &&
    SpriteBit(sprite[d / WIDTH], d % WIDTH)
  }

  /** The display after the sprite is XORed onto it. */
  function Draw(display: seq<bool>, sprite: seq<byte>, origin: int): (r: seq<bool>)
    ensures |r| == |display|
  {
    seq(|display|, i requires 0 <= i < |display| => display[i] != Hit(sprite, origin, i))
  }

  /** Does some set sprite bit land on a cell that is ON? */
  predicate Collides(display: seq<bool>, sprite: seq<byte>, origin: int)
  {
    exists i :: 0 <= i < |display| && Hit(sprite, origin, i) && display[i]
  }

  /** The flat index the draw loop visits for sprite row `row`, column `col`. */
  function CellOf(origin: int, row: nat, col: nat): int
  {
    origin + row * WIDTH + col
  }

  /** The index the draw loop computes from the coordinates is `CellOf` of the origin cell. */
  lemma CellOfCoordinates(x: nat, y: nat, row: nat, col: nat)
    ensures (y + row) * WIDTH + (x + col) == CellOf(y * WIDTH + x, row, col)
  {
  }

  /** `Hit` recovers row and column from a flat index: the cell of (row, col) is hit exactly when that bit is set. */
  lemma HitAtCell(sprite: seq<byte>, origin: int, row: nat, col: nat)
    requires row < |sprite| && col < SPRITE_WIDTH
    ensures Hit(sprite, origin, CellOf(origin, row, col)) == SpriteBit(sprite[row], col)
  {
    var d := row * WIDTH + col;
    assert d / WIDTH == row && d % WIDTH == col;
  }

  /** Each set bit of sprite row `row` toggles the cell at (y + row) * 64 + (x + col). */
  lemma DrawTogglesSpriteCells(display: seq<bool>, sprite: seq<byte>, x: nat, y: nat, row: nat, col: nat)
    requires row < |sprite| && col < SPRITE_WIDTH
    requires (y + row) * WIDTH + (x + col) < |display|
    ensures var i := (y + row) * WIDTH + (x + col);
            Draw(display, sprite, y * WIDTH + x)[i] == (display[i] != SpriteBit(sprite[row], col))
  {
    HitAtCell(sprite, y * WIDTH + x, row, col);
  }

  /** A cell that no set sprite bit maps to keeps its value. */
  lemma DrawLeavesOtherCells(display: seq<bool>, sprite: seq<byte>, origin: int, i: nat)
    requires i < |display|
    requires forall row: nat, col: nat :: row < |sprite| && col < SPRITE_WIDTH && SpriteBit(sprite[row], col) ==>
               CellOf(origin, row, col) != i
    ensures Draw(display, sprite, origin)[i] == display[i]
  {
  }

  /** Drawing the same sprite twice restores the display. */
  lemma DrawTwiceRestores(display: seq<bool>, sprite: seq<byte>, origin: int)
    ensures Draw(Draw(display, sprite, origin), sprite, origin) == display
  {
    var once := Draw(display, sprite, origin);
    var twice := Draw(once, sprite, origin);
    forall i | 0 <= i < |display| ensures twice[i] == display[i] {
      assert once[i] == (display[i] != Hit(sprite, origin, i));
    }
  }

  /** The collision flag, stated over sprite rows and columns as the draw loop checks it. */
  lemma CollidesAtSomeCell(display: seq<bool>, sprite: seq<byte>, origin: int)
    ensures Collides(display, sprite, origin) <==>
      exists row: nat, col: nat :: row < |sprite| && col < SPRITE_WIDTH && SpriteBit(sprite[row], col) &&
        0 <= CellOf(origin, row, col) < |display| && display[CellOf(origin, row, col)]
  {
    if Collides(display, sprite, origin) {
      var i :| 0 <= i < |display| && Hit(sprite, origin, i) && display[i];
      var d := i - origin;
      var row: nat, col: nat := d / WIDTH, d % WIDTH;
      assert CellOf(origin, row, col) == i;
    }
    if exists row: nat, col: nat :: row < |sprite| && col < SPRITE_WIDTH && SpriteBit(sprite[row], col) &&
         0 <= CellOf(origin, row, col) < |display| && display[CellOf(origin, row, col)] {
      var row: nat, col: nat :| row < |sprite| && col < SPRITE_WIDTH && SpriteBit(sprite[row], col) &&
         0 <= CellOf(origin, row, col) < |display| && display[CellOf(origin, row, col)];
      HitAtCell(sprite, origin, row, col);
    }
  }

  /** A repeated draw collides exactly when the first draw turned some sprite cell ON, i.e. found it OFF. */
  lemma RedrawCollides(display: seq<bool>, sprite: seq<byte>, origin: int)
    ensures Collides(Draw(display, sprite, origin), sprite, origin) <==>
      exists i :: 0 <= i < |display| && Hit(sprite, origin, i) && !display[i]
  {
    var once := Draw(display, sprite, origin);
    if Collides(once, sprite, origin) {
      var i :| 0 <= i < |once| && Hit(sprite, origin, i) && once[i];
      assert !display[i];
    }
    if exists i :: 0 <= i < |display| && Hit(sprite, origin, i) && !display[i] {
      var i :| 0 <= i < |display| && Hit(sprite, origin, i) && !display[i];
      assert once[i];
    }
  }

  // The draw loop of the source, as a sequence of (row, col) steps numbered
  // k = row * SPRITE_WIDTH + col.

  /** The loop's step number of cell `i`, meaningful when `Hit` holds. */
  function Visit(origin: int, i: int): int
  {
    var d := i - origin;
    (d / WIDTH) * SPRITE_WIDTH + d % WIDTH
  }

  /** The display after the first `k` steps of the draw loop. */
  function DrawUpTo(display: seq<bool>, sprite: seq<byte>, origin: int, k: nat): (r: seq<bool>)
    ensures |r| == |display|
  {
    seq(|display|, i requires 0 <= i < |display| =>
      display[i] != (Hit(sprite, origin, i) && Visit(origin, i) < k))
  }

  /** Has one of the first `k` steps of the draw loop found a set bit on an ON cell? */
  predicate CollidesUpTo(display: seq<bool>, sprite: seq<byte>, origin: int, k: nat)
  {
    exists i :: 0 <= i < |display| && Hit(sprite, origin, i) && Visit(origin, i) < k && display[i]
  }

  /** The cell a hit is visited at is the cell the loop computes for that step. */
  lemma VisitIsCell(sprite: seq<byte>, origin: int, i: int, row: nat, col: nat)
    requires row < |sprite| && col < SPRITE_WIDTH
    ensures Hit(sprite, origin, i) && Visit(origin, i) == row * SPRITE_WIDTH + col <==>
            i == CellOf(origin, row, col) && SpriteBit(sprite[row], col)
  {
    var k := row * SPRITE_WIDTH + col;
    assert k / SPRITE_WIDTH == row && k % SPRITE_WIDTH == col;
    if Hit(sprite, origin, i) && Visit(origin, i) == k {
      var d := i - origin;
      assert (d / WIDTH) * SPRITE_WIDTH + d % WIDTH == k;
      assert d / WIDTH == row && d % WIDTH == col;
    }
    if i == CellOf(origin, row, col) {
      HitAtCell(sprite, origin, row, col);
    }
  }

  /** The cell step (row, col) visits has not been touched by the earlier steps. */
  lemma StepCellUntouched(display: seq<bool>, sprite: seq<byte>, origin: int, row: nat, col: nat)
    requires row < |sprite| && col < SPRITE_WIDTH
    requires 0 <= CellOf(origin, row, col) < |display|
    ensures DrawUpTo(display, sprite, origin, row * SPRITE_WIDTH + col)[CellOf(origin, row, col)] ==
            display[CellOf(origin, row, col)]
  {
    VisitIsCell(sprite, origin, CellOf(origin, row, col), row, col);
  }

  /** One step of the draw loop: the visited cell toggles when it is on the display and under a set bit. */
  lemma DrawStep(display: seq<bool>, sprite: seq<byte>, origin: int, row: nat, col: nat)
    requires row < |sprite| && col < SPRITE_WIDTH
    ensures var k, c := row * SPRITE_WIDTH + col, CellOf(origin, row, col);
            var before := DrawUpTo(display, sprite, origin, k);
            DrawUpTo(display, sprite, origin, k + 1) ==
              if 0 <= c < |display| && SpriteBit(sprite[row], col) then before[c := !before[c]] else before
  {
    var k, c := row * SPRITE_WIDTH + col, CellOf(origin, row, col);
    var before := DrawUpTo(display, sprite, origin, k);
    var after := DrawUpTo(display, sprite, origin, k + 1);
    var expected := if 0 <= c < |display| && SpriteBit(sprite[row], col) then before[c := !before[c]] else before;
    forall i | 0 <= i < |display| ensures after[i] == expected[i] {
      VisitIsCell(sprite, origin, i, row, col);
    }
  }

  /** One step of the draw loop collides when it toggles a cell that was ON before the draw. */
  lemma CollideStep(display: seq<bool>, sprite: seq<byte>, origin: int, row: nat, col: nat)
    requires row < |sprite| && col < SPRITE_WIDTH
    ensures var k, c := row * SPRITE_WIDTH + col, CellOf(origin, row, col);
            CollidesUpTo(display, sprite, origin, k + 1) <==>
              CollidesUpTo(display, sprite, origin, k) ||
              (0 <= c < |display| && SpriteBit(sprite[row], col) && display[c])
  {
    var k, c := row * SPRITE_WIDTH + col, CellOf(origin, row, col);
    if CollidesUpTo(display, sprite, origin, k + 1) {
      var i :| 0 <= i < |display| && Hit(sprite, origin, i) && Visit(origin, i) < k + 1 && display[i];
      VisitIsCell(sprite, origin, i, row, col);
    }
    if 0 <= c < |display| && SpriteBit(sprite[row], col) && display[c] {
      VisitIsCell(sprite, origin, c, row, col);
    }
    if CollidesUpTo(display, sprite, origin, k) {
      var i :| 0 <= i < |display| && Hit(sprite, origin, i) && Visit(origin, i) < k && display[i];
    }
  }

  /** After every step of every row the loop has drawn the whole sprite. */
  lemma DrawUpToAll(display: seq<bool>, sprite: seq<byte>, origin: int)
    ensures DrawUpTo(display, sprite, origin, |sprite| * SPRITE_WIDTH) == Draw(display, sprite, origin)
    ensures CollidesUpTo(display, sprite, origin, |sprite| * SPRITE_WIDTH) == Collides(display, sprite, origin)
  {
    forall i | Hit(sprite, origin, i)
      ensures Visit(origin, i) < |sprite| * SPRITE_WIDTH
    {
      var d := i - origin;
      assert d / WIDTH <= |sprite| - 1;
      assert (d / WIDTH) * SPRITE_WIDTH <= (|sprite| - 1) * SPRITE_WIDTH;
    }
  }

  /** Before the first step nothing is drawn and nothing collides. */
  lemma DrawUpToNone(display: seq<bool>, sprite: seq<byte>, origin: int)
    ensures DrawUpTo(display, sprite, origin, 0) == display
    ensures !CollidesUpTo(display, sprite, origin, 0)
  {
    forall i | Hit(sprite, origin, i) ensures Visit(origin, i) >= 0 {
    }
  }

  // The draw loop itself, one step at a time, and its agreement with Draw and Collides.

  /** The row and column of loop step `row * SPRITE_WIDTH + col`. */
  lemma StepRowCol(row: nat, col: nat)
    requires col < SPRITE_WIDTH
    ensures (row * SPRITE_WIDTH + col) / SPRITE_WIDTH == row && (row * SPRITE_WIDTH + col) % SPRITE_WIDTH == col
  {
  }

  /** Step (row, col) of a sprite with `rows` rows is one of the loop's `rows * SPRITE_WIDTH` steps. */
  lemma StepInRange(row: nat, col: nat, rows: nat)
    requires row < rows && col < SPRITE_WIDTH
    ensures row * SPRITE_WIDTH + col < rows * SPRITE_WIDTH
  {
    assert (row + 1) * SPRITE_WIDTH <= rows * SPRITE_WIDTH;
  }

  /** The step after the last column of a row is the first of the next row. */
  lemma NextRow(row: nat)
    ensures row * SPRITE_WIDTH + SPRITE_WIDTH == (row + 1) * SPRITE_WIDTH
  {
  }

  /** The cell loop step `k` visits: sprite row k / 8, column k % 8. */
  function StepCell(origin: int, k: nat): int
  {
    CellOf(origin, k / SPRITE_WIDTH, k % SPRITE_WIDTH)
  }

  /** Does loop step `k` toggle its cell: the sprite bit is set and the cell is on the display? */
  predicate StepOn(display: seq<bool>, sprite: seq<byte>, origin: int, k: nat)
    requires k < |sprite| * SPRITE_WIDTH
  {
    0 <= StepCell(origin, k) < |display| && SpriteBit(sprite[k / SPRITE_WIDTH], k % SPRITE_WIDTH)
  }

  /** The display after the first `k` steps of the loop, each step toggling its cell when `StepOn`. */
  function DrawLoop(display: seq<bool>, sprite: seq<byte>, origin: int, k: nat): (r: seq<bool>)
    requires k <= |sprite| * SPRITE_WIDTH
    ensures |r| == |display|
  {
    if k == 0 then display
    else
      var prev := DrawLoop(display, sprite, origin, k - 1);
      var c := StepCell(origin, k - 1);
      if StepOn(display, sprite, origin, k - 1) then prev[c := !prev[c]] else prev
  }

  /** Has one of the first `k` steps found its cell ON, as the loop reads it just before toggling? */
  predicate CollideLoop(display: seq<bool>, sprite: seq<byte>, origin: int, k: nat)
    requires k <= |sprite| * SPRITE_WIDTH
  {
    k > 0 &&
    (CollideLoop(display, sprite, origin, k - 1) ||
     (StepOn(display, sprite, origin, k - 1) &&
      DrawLoop(display, sprite, origin, k - 1)[StepCell(origin, k - 1)]))
  }

  /**
   * After any number of steps the loop agrees with the closed form: a cell is
   * toggled exactly when an earlier step hit it, and a step collides exactly
   * when its cell was ON before the draw.
   */
  lemma {:induction false} DrawLoopMatches(display: seq<bool>, sprite: seq<byte>, origin: int, k: nat)
    requires k <= |sprite| * SPRITE_WIDTH
    ensures DrawLoop(display, sprite, origin, k) == DrawUpTo(display, sprite, origin, k)
    ensures CollideLoop(display, sprite, origin, k) == CollidesUpTo(display, sprite, origin, k)
  {
    if k == 0 {
      DrawUpToNone(display, sprite, origin);
    } else {
      DrawLoopMatches(display, sprite, origin, k - 1);
      var row, col := (k - 1) / SPRITE_WIDTH, (k - 1) % SPRITE_WIDTH;
      assert row * SPRITE_WIDTH + col == k - 1;
      DrawStep(display, sprite, origin, row, col);
      CollideStep(display, sprite, origin, row, col);
      if 0 <= CellOf(origin, row, col) < |display| {
        StepCellUntouched(display, sprite, origin, row, col);
      }
    }
  }

  /** The whole loop draws the sprite and reports a collision exactly as Draw and Collides say. */
  lemma DrawLoopAll(display: seq<bool>, sprite: seq<byte>, origin: int)
    ensures DrawLoop(display, sprite, origin, |sprite| * SPRITE_WIDTH) == Draw(display, sprite, origin)
    ensures CollideLoop(display, sprite, origin, |sprite| * SPRITE_WIDTH) == Collides(display, sprite, origin)
  {
    DrawLoopMatches(display, sprite, origin, |sprite| * SPRITE_WIDTH);
    DrawUpToAll(display, sprite, origin);
  }
}
