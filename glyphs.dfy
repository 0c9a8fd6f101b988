/** Character rendering on the 8x8 pad matrix: the clamp helper, the glyph
    table (one byte per pixel row, most significant bit leftmost) and the
    pixel sequence that writing one character at a lateral offset produces on
    the two grid layouts (16 numbers per row from the top-left on the
    two-colour pad; 81, 71, ... 11 row starts on the RGB pads). */
module Glyphs {
  import opened Wrappers

  type Byte = b: int | 0 <= b < 256

  /** Eight pixel rows, top to bottom. */
  type Glyph = g: seq<Byte> | |g| == 8 witness [0, 0, 0, 0, 0, 0, 0, 0]

  /** The character table: one glyph for each code 0..255. Its contents are a
      parameter of the model. */
  type GlyphTable = t: seq<Glyph> | |t| == 256 witness seq<Glyph>(256, _ => Blank)

  /** The glyph with no pixel set. */
  const Blank: Glyph := [0, 0, 0, 0, 0, 0, 0, 0]

  /** `_limit`: `n` clamped into [minimum, maximum]. */
  function Limit(n: int, minimum: int, maximum: int): (r: int)
    ensures r >= minimum
    ensures minimum <= maximum ==> r <= maximum
    ensures minimum <= n <= maximum ==> r == n
    ensures minimum <= maximum && n < minimum ==> r == minimum
    ensures minimum <= maximum && n > maximum ==> r == maximum
  {
    if maximum < n then (if maximum < minimum then minimum else maximum)
    else if n < minimum then minimum
    else n
  }

  /** Clamping twice changes nothing, and clamping keeps order. */
  lemma LimitIdempotentMonotone(n: int, m: int, minimum: int, maximum: int)
    requires minimum <= maximum
    ensures Limit(Limit(n, minimum, maximum), minimum, maximum) == Limit(n, minimum, maximum)
    ensures n <= m ==> Limit(n, minimum, maximum) <= Limit(m, minimum, maximum)
  {
  }

  /** The glyph for a character: its code point clamped to 0..255. */
  function GlyphOf(table: GlyphTable, ch: char): (g: Glyph)
    ensures ch as int <= 255 ==> g == table[ch as int]
    ensures ch as int > 255 ==> g == table[255]
  {
    table[Limit(ch as int, 0, 255)]
  }

  /** `codes[i] & 0x80 >> j`: the shift binds tighter, so this tests column `j`
      counted from the most significant bit. */
  function Bit(b: Byte, j: int): bool
    requires 0 <= j < 8
  {
    (b as bv8) & ((0x80 as bv8) >> j) != 0
  }

  function Pow2(k: nat): (p: nat)
    ensures p >= 1
  {
    if k == 0 then 1 else 2 * Pow2(k - 1)
  }

  /** The mask test reads binary digit `7 - j` of the byte. */
  lemma BitIsBinaryDigit(b: Byte, j: int)
    requires 0 <= j < 8
    ensures Bit(b, j) == ((b / Pow2(7 - j)) % 2 == 1)
  {
    assert Pow2(0) == 1 && Pow2(1) == 2 && Pow2(2) == 4 && Pow2(3) == 8;
    assert Pow2(4) == 16 && Pow2(5) == 32 && Pow2(6) == 64 && Pow2(7) == 128;
  }

  /** One `led_on` of a rendered character: the LED number and whether it takes
      the text colour (lit) or black. */
  datatype Pixel = Pixel(n: int, lit: bool)

  /** The two pad-number layouts `write_char` draws on. */
  datatype Grid = ClassicGrid | ProGrid

  /** The LED number of the leftmost pixel of row `row` (0 = top). */
  function RowBase(grid: Grid, row: nat): int {
    match grid
    case ClassicGrid => 16 * row
    case ProGrid => 81 - 10 * row
  }

  /** The reverse of `RowBase(grid, row) + column`: the row and column of a
      matrix LED number, None for numbers outside the 8x8 matrix. */
  function CellOf(grid: Grid, n: int): Option<(nat, nat)> {
    match grid
    case ClassicGrid =>
      if 0 <= n < 128 && n % 16 < 8 then Some((n / 16, n % 16)) else None
    case ProGrid =>
      if 11 <= n <= 88 && 1 <= n % 10 <= 8 then Some((8 - n / 10, n % 10 - 1)) else None
  }

  lemma CellOfRowBase(grid: Grid, row: nat, column: nat)
    requires row < 8 && column < 8
    ensures CellOf(grid, RowBase(grid, row) + column) == Some((row, column))
  {
  }

  /** The first column a shifted glyph reaches, and how many columns it covers. */
  function FirstColumn(offset: int): int {
    if offset > 0 then offset else 0
  }

  function Width(offset: int): nat {
    if offset >= 8 || offset <= -8 then 0
    else if offset >= 0 then 8 - offset
    else 8 + offset
  }

  /** The `led_on` calls of the inner loop over `j` in [0, k) for one pixel row
      with byte `code` starting at LED `base`: column `j + offset` is drawn when
      it falls inside the row, lit when bit `j` of the row is set. */
  function RowPixels(code: Byte, base: int, offset: int, k: nat): seq<Pixel>
    requires k <= 8
  {
    if k == 0 then []
    else
      var j := k - 1;
      RowPixels(code, base, offset, j)
        + (if 0 <= j + offset < 8 then [Pixel(base + j + offset, Bit(code, j))] else [])
  }

  /** The row covers the visible columns left to right, each exactly once,
      and shows at column `c` the glyph bit `c - offset`. */
  lemma {:induction false} RowPixelsClosedForm(code: Byte, base: int, offset: int, k: nat)
    requires k <= 8
    ensures var r := RowPixels(code, base, offset, k);
      && |r| == (if k + offset <= FirstColumn(offset) then 0
                 else if k + offset >= 8 then Width(offset)
                 else k + offset - FirstColumn(offset))
      && forall i :: 0 <= i < |r| ==>
        && 0 <= FirstColumn(offset) + i < 8
        && 0 <= FirstColumn(offset) + i - offset < 8
        && r[i] == Pixel(base + FirstColumn(offset) + i, Bit(code, FirstColumn(offset) + i - offset))
  {
    if k > 0 {
      RowPixelsClosedForm(code, base, offset, k - 1);
    }
  }

  /** The pixel that shows column `column - offset` of glyph row `row` at
      matrix column `column`. */
  function Expected(grid: Grid, g: Glyph, offset: int, row: nat, column: nat): Pixel
    requires row < 8 && column < 8 && 0 <= column - offset < 8
  {
    Pixel(RowBase(grid, row) + column, Bit(g[row], column - offset))
  }

  /** `p` is a matrix LED in one of the first `rows` rows, showing the pixel of
      the shifted glyph that falls on it. */
  predicate Shows(grid: Grid, g: Glyph, offset: int, rows: nat, p: Pixel) {
    match CellOf(grid, p.n)
    case None => false
    case Some((row, column)) =>
      row < rows && 0 <= column - offset < 8 && p.lit == Bit(g[row], column - offset)
  }

  /** The pixels of one row are exactly that row's visible columns. */
  lemma RowPixelsShow(grid: Grid, g: Glyph, offset: int, row: nat)
    requires row < 8
    ensures forall p :: p in RowPixels(g[row], RowBase(grid, row), offset, 8) ==> Shows(grid, g, offset, row + 1, p)
  {
    var last := RowPixels(g[row], RowBase(grid, row), offset, 8);
    RowPixelsClosedForm(g[row], RowBase(grid, row), offset, 8);
    forall p | p in last ensures Shows(grid, g, offset, row + 1, p) {
      var i :| 0 <= i < |last| && last[i] == p;
      var column := FirstColumn(offset) + i;
      assert p == Expected(grid, g, offset, row, column);
      ExpectedShows(grid, g, offset, row, column);
    }
  }

  lemma ExpectedShows(grid: Grid, g: Glyph, offset: int, row: nat, column: nat)
    requires row < 8 && column < 8 && 0 <= column - offset < 8
    ensures Shows(grid, g, offset, row + 1, Expected(grid, g, offset, row, column))
  {
    CellOfRowBase(grid, row, column);
  }

  lemma RowPixelsCover(grid: Grid, g: Glyph, offset: int, row: nat)
    requires row < 8
    ensures forall column: nat | column < 8 && 0 <= column - offset < 8 ::
      Expected(grid, g, offset, row, column) in RowPixels(g[row], RowBase(grid, row), offset, 8)
  {
    var last := RowPixels(g[row], RowBase(grid, row), offset, 8);
    RowPixelsClosedForm(g[row], RowBase(grid, row), offset, 8);
    forall column: nat | column < 8 && 0 <= column - offset < 8
      ensures Expected(grid, g, offset, row, column) in last
    {
      assert last[column - FirstColumn(offset)] == Expected(grid, g, offset, row, column);
    }
  }


  /** The whole of `write_char` below the table lookup, for the first `rows`
      pixel rows: row by row, top to bottom. */
  function GlyphPixels(grid: Grid, g: Glyph, offset: int, rows: nat): seq<Pixel>
    requires rows <= 8
  {
    if rows == 0 then []
    else GlyphPixels(grid, g, offset, rows - 1) + RowPixels(g[rows - 1], RowBase(grid, rows - 1), offset, 8)
  }

  /** Each row contributes its visible width. */
  lemma {:induction false} GlyphPixelsSize(grid: Grid, g: Glyph, offset: int, rows: nat)
    requires rows <= 8
    ensures |GlyphPixels(grid, g, offset, rows)| == rows * Width(offset)
  {
    if rows > 0 {
      GlyphPixelsSize(grid, g, offset, rows - 1);
      RowPixelsClosedForm(g[rows - 1], RowBase(grid, rows - 1), offset, 8);
      assert rows * Width(offset) == (rows - 1) * Width(offset) + Width(offset);
    }
  }

  /** The pixels drawn are exactly the glyph shifted right by `offset`
      columns and cut to the matrix: every pixel is a matrix LED showing the
      glyph bit that falls on it, and every LED the shifted glyph covers is
      drawn. */
  lemma {:induction false} GlyphPixelsShow(grid: Grid, g: Glyph, offset: int, rows: nat)
    requires rows <= 8
    ensures forall p :: p in GlyphPixels(grid, g, offset, rows) ==> Shows(grid, g, offset, rows, p)
    ensures forall row: nat, column: nat | row < rows && column < 8 && 0 <= column - offset < 8 ::
      Expected(grid, g, offset, row, column) in GlyphPixels(grid, g, offset, rows)
  {
    GlyphPixelsShown(grid, g, offset, rows);
    GlyphPixelsCovered(grid, g, offset, rows);
  }

  lemma {:induction false} GlyphPixelsShown(grid: Grid, g: Glyph, offset: int, rows: nat)
    requires rows <= 8
    ensures forall p :: p in GlyphPixels(grid, g, offset, rows) ==> Shows(grid, g, offset, rows, p)
  {
    if rows > 0 {
      GlyphPixelsShown(grid, g, offset, rows - 1);
      RowPixelsShow(grid, g, offset, rows - 1);
    }
  }

  lemma {:induction false} GlyphPixelsCovered(grid: Grid, g: Glyph, offset: int, rows: nat)
    requires rows <= 8
    ensures forall row: nat, column: nat | row < rows && column < 8 && 0 <= column - offset < 8 ::
      Expected(grid, g, offset, row, column) in GlyphPixels(grid, g, offset, rows)
  {
    if rows > 0 {
      GlyphPixelsCovered(grid, g, offset, rows - 1);
      RowPixelsCover(grid, g, offset, rows - 1);
    }
  }

  /** What `write_char` draws: every pixel row of the character's glyph. */
  function CharPixels(grid: Grid, table: GlyphTable, ch: char, offset: int): (r: seq<Pixel>)
    ensures |r| == 8 * Width(offset)
  {
    GlyphPixelsSize(grid, GlyphOf(table, ch), offset, 8);
    GlyphPixels(grid, GlyphOf(table, ch), offset, 8)
  }

  /** Every LED number `write_char` addresses lies inside the 8x8 matrix:
      0..119 with column below 8 on the two-colour pad, 11..88 with last digit
      1..8 on the RGB pads. */
  lemma CharPixelsOnMatrix(grid: Grid, table: GlyphTable, ch: char, offset: int, p: Pixel)
    requires p in CharPixels(grid, table, ch, offset)
    ensures grid == ClassicGrid ==> 0 <= p.n <= 119 && p.n % 16 < 8
    ensures grid == ProGrid ==> 11 <= p.n <= 88 && 1 <= p.n % 10 <= 8
  {
    GlyphPixelsShow(grid, GlyphOf(table, ch), offset, 8);
  }
}
