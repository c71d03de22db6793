/**
 * Integer geometry of the coefficient grid (waveletGui.py:64-77, 96-99,
 * 105-113): the row height, the per-level column width, the rectangle of a
 * cell, and the hit test that maps a pixel back to a cell.
 *
 * Level 0, the coarsest, is the bottom row; the last level is the top row.
 * Within a row the cells of one level sit side by side from the left border.
 */
module Layout {
  import opened PyNum

  datatype Rect = Rect(x: int, y: int, width: int, height: int)

  /** The pixel (px, py) lies in r (left and top edges included). */
  predicate Contains(r: Rect, px: int, py: int) {
    r.x <= px < r.x + r.width && r.y <= py < r.y + r.height
  }

  /** A coefficient position as the hit test reports it: level and raw index. */
  datatype Cell = Cell(level: int, timePoint: int)

  // ---------------------------------------------------------------------------
  // Row height and column widths

  /** For n > 0 the floor of the real quotient a / n is Python's a / n. */
  lemma FloorOfQuotient(a: int, n: int)
    requires n > 0
    ensures (a as real / n as real).Floor == FloorDiv(a, n)
  {
    var q := FloorDiv(a, n);
    var r := a as real / n as real;
    IntToRealMul(n, q);
    assert r * n as real == a as real;
    ScaleLe(q as real, r, n as real);
    ScaleLt(r, q as real + 1.0, n as real);
    RealFloorUnique(r, q);
  }

  lemma IntToRealMul(x: int, y: int)
    ensures (x * y) as real == x as real * y as real
  {
  }

  lemma RealFloorUnique(r: real, k: int)
    requires k as real <= r < k as real + 1.0
    ensures r.Floor == k
  {
  }

  lemma ScaleLe(a: real, b: real, n: real)
    requires n > 0.0 && a * n <= b * n
    ensures a <= b
  {
  }

  lemma ScaleLt(a: real, b: real, n: real)
    requires n > 0.0 && a * n < b * n
    ensures a < b
  {
  }

  /** For n > 0, a / n has the sign of a. */
  lemma QuotientSign(a: int, n: int)
    requires n > 0
    ensures a >= 0 <==> a as real / n as real >= 0.0
  {
    var r := a as real / n as real;
    assert r * n as real == a as real;
    if a >= 0 {
      ScaleLe(0.0, r, n as real);
    } else {
      ScaleLt(r, 0.0, n as real);
    }
  }

  /** `int(a / float(n))` for n > 0 is Python's a / n rounded toward zero. */
  lemma TruncOfQuotient(a: int, n: int)
    requires n > 0
    ensures a >= 0 ==> Trunc(a as real / n as real) == FloorDiv(a, n)
    ensures a < 0 ==> Trunc(a as real / n as real) == -FloorDiv(-a, n)
  {
    QuotientSign(a, n);
    if a >= 0 {
      FloorOfQuotient(a, n);
    } else {
      assert -(a as real / n as real) == (-a) as real / n as real;
      FloorOfQuotient(-a, n);
    }
  }

  /** `int(ysize / float(coeffs_len))`: the height of one row. */
  function BoxHeight(ysize: int, levels: nat): (h: int)
    requires levels >= 1
    ensures ysize >= 0 ==> 0 <= levels * h <= ysize < levels * (h + 1)
    ensures ysize < 0 ==> h <= 0
  {
    TruncBounds(ysize, levels);
    Trunc(ysize as real / levels as real)
  }

  /** n rows of height `int(a / float(n))` fit in a without a row to spare. */
  lemma TruncBounds(a: int, n: int)
    requires n > 0
    ensures var q := Trunc(a as real / n as real);
            (a >= 0 ==> 0 <= n * q <= a < n * (q + 1)) && (a < 0 ==> q <= 0)
  {
    TruncOfQuotient(a, n);
    if a >= 0 {
      var q := FloorDiv(a, n);
      FloorDivSign(a, n);
      assert n * (q + 1) == n * q + n;
    } else {
      FloorDivSign(-a, n);
    }
  }

  /**
   * `int(round(xsize / float(level_len)))`: the width of one cell of a level.
   * The cells of a level span the canvas width to within half a cell, a
   * tie rounding up.
   */
  function BoxWidth(xsize: nat, levelLen: nat): (w: int)
    requires levelLen >= 1
    ensures w >= 0
    ensures -(levelLen as int) < 2 * (levelLen * w - xsize) <= levelLen
  {
    RoundOfQuotient(xsize, levelLen);
    RoundedBounds(xsize, levelLen);
    Round(xsize as real / levelLen as real)
  }

  /** Rounding x / len half up is flooring (2x + len) / 2len. */
  lemma RoundOfQuotient(x: nat, len: nat)
    requires len >= 1
    ensures Round(x as real / len as real) == FloorDiv(2 * x + len, 2 * len)
  {
    QuotientSign(x, len);
    HalfUp(x, len);
    FloorOfQuotient(2 * x + len, 2 * len);
  }

  lemma HalfUp(x: int, len: int)
    requires len >= 1
    ensures x as real / len as real + 0.5 == (2 * x + len) as real / (2 * len) as real
  {
    var r := x as real / len as real;
    var s := (2 * x + len) as real / (2 * len) as real;
    assert r * len as real == x as real;
    assert s * (2 * len) as real == (2 * x + len) as real;
    assert (r + 0.5) * (2 * len) as real == (2 * x + len) as real;
    ScaleLe(r + 0.5, s, (2 * len) as real);
    ScaleLe(s, r + 0.5, (2 * len) as real);
  }

  /** The rounded width w is non-negative and len * w is within len / 2 of x. */
  lemma RoundedBounds(x: nat, len: nat)
    requires len >= 1
    ensures var w := FloorDiv(2 * x + len, 2 * len);
            w >= 0 && -(len as int) < 2 * (len * w - x) <= len
  {
    var w := FloorDiv(2 * x + len, 2 * len);
    FloorDivSign(2 * x + len, 2 * len);
    assert (2 * len) * w == 2 * (len * w);
  }

  // ---------------------------------------------------------------------------
  // Cell rectangles

  /**
   * The rectangle of cell (level, timePoint) on a grid of `levels` rows of
   * height h, with cells of width w in that level's row: the cell is w by h,
   * timePoint widths right of the border, and its row ends `level` rows above
   * the bottom of the grid, so level 0 is the bottom row.
   */
  function CellRect(levels: int, border: int, h: int, w: int, level: int, timePoint: int): (r: Rect)
    ensures r.width == w && r.height == h
    ensures r.x == border + timePoint * w
    ensures r.y + h == border + levels * h - level * h
  {
    Rect(border + timePoint * w, (levels - level - 1) * h + border, w, h)
  }

  /** Cell j + 1 starts where cell j ends, and cells of one row share its band. */
  lemma CellsAdjacent(levels: int, border: int, h: int, w: int, level: int, j: int)
    ensures CellRect(levels, border, h, w, level, j).x + w == CellRect(levels, border, h, w, level, j + 1).x
    ensures CellRect(levels, border, h, w, level, j).y == CellRect(levels, border, h, w, level, j + 1).y
  {
  }

  /** Row level + 1 lies directly above row level; level 0 ends at the bottom of the grid. */
  lemma RowsStacked(levels: int, border: int, h: int, w: int, w': int, level: int, j: int, j': int)
    ensures CellRect(levels, border, h, w', level + 1, j').y + h == CellRect(levels, border, h, w, level, j).y
    ensures CellRect(levels, border, h, w, 0, j).y + h == border + levels * h
    ensures CellRect(levels, border, h, w, levels - 1, j).y == border
  {
  }

  // ---------------------------------------------------------------------------
  // Hit test (mousePressEvent)

  /** `coeffs_len - ((y - bordersize) / box_height) - 1` with Python's floor division. */
  function HitLevel(levels: int, border: int, h: int, py: int): (level: int)
    requires h != 0
    ensures h > 0 ==> (levels - level - 1) * h + border <= py < (levels - level) * h + border
  {
    levels - FloorDiv(py - border, h) - 1
  }

  /** `(x - bordersize) / box_width[level]` with Python's floor division. */
  function HitTimePoint(border: int, w: int, px: int): (t: int)
    requires w != 0
    ensures w > 0 ==> border + t * w <= px < border + (t + 1) * w
  {
    FloorDiv(px - border, w)
  }

  /**
   * What a click resolves to. Python raises ZeroDivisionError when the row
   * height, or the width of the row that was hit, is 0.
   */
  datatype Hit = ZeroDivision | Outside | OnCell(cell: Cell)

  /**
   * The cell a click resolves to: outside when the row is not in [0, levels);
   * otherwise the level and the time point, which is NOT range-checked.
   */
  function HitTest(levels: nat, border: int, h: int, widths: seq<int>, px: int, py: int): (hit: Hit)
    requires |widths| == levels
    ensures h == 0 ==> hit == ZeroDivision
    ensures h != 0 ==> (hit == Outside <==> !(0 <= HitLevel(levels, border, h, py) < levels))
    ensures h != 0 && 0 <= HitLevel(levels, border, h, py) < levels ==>
              (hit == ZeroDivision <==> widths[HitLevel(levels, border, h, py)] == 0)
    ensures hit.OnCell? ==> 0 <= hit.cell.level < levels && widths[hit.cell.level] != 0
  {
    if h == 0 then ZeroDivision
    else
      var level := HitLevel(levels, border, h, py);
      if !(0 <= level < levels) then Outside
      else if widths[level] == 0 then ZeroDivision
      else OnCell(Cell(level, HitTimePoint(border, widths[level], px)))
  }

  /** With a positive row height a click hits a row exactly when it is inside the grid band. */
  lemma HitTestRows(levels: nat, border: int, h: int, widths: seq<int>, px: int, py: int)
    requires h > 0 && |widths| == levels
    requires forall i :: 0 <= i < levels ==> widths[i] != 0
    ensures HitTest(levels, border, h, widths, px, py).OnCell? <==> border <= py < border + levels * h
  {
    FloorDivSign(py - border, h);
    FloorDivBelow(py - border, h, levels);
  }

  /** Every pixel of the rectangle of cell (i, j) resolves to (i, j). */
  lemma HitTestFindsCell(levels: nat, border: int, h: int, widths: seq<int>, i: int, j: int, px: int, py: int)
    requires h > 0 && |widths| == levels
    requires 0 <= i < levels && widths[i] > 0
    requires Contains(CellRect(levels, border, h, widths[i], i, j), px, py)
    ensures HitTest(levels, border, h, widths, px, py) == OnCell(Cell(i, j))
  {
    FloorDivUnique(py - border, h, levels - i - 1);
    FloorDivUnique(px - border, widths[i], j);
  }

  /** Conversely, a pixel that resolves to (i, j) lies in the rectangle of (i, j). */
  lemma HitTestLandsInCell(levels: nat, border: int, h: int, widths: seq<int>, px: int, py: int)
    requires h > 0 && |widths| == levels
    requires forall k :: 0 <= k < levels ==> widths[k] >= 0
    requires HitTest(levels, border, h, widths, px, py).OnCell?
    ensures var c := HitTest(levels, border, h, widths, px, py).cell;
            Contains(CellRect(levels, border, h, widths[c.level], c.level, c.timePoint), px, py)
  {
  }

  /** Two different cells never share a pixel. */
  lemma CellsDisjoint(levels: nat, border: int, h: int, widths: seq<int>,
                      i: int, j: int, i': int, j': int, px: int, py: int)
    requires h > 0 && |widths| == levels
    requires 0 <= i < levels && 0 <= i' < levels && widths[i] > 0 && widths[i'] > 0
    requires Contains(CellRect(levels, border, h, widths[i], i, j), px, py)
    requires Contains(CellRect(levels, border, h, widths[i'], i', j'), px, py)
    ensures i == i' && j == j'
  {
    HitTestFindsCell(levels, border, h, widths, i, j, px, py);
    HitTestFindsCell(levels, border, h, widths, i', j', px, py);
  }
}
