/**
 * `PaintWidget` (waveletGui.py:11-127): the coefficient grid on its pixmap.
 *
 * The module-level `wavelet_coefficients` is the field `coeffs`, owned by the
 * widget. Painting is modelled as the sequence of `drawRect` calls made on the
 * pixmap since it was last filled: a full render (`DrawWavelets`) starts a new
 * sequence, a single-cell repaint (`DrawParticularWavelet`) appends one call.
 */
module Widget {
  import opened Wrappers
  import opened ColourMap
  import opened Layout
  import opened PyNum

  /** One `paint.drawRect`: the rectangle, the brush, and whether the black outline pen is kept. */
  datatype Draw = Draw(rect: Rect, brush: Colour, outlined: bool)

  /**
   * What a click did: raised ZeroDivisionError or IndexError, missed the
   * grid, left the coefficient as it was, or wrote `value` at array position
   * `index` (after numpy's negative wrap) of `level`.
   */
  datatype Click = DivisionError | Ignored | IndexError | Kept | Edited(level: nat, index: nat, value: real)

  /** Indexing a 1-D numpy array: negative indices count from the end, others raise IndexError. */
  function PyIndex(k: int, len: nat): (idx: Option<nat>)
    ensures idx.Some? <==> -(len as int) <= k < len
    ensures idx.Some? ==> idx.value < len && idx.value % len == k % len
  {
    if 0 <= k < len then Some(k)
    else if -(len as int) <= k < 0 then
      WrapSameResidue(k, len);
      Some(k + len)
    else None
  }

  /** numpy's wrap of a negative index keeps its residue modulo the length. */
  lemma WrapSameResidue(k: int, len: nat)
    requires -(len as int) <= k < 0
    ensures (k + len) % len == k % len
  {
    var r := k + len;
    var q := k / len;
    assert len * q + k % len == len * (-1) + r;
    assert len * (q + 1) == r - k % len;
    MulAwayFromZero(len, q + 1);
  }

  /** A non-zero multiple of len > 0 is at least len away from 0. */
  lemma MulAwayFromZero(len: int, m: int)
    requires len > 0
    ensures m >= 1 ==> len * m >= len
    ensures m <= -1 ==> len * m <= -len
  {
    if m >= 1 {
      assert len * m == len + len * (m - 1);
    } else if m <= -1 {
      assert len * m == -len + len * (m + 1);
    }
  }

  /**
   * The time point is not range-checked: a click in the last cell width left of
   * the grid resolves to time point -1, and numpy reads that as the last
   * coefficient of the row.
   */
  lemma LeftBorderClickWraps(levels: nat, border: int, h: int, widths: seq<int>, i: int, n: nat, px: int, py: int)
    requires h > 0 && |widths| == levels
    requires 0 <= i < levels && widths[i] > 0 && n >= 1
    requires border - widths[i] <= px < border
    requires (levels - i - 1) * h + border <= py < (levels - i) * h + border
    ensures HitTest(levels, border, h, widths, px, py) == OnCell(Cell(i, -1))
    ensures PyIndex(-1, n) == Some(n - 1)
  {
    HitTestFindsCell(levels, border, h, widths, i, -1, px, py);
  }

  /** A click in a row but right of its n cells gives a time point numpy rejects. */
  lemma ClickPastRowRaises(levels: nat, border: int, h: int, widths: seq<int>, i: int, n: nat, px: int, py: int)
    requires h > 0 && |widths| == levels
    requires 0 <= i < levels && widths[i] > 0
    requires border + n * widths[i] <= px
    requires (levels - i - 1) * h + border <= py < (levels - i) * h + border
    ensures HitTest(levels, border, h, widths, px, py) == OnCell(Cell(i, HitTimePoint(border, widths[i], px)))
    ensures HitTimePoint(border, widths[i], px) >= n && PyIndex(HitTimePoint(border, widths[i], px), n).None?
  {
    FloorDivUnique(py - border, h, levels - i - 1);
    FloorDivBelow(px - border, widths[i], n);
  }

  /**
   * Number of cells painted before level i: the levels are painted in order,
   * so with no empty level at least one cell per level comes first.
   */
  function Offset<T>(grid: seq<seq<T>>, i: nat): (o: nat)
    requires i <= |grid|
    ensures (forall k :: 0 <= k < i ==> |grid[k]| >= 1) ==> i <= o
  {
    if i == 0 then 0 else Offset(grid, i - 1) + |grid[i - 1]|
  }

  /** Position of cell (i, j) in the painting order of a full render. */
  function DrawIndex<T>(grid: seq<seq<T>>, i: nat, j: nat): (d: nat)
    requires i < |grid|
    ensures j < |grid[i]| ==> Offset(grid, i) <= d < Offset(grid, i + 1)
  {
    Offset(grid, i) + j
  }

  lemma {:induction false} OffsetMonotone<T>(grid: seq<seq<T>>, i: nat, k: nat)
    requires i <= k <= |grid|
    ensures Offset(grid, i) <= Offset(grid, k)
    decreases k - i
  {
    if i < k {
      OffsetMonotone(grid, i, k - 1);
    }
  }

  /** A cell of level i is painted after the levels before it and before those after it. */
  lemma DrawIndexBelowNext<T>(grid: seq<seq<T>>, i: nat, j: nat, k: nat)
    requires i < k <= |grid| && j < |grid[i]|
    ensures Offset(grid, i) <= DrawIndex(grid, i, j) < Offset(grid, i + 1) <= Offset(grid, k)
  {
    OffsetMonotone(grid, i + 1, k);
  }

  /**
   * The first n levels of `grid` are painted in `drawn`: cell (k, j) is the
   * DrawIndex(grid, k, j)-th rectangle drawn, with its cell's geometry and colour.
   */
  ghost predicate PaintedLevels(drawn: seq<Draw>, grid: seq<seq<Colour>>, n: nat,
                                border: int, h: int, widths: seq<int>, outlined: bool)
    requires n <= |grid| && n <= |widths|
  {
    forall k, j :: 0 <= k < n && 0 <= j < |grid[k]| ==>
      DrawIndex(grid, k, j) < |drawn| &&
      drawn[DrawIndex(grid, k, j)] == Draw(CellRect(|grid|, border, h, widths[k], k, j), grid[k][j], outlined)
  }

  /** Painting the cells of level i, in order, after the first i levels paints the first i + 1. */
  lemma AppendLevel(drawn: seq<Draw>, row: seq<Draw>, grid: seq<seq<Colour>>, i: nat,
                    border: int, h: int, widths: seq<int>, w: int, outlined: bool)
    requires i < |grid| && |widths| == i && |drawn| == Offset(grid, i) && |row| == |grid[i]|
    requires PaintedLevels(drawn, grid, i, border, h, widths, outlined)
    requires forall j :: 0 <= j < |row| ==>
               row[j] == Draw(CellRect(|grid|, border, h, w, i, j), grid[i][j], outlined)
    ensures PaintedLevels(drawn + row, grid, i + 1, border, h, widths + [w], outlined)
  {
    var widths' := widths + [w];
    forall k, j | 0 <= k < i + 1 && 0 <= j < |grid[k]|
      ensures DrawIndex(grid, k, j) < |drawn + row|
      ensures (drawn + row)[DrawIndex(grid, k, j)] ==
                Draw(CellRect(|grid|, border, h, widths'[k], k, j), grid[k][j], outlined)
    {
      if k < i {
        assert widths'[k] == widths[k];
      }
    }
  }

  /** Further drawing leaves the painted cells where they are. */
  lemma PaintedPrefix(drawn: seq<Draw>, more: seq<Draw>, grid: seq<seq<Colour>>, n: nat,
                      border: int, h: int, widths: seq<int>, outlined: bool)
    requires n <= |grid| && n <= |widths|
    requires PaintedLevels(drawn, grid, n, border, h, widths, outlined)
    ensures PaintedLevels(drawn + more, grid, n, border, h, widths, outlined)
  {
    forall k, j | 0 <= k < n && 0 <= j < |grid[k]|
      ensures (drawn + more)[DrawIndex(grid, k, j)] == drawn[DrawIndex(grid, k, j)]
    {
    }
  }

  /**
   * The inner loop of `drawWavelets`: the cells of one level, left to right,
   * each `w` wide, the first at the left border.
   */
  method PaintLevel(level: seq<Colour>, border: int, y: int, w: int, h: int, outlined: bool)
    returns (row: seq<Draw>)
    ensures |row| == |level|
    ensures forall j :: 0 <= j < |level| ==>
              row[j] == Draw(Rect(border + j * w, y, w, h), level[j], outlined)
  {
    row := [];
    var currentWidth := border;
    var j := 0;
    while j < |level|
      invariant 0 <= j <= |level| && |row| == j
      invariant currentWidth == border + j * w
      invariant forall j' :: 0 <= j' < j ==>
                  row[j'] == Draw(Rect(border + j' * w, y, w, h), level[j'], outlined)
    {
      row := row + [Draw(Rect(currentWidth, y, w, h), level[j], outlined)];
      currentWidth := currentWidth + w;
      j := j + 1;
    }
  }

  /**
   * The number `QInputDialog.getDouble(..., value, lo, hi, 12)` returns: the
   * spin box keeps it within [lo, hi].
   */
  function DialogValue(typed: real, lo: real, hi: real): (v: real)
    requires lo <= hi
    ensures lo <= v <= hi
    ensures lo <= typed <= hi ==> v == typed
  {
    if typed < lo then lo else if typed > hi then hi else typed
  }

  /**
   * The outer loop of `drawWavelets`: one width per level, rounded from the
   * canvas width, and that level's cells in painting order.
   */
  method PaintGrid(grid: seq<seq<Colour>>, xs: nat, border: int, h: int, outlined: bool)
    returns (widths: seq<int>, drawn: seq<Draw>)
    requires forall i :: 0 <= i < |grid| ==> |grid[i]| >= 1
    ensures |widths| == |grid|
    ensures forall i :: 0 <= i < |grid| ==> widths[i] == BoxWidth(xs, |grid[i]|)
    ensures |drawn| == Offset(grid, |grid|)
    ensures PaintedLevels(drawn, grid, |grid|, border, h, widths, outlined)
  {
    widths, drawn := [], [];
    var coeffsLen := |grid|;
    var i := 0;
    while i < coeffsLen
      invariant 0 <= i <= coeffsLen
      invariant |widths| == i
      invariant forall k :: 0 <= k < i ==> widths[k] == BoxWidth(xs, |grid[k]|)
      invariant |drawn| == Offset(grid, i)
      invariant PaintedLevels(drawn, grid, i, border, h, widths, outlined)
    {
      var w := BoxWidth(xs, |grid[i]|);
      var row := PaintLevel(grid[i], border, (coeffsLen - i - 1) * h + border, w, h, outlined);
      AppendLevel(drawn, row, grid, i, border, h, widths, w, outlined);
      widths := widths + [w];
      drawn := drawn + row;
      i := i + 1;
    }
  }

  /**
   * The whole of a full render on values: colour every coefficient, size the
   * rows to the padded height `ys` (keeping the old height h0 for an empty
   * pyramid) and the columns to the width xs, and paint every cell.
   */
  method Render(coeffs: seq<seq<real>>, lo: real, hi: real, xs: nat, ys: int, border: int,
                outlined: bool, h0: int)
    returns (colours: seq<seq<Colour>>, h: int, widths: seq<int>, drawn: seq<Draw>)
    requires lo < hi
    requires forall i :: 0 <= i < |coeffs| ==> |coeffs[i]| >= 1
    ensures colours == CoeffsToColor(coeffs, lo, hi)
    ensures h == if |coeffs| != 0 then BoxHeight(ys - 2 * border, |coeffs|) else h0
    ensures |widths| == |coeffs|
    ensures forall i :: 0 <= i < |coeffs| ==> widths[i] == BoxWidth(xs, |coeffs[i]|)
    ensures |drawn| == Offset(colours, |colours|)
    ensures Consistent(coeffs, lo, hi, colours, widths, drawn, border, h, outlined)
    ensures RenderOf(coeffs, lo, hi, xs, ys, border, colours, h, widths, drawn)
  {
    colours := CoeffsToColor(coeffs, lo, hi);
    h := h0;
    if |colours| != 0 {
      h := BoxHeight(ys - 2 * border, |colours|);
    }
    widths, drawn := PaintGrid(colours, xs, border, h, outlined);
  }

  /**
   * A render of exactly these coefficients and this range: each colour is its
   * coefficient's, the rows are sized to the height ys (an empty pyramid
   * keeps no row height), each level's columns are sized to the width xs, and
   * there is one rectangle per cell.
   */
  ghost predicate RenderOf(coeffs: seq<seq<real>>, lo: real, hi: real, xs: nat, ys: int, border: int,
                           colours: seq<seq<Colour>>, h: int, widths: seq<int>, drawn: seq<Draw>)
  {
    lo < hi &&
    colours == CoeffsToColor(coeffs, lo, hi) &&
    (|coeffs| != 0 ==> h == BoxHeight(ys - 2 * border, |coeffs|)) &&
    |widths| == |coeffs| &&
    (forall i :: 0 <= i < |coeffs| ==> |coeffs[i]| >= 1 && widths[i] == BoxWidth(xs, |coeffs[i]|)) &&
    |drawn| == Offset(colours, |colours|)
  }

  /**
   * A render that still describes the grid: the colour grid has the shape of
   * the coefficients, there is one width per level, and the first rectangles
   * drawn are the painted cells, level by level.
   */
  ghost predicate Consistent(coeffs: seq<seq<real>>, lo: real, hi: real, colours: seq<seq<Colour>>,
                             widths: seq<int>, drawn: seq<Draw>, border: int, h: int, outlined: bool)
  {
    lo < hi &&
    |coeffs| == |colours| == |widths| &&
    (forall i :: 0 <= i < |coeffs| ==> |coeffs[i]| == |colours[i]|) &&
    PaintedLevels(drawn, colours, |colours|, border, h, widths, outlined)
  }

  class PaintWidget {
    /** `wavelet_coefficients`, level 0 the coarsest */
    var coeffs: seq<seq<real>>
    /** `coeff_range` */
    var lo: real
    var hi: real
    /** `coeffs_color`, computed by the last full render */
    var coeffsColor: seq<seq<Colour>>
    const boxBorder: bool
    const borderSize: int
    var xsize: nat
    const ysize: int
    var boxHeight: int
    var boxWidth: seq<int>
    /** `setFixedSize` */
    var canvasWidth: int
    var canvasHeight: int
    /** `drawRect` calls on the pixmap since it was last filled black */
    var pixmap: seq<Draw>

    /**
     * The last full render still describes the grid: the colour grid has the
     * shape of the coefficients, there is one width per level, and the first
     * rectangles on the pixmap are the painted cells, level by level.
     */
    ghost predicate Valid()
      reads this
    {
      Consistent(coeffs, lo, hi, coeffsColor, boxWidth, pixmap, borderSize, boxHeight, boxBorder)
    }

    /**
     * The last full render is of the current coefficients and range: every
     * colour is that of its coefficient, the rows and columns are sized from
     * the canvas, the widget has the canvas size, and the pixmap holds exactly
     * the cells. An edit repaints one cell but leaves `coeffsColor` as it was,
     * so this is not part of Valid().
     */
    ghost predicate Rendered()
      reads this
    {
      RenderOf(coeffs, lo, hi, xsize, ysize - 15, borderSize, coeffsColor, boxHeight, boxWidth, pixmap) &&
      canvasWidth == xsize + 2 * borderSize && canvasHeight == ysize - 15
    }

    /** `PaintWidget(boxborder, bordersize, xsize, ysize)` with the default range [-3, 3]. */
    constructor (boxBorder: bool, borderSize: int, xsize: nat, ysize: int, coeffs: seq<seq<real>>)
      requires forall i :: 0 <= i < |coeffs| ==> |coeffs[i]| >= 1
      ensures Valid()
      ensures this.boxBorder == boxBorder && this.borderSize == borderSize
      ensures this.xsize == xsize && this.ysize == ysize && this.coeffs == coeffs
      ensures lo == -3.0 && hi == 3.0
      ensures Rendered()
    {
      this.coeffs := coeffs;
      lo, hi := -3.0, 3.0;
      coeffsColor := [];
      this.boxBorder := boxBorder;
      this.borderSize := borderSize;
      boxHeight := 0;
      boxWidth := [];
      this.xsize := xsize;
      this.ysize := ysize;
      canvasWidth, canvasHeight := 0, 0;
      pixmap := [];
      new;
      DrawWavelets();
    }

    /**
     * `drawWavelets`: recolour every coefficient, recompute the row height and
     * the column widths, and paint every cell. The pixmap is filled black
     * first, so the cells are all it holds afterwards.
     */
    method DrawWavelets()
      requires lo < hi
      requires forall i :: 0 <= i < |coeffs| ==> |coeffs[i]| >= 1
      modifies this
      ensures Valid()
      ensures coeffs == old(coeffs) && lo == old(lo) && hi == old(hi) && xsize == old(xsize)
      ensures coeffsColor == CoeffsToColor(coeffs, lo, hi)
      ensures canvasWidth == xsize + 2 * borderSize && canvasHeight == ysize - 15
      ensures boxHeight == if |coeffs| != 0 then BoxHeight(ysize - 2 * borderSize - 15, |coeffs|)
                           else old(boxHeight)
      ensures |boxWidth| == |coeffs|
      ensures forall i :: 0 <= i < |coeffs| ==> boxWidth[i] == BoxWidth(xsize, |coeffs[i]|)
      ensures |pixmap| == Offset(coeffsColor, |coeffsColor|)
      ensures Rendered()
    {
      var ypadder := -15;
      coeffsColor, boxHeight, boxWidth, pixmap :=
        Render(coeffs, lo, hi, xsize, ysize + ypadder, borderSize, boxBorder, boxHeight);
      canvasWidth, canvasHeight := xsize + 2 * borderSize, ysize + ypadder;
    }

    /** Show new coefficients: set them with the canvas width and the colour range, then redraw. */
    method Load(coeffs: seq<seq<real>>, xsize: nat, lo: real, hi: real)
      requires lo < hi
      requires forall i :: 0 <= i < |coeffs| ==> |coeffs[i]| >= 1
      modifies this
      ensures Valid()
      ensures this.coeffs == coeffs && this.xsize == xsize && this.lo == lo && this.hi == hi
      ensures Rendered()
    {
      this.coeffs, this.xsize, this.lo, this.hi := coeffs, xsize, lo, hi;
      DrawWavelets();
    }

    /**
     * `drawParticularWavelet`: paint the one cell (level, timePoint) again,
     * with the colour of its current coefficient. The coefficient is read with
     * numpy's indexing, the rectangle is placed at the raw time point.
     */
    method DrawParticularWavelet(level: nat, timePoint: int)
      requires Valid()
      requires level < |coeffs| && PyIndex(timePoint, |coeffs[level]|).Some?
      modifies this`pixmap
      ensures Valid()
      ensures pixmap == old(pixmap) +
                [Draw(CellRect(|coeffsColor|, borderSize, boxHeight, boxWidth[level], level, timePoint),
                      CoeffColour(coeffs[level][PyIndex(timePoint, |coeffs[level]|).value], lo, hi),
                      boxBorder)]
      ensures 0 <= timePoint ==>
                pixmap[|pixmap| - 1].rect == pixmap[DrawIndex(coeffsColor, level, timePoint)].rect
    {
      var color := BlueColormap((coeffs[level][PyIndex(timePoint, |coeffs[level]|).value] - lo) / (hi - lo));
      var currentWidth := borderSize + timePoint * boxWidth[level];
      var coeffsLen := |coeffsColor|;
      var drawn := Draw(Rect(currentWidth, (coeffsLen - level - 1) * boxHeight + borderSize,
                             boxWidth[level], boxHeight),
                        color, boxBorder);
      PaintedPrefix(pixmap, [drawn], coeffsColor, coeffsLen, borderSize, boxHeight, boxWidth, boxBorder);
      pixmap := pixmap + [drawn];
    }

    /**
     * `mousePressEvent`: resolve the click to a cell, ask for a new value
     * bounded by the colour range (`ok`, `typed`: the dialog's answer), and
     * write and repaint only when the answer is accepted and differs from the
     * current coefficient.
     */
    method MousePressEvent(px: int, py: int, ok: bool, typed: real) returns (click: Click)
      requires Valid()
      modifies this`coeffs, this`pixmap
      ensures Valid()
      ensures var hit := HitTest(|old(coeffs)|, borderSize, boxHeight, boxWidth, px, py);
              (click == DivisionError <==> hit == ZeroDivision) &&
              (click == Ignored <==> hit == Outside) &&
              (click == IndexError <==>
                 hit.OnCell? && PyIndex(hit.cell.timePoint, |old(coeffs)[hit.cell.level]|).None?) &&
              (click.Edited? <==>
                 hit.OnCell? && PyIndex(hit.cell.timePoint, |old(coeffs)[hit.cell.level]|).Some? && ok &&
                 DialogValue(typed, lo, hi) !=
                   old(coeffs)[hit.cell.level][PyIndex(hit.cell.timePoint, |old(coeffs)[hit.cell.level]|).value])
      ensures click.Edited? ==>
                var hit := HitTest(|old(coeffs)|, borderSize, boxHeight, boxWidth, px, py);
                hit.OnCell? && click.level == hit.cell.level && click.level < |old(coeffs)| &&
                Some(click.index) == PyIndex(hit.cell.timePoint, |old(coeffs)[click.level]|) &&
                click.value == DialogValue(typed, lo, hi) && lo <= click.value <= hi &&
                coeffs == old(coeffs)[click.level := old(coeffs)[click.level][click.index := click.value]] &&
                pixmap == old(pixmap) +
                  [Draw(CellRect(|coeffsColor|, borderSize, boxHeight, boxWidth[click.level],
                                 click.level, hit.cell.timePoint),
                        CoeffColour(click.value, lo, hi), boxBorder)]
      ensures !click.Edited? ==> coeffs == old(coeffs) && pixmap == old(pixmap)
    {
      var coeffsLen := |coeffs|;
      if boxHeight == 0 {
        return DivisionError;
      }
      var level := coeffsLen - FloorDiv(py - borderSize, boxHeight) - 1;
      if 0 <= level < coeffsLen {
        if boxWidth[level] == 0 {
          return DivisionError;
        }
        var timePoint := FloorDiv(px - borderSize, boxWidth[level]);
        var index := PyIndex(timePoint, |coeffs[level]|);
        if index.None? {
          return IndexError;
        }
        var current := coeffs[level][index.value];
        var newNumber := DialogValue(typed, lo, hi);
        if ok && newNumber != current {
          coeffs := coeffs[level := coeffs[level][index.value := newNumber]];
          DrawParticularWavelet(level, timePoint);
          click := Edited(level, index.value, newNumber);
        } else {
          click := Kept;
        }
      } else {
        click := Ignored;
      }
    }
  }
}
