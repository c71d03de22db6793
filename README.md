# waveletGui coefficient grid, modelled in Dafny

waveletGui is a small PyQt4 tool that shows the wavelet decomposition of a
sound signal as a grid of coloured boxes. Each level of the coefficient
pyramid is one row, the coarsest level (level 0) at the bottom. Each
coefficient is one box, coloured on a white-to-blue scale by where it falls
in the colour range `coeff_range`. Clicking a box opens a dialog that
rewrites that coefficient, and only that box is repainted. Importing a wave
file can pad the signal with zeros to a power-of-two length. The import
also widens the colour range to cover the new coefficients.

This project models that core of `waveletGui.py`:

- `PaintWidget` is a class (module `Widget`). Its pixmap is the sequence of
  `drawRect` calls made since the pixmap was last filled black.
  - `DrawWavelets` is a full render: it replaces the sequence with the cells,
    level by level.
  - `DrawParticularWavelet` appends one call.
  - `MousePressEvent` hit-tests a pixel, then edits one coefficient and
    repaints it. It returns what happened, including the Python exceptions.
- `PlotWindow` is a class (module `Window`) holding the signal, the sample
  rate, the wavelet name, the colour range and the painter. Its operations
  are `ImportFile`, `NewSignal` and `Settings`.
- The module-level helpers are modelled as follows:
  - `check_power_of_two` and `range_of_coeffs` are pure functions;
  - `next_power_of_two` is a method that keeps the source's straight-line
    reassignments of `x |= x >> k`;
  - `blue_colormap` is the function `BlueColormap`.
- Python 2 numerics are written out in module `PyNum`:
  - `int()` of a float truncates toward zero;
  - `round()` rounds halves away from zero;
  - `/` on ints is floor division, also for negative operands.
- Python integers are unbounded, and so are the bit operations in module
  `Bits` (on `nat`). Floats are idealised as `real`.

Proved, among other things:

- **Power of two.** The power-of-two test is exact. For 1 ≤ n ≤ 2^32,
  `next_power_of_two(n)` is the least power of two ≥ n. It is checked
  against an independent definition by repeated halving (`CeilPow2`). Just
  past 2^32 the 16-bit shift is too short, and the result is not a power of
  two.
- **Padding.** It keeps the samples as a prefix and only appends zeros. It
  reaches the next power of two when the user confirms, for lengths up to
  2^32.
- **Colour range.** `range_of_coeffs` is the attained minimum and maximum.
  The import update only widens the range. The widened range is the least
  range covering both the old range and the new pyramid.
- **Layout and hit test.** They are inverse to each other:
  - cells are adjacent and rows stacked;
  - for a positive row height and positive widths, every pixel of a cell's
    rectangle resolves to that cell, and a resolved pixel lies in its cell;
  - under the same conditions no pixel belongs to the hit-test rectangles of
    two cells. Qt's outlined `drawRect` paints one pixel more in each
    direction, so neighbouring painted cells do share their border pixels.
  - The row height truncates toward zero. A window at least n pixels (one
    per level) shorter than 2·border + 15 gives a negative row height, and
    the hit test then still reports a cell for some pixels outside the empty
    rectangles; no lemma covers that case. A window fewer than n pixels
    short gives row height 0, so every click raises ZeroDivisionError.
- **Full render versus single repaint.** For a non-negative time point the
  single-cell repaint draws exactly the rectangle of the full render.
- **Redraw.** `Rendered` states that the last full render is of the current
  coefficients and range. Creating the widget or the window, an import, a new
  signal and a change of wavelet all leave the painter `Rendered`. An edit
  keeps only `Valid`: it repaints one cell, and `coeffs_color` keeps the old
  colour, as in the source.
- **Edits.** An edit changes one entry, to a value inside the range, and
  only when the dialog was accepted with a different value.

## Model

| member | source | states |
|---|---|---|
| PyNum.Trunc | waveletGui.py:64 | `int()` of a float lands within 1 of the value, on the side of zero |
| PyNum.Round | waveletGui.py:70 | Python 2 `round` lies within 1/2 of the value, and a tie rounds away from zero |
| PyNum.FloorDiv | waveletGui.py:109 | Python 2 int `/`: for b > 0 the quotient q satisfies b·q ≤ a < b·q + b (mirrored for b < 0) |
| PyNum.FloorDivUnique | waveletGui.py:109-113 | the floor quotient is the only q with b·q ≤ a < b·q + b |
| PyNum.FloorDivSign | waveletGui.py:109-113 | for b > 0 the floor quotient is non-negative exactly when a is |
| PyNum.FloorDivBelow | waveletGui.py:109-111 | for b > 0, a / b < n exactly when a < b·n |
| PyNum.RoundMonotone | waveletGui.py:280 | `round` never decreases |
| Bits.BitAnd | waveletGui.py:285 | Python's `a & b` on non-negative ints is at most each operand |
| Bits.BitAndBit | waveletGui.py:285 | bit i of `a & b` is set exactly when bit i is set in both a and b |
| Bits.BitOr | waveletGui.py:290-294 | Python's bitwise OR on non-negative ints is 0 exactly when both operands are |
| Bits.Shr | waveletGui.py:290-294 | Python's `x >> k` on a non-negative int never exceeds x |
| Bits.ShrIsDivision | waveletGui.py:290-294 | `x >> k` is x floor-divided by 2^k |
| Bits.BitOrBit | waveletGui.py:290-294 | the bitwise OR has exactly the bits set in either operand |
| Bits.ShrBit | waveletGui.py:290-294 | bit i of `x >> k` is bit i + k of x |
| Bits.BitOrAtLeast | waveletGui.py:290-294 | the bitwise OR of a and b is never below a |
| Bits.BitsDetermine | waveletGui.py:290-294 | two numbers with the same bits are equal |
| PowerOfTwo.CheckPowerOfTwo | waveletGui.py:284-285 | the test is true exactly when n = 2^k for some k ≥ 0, so false for 0 |
| PowerOfTwo.PowerTestCorrect | waveletGui.py:285 | `n != 0 and not (n & (n - 1))` holds exactly for the powers of two |
| PowerOfTwo.CeilPow2IsLeast | waveletGui.py:288-296 | the reference ceiling is a power of two ≥ n and no smaller power of two is ≥ n |
| PowerOfTwo.CeilPow2OfPower | waveletGui.py:288-296 | a power of two is its own ceiling, so `next_power_of_two` leaves it unchanged |
| PowerOfTwo.BitLengthIsCeilLog2 | waveletGui.py:288-296 | the bit length of n − 1 is the exponent of the least power of two ≥ n |
| PowerOfTwo.Smear | waveletGui.py:289-294 | the value after the first k OR-with-shift steps (shifts 1, 2, 4, …) never lies below x, and stays 0 for x = 0 |
| PowerOfTwo.SmearSpread | waveletGui.py:290-294 | after k rounds of OR-ing x with x shifted right by 2^j, bit i is set exactly when one of bits i … i + 2^k − 1 of x is, and x never decreases |
| PowerOfTwo.SpreadFillsBelowTopBit | waveletGui.py:290-294 | a smear over a window at least as wide as x is 2^BitLength(x) − 1, all ones below the top bit |
| PowerOfTwo.NextPowerOfTwo | waveletGui.py:288-296 | 0 gives 0; for n ≥ 1 the result r ≥ n and r − 1 is the 32-bit smear of n − 1; for 1 ≤ n ≤ 2^32, r is the least power of two ≥ n |
| PowerOfTwo.SpreadMissesBitZero | waveletGui.py:290-295 | a c-bit smear of 2^c plus one is never a power of two |
| PowerOfTwo.NextPowerOfTwoBeyond32Bits | waveletGui.py:288-296 | for n = 2^32 + 1 the shifts up to 16 leave bit 0 clear, so the result is not a power of two |
| PowerOfTwo.Zeros | waveletGui.py:226 | `np.zeros(k)`: length k, every entry 0 |
| PowerOfTwo.PadSignal | waveletGui.py:220-226 | the samples stay a prefix and only zeros follow; the signal is unchanged when its length is a power of two or the user declines; on confirmation a length in [1, 2^32] becomes the least power of two ≥ it |
| ColourMap.BlueColormap | waveletGui.py:279-281 | blue is 255 and red = green; brightness in [0, 1] gives channels in [0, 255] |
| ColourMap.BlueColormapEndpoints | waveletGui.py:279-281 | brightness 0 is white (255, 255, 255), brightness 1 is (0, 0, 255) |
| ColourMap.BlueColormapDarkens | waveletGui.py:279-281 | a larger brightness never gives a lighter red or green channel |
| ColourMap.Normalize | waveletGui.py:126 | the normalised value b satisfies b·(hi − lo) = value − lo, and b is in [0, 1] exactly when the value is in [lo, hi] |
| ColourMap.NormalizeEndpoints | waveletGui.py:126 | the range ends map to 0 and 1 |
| ColourMap.CoeffColour | waveletGui.py:89 | a coefficient inside the range gets a valid RGB colour |
| ColourMap.CoeffColourDarkens | waveletGui.py:125-127 | a larger coefficient is painted in a darker or equal blue |
| ColourMap.CoeffsToColor | waveletGui.py:121-127 | the colour grid has the pyramid's shape, and each entry is the colour of the coefficient at the same place |
| ColourMap.CoeffsToColorInGamut | waveletGui.py:121-127 | when the range covers every coefficient, every colour of the grid is in [0, 255]³ |
| CoeffRange.MinOf | waveletGui.py:299 | `np.min` of a level is an element of it and below all of it |
| CoeffRange.MaxOf | waveletGui.py:299 | `np.max` of a level is an element of it and above all of it |
| CoeffRange.PyramidMin | waveletGui.py:299 | the minimum over levels is below every coefficient |
| CoeffRange.PyramidMax | waveletGui.py:299 | the maximum over levels is above every coefficient |
| CoeffRange.PyramidMinAttained | waveletGui.py:299 | the pyramid minimum is one of the coefficients |
| CoeffRange.PyramidMaxAttained | waveletGui.py:299 | the pyramid maximum is one of the coefficients |
| CoeffRange.RangeOfCoeffs | waveletGui.py:298-299 | every coefficient lies between the two bounds |
| CoeffRange.RangeOfCoeffsAttained | waveletGui.py:298-299 | both bounds are coefficients, so no tighter range covers the pyramid |
| Layout.FloorOfQuotient | waveletGui.py:64 | for n > 0 the floor of the real a / n is Python's int a / n |
| Layout.TruncOfQuotient | waveletGui.py:64 | `int(a / float(n))` is a / n rounded toward zero |
| Layout.TruncBounds | waveletGui.py:64 | for a ≥ 0, n rows of that height fit in a with less than one row to spare; for a < 0 the height is ≤ 0 |
| Layout.BoxHeight | waveletGui.py:64 | for a non-negative padded height, the rows fill it to within one row; for a negative one the row height is ≤ 0 |
| Layout.BoxWidth | waveletGui.py:70 | the width is ≥ 0, and a level's cells span the canvas width to within half a cell, a tie overshooting |
| Layout.RoundOfQuotient | waveletGui.py:70 | `round(x / float(len))` is the integer (2x + len) / 2len |
| Layout.RoundedBounds | waveletGui.py:70 | that integer width w satisfies −len < 2(len·w − x) ≤ len |
| Layout.CellRect | waveletGui.py:76 | the `drawRect` arguments of a cell: w by h, its left edge `timePoint` widths right of the border, its bottom `level` rows above the bottom of the grid |
| Layout.CellsAdjacent | waveletGui.py:76-77 | cell j + 1 starts where cell j ends, in the same row |
| Layout.RowsStacked | waveletGui.py:76 | row i + 1 lies directly above row i; level 0 ends at the bottom of the grid and the last level starts at the border |
| Layout.HitLevel | waveletGui.py:109 | for a positive row height, the level computed from y is the row whose band contains y |
| Layout.HitTimePoint | waveletGui.py:113 | for a positive width, the time point computed from x is the cell whose column contains x |
| Layout.HitTest | waveletGui.py:108-113 | a zero row height, or a zero width in the row hit, is a division error; a row outside [0, n) is rejected; otherwise the cell's level is in range |
| Layout.HitTestRows | waveletGui.py:109-111 | with a positive row height, a click hits a row exactly when it lies in the band of the rows |
| Layout.HitTestFindsCell | waveletGui.py:109-113 | for a positive row height and a positive width in row i, every pixel of the rectangle of cell (i, j) resolves to (i, j) |
| Layout.HitTestLandsInCell | waveletGui.py:109-113 | for a positive row height and widths that are never negative, a pixel that resolves to a cell lies in that cell's rectangle |
| Layout.CellsDisjoint | waveletGui.py:76-77 | for a positive row height and positive widths, two cells' hit-test rectangles never share a pixel |
| Widget.PyIndex | waveletGui.py:115-118 | numpy indexing accepts exactly −len ≤ k < len, and gives a position below len congruent to k |
| Widget.LeftBorderClickWraps | waveletGui.py:113-118 | a click less than one cell width left of the grid resolves to time point −1, which numpy reads as the row's last coefficient |
| Widget.ClickPastRowRaises | waveletGui.py:113-115 | a click in a row right of its last cell gives a time point numpy rejects |
| Widget.Offset | waveletGui.py:66-77 | the number of cells painted before level i; with no empty level it is at least i |
| Widget.DrawIndex | waveletGui.py:66-77 | cell (i, j) of a level is the (Offset + j)-th draw call, inside the block of level i |
| Widget.DrawIndexBelowNext | waveletGui.py:66-77 | the cells of level i are painted after the earlier levels and before the later ones |
| Widget.AppendLevel | waveletGui.py:66-77 | painting level i's cells after the first i levels paints the first i + 1 |
| Widget.PaintedPrefix | waveletGui.py:99 | further drawing keeps every painted cell at its place in the pixmap |
| Widget.PaintLevel | waveletGui.py:69-77 | cell j of a level is drawn at x = border + j·w, in that level's colour |
| Widget.DialogValue | waveletGui.py:115 | the number the bounded dialog returns lies in the range, and is the typed number when that already does |
| Widget.PaintGrid | waveletGui.py:66-77 | one rounded width per level, and cell (i, j) is drawn with its own rectangle and colour at its place in painting order |
| Widget.Render | waveletGui.py:41-77 | the colours, row height, widths and the draw calls of a full render, and that they describe the grid |
| Widget.PaintWidget.constructor | waveletGui.py:13-30 | the new widget has the default range [−3, 3] and its given sizes, and is `Rendered`: the colours are the coefficients' colours, the row height, the widths and the canvas size are computed from its sizes, and the pixmap holds exactly the cells |
| Widget.PaintWidget.DrawWavelets | waveletGui.py:38-81 | the colours, row height, widths and canvas size are recomputed (`Rendered`), an empty pyramid keeps the old row height, and the pixmap holds exactly the cells |
| Widget.PaintWidget.Load | waveletGui.py:228-236 | new coefficients, canvas width and range are set, and the widget is `Rendered` for them: colours, row height, widths, canvas size and exactly one draw call per cell |
| Widget.PaintWidget.DrawParticularWavelet | waveletGui.py:83-103 | exactly one draw call is appended, with the cell's colour; for a non-negative time point its rectangle is the full render's rectangle of that cell |
| Widget.PaintWidget.MousePressEvent | waveletGui.py:105-119 | the outcome is a division error, a miss, an index error or an edit exactly as the hit test and numpy decide; an edit happens exactly when the dialog is accepted with a different value; it writes one entry, in range, and appends that cell's repaint; otherwise nothing changes |
| Window.NewSignalLength | waveletGui.py:240-243 | each offered size is a power of two between 2^7 and 2^22 |
| Window.ExpandRange | waveletGui.py:231-234 | the range only grows; each bound is either kept or becomes the pyramid's extreme; afterwards every coefficient lies in the range |
| Window.ExpandRangeIsLeast | waveletGui.py:231-233 | any range containing the old range and every coefficient contains the expanded one |
| Window.PlotWindow.constructor | waveletGui.py:132-164 | 2048 zero samples at 44100 Hz, wavelet 'dmey', range [−3, 3], and a fresh painter holding their coefficients and `Rendered` for them |
| Window.PlotWindow.ImportFile | waveletGui.py:209-236 | no file chosen changes nothing; otherwise the rate is the file's, the signal is the padded samples, the coefficients are recomputed, the range is widened and never shrinks, the painter is `Rendered` for them, and every coefficient and colour is in range |
| Window.PlotWindow.LoadImported | waveletGui.py:228-236 | the coefficients of the final signal are set, the range is widened to cover all of them, and the painter is `Rendered` for both, so every colour is in gamut |
| Window.PlotWindow.NewSignal | waveletGui.py:238-248 | on `ok` the signal is a power-of-two run of zeros at 44100 Hz and the painter is `Rendered` for its coefficients; the range and the wavelet are unchanged |
| Window.PlotWindow.Settings | waveletGui.py:265-276 | on `ok` the chosen wavelet is used for the same signal and the painter is `Rendered` for the new coefficients; the signal, the rate and the range are unchanged |

## Left out

- Qt plumbing is not modelled: widget and window setup, the scroll area, menus, cursors, `update()`, `paintEvent` and the pixels of the pixmap. A draw call is recorded as its rectangle, its brush and whether the black outline is kept.
- The pen: with `boxborder` false the source sets the pen to the brush colour; the model records only the `outlined` flag.
- `pywt.wavedec` is the function-valued field `wavedec` of `PlotWindow`, of the type `Transform`, required to return a non-empty list of non-empty levels. `getWaveletCoeffs` (waveletGui.py:198-207) is that call. Its docstring holds level-selection code that never runs. The `'per'` mode is not modelled because it is part of the transform.
- `pywt.wavelist()` is not modelled, and neither is the `ValueError` of `wavelets.index` for an unknown current wavelet. `Settings` takes the chosen name as a parameter.
- Wave file I/O is not modelled: reading (`wavfile.read`), the stereo down-mix and the normalisation by the largest sample (waveletGui.py:215-218). `ImportFile` receives the rate and the normalised samples.
- `writeFile` and `exportFile` (waveletGui.py:250-263) are not modelled: they are the inverse transform, int32 scaling and file output.
- The dialogs are parameters:
  - the file dialog gives `chosen`;
  - the padding question gives `confirmPad`;
  - the size and wavelet pickers give `ok` and `choice`/`chosen`;
  - `getDouble` gives `ok` and the typed value, which the spin box clamps to the range;
  - the 12-decimal rounding of `getDouble` is not modelled.
- Floats are idealised as reals: no rounding, overflow or NaN.
- Out-of-gamut colours: `QColor` rejects an RGB triple outside [0, 255] (it warns and makes the colour invalid), while `Colour` keeps the raw channels. Such a triple occurs after Settings or NewSignal, when a coefficient falls outside the range that is not widened.
- The mouse position is the parameter pair (px, py).
- Python prints IndexError tracebacks; the model reports them as outcomes instead.
- NextPowerOfTwo: for n = 0 the model returns 0 directly. Python computes on −1, which every `x | (x >> k)` keeps at −1, and gets the same 0. Negative integers are not modelled otherwise.
- Widget.PaintWidget.MousePressEvent: before the first non-empty render, `box_height` is `None`. Python then raises a TypeError rather than a ZeroDivisionError. The model starts the row height at 0, so both show as `DivisionError`.
- The colour range is a Python list shared by reference. The painter starts with the default list of `__init__` (waveletGui.py:13). It shares the window's list only after the first import (waveletGui.py:234). Nothing else writes either list, so the model keeps two equal copies (`PlotWindow.Valid` says they are equal).
- Window.PlotWindow.NewSignal and Window.PlotWindow.Settings do not widen the range, as in the source. So they promise no colour gamut: each coefficient may fall outside the range.
- Widget.PaintWidget.DrawParticularWavelet: it draws at the raw time point. For a negative time point the rectangle is off the grid while the colour is taken from the wrapped coefficient. The contract states the drawn call for all time points, and the match with the full render only for non-negative ones.
- Widget.Render, Widget.RenderOf, Widget.PaintWidget.Load and Window.PlotWindow.LoadImported split the source's steps into parts so that each proof stays small. They do what the source does, in the order it does it.

The model follows the code in these details:

- The row height is `int((ysize − 2·border − 15) / n)`, with the −15 `ypadder` of waveletGui.py:44.
- A zero row height is not rejected when drawing. It shows up as a ZeroDivisionError on the next click.
- The time point is not range-checked. A negative one wraps, numpy style, and one past the row raises IndexError.
- `round` is Python 2's, which rounds halves away from zero.
