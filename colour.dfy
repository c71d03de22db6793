/**
 * Colour mapping of coefficients: `blue_colormap` (waveletGui.py:279-281) and
 * the normalisation by `coeff_range` done by `coeffsToColor` and
 * `drawParticularWavelet` (waveletGui.py:89, 121-127).
 */
module ColourMap {
  import opened PyNum

  /** An RGB triple as passed to QColor; out-of-range channels are kept. */
  datatype Colour = Colour(red: int, green: int, blue: int)

  predicate InGamut(c: Colour) {
    0 <= c.red <= 255 && 0 <= c.green <= 255 && 0 <= c.blue <= 255
  }

  /** `blue_colormap`: white for 0, pure blue for 1, blue-grey in between. */
  function BlueColormap(brightness: real): (c: Colour)
    ensures c.blue == 255 && c.green == c.red
    ensures 0.0 <= brightness <= 1.0 ==> InGamut(c)
  {
    var k := Round(255.0 * brightness);
    Colour(255 - k, 255 - k, 255)
  }

  lemma BlueColormapEndpoints()
    ensures BlueColormap(0.0) == Colour(255, 255, 255)
    ensures BlueColormap(1.0) == Colour(0, 0, 255)
  {
  }

  /** A larger brightness never gives a lighter colour. */
  lemma BlueColormapDarkens(a: real, b: real)
    requires a <= b
    ensures BlueColormap(b).red <= BlueColormap(a).red
  {
    RoundMonotone(255.0 * a, 255.0 * b);
  }

  /** `(value - coeff_range[0]) / (coeff_range[1] - coeff_range[0])`, not clamped. */
  function Normalize(value: real, lo: real, hi: real): (b: real)
    requires lo < hi
    ensures b * (hi - lo) == value - lo
    ensures (lo <= value <= hi) <==> (0.0 <= b <= 1.0)
  {
    QuotientInUnit(value - lo, hi - lo);
    (value - lo) / (hi - lo)
  }

  /** x / d lies in [0, 1] exactly when x lies in [0, d]. */
  lemma QuotientInUnit(x: real, d: real)
    requires d > 0.0
    ensures (x / d) * d == x
    ensures (0.0 <= x / d <= 1.0) <==> (0.0 <= x <= d)
  {
    var b := x / d;
    assert b * d == x;
    ScaleByPositive(b, d);
  }

  lemma ScaleByPositive(b: real, d: real)
    requires d > 0.0
    ensures b >= 0.0 <==> b * d >= 0.0
    ensures b <= 1.0 <==> b * d <= d
  {
    if b < 0.0 {
      assert b * d < 0.0;
    }
    if b > 1.0 {
      assert (b - 1.0) * d > 0.0;
    }
    if b >= 0.0 && b <= 1.0 {
      assert (1.0 - b) * d >= 0.0;
    }
  }

  lemma NormalizeEndpoints(lo: real, hi: real)
    requires lo < hi
    ensures Normalize(lo, lo, hi) == 0.0 && Normalize(hi, lo, hi) == 1.0
  {
  }

  /** The colour one coefficient is painted with. */
  function CoeffColour(value: real, lo: real, hi: real): (c: Colour)
    requires lo < hi
    ensures lo <= value <= hi ==> InGamut(c)
  {
    BlueColormap(Normalize(value, lo, hi))
  }

  /** A larger coefficient is painted in a darker (or the same) blue. */
  lemma CoeffColourDarkens(v: real, w: real, lo: real, hi: real)
    requires lo < hi && v <= w
    ensures CoeffColour(w, lo, hi).red <= CoeffColour(v, lo, hi).red
  {
    var a, b := Normalize(v, lo, hi), Normalize(w, lo, hi);
    assert (b - a) * (hi - lo) == b * (hi - lo) - a * (hi - lo) == w - v;
    ScaleByPositive(b - a, hi - lo);
    BlueColormapDarkens(a, b);
  }

  /** `coeffsToColor`: the colour grid, one colour per coefficient. */
  function CoeffsToColor(p: seq<seq<real>>, lo: real, hi: real): (grid: seq<seq<Colour>>)
    requires lo < hi
    ensures |grid| == |p|
    ensures forall i :: 0 <= i < |p| ==> |grid[i]| == |p[i]|
    ensures forall i, j :: 0 <= i < |p| && 0 <= j < |p[i]| ==> grid[i][j] == CoeffColour(p[i][j], lo, hi)
  {
    seq(|p|, i requires 0 <= i < |p| =>
      seq(|p[i]|, j requires 0 <= j < |p[i]| => CoeffColour(p[i][j], lo, hi)))
  }

  /** Every colour of the grid is a valid RGB triple. */
  ghost predicate InGamutGrid(grid: seq<seq<Colour>>) {
    forall i, j :: 0 <= i < |grid| && 0 <= j < |grid[i]| ==> InGamut(grid[i][j])
  }

  /** When the range covers every coefficient, every colour of the grid is a valid RGB triple. */
  lemma CoeffsToColorInGamut(p: seq<seq<real>>, lo: real, hi: real)
    requires lo < hi
    requires forall i, j :: 0 <= i < |p| && 0 <= j < |p[i]| ==> lo <= p[i][j] <= hi
    ensures InGamutGrid(CoeffsToColor(p, lo, hi))
  {
  }
}
