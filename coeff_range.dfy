/**
 * `range_of_coeffs` (waveletGui.py:298-299): the smallest and the largest
 * coefficient over all levels of a pyramid.
 */
module CoeffRange {

  /** A pyramid from the transform: at least one level, no level empty. */
  predicate IsPyramid(p: seq<seq<real>>) {
    |p| >= 1 && forall i :: 0 <= i < |p| ==> |p[i]| >= 1
  }

  /** `np.min` of one level (and Python's `min` of a list). */
  function MinOf(s: seq<real>): (m: real)
    requires |s| >= 1
    ensures m in s
    ensures forall k :: 0 <= k < |s| ==> m <= s[k]
  {
    if |s| == 1 then s[0]
    else
      var rest := MinOf(s[1..]);
      if s[0] <= rest then s[0] else rest
  }

  /** `np.max` of one level (and Python's `max` of a list). */
  function MaxOf(s: seq<real>): (m: real)
    requires |s| >= 1
    ensures m in s
    ensures forall k :: 0 <= k < |s| ==> s[k] <= m
  {
    if |s| == 1 then s[0]
    else
      var rest := MaxOf(s[1..]);
      if s[0] >= rest then s[0] else rest
  }

  /** `min(map(np.min, coeffs))`: the least level minimum, taken level by level. */
  function PyramidMin(p: seq<seq<real>>): (m: real)
    requires IsPyramid(p)
    ensures forall i, j :: 0 <= i < |p| && 0 <= j < |p[i]| ==> m <= p[i][j]
    decreases |p|
  {
    if |p| == 1 then MinOf(p[0])
    else
      var here, rest := MinOf(p[0]), PyramidMin(p[1..]);
      assert forall i :: 1 <= i < |p| ==> p[i] == p[1..][i - 1];
      if here <= rest then here else rest
  }

  /** `max(map(np.max, coeffs))`: the greatest level maximum, taken level by level. */
  function PyramidMax(p: seq<seq<real>>): (m: real)
    requires IsPyramid(p)
    ensures forall i, j :: 0 <= i < |p| && 0 <= j < |p[i]| ==> p[i][j] <= m
    decreases |p|
  {
    if |p| == 1 then MaxOf(p[0])
    else
      var here, rest := MaxOf(p[0]), PyramidMax(p[1..]);
      assert forall i :: 1 <= i < |p| ==> p[i] == p[1..][i - 1];
      if here >= rest then here else rest
  }

  /** The pyramid minimum is one of the coefficients. */
  lemma {:induction false} PyramidMinAttained(p: seq<seq<real>>)
    requires IsPyramid(p)
    ensures exists i, j :: 0 <= i < |p| && 0 <= j < |p[i]| && p[i][j] == PyramidMin(p)
    decreases |p|
  {
    var here := MinOf(p[0]);
    var j :| 0 <= j < |p[0]| && p[0][j] == here;
    if |p| > 1 && PyramidMin(p[1..]) < here {
      PyramidMinAttained(p[1..]);
      var i', j' :| 0 <= i' < |p[1..]| && 0 <= j' < |p[1..][i']| && p[1..][i'][j'] == PyramidMin(p[1..]);
      assert p[i' + 1][j'] == PyramidMin(p);
    } else {
      assert p[0][j] == PyramidMin(p);
    }
  }

  /** The pyramid maximum is one of the coefficients. */
  lemma {:induction false} PyramidMaxAttained(p: seq<seq<real>>)
    requires IsPyramid(p)
    ensures exists i, j :: 0 <= i < |p| && 0 <= j < |p[i]| && p[i][j] == PyramidMax(p)
    decreases |p|
  {
    var here := MaxOf(p[0]);
    var j :| 0 <= j < |p[0]| && p[0][j] == here;
    if |p| > 1 && PyramidMax(p[1..]) > here {
      PyramidMaxAttained(p[1..]);
      var i', j' :| 0 <= i' < |p[1..]| && 0 <= j' < |p[1..][i']| && p[1..][i'][j'] == PyramidMax(p[1..]);
      assert p[i' + 1][j'] == PyramidMax(p);
    } else {
      assert p[0][j] == PyramidMax(p);
    }
  }

  /**
   * `range_of_coeffs`: the least and the greatest coefficient. Both bounds
   * hold for every coefficient (and both are attained, RangeOfCoeffsAttained).
   */
  function RangeOfCoeffs(p: seq<seq<real>>): (r: (real, real))
    requires IsPyramid(p)
    ensures forall i, j :: 0 <= i < |p| && 0 <= j < |p[i]| ==> r.0 <= p[i][j] <= r.1
  {
    (PyramidMin(p), PyramidMax(p))
  }

  /** Both bounds of the range are coefficients of the pyramid, so no tighter range covers it. */
  lemma RangeOfCoeffsAttained(p: seq<seq<real>>)
    requires IsPyramid(p)
    ensures exists i, j :: 0 <= i < |p| && 0 <= j < |p[i]| && p[i][j] == RangeOfCoeffs(p).0
    ensures exists i, j :: 0 <= i < |p| && 0 <= j < |p[i]| && p[i][j] == RangeOfCoeffs(p).1
  {
    PyramidMinAttained(p);
    PyramidMaxAttained(p);
  }
}
