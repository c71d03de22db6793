/**
 * `PlotWindow` (waveletGui.py:130-276): the main window holding the signal,
 * the wavelet settings, the colour range and the `PaintWidget`.
 *
 * The wavelet transform `pywt.wavedec(signal, wavelet, mode='per')` is not
 * modelled; it is the function `wavedec` of type `Transform`, fixed when the
 * window is created, and only required to return a non-empty list of
 * non-empty levels. The
 * answers of the file, question and input dialogs are method parameters.
 */
module Window {
  import opened Bits
  import opened PowerOfTwo
  import opened ColourMap
  import opened CoeffRange
  import opened Widget

  /** The sizes `newSignal` offers: 2 ** 7 up to 2 ** 22. */
  function NewSignalLength(choice: nat): (len: nat)
    requires choice < 16
    ensures IsPowerOfTwo(len) && Pow2(7) <= len <= Pow2(22)
  {
    Pow2MonotoneLe(7, 7 + choice);
    Pow2MonotoneLe(7 + choice, 22);
    Pow2(7 + choice)
  }

  /** Every coefficient of the painter lies in the colour range. */
  ghost predicate InRange(p: seq<seq<real>>, lo: real, hi: real) {
    forall i, j :: 0 <= i < |p| && 0 <= j < |p[i]| ==> lo <= p[i][j] <= hi
  }

  /**
   * The range update of `importFile`: each bound moves out to the new
   * pyramid's extreme when that lies beyond it, so the range only grows and
   * covers every new coefficient.
   */
  function ExpandRange(lo: real, hi: real, p: seq<seq<real>>): (r: (real, real))
    requires IsPyramid(p) && lo < hi
    ensures r.0 <= lo && hi <= r.1 && r.0 < r.1
    ensures r.0 == lo || r.0 == RangeOfCoeffs(p).0
    ensures r.1 == hi || r.1 == RangeOfCoeffs(p).1
    ensures InRange(p, r.0, r.1)
  {
    var myrange := RangeOfCoeffs(p);
    var newLo := if myrange.0 < lo then myrange.0 else lo;
    var newHi := if myrange.1 > hi then myrange.1 else hi;
    assert InRange(p, myrange.0, myrange.1);
    (newLo, newHi)
  }

  /**
   * No smaller range would do: any range that contains the old one and every
   * coefficient contains the expanded one, so the new bounds are
   * min(old, pyramid minimum) and max(old, pyramid maximum).
   */
  lemma ExpandRangeIsLeast(lo: real, hi: real, p: seq<seq<real>>, a: real, b: real)
    requires IsPyramid(p) && lo < hi
    requires a <= lo && hi <= b && InRange(p, a, b)
    ensures a <= ExpandRange(lo, hi, p).0 && ExpandRange(lo, hi, p).1 <= b
  {
    RangeOfCoeffsAttained(p);
  }

  /** A wavelet transform that always gives a pyramid, as `pywt.wavedec` does. */
  type Transform = f: (seq<real>, string) -> seq<seq<real>> | forall s, w :: IsPyramid(f(s, w))
    witness (s: seq<real>, w: string) => [[0.0]]

  class PlotWindow {
    var signal: seq<real>
    var sampleRate: int
    var wavelet: string
    /** `coeff_range` */
    var lo: real
    var hi: real
    const painter: PaintWidget
    /** `pywt.wavedec(signal, wavelet, mode='per')` */
    const wavedec: Transform

    /**
     * The painter shows the window's range, is as wide as the signal is long,
     * and is in a consistent state.
     */
    ghost predicate Valid()
      reads this, painter
    {
      painter.Valid() &&
      painter.lo == lo && painter.hi == hi &&
      painter.xsize == |signal| &&
      painter.boxBorder && painter.borderSize == 10
    }

    /** `PlotWindow()`: 2048 zero samples at 44100 Hz, the 'dmey' wavelet, range [-3, 3]. */
    constructor (windowHeight: int, wavedec: Transform)
      ensures Valid() && fresh(painter)
      ensures signal == Zeros(2048) && sampleRate == 44100 && wavelet == "dmey"
      ensures lo == -3.0 && hi == 3.0
      ensures painter.coeffs == wavedec(signal, wavelet) && painter.ysize == windowHeight
      ensures painter.Rendered()
    {
      signal := Zeros(2048);
      sampleRate := 44100;
      wavelet := "dmey";
      lo, hi := -3.0, 3.0;
      this.wavedec := wavedec;
      painter := new PaintWidget(true, 10, 2048, windowHeight, wavedec(Zeros(2048), "dmey"));
    }

    /**
     * `importFile`: with a file chosen (`chosen`), take its sample rate and
     * normalised samples, pad them to a power of two if the user agrees
     * (`confirmPad`), and load the result.
     */
    method ImportFile(chosen: bool, rate: int, samples: seq<real>, confirmPad: bool)
      requires Valid()
      modifies this, painter
      ensures Valid()
      ensures !chosen ==> unchanged(this) && unchanged(painter)
      ensures chosen ==> sampleRate == rate && wavelet == old(wavelet)
      ensures chosen ==> |signal| >= |samples| && signal == samples + Zeros(|signal| - |samples|)
      ensures chosen && (IsPowerOfTwo(|samples|) || !confirmPad) ==> signal == samples
      ensures chosen && confirmPad && 1 <= |samples| <= Pow2(32) ==>
                |signal| == CeilPow2(|samples|) && IsPowerOfTwo(|signal|)
      ensures chosen ==> painter.coeffs == wavedec(signal, wavelet) &&
                         (lo, hi) == ExpandRange(old(lo), old(hi), painter.coeffs)
      ensures lo <= old(lo) && hi >= old(hi)
      ensures chosen ==> painter.Rendered()
      ensures chosen ==> InRange(painter.coeffs, lo, hi) && InGamutGrid(painter.coeffsColor)
    {
      if chosen {
        var padded := PadSignal(samples, confirmPad);
        LoadImported(rate, padded);
      }
    }

    /**
     * The rest of `importFile` once the signal is final: recompute the
     * coefficients, widen the range to cover them, and redraw.
     */
    method LoadImported(rate: int, padded: seq<real>)
      requires Valid()
      modifies this, painter
      ensures Valid()
      ensures sampleRate == rate && signal == padded && wavelet == old(wavelet)
      ensures painter.coeffs == wavedec(padded, wavelet)
      ensures (lo, hi) == ExpandRange(old(lo), old(hi), painter.coeffs)
      ensures painter.Rendered()
      ensures InRange(painter.coeffs, lo, hi)
      ensures InGamutGrid(painter.coeffsColor)
    {
      var coeffs := wavedec(padded, wavelet);
      var range := ExpandRange(lo, hi, coeffs);
      sampleRate, signal, lo, hi := rate, padded, range.0, range.1;
      painter.Load(coeffs, |padded|, range.0, range.1);
      CoeffsToColorInGamut(coeffs, range.0, range.1);
    }

    /**
     * `newSignal`: on `ok`, replace the signal by `2 ** (7 + choice)` zeros at
     * 44100 Hz and redraw. The range is left as it is.
     */
    method NewSignal(ok: bool, choice: nat)
      requires Valid() && choice < 16
      modifies this, painter
      ensures Valid()
      ensures !ok ==> unchanged(this) && unchanged(painter)
      ensures ok ==> signal == Zeros(NewSignalLength(choice)) && sampleRate == 44100 &&
                     IsPowerOfTwo(|signal|) && painter.coeffs == wavedec(signal, wavelet) &&
                     painter.Rendered()
      ensures lo == old(lo) && hi == old(hi) && wavelet == old(wavelet)
    {
      if ok {
        var length := NewSignalLength(choice);
        sampleRate := 44100;
        signal := Zeros(length);
        painter.coeffs := wavedec(signal, wavelet);
        painter.xsize := length;
        painter.DrawWavelets();
      }
    }

    /**
     * `settings`: on `ok`, switch to the mother wavelet the user picked
     * (`chosen`), recompute the coefficients of the same signal and redraw.
     * The range is left as it is.
     */
    method Settings(ok: bool, chosen: string)
      requires Valid()
      modifies this, painter
      ensures Valid()
      ensures !ok ==> unchanged(this) && unchanged(painter)
      ensures ok ==> wavelet == chosen && painter.coeffs == wavedec(signal, chosen) && painter.Rendered()
      ensures signal == old(signal) && sampleRate == old(sampleRate)
      ensures lo == old(lo) && hi == old(hi)
    {
      if ok {
        wavelet := chosen;
        painter.coeffs := wavedec(signal, wavelet);
        painter.DrawWavelets();
      }
    }
  }
}
