/**
 * `check_power_of_two`, `next_power_of_two` and the zero-padding step of
 * `importFile` (waveletGui.py:220-226, 283-296).
 *
 * The two helpers are the tricks "Determining if an integer is a power of 2"
 * and "Round up to the next highest power of 2" from Sean Anderson's
 * "Bit Twiddling Hacks".
 */
module PowerOfTwo {
  import opened Bits

  // ---------------------------------------------------------------------------
  // check_power_of_two

  /** `(number != 0) and not (number & (number - 1))` */
  function CheckPowerOfTwo(n: nat): (b: bool)
    ensures b <==> IsPowerOfTwo(n)
  {
    PowerTestCorrect(n);
    n != 0 && BitAnd(n, n - 1) == 0
  }

  lemma {:induction false} BitAndSelf(m: nat)
    ensures BitAnd(m, m) == m
  {
    if m != 0 {
      BitAndSelf(m / 2);
    }
  }

  /** Clearing the lowest set bit leaves 0 exactly for the powers of two. */
  lemma {:induction false} PowerTestCorrect(n: nat)
    ensures (n != 0 && BitAnd(n, n - 1) == 0) <==> IsPowerOfTwo(n)
  {
    if n == 0 {
    } else if n % 2 == 1 {
      // n = 2m + 1 and n - 1 = 2m, so n & (n - 1) = 2 * (m & m) = n - 1
      OddPowerOfTwo(n);
      if n > 1 {
        BitAndSelf(n / 2);
        assert BitAnd(n, n - 1) == 2 * BitAnd(n / 2, (n - 1) / 2);
      }
    } else {
      // n = 2m and n - 1 = 2(m - 1) + 1, so n & (n - 1) = 2 * (m & (m - 1))
      EvenPowerOfTwo(n);
      assert (n - 1) / 2 == n / 2 - 1;
      assert BitAnd(n, n - 1) == 2 * BitAnd(n / 2, n / 2 - 1);
      PowerTestCorrect(n / 2);
    }
  }

  // ---------------------------------------------------------------------------
  // The smallest power of two not below n, defined independently by halving

  /** The exponent of the smallest power of two that is >= n. */
  function CeilLog2(n: nat): nat
  {
    if n <= 1 then 0 else 1 + CeilLog2((n + 1) / 2)
  }

  function CeilPow2(n: nat): nat
  {
    Pow2(CeilLog2(n))
  }

  lemma {:induction false} CeilLog2Bounds(n: nat)
    ensures Pow2(CeilLog2(n)) >= n
    ensures n >= 2 ==> CeilLog2(n) >= 1 && Pow2(CeilLog2(n) - 1) < n
  {
    if n >= 2 {
      CeilLog2Bounds((n + 1) / 2);
    }
  }

  /** CeilPow2(n) is a power of two, is at least n, and no smaller power is. */
  lemma CeilPow2IsLeast(n: nat)
    ensures IsPowerOfTwo(CeilPow2(n)) && CeilPow2(n) >= n
    ensures forall k: nat :: Pow2(k) >= n ==> CeilPow2(n) <= Pow2(k)
  {
    CeilLog2Bounds(n);
    forall k: nat | Pow2(k) >= n
      ensures CeilPow2(n) <= Pow2(k)
    {
      var c := CeilLog2(n);
      if k < c {
        Pow2MonotoneLe(k, c - 1);
      } else {
        Pow2MonotoneLe(c, k);
      }
    }
  }

  /** A power of two is its own ceiling. */
  lemma CeilPow2OfPower(n: nat)
    requires IsPowerOfTwo(n)
    ensures CeilPow2(n) == n
  {
    var k: nat :| n == Pow2(k);
    CeilPow2IsLeast(n);
    if k == 0 {
      assert CeilLog2(n) == 0;
    }
  }

  /** For n >= 1, the bit length of n - 1 is the exponent of CeilPow2(n). */
  lemma {:induction false} BitLengthIsCeilLog2(n: nat)
    requires n >= 1
    ensures BitLength(n - 1) == CeilLog2(n)
  {
    if n >= 2 {
      assert (n - 1) / 2 == (n + 1) / 2 - 1;
      BitLengthIsCeilLog2((n + 1) / 2);
    }
  }

  // ---------------------------------------------------------------------------
  // next_power_of_two

  /** Some bit of x among bits i .. i + c - 1 is set. */
  ghost predicate AnyBit(x: nat, i: nat, c: nat)
    decreases c
  {
    c > 0 && (Bit(x, i + c - 1) || AnyBit(x, i, c - 1))
  }

  /** A window of a + b bits is its first a bits followed by the next b. */
  lemma {:induction false} AnyBitSplit(x: nat, i: nat, a: nat, b: nat)
    ensures AnyBit(x, i, a + b) <==> AnyBit(x, i, a) || AnyBit(x, i + a, b)
    decreases b
  {
    if b > 0 {
      AnyBitSplit(x, i, a, b - 1);
    }
  }

  /** A window that reaches past the top bit of x holds a set bit iff it starts below it. */
  lemma {:induction false} AnyBitBelowLength(x: nat, i: nat, c: nat)
    requires BitLength(x) <= i + c
    ensures AnyBit(x, i, c) <==> i < BitLength(x)
    decreases c
  {
    if c > 0 {
      BitLengthBits(x, i + c - 1);
      if BitLength(x) <= i + c - 1 {
        AnyBitBelowLength(x, i, c - 1);
      }
    }
  }

  /** A window holds the one set bit of 2^k iff it covers bit k. */
  lemma {:induction false} AnyBitOfPower(k: nat, i: nat, c: nat)
    ensures AnyBit(Pow2(k), i, c) <==> i <= k < i + c
    decreases c
  {
    if c > 0 {
      PowerBits(k, i + c - 1);
      AnyBitOfPower(k, i, c - 1);
    }
  }

  /**
   * y is x with its bits smeared downwards over a window of c bits: bit i of y
   * is set exactly when one of bits i .. i + c - 1 of x is, that is
   * y == x | (x >> 1) | ... | (x >> (c - 1)).
   */
  ghost predicate Spread(y: nat, x: nat, c: nat)
  {
    forall i: nat :: Bit(y, i) == AnyBit(x, i, c)
  }

  lemma SpreadBase(x: nat)
    ensures Spread(x, x, 1)
  {
  }

  /** `y | (y >> c)` doubles the window of a c-bit smear. */
  lemma SpreadStep(y: nat, x: nat, c: nat)
    requires Spread(y, x, c)
    ensures Spread(BitOr(y, Shr(y, c)), x, 2 * c)
  {
    forall i: nat
      ensures Bit(BitOr(y, Shr(y, c)), i) == AnyBit(x, i, 2 * c)
    {
      BitOrBit(y, Shr(y, c), i);
      ShrBit(y, c, i);
      assert Bit(y, i + c) == AnyBit(x, i + c, c);
      AnyBitSplit(x, i, c, c);
    }
  }

  /** The smear after k rounds of `x |= x >> 2^j`, j = 0 .. k - 1. */
  function Smear(x: nat, k: nat): (r: nat)
    ensures x <= r && (x == 0 ==> r == 0)
  {
    if k == 0 then x
    else
      var y := Smear(x, k - 1);
      BitOrAtLeast(y, Shr(y, Pow2(k - 1)));
      BitOr(y, Shr(y, Pow2(k - 1)))
  }

  /** k rounds smear x over a window of 2^k bits and never lower it. */
  lemma {:induction false} SmearSpread(x: nat, k: nat)
    ensures Spread(Smear(x, k), x, Pow2(k)) && Smear(x, k) >= x
  {
    if k == 0 {
      SpreadBase(x);
    } else {
      var y := Smear(x, k - 1);
      SmearSpread(x, k - 1);
      SpreadStep(y, x, Pow2(k - 1));
      BitOrAtLeast(y, Shr(y, Pow2(k - 1)));
    }
  }

  /** A smear over a window at least as wide as x is 2^BitLength(x) - 1. */
  lemma SpreadFillsBelowTopBit(y: nat, x: nat, c: nat)
    requires x < Pow2(c) && Spread(y, x, c)
    ensures y == Pow2(BitLength(x)) - 1
  {
    var len := BitLength(x);
    BitLengthAtMost(x, c);
    forall i: nat
      ensures Bit(y, i) == Bit(Pow2(len) - 1, i)
    {
      OnesBits(len, i);
      AnyBitBelowLength(x, i, c);
    }
    BitsDetermine(y, Pow2(len) - 1);
  }

  /**
   * `next_power_of_two`: decrement, OR in the shifts by 1, 2, 4, 8 and 16,
   * increment. For 1 <= n <= 2^32 the result is the least power of two >= n;
   * beyond that the 32-bit window of the smear is too narrow (see
   * NextPowerOfTwoBeyond32Bits).
   */
  method NextPowerOfTwo(n: nat) returns (r: nat)
    ensures n == 0 ==> r == 0
    ensures n >= 1 ==> r >= n && Spread(r - 1, n - 1, 32)
    ensures 1 <= n <= Pow2(32) ==> r == CeilPow2(n) && IsPowerOfTwo(r)
  {
    if n == 0 {
      // Python computes on -1 here, which every `x | (x >> k)` maps to -1;
      // the final increment then gives 0.
      return 0;
    }
    var number: nat := n - 1;
    ghost var x := number;
    number := BitOr(number, Shr(number, 1));
    assert number == Smear(x, 1);
    number := BitOr(number, Shr(number, 2));
    assert number == Smear(x, 2);
    number := BitOr(number, Shr(number, 4));
    assert number == Smear(x, 3);
    number := BitOr(number, Shr(number, 8));
    assert number == Smear(x, 4);
    number := BitOr(number, Shr(number, 16));
    assert number == Smear(x, 5);
    SmearSpread(x, 5);
    r := number + 1;
    if n <= Pow2(32) {
      SpreadFillsBelowTopBit(number, x, 32);
      BitLengthIsCeilLog2(n);
      CeilPow2IsLeast(n);
    }
  }

  /**
   * A smear of 2^c over c bits sets bit 1 but not bit 0, so incrementing it
   * gives an odd number above 1, which is not a power of two.
   */
  lemma SpreadMissesBitZero(y: nat, c: nat)
    requires c >= 1 && Spread(y, Pow2(c), c)
    ensures !IsPowerOfTwo(y + 1)
  {
    AnyBitOfPower(c, 0, c);
    AnyBitOfPower(c, 1, c);
    assert !Bit(y, 0) && Bit(y, 1);
    assert y != 0 by {
      if y == 0 {
        BitOfZero(1);
      }
    }
    OddPowerOfTwo(y + 1);
  }

  /**
   * The smear only reaches 32 bits: for n = 2^32 + 1 the bit-smear of n - 1
   * misses bit 0, so the result is not a power of two.
   */
  lemma NextPowerOfTwoBeyond32Bits(y: nat)
    requires Spread(y, Pow2(32), 32)
    ensures !IsPowerOfTwo(y + 1)
  {
    SpreadMissesBitZero(y, 32);
  }

  // ---------------------------------------------------------------------------
  // Zero padding in importFile

  function Zeros(k: nat): (z: seq<real>)
    ensures |z| == k && forall i :: 0 <= i < k ==> z[i] == 0.0
  {
    seq(k, _ => 0.0)
  }

  /**
   * The padding step of `importFile`: a signal whose length is not a power of
   * two is extended with `nextpow - length` zeros when the user answers the
   * "Padding signal?" question with Yes (`confirm`); otherwise it is kept.
   */
  method PadSignal(signal: seq<real>, confirm: bool) returns (padded: seq<real>)
    ensures IsPowerOfTwo(|signal|) || !confirm ==> padded == signal
    ensures |padded| >= |signal| && padded == signal + Zeros(|padded| - |signal|)
    ensures confirm && 1 <= |signal| <= Pow2(32) ==>
              |padded| == CeilPow2(|signal|) && IsPowerOfTwo(|padded|)
  {
    padded := signal;
    var length := |signal|;
    if !CheckPowerOfTwo(length) {
      var nextpow := NextPowerOfTwo(length);
      if confirm {
        padded := signal + Zeros(nextpow - length);
      }
    } else if 1 <= length {
      CeilPow2OfPower(length);
    }
  }
}
