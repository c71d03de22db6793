/**
 * Bitwise operations on non-negative Python integers.
 *
 * Python's integers are unbounded, so `&`, `|` and `>>` are modelled on `nat`
 * rather than on a fixed-width bit-vector: `BitAnd` and `BitOr` work bit by bit
 * from the least significant end, `Shr` is floor division by a power of two.
 * `Bit(x, i)` reads the bit of weight 2^i.
 */
module Bits {
  import opened PyNum

  /** 2 ** k */
  function Pow2(k: nat): (p: nat)
    ensures p >= 1
  {
    if k == 0 then 1 else 2 * Pow2(k - 1)
  }

  /** n is one of 1, 2, 4, 8, ... */
  ghost predicate IsPowerOfTwo(n: int) {
    exists k: nat :: n == Pow2(k)
  }

  /** The bit of weight 2^i in x, that is `(x >> i) & 1`. */
  function Bit(x: nat, i: nat): bool
  {
    if i == 0 then x % 2 == 1 else Bit(x / 2, i - 1)
  }

  /** Python's `a & b` for non-negative a and b. */
  function BitAnd(a: nat, b: nat): (r: nat)
    ensures r <= a && r <= b
    decreases a
  {
    if a == 0 || b == 0 then 0
    else 2 * BitAnd(a / 2, b / 2) + (if a % 2 == 1 && b % 2 == 1 then 1 else 0)
  }

  /** Python's `a | b` for non-negative a and b. */
  function BitOr(a: nat, b: nat): (r: nat)
    ensures r == 0 <==> a == 0 && b == 0
    decreases a + b
  {
    if a == 0 then b
    else if b == 0 then a
    else 2 * BitOr(a / 2, b / 2) + (if a % 2 == 1 || b % 2 == 1 then 1 else 0)
  }

  /** Python's `x >> k` for non-negative x, one halving per shifted bit. */
  function Shr(x: nat, k: nat): (r: nat)
    ensures r <= x
  {
    if k == 0 then x else Shr(x / 2, k - 1)
  }

  /** Number of binary digits of x (0 for x == 0). */
  function BitLength(x: nat): nat
  {
    if x == 0 then 0 else 1 + BitLength(x / 2)
  }

  // ---------------------------------------------------------------------------
  // Powers of two

  lemma {:induction false} Pow2Monotone(a: nat, b: nat)
    requires a < b
    ensures Pow2(a) < Pow2(b)
    decreases b
  {
    if b > a + 1 {
      Pow2Monotone(a, b - 1);
    }
  }

  lemma Pow2MonotoneLe(a: nat, b: nat)
    requires a <= b
    ensures Pow2(a) <= Pow2(b)
  {
    if a < b {
      Pow2Monotone(a, b);
    }
  }

  /** An even number above 1 is a power of two exactly when its half is. */
  lemma EvenPowerOfTwo(n: nat)
    requires n >= 2 && n % 2 == 0
    ensures IsPowerOfTwo(n) <==> IsPowerOfTwo(n / 2)
  {
    if IsPowerOfTwo(n) {
      var k: nat :| n == Pow2(k);
      assert k != 0;
      assert n / 2 == Pow2(k - 1);
    }
    if IsPowerOfTwo(n / 2) {
      var k: nat :| n / 2 == Pow2(k);
      assert n == Pow2(k + 1);
    }
  }

  /** The only odd power of two is 1. */
  lemma OddPowerOfTwo(n: nat)
    requires n % 2 == 1
    ensures IsPowerOfTwo(n) <==> n == 1
  {
    if IsPowerOfTwo(n) {
      var k: nat :| n == Pow2(k);
      assert k == 0;
    }
    if n == 1 {
      assert n == Pow2(0);
    }
  }

  // ---------------------------------------------------------------------------
  // Single bits

  lemma {:induction false} BitOfZero(i: nat)
    ensures !Bit(0, i)
  {
    if i > 0 {
      BitOfZero(i - 1);
    }
  }

  lemma DivHalf(x: nat, p: nat)
    requires p >= 1
    ensures x / (2 * p) == (x / 2) / p
  {
    var q := (x / 2) / p;
    var r := (x / 2) % p;
    assert x / 2 == p * q + r;
    assert x == (2 * p) * q + (2 * r + x % 2);
    assert 0 <= 2 * r + x % 2 < 2 * p;
    FloorDivUnique(x, 2 * p, q);
  }

  /** `x >> k` is the floor of x / 2^k. */
  lemma {:induction false} ShrIsDivision(x: nat, k: nat)
    ensures Shr(x, k) == x / Pow2(k)
    decreases k
  {
    if k > 0 {
      ShrIsDivision(x / 2, k - 1);
      DivHalf(x, Pow2(k - 1));
    }
  }

  /** Bit i of `x >> k` is bit i + k of x. */
  lemma {:induction false} ShrBit(x: nat, k: nat, i: nat)
    ensures Bit(Shr(x, k), i) == Bit(x, i + k)
    decreases k
  {
    if k > 0 {
      ShrBit(x / 2, k - 1, i);
    }
  }

  /** `|` sets exactly the bits set in either operand. */
  lemma {:induction false} BitOrBit(a: nat, b: nat, i: nat)
    ensures Bit(BitOr(a, b), i) == (Bit(a, i) || Bit(b, i))
    decreases a + b
  {
    if a == 0 {
      BitOfZero(i);
    } else if b == 0 {
      BitOfZero(i);
    } else {
      var o := BitOr(a / 2, b / 2);
      var low := if a % 2 == 1 || b % 2 == 1 then 1 else 0;
      assert BitOr(a, b) == 2 * o + low;
      if i == 0 {
        assert (2 * o + low) % 2 == low;
      } else {
        assert (2 * o + low) / 2 == o;
        BitOrBit(a / 2, b / 2, i - 1);
      }
    }
  }

  /** `&` keeps exactly the bits set in both operands. */
  lemma {:induction false} BitAndBit(a: nat, b: nat, i: nat)
    ensures Bit(BitAnd(a, b), i) == (Bit(a, i) && Bit(b, i))
    decreases a
  {
    if a == 0 || b == 0 {
      BitOfZero(i);
    } else {
      var o := BitAnd(a / 2, b / 2);
      var low := if a % 2 == 1 && b % 2 == 1 then 1 else 0;
      assert BitAnd(a, b) == 2 * o + low;
      if i == 0 {
        assert (2 * o + low) % 2 == low;
      } else {
        assert (2 * o + low) / 2 == o;
        BitAndBit(a / 2, b / 2, i - 1);
      }
    }
  }

  /** `a | b` is never below a. */
  lemma {:induction false} BitOrAtLeast(a: nat, b: nat)
    ensures BitOr(a, b) >= a
    decreases a + b
  {
    if a != 0 && b != 0 {
      BitOrAtLeast(a / 2, b / 2);
    }
  }

  /** A number is determined by its bits. */
  lemma {:induction false} BitsDetermine(a: nat, b: nat)
    requires forall i: nat :: Bit(a, i) == Bit(b, i)
    ensures a == b
    decreases a + b
  {
    if a != 0 || b != 0 {
      assert Bit(a, 0) == Bit(b, 0);
      forall i: nat
        ensures Bit(a / 2, i) == Bit(b / 2, i)
      {
        assert Bit(a, i + 1) == Bit(b, i + 1);
      }
      BitsDetermine(a / 2, b / 2);
    }
  }

  /** 2^L - 1 has exactly the bits 0 .. L-1 set. */
  lemma {:induction false} OnesBits(len: nat, i: nat)
    ensures Bit(Pow2(len) - 1, i) <==> i < len
    decreases len
  {
    if len == 0 {
      BitOfZero(i);
    } else if i > 0 {
      assert (Pow2(len) - 1) / 2 == Pow2(len - 1) - 1;
      OnesBits(len - 1, i - 1);
    }
  }

  /** 2^k has exactly bit k set. */
  lemma {:induction false} PowerBits(k: nat, i: nat)
    ensures Bit(Pow2(k), i) <==> i == k
    decreases k
  {
    if k == 0 {
      if i > 0 {
        BitOfZero(i - 1);
      }
    } else if i > 0 {
      PowerBits(k - 1, i - 1);
    }
  }

  /** BitLength(x) is the least L with x < 2^L. */
  lemma {:induction false} BitLengthBounds(x: nat)
    ensures x < Pow2(BitLength(x))
    ensures x >= 1 ==> Pow2(BitLength(x) - 1) <= x
  {
    if x >= 1 {
      BitLengthBounds(x / 2);
    }
  }

  /** No bit at or above the bit length is set, and the top one below it is. */
  lemma {:induction false} BitLengthBits(x: nat, i: nat)
    ensures i >= BitLength(x) ==> !Bit(x, i)
    ensures x >= 1 && i == BitLength(x) - 1 ==> Bit(x, i)
    decreases x
  {
    if x == 0 {
      BitOfZero(i);
    } else if i > 0 {
      BitLengthBits(x / 2, i - 1);
    } else if x / 2 == 0 {
      assert x == 1;
    } else {
      assert BitLength(x) >= 2;
    }
  }

  lemma BitLengthAtMost(x: nat, c: nat)
    requires x < Pow2(c)
    ensures BitLength(x) <= c
  {
    BitLengthBounds(x);
  }
}
