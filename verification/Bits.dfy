// Rounding up to a power of two by smearing the top bit to the right. Words are natural
// numbers below 2^32, and | is defined on their binary digits.
module Bits {
  const WORD: nat := 0x1_0000_0000

  function Pow2(k: nat): (p: nat)
    ensures p > 0
  {
    if k == 0 then 1 else 2 * Pow2(k - 1)
  }

  function Or(a: nat, b: nat): nat {
    if a == 0 && b == 0 then 0
    else 2 * Or(a / 2, b / 2) + (if a % 2 == 1 || b % 2 == 1 then 1 else 0)
  }

  function Shr(x: nat, t: nat): nat {
    if t == 0 then x else Shr(x / 2, t - 1)
  }

  /** x |= x >> t */
  function Smear(x: nat, t: nat): nat {
    Or(x, Shr(x, t))
  }

  /** The decrement and the increment wrap around. */
  function NextPower(x: nat): nat
    requires x < WORD
  {
    Wrap(Smear(Smear(Smear(Smear(Smear(Wrap(x - 1), 1), 2), 4), 8), 16) + 1)
  }

  /** Unsigned arithmetic is modulo 2^32. */
  function Wrap(x: int): (w: nat)
    ensures w < WORD
  {
    x % WORD
  }

  lemma {:induction false} WrapIs(x: int)
    requires -1 <= x <= WORD
    ensures Wrap(x) == if x == -1 then WORD - 1 else if x == WORD then 0 else x
  {
  }

  // ---- or -----------------------------------------------------------------------------

  lemma {:induction false} OrBounds(a: nat, b: nat, n: nat)
    requires a < Pow2(n) && b < Pow2(n)
    ensures b <= Or(a, b) < Pow2(n)
  {
    if n > 0 {
      OrBounds(a / 2, b / 2, n - 1);
    }
  }

  function Shl(h: nat, k: nat): nat {
    if k == 0 then h else 2 * Shl(h, k - 1)
  }

  lemma {:induction false} ShlIsTimes(h: nat, k: nat)
    ensures Shl(h, k) == h * Pow2(k)
  {
    if k > 0 {
      ShlIsTimes(h, k - 1);
      DoubleTimes(h, Pow2(k - 1));
    }
  }

  lemma {:induction false} DoubleTimes(h: nat, p: nat)
    ensures h * (2 * p) == 2 * (h * p)
  {
  }

  lemma {:induction false} TimesCommutes(a: nat, b: nat)
    ensures a * b == b * a
  {
  }

  /** High bits that only one operand has stay as they are. */
  lemma {:induction false} OrSplit(h: nat, l: nat, b: nat, k: nat)
    requires l < Pow2(k) && b < Pow2(k)
    ensures Or(Shl(h, k) + l, b) == Shl(h, k) + Or(l, b)
  {
    if k == 0 {
      OrZero(h);
    } else {
      OrSplit(h, l / 2, b / 2, k - 1);
      OrDoubled(Shl(h, k - 1), l, b);
    }
  }

  lemma {:induction false} OrDoubled(m: nat, l: nat, b: nat)
    requires Or(m + l / 2, b / 2) == m + Or(l / 2, b / 2)
    ensures Or(2 * m + l, b) == 2 * m + Or(l, b)
  {
    OrUnfolds(2 * m + l, b);
    OrUnfolds(l, b);
    hide Or;
    assert (2 * m + l) / 2 == m + l / 2 && (2 * m + l) % 2 == l % 2;
  }

  lemma {:induction false} OrUnfolds(a: nat, b: nat)
    ensures Or(a, b) == 2 * Or(a / 2, b / 2) + if a % 2 == 1 || b % 2 == 1 then 1 else 0
  {
  }

  lemma {:induction false} OrZero(a: nat)
    ensures Or(a, 0) == a
  {
    if a > 0 {
      OrZero(a / 2);
    }
  }

  // ---- powers of two ---------------------------------------------------------------------

  lemma {:induction false} Pow2Sum(a: nat, b: nat)
    ensures Pow2(a + b) == Pow2(a) * Pow2(b)
  {
    if a > 0 {
      Pow2Sum(a - 1, b);
      DoubleTimes(Pow2(b), Pow2(a - 1));
      TimesCommutes(Pow2(a - 1), Pow2(b));
      TimesCommutes(Pow2(a), Pow2(b));
    }
  }

  lemma {:induction false} Pow2Rises(a: nat, b: nat)
    requires a <= b
    ensures Pow2(a) <= Pow2(b)
  {
    if a < b {
      Pow2Rises(a, b - 1);
    }
  }

  lemma {:induction false} HalfBounds(x: nat, m: nat, p: nat)
    requires m <= x / 2 < m + p
    ensures 2 * m <= x < 2 * m + 2 * p
  {
  }

  /** A shift divides by a power of two. */
  lemma {:induction false} ShrBounds(x: nat, t: nat)
    ensures Shr(x, t) * Pow2(t) <= x < Shr(x, t) * Pow2(t) + Pow2(t)
  {
    if t > 0 {
      ShrBounds(x / 2, t - 1);
      var s, p := Shr(x / 2, t - 1), Pow2(t - 1);
      assert Shr(x, t) == s && Pow2(t) == 2 * p;
      DoubleTimes(s, p);
      HalfBounds(x, s * p, p);
    }
  }

  lemma {:induction false} ShrShrinks(x: nat, t: nat)
    ensures Shr(x, t) <= x
  {
    if t > 0 {
      ShrShrinks(x / 2, t - 1);
    }
  }

  lemma {:induction false} TimesRises(a: nat, b: nat, d: nat)
    requires a <= b
    ensures a * d <= b * d
  {
  }

  // ---- smearing ------------------------------------------------------------------------------

  /** The top t of n digits are ones. */
  ghost predicate TopOnes(a: nat, n: nat, t: nat) {
    t <= n && Pow2(n) - Pow2(n - t) <= a < Pow2(n)
  }

  lemma {:induction false} ShiftBounds(a: nat, s: nat, p: nat, k: nat, j: nat)
    requires s * p <= a < s * p + p && k * p - k <= a < k * p && k <= j * p && j <= k
    ensures k - j <= s < k
  {
    if s >= k {
      TimesRises(k, s, p);
      assert false;
    }
    assert (s + 1) * p == s * p + p;
    assert (k - j) * p == k * p - j * p;
    if s + 1 <= k - j {
      TimesRises(s + 1, k - j, p);
      assert false;
    }
  }

  /** A shift by t brings the top digits down to just below where they end. */
  lemma {:induction false} ShiftedOnes(a: nat, n: nat, t: nat)
    requires 0 < t < n && TopOnes(a, n, t)
    ensures Shr(a, t) < Pow2(n - t)
    ensures Shr(a, t) >= Pow2(n - t) - Pow2(if 2 * t <= n then n - 2 * t else 0)
  {
    hide Pow2;
    hide Shr;
    var i := if 2 * t <= n then n - 2 * t else 0;
    Pow2Sum(n - t, t);
    Pow2Rises(i, n - t);
    if 2 * t <= n {
      Pow2Sum(i, t);
    } else {
      Pow2Rises(n - t, t);
      Pow2Zero();
    }
    ShrBounds(a, t);
    ShiftBounds(a, Shr(a, t), Pow2(t), Pow2(n - t), Pow2(i));
  }

  lemma {:induction false} Pow2Zero()
    ensures Pow2(0) == 1
  {
  }

  lemma {:induction false} HighPart(whole: nat, h: nat, k: nat)
    requires whole == h * k && h > 0
    ensures (h - 1) * k == whole - k
  {
  }

  /** Each step doubles the ones at the top. */
  lemma {:induction false} SmearStep(a: nat, n: nat, t: nat)
    requires 0 < t && TopOnes(a, n, if t < n then t else n)
    ensures TopOnes(Smear(a, t), n, if 2 * t < n then 2 * t else n)
  {
    hide Or;
    hide Shl;
    hide Pow2;
    hide Shr;
    var b := Shr(a, t);
    Pow2Zero();
    if t < n {
      var k := Pow2(n - t);
      Pow2Sum(t, n - t);
      HighPart(Pow2(n), Pow2(t), k);
      ShiftedOnes(a, n, t);
      var l := a - (Pow2(t) - 1) * k;
      ShlIsTimes(Pow2(t) - 1, n - t);
      OrSplit(Pow2(t) - 1, l, b, n - t);
      OrBounds(l, b, n - t);
    } else {
      ShrShrinks(a, t);
      OrBounds(b, a, n);
      OrCommutes(a, b);
    }
  }

  lemma {:induction false} OrCommutes(a: nat, b: nat)
    ensures Or(a, b) == Or(b, a)
  {
    if a > 0 || b > 0 {
      OrCommutes(a / 2, b / 2);
    }
  }

  // ---- the least power of two --------------------------------------------------------------------

  function BitLen(y: nat): (n: nat)
    ensures y < Pow2(n) && (y > 0 ==> n > 0 && Pow2(n - 1) <= y) && (y == 0 ==> n == 0)
  {
    if y == 0 then 0 else 1 + BitLen(y / 2)
  }

  lemma {:induction false} WordSizes()
    ensures Pow2(31) == 0x8000_0000 && Pow2(32) == WORD
  {
    Pow2Quadruples();
    hide Pow2;
    Pow2Sum(4, 4);
    Pow2Sum(8, 8);
    Pow2Sum(16, 16);
    Pow2Sum(1, 31);
  }

  lemma {:induction false} Pow2Quadruples()
    ensures Pow2(1) == 2 && Pow2(4) == 16
  {
    assert Pow2(2) == 4;
  }

  lemma {:induction false} SmearedAll(y: nat)
    requires y < WORD
    ensures Smear(Smear(Smear(Smear(Smear(y, 1), 2), 4), 8), 16) == Pow2(BitLen(y)) - 1
  {
    hide Smear;
    var n := BitLen(y);
    WordSizes();
    if n > 32 {
      Pow2Rises(32, n - 1);
      assert false;
    }
    if n == 0 {
      SmearZero();
    } else {
      assert TopOnes(y, n, 1);
      hide Pow2;
      SmearStep(y, n, 1);
      SmearStep(Smear(y, 1), n, 2);
      SmearStep(Smear(Smear(y, 1), 2), n, 4);
      SmearStep(Smear(Smear(Smear(y, 1), 2), 4), n, 8);
      SmearStep(Smear(Smear(Smear(Smear(y, 1), 2), 4), 8), n, 16);
      Pow2Zero();
    }
  }

  lemma {:induction false} SmearZero()
    ensures forall t :: Smear(0, t) == 0
  {
    forall t
      ensures Smear(0, t) == 0
    {
      ShrShrinks(0, t);
    }
  }

  ghost predicate LeastPower(p: nat, x: nat) {
    && (exists k: nat :: p == Pow2(k))
    && x <= p
    && forall j: nat :: x <= Pow2(j) ==> p <= Pow2(j)
  }

  /** The next power is the least power of two that is not below x, exactly for x from 1 to 2^31;
      for any other word it is 0. */
  lemma {:induction false} NextPowerIff(x: nat)
    requires x < WORD
    ensures LeastPower(NextPower(x), x) <==> 1 <= x <= 0x8000_0000
    ensures !(1 <= x <= 0x8000_0000) ==> NextPower(x) == 0
    ensures NextPower(x) <= 0x8000_0000
  {
    hide Smear;
    hide Pow2;
    hide BitLen;
    hide Wrap;
    var y := Wrap(x - 1);
    WrapIs(x - 1);
    var n := BitLen(y);
    assert Pow2(n) <= WORD ==> Wrap(Pow2(n)) == if Pow2(n) == WORD then 0 else Pow2(n) by {
      if Pow2(n) <= WORD {
        WrapIs(Pow2(n));
      }
    }
    SmearedAll(y);
    WordSizes();
    if 1 <= x <= 0x8000_0000 {
      assert y == x - 1;
      if n > 31 {
        Pow2Rises(31, n - 1);
        assert false;
      }
      Pow2Rises(n, 31);
      assert NextPower(x) == Pow2(n);
      NoSmallerPower(x, n);
    } else {
      assert y >= 0x8000_0000;
      if n < 32 {
        Pow2Rises(n, 31);
        assert false;
      }
      if n > 32 {
        Pow2Rises(32, n - 1);
        assert false;
      }
      NoPowerIsZero();
    }
  }

  lemma {:induction false} NoPowerIsZero()
    ensures forall k: nat :: Pow2(k) > 0
  {
  }

  lemma {:induction false} NoSmallerPower(x: nat, n: nat)
    requires n > 0 ==> Pow2(n - 1) < x
    requires x > 0
    ensures forall j: nat :: x <= Pow2(j) ==> Pow2(n) <= Pow2(j)
  {
    forall j: nat | x <= Pow2(j)
      ensures Pow2(n) <= Pow2(j)
    {
      if j < n {
        Pow2Rises(j, n - 1);
        assert false;
      }
      Pow2Rises(n, j);
    }
  }
}
