// Decimal numerals, as printf("%d") writes them and atoi reads them back.
module Decimal {
  import opened Keys

  function Digits(n: nat): (s: seq<Byte>)
    ensures |s| > 0 && AllDigits(s)
  {
    if n < 10 then [48 + n] else Digits(n / 10) + [48 + n % 10]
  }

  predicate AllDigits(s: seq<Byte>) {
    forall i :: 0 <= i < |s| ==> 48 <= s[i] <= 57
  }

  function Atoi(s: seq<Byte>): nat
    requires AllDigits(s)
  {
    if s == [] then 0 else 10 * Atoi(s[..|s| - 1]) + (s[|s| - 1] - 48)
  }

  lemma {:induction false} AtoiUndoesDigits(n: nat)
    ensures Atoi(Digits(n)) == n
  {
    if n >= 10 {
      AtoiUndoesDigits(n / 10);
      assert Digits(n)[..|Digits(n)| - 1] == Digits(n / 10);
    }
  }

  /** Zeros in front of a numeral do not change what it reads as. */
  lemma {:induction false} AtoiSkipsZeros(s: seq<Byte>)
    requires AllDigits(s)
    ensures Atoi([48] + s) == Atoi(s)
  {
    if s == [] {
      assert [48] + s == [48] && [48][..0] == [];
    } else {
      assert ([48] + s)[..|s|] == [48] + s[..|s| - 1];
      AtoiSkipsZeros(s[..|s| - 1]);
    }
  }

  lemma {:induction false} DigitsUnfold(n: nat)
    ensures n < 10 ==> Digits(n) == [48 + n] && |Digits(n)| == 1
    ensures n >= 10 ==> Digits(n) == Digits(n / 10) + [48 + n % 10] && |Digits(n)| == |Digits(n / 10)| + 1
  {
  }

  /** Numerals have no leading zero to spare: a shorter one is the smaller number, and those of one
      length compare digit by digit from the front. */
  lemma {:induction false} DigitsInOrder(a: nat, b: nat)
    ensures a < b <==> |Digits(a)| < |Digits(b)| || (|Digits(a)| == |Digits(b)| && Lt(Digits(a), Digits(b)))
    ensures Digits(a) == Digits(b) <==> a == b
    decreases a
  {
    hide Lt;
    hide Digits;
    DigitsUnfold(a);
    DigitsUnfold(b);
    AtoiUndoesDigits(a);
    AtoiUndoesDigits(b);
    if a < 10 && b < 10 {
      LtOne(48 + a, 48 + b);
    } else if a >= 10 && b >= 10 {
      DigitsInOrder(a / 10, b / 10);
      if |Digits(a)| == |Digits(b)| {
        LtConcat(Digits(a / 10), Digits(b / 10), [48 + a % 10], [48 + b % 10]);
        LtOne(48 + a % 10, 48 + b % 10);
      }
      assert a < b <==> a / 10 < b / 10 || (a / 10 == b / 10 && a % 10 < b % 10);
    }
  }
}
