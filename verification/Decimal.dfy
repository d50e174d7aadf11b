/** Decimal numerals. */
module Decimal {
  type Digit = d: int | 0 <= d < 10

  /** The digits of `n`, the most significant one first. */
  function Digits(n: nat): (ds: seq<Digit>)
    ensures ds != [] && (ds[0] == 0 ==> n == 0 && |ds| == 1)
  {
    if n < 10 then [n] else Digits(n / 10) + [n % 10]
  }

  function Value(ds: seq<Digit>): nat {
    if ds == [] then 0 else 10 * Value(ds[..|ds| - 1]) + ds[|ds| - 1]
  }

  /** Reading back what was written. */
  lemma {:induction false} ValueOfDigits(n: nat)
    ensures Value(Digits(n)) == n
  {
    if n >= 10 {
      var init := Digits(n / 10);
      assert Digits(n)[..|init|] == init;
      ValueOfDigits(n / 10);
    }
  }
}
