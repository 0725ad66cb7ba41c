/** Natural numbers in decimal, as code units. */
module Decimals {
  function Digits(n: nat): (d: seq<int>)
    ensures |d| > 0 && (|d| == 1 <==> n < 10)
    ensures forall i | 0 <= i < |d| :: 48 <= d[i] < 58
  {
    if n < 10 then [48 + n] else Digits(n / 10) + [48 + n % 10]
  }

  lemma {:induction false} DigitsAreInjective(m: nat, n: nat)
    requires Digits(m) == Digits(n)
    ensures m == n
  {
    var dm, dn := Digits(m), Digits(n);
    assert dm[|dm| - 1] == dn[|dn| - 1];
    if m >= 10 {
      assert Digits(m / 10) == dm[..|dm| - 1] && Digits(n / 10) == dn[..|dn| - 1];
      DigitsAreInjective(m / 10, n / 10);
    }
  }
}
