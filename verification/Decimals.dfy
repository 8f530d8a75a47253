/** Python's `str` of a natural number. */
module Decimals {

  const DIGITS := "0123456789"

  /** `str(n)`. */
  function Decimal(n: nat): (s: string)
    ensures s != []
  {
    if n < 10 then [DIGITS[n]] else Decimal(n / 10) + [DIGITS[n % 10]]
  }

  /** The number that digits stand for, by their character codes. */
  function ValueOf(s: string): int {
    if s == "" then 0 else ValueOf(s[..|s| - 1]) * 10 + (s[|s| - 1] as int - '0' as int)
  }

  /** The text is all digits, stands for the number, and has no leading zero. */
  lemma {:induction false} DecimalReads(n: nat)
    ensures ValueOf(Decimal(n)) == n
    ensures forall i :: 0 <= i < |Decimal(n)| ==> '0' <= Decimal(n)[i] <= '9'
    ensures Decimal(n)[0] == '0' ==> n == 0
  {
    if n < 10 {
      assert ValueOf([DIGITS[n]]) == ValueOf([DIGITS[n]][..0]) * 10 + (DIGITS[n] as int - '0' as int);
    } else {
      var init, last := Decimal(n / 10), DIGITS[n % 10];
      DecimalReads(n / 10);
      assert (init + [last])[..|init|] == init;
    }
  }

  lemma {:induction false} DecimalInjective(n: nat, m: nat)
    requires Decimal(n) == Decimal(m)
    ensures n == m
  {
    var s, t := Decimal(n), Decimal(m);
    assert s[|s| - 1] == DIGITS[n % 10] && t[|t| - 1] == DIGITS[m % 10];
    if n >= 10 && m >= 10 {
      assert Decimal(n / 10) == s[..|s| - 1] && Decimal(m / 10) == t[..|t| - 1];
      DecimalInjective(n / 10, m / 10);
    }
  }

  lemma {:induction false} DecimalHasNoDot(n: nat)
    ensures '.' !in Decimal(n)
  {
    if n >= 10 {
      DecimalHasNoDot(n / 10);
    }
  }
}
