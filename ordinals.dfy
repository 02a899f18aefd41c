/** Human-readable positions ("1st", "2nd", ...) used in diagnostics. */
module Ordinals {

  /** The decimal digits of `n`, most significant first, without leading zeros. */
  function Decimal(n: nat): (r: string)
    ensures |r| >= 1
  {
    if n < 10 then [Digit(n)] else Decimal(n / 10) + [Digit(n % 10)]
  }

  function Digit(d: nat): char
    requires d < 10
  {
    (d + '0' as int) as char
  }

  /** The number a string of decimal digits denotes. */
  function DecimalValue(s: string): int {
    if s == [] then 0 else 10 * DecimalValue(s[..|s| - 1]) + (s[|s| - 1] as int - '0' as int)
  }

  /** Reading the digits back gives the number. */
  lemma {:induction false} DecimalRoundTrip(n: nat)
    ensures DecimalValue(Decimal(n)) == n
  {
    if n >= 10 {
      DecimalRoundTrip(n / 10);
      var r := Decimal(n);
      assert r[..|r| - 1] == Decimal(n / 10);
    }
  }

  /** The 1-based ordinal of the 0-based index `n`. The suffix is chosen from
      the whole number, not its last digit: 1, 2 and 3 get "st", "nd" and "rd",
      every other number gets "th". */
  function Ordinal(n: nat): string {
    var m := n + 1;
    Decimal(m) + (if m == 1 then "st" else if m == 2 then "nd" else if m == 3 then "rd" else "th")
  }

  /** The four positions a shape key can name. */
  lemma OrdinalFirstFour()
    ensures Ordinal(0) == "1st" && Ordinal(1) == "2nd" && Ordinal(2) == "3rd" && Ordinal(3) == "4th"
  {
  }

  /** From the fourth position on the suffix is always "th", even for 21, 22 and 23. */
  lemma OrdinalSuffixAfterThird(n: nat)
    requires n >= 3
    ensures Ordinal(n) == Decimal(n + 1) + "th"
  {
  }

  /** Different positions get different labels. */
  lemma OrdinalInjective(m: nat, n: nat)
    requires Ordinal(m) == Ordinal(n)
    ensures m == n
  {
    var a, b := Ordinal(m), Ordinal(n);
    assert a[..|a| - 2] == Decimal(m + 1);
    assert b[..|b| - 2] == Decimal(n + 1);
    DecimalRoundTrip(m + 1);
    DecimalRoundTrip(n + 1);
  }
}
