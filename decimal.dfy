/** Python's `str()` of an integer (used by the f-string `f"{distance}mi"`), with
    a parser as its independent reference. */
module Decimal {
  import opened Wrappers

  function DigitChar(d: nat): char
    requires d < 10
  {
    ('0' as int + d) as char
  }

  predicate IsDigit(c: char) {
    '0' <= c <= '9'
  }

  predicate IsDigits(s: string) {
    forall k | 0 <= k < |s| :: IsDigit(s[k])
  }

  /** Base-ten digits of `n`, most significant first. */
  function NatToDecimal(n: nat): (digits: string)
    ensures |digits| > 0 && IsDigits(digits)
    decreases n
  {
    if n < 10 then [DigitChar(n)] else NatToDecimal(n / 10) + [DigitChar(n % 10)]
  }

  /** The number a string of digits denotes. */
  function DigitsValue(s: string): nat
    requires IsDigits(s)
  {
    if |s| == 0 then 0 else 10 * DigitsValue(s[..|s| - 1]) + (s[|s| - 1] as int - '0' as int)
  }

  /** Reads back an optionally signed, non-empty string of digits. */
  function ParseDecimal(s: string): Option<int> {
    if |s| > 1 && s[0] == '-' && IsDigits(s[1..]) then Some(-(DigitsValue(s[1..]) as int))
    else if |s| > 0 && IsDigits(s) then Some(DigitsValue(s))
    else None
  }

  /** The digits of `n` are non-empty, canonical (no leading zero) and denote `n`. */
  lemma {:induction false} NatToDecimalDenotes(n: nat)
    ensures |NatToDecimal(n)| > 0 && IsDigits(NatToDecimal(n))
    ensures DigitsValue(NatToDecimal(n)) == n
    ensures |NatToDecimal(n)| > 1 ==> NatToDecimal(n)[0] != '0'
    decreases n
  {
    if n >= 10 {
      var prefix := NatToDecimal(n / 10);
      NatToDecimalDenotes(n / 10);
      var s := prefix + [DigitChar(n % 10)];
      assert s[..|s| - 1] == prefix;
      assert s[0] == prefix[0];
      if |prefix| == 1 {
        assert n / 10 != 0;
      }
    }
  }

  /** `str(n)`: a minus sign for negative numbers, then the digits of `|n|`.
      Rendering and reading back agree: `int(str(n)) == n`. */
  function IntToDecimal(n: int): (text: string)
    ensures ParseDecimal(text) == Some(n)
  {
    if n < 0 then
      NatToDecimalDenotes(-n);
      var digits := NatToDecimal(-n);
      assert ("-" + digits)[1..] == digits;
      "-" + digits
    else
      NatToDecimalDenotes(n);
      assert NatToDecimal(n)[0] != '-';
      NatToDecimal(n)
  }
}
