/** Decimal text of integers, as `std::to_string(int)` and `QString::number(int)`
    produce it (no separators, no leading zeros, a leading '-' for negatives),
    together with a parser that inverts it. */
module Decimal {
  import opened Options

  predicate IsDigit(c: char) {
    '0' <= c <= '9'
  }

  predicate AllDigits(s: string) {
    forall i :: 0 <= i < |s| ==> IsDigit(s[i])
  }

  function DigitChar(d: nat): (c: char)
    requires d < 10
    ensures IsDigit(c) && DigitValue(c) == d
  {
    ('0' as int + d) as char
  }

  function DigitValue(c: char): nat
    requires IsDigit(c)
  {
    c as int - '0' as int
  }

  /** The digits of `n`, most significant first. */
  function NatToDecimal(n: nat): (s: string)
    ensures |s| > 0
  {
    if n < 10 then [DigitChar(n)] else NatToDecimal(n / 10) + [DigitChar(n % 10)]
  }

  /** Every character of `NatToDecimal(n)` is a digit, and only zero starts with '0'. */
  lemma {:induction false} NatToDecimalDigits(n: nat)
    ensures AllDigits(NatToDecimal(n))
    ensures NatToDecimal(n)[0] == '0' ==> n == 0
  {
    if n >= 10 {
      NatToDecimalDigits(n / 10);
      var s := NatToDecimal(n);
      assert s[..|s| - 1] == NatToDecimal(n / 10);
      assert s[0] == NatToDecimal(n / 10)[0];
    }
  }

  /** The value of a string of digits, read most significant first. */
  function DigitsValue(s: string): nat
    requires AllDigits(s)
  {
    if s == [] then 0 else DigitsValue(s[..|s| - 1]) * 10 + DigitValue(s[|s| - 1])
  }

  /** Reading back the digits of `n` gives `n`. */
  lemma {:induction false} DigitsValueOfNat(n: nat)
    ensures AllDigits(NatToDecimal(n)) && DigitsValue(NatToDecimal(n)) == n
  {
    NatToDecimalDigits(n);
    var s := NatToDecimal(n);
    if n < 10 {
      assert s[..|s| - 1] == [];
    } else {
      assert s[..|s| - 1] == NatToDecimal(n / 10);
      DigitsValueOfNat(n / 10);
    }
  }

  /** Parses an optional '-' followed by at least one digit. */
  function ParseDecimal(s: string): Option<int> {
    if |s| > 1 && s[0] == '-' && AllDigits(s[1..]) then Some(-(DigitsValue(s[1..]) as int))
    else if |s| > 0 && AllDigits(s) then Some(DigitsValue(s))
    else None
  }

  /** `std::to_string` of an integer: the digits of its magnitude, after a '-'
      when it is negative. */
  function IntToDecimal(i: int): (s: string)
    ensures |s| > 0
    ensures s[0] == '-' <==> i < 0
  {
    NatToDecimalDigits(if i < 0 then -i else i);
    if i < 0 then "-" + NatToDecimal(-i) else NatToDecimal(i)
  }

  /** The decimal text of an integer parses back to the integer. */
  lemma IntToDecimalParses(i: int)
    ensures ParseDecimal(IntToDecimal(i)) == Some(i)
  {
    DigitsValueOfNat(if i < 0 then -i else i);
    if i < 0 {
      var d := NatToDecimal(-i);
      assert ("-" + d)[1..] == d;
    }
  }

  /** Different integers have different decimal texts. */
  lemma IntToDecimalInjective(i: int, j: int)
    requires IntToDecimal(i) == IntToDecimal(j)
    ensures i == j
  {
    IntToDecimalParses(i);
    IntToDecimalParses(j);
  }
}
