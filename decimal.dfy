/** Decimal numerals: int(s) on a string of ASCII digits and str(n) on a natural number. */
module Decimal {
  import opened Chars

  /** str.isdecimal on ASCII: at least one character, and every character a digit. */
  predicate IsDecimal(s: string) {
    |s| > 0 && forall i :: 0 <= i < |s| ==> IsDigit(s[i])
  }

  predicate AllDigits(s: string) {
    forall i :: 0 <= i < |s| ==> IsDigit(s[i])
  }

  function DigitValue(c: char): (d: nat)
    requires IsDigit(c)
    ensures d < 10
  {
    c as int - '0' as int
  }

  function DigitChar(d: nat): (c: char)
    requires d < 10
    ensures IsDigit(c) && DigitValue(c) == d
  {
    ('0' as int + d) as char
  }

  /** int(s) for a string of digits, read most significant digit first; leading zeros add nothing. */
  function DecimalValue(s: string): (r: nat)
    requires AllDigits(s)
    ensures r < Pow10(|s|)
  {
    if s == [] then 0 else 10 * DecimalValue(s[..|s| - 1]) + DigitValue(s[|s| - 1])
  }

  /** str(n) for a natural number: its digits with no leading zero. */
  function NatToDecimal(n: nat): (r: string)
    ensures IsDecimal(r)
    ensures r[0] == '0' ==> n == 0 && r == "0"
  {
    if n < 10 then [DigitChar(n)] else NatToDecimal(n / 10) + [DigitChar(n % 10)]
  }

  /** Reading back what str(n) writes gives n. */
  lemma {:induction false} DecimalOfNatToDecimal(n: nat)
    ensures DecimalValue(NatToDecimal(n)) == n
  {
    var s := NatToDecimal(n);
    if n >= 10 {
      DecimalOfNatToDecimal(n / 10);
      assert s[..|s| - 1] == NatToDecimal(n / 10);
    } else {
      assert s[..|s| - 1] == [];
    }
  }

  /** A leading zero does not change the value of a numeral. */
  lemma {:induction false} LeadingZero(s: string)
    requires AllDigits(s)
    ensures AllDigits("0" + s) && DecimalValue("0" + s) == DecimalValue(s)
  {
    if s != [] {
      var t := "0" + s;
      assert t[..|t| - 1] == "0" + s[..|s| - 1];
      LeadingZero(s[..|s| - 1]);
    } else {
      var t := "0";
      assert t[..|t| - 1] == [];
    }
  }

  lemma {:induction false} DecimalValueLowerBound(s: string)
    requires AllDigits(s) && |s| > 0 && s[0] != '0'
    ensures DecimalValue(s) >= Pow10(|s| - 1)
  {
    var p := s[..|s| - 1];
    if p != [] {
      assert p[0] == s[0];
      DecimalValueLowerBound(p);
    } else {
      assert DigitValue(s[0]) >= 1;
    }
  }

  function Pow10(k: nat): (r: nat)
    ensures r >= 1
  {
    if k == 0 then 1 else 10 * Pow10(k - 1)
  }

  /** Writing out the value of a numeral without leading zeros gives the numeral back,
      so str and int are inverse bijections between naturals and such numerals. */
  lemma {:induction false} NatToDecimalOfDecimal(s: string)
    requires IsDecimal(s) && (s[0] == '0' ==> s == "0")
    ensures NatToDecimal(DecimalValue(s)) == s
  {
    var p := s[..|s| - 1];
    var d := DigitValue(s[|s| - 1]);
    if p == [] {
      assert DecimalValue(s) == d;
      assert DigitChar(d) == s[0];
    } else {
      assert p[0] == s[0] && s[0] != '0';
      DecimalValueLowerBound(p);
      assert DecimalValue(s) == 10 * DecimalValue(p) + d;
      assert DecimalValue(s) >= 10;
      assert DecimalValue(s) / 10 == DecimalValue(p);
      assert DecimalValue(s) % 10 == d;
      NatToDecimalOfDecimal(p);
      assert DigitChar(d) == s[|s| - 1];
      assert s == p + [s[|s| - 1]];
    }
  }

}
