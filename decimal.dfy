/** Decimal rendering and parsing of natural numbers: `Number.prototype.toString`
    and `Number.parseInt` restricted to strings of decimal digits. */
module Decimal {

  predicate IsDigit(c: char) {
    '0' <= c <= '9'
  }

  predicate IsDigits(s: string) {
    forall i :: 0 <= i < |s| ==> IsDigit(s[i])
  }

  function DigitChar(d: nat): (c: char)
    requires d < 10
    ensures IsDigit(c)
  {
    (('0' as int) + d) as char
  }

  function DigitValue(c: char): (d: nat)
    requires IsDigit(c)
    ensures d < 10
  {
    (c as int) - ('0' as int)
  }

  /** The decimal representation of `n`, without leading zeros. */
  function ToDecimal(n: nat): (s: string)
    ensures |s| >= 1 && IsDigits(s)
    ensures s[0] == '0' ==> n == 0
    decreases n
  {
    if n < 10 then [DigitChar(n)] else ToDecimal(n / 10) + [DigitChar(n % 10)]
  }

  /** A non-empty string of digits without a leading zero: what `ToDecimal` renders. */
  predicate Canonical(s: string) {
    |s| >= 1 && IsDigits(s) && (s[0] == '0' ==> |s| == 1)
  }

  /** The value of a string of decimal digits ("" is 0). */
  function ParseDecimal(s: string): nat
    requires IsDigits(s)
  {
    if s == [] then 0 else ParseDecimal(s[..|s| - 1]) * 10 + DigitValue(s[|s| - 1])
  }

  /** Reading back a rendered number gives the number. */
  lemma {:induction false} ParseToDecimal(n: nat)
    ensures ParseDecimal(ToDecimal(n)) == n
    decreases n
  {
    var s := ToDecimal(n);
    if n >= 10 {
      ParseToDecimal(n / 10);
      assert s[..|s| - 1] == ToDecimal(n / 10);
    }
  }

  /** Rendering the value of a canonical digit string gives back the string. */
  lemma {:induction false} ToDecimalOfParse(s: string)
    requires Canonical(s)
    ensures ToDecimal(ParseDecimal(s)) == s
    decreases |s|
  {
    var last := s[|s| - 1];
    assert DigitChar(DigitValue(last)) == last;
    if |s| >= 2 {
      var p := s[..|s| - 1];
      assert p[0] == s[0];
      ToDecimalOfParse(p);
      var q := ParseDecimal(p);
      assert q != 0;
      var n := ParseDecimal(s);
      assert n / 10 == q && n % 10 == DigitValue(last);
      assert s == p + [last];
    }
  }
}
