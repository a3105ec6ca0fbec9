/**
 Unsigned decimal digit strings: the text that the events hand to `Long.parseLong`
 and `Integer.parseInt` after the regular expression has already checked it is
 made of digits. Overflow of the Java integer types is not modelled.
 */
module Decimal {

  predicate IsDigit(c: char) {
    '0' <= c <= '9'
  }

  predicate IsDigits(s: string) {
    forall i :: 0 <= i < |s| ==> IsDigit(s[i])
  }

  /** A non-empty run of decimal digits, as captured by a `\d+` group. */
  type Digits = s: string | |s| > 0 && IsDigits(s) witness "0"

  /** A digit string without redundant leading zeros, as `Long.toString` writes it. */
  predicate Canonical(s: string) {
    |s| > 0 && IsDigits(s) && (s[0] == '0' ==> |s| == 1)
  }

  function Pow10(n: nat): (r: nat)
    ensures r >= 1
  {
    if n == 0 then 1 else 10 * Pow10(n - 1)
  }

  function DigitValue(c: char): (d: nat)
    requires IsDigit(c)
    ensures d < 10
  {
    c as int - '0' as int
  }

  function DigitChar(d: nat): (c: char)
    requires d < 10
    ensures IsDigit(c) && DigitValue(c) == d
  {
    ('0' as int + d) as char
  }

  /** The number a digit string denotes; a string of n digits denotes less than 10^n. */
  function Value(s: string): (n: nat)
    requires IsDigits(s)
    ensures n < Pow10(|s|)
    decreases |s|
  {
    if |s| == 0 then 0 else Value(s[..|s| - 1]) * 10 + DigitValue(s[|s| - 1])
  }

  /** The canonical decimal text of a number; it starts with '0' only for zero itself. */
  function Show(n: nat): (s: string)
    ensures Canonical(s)
    ensures s[0] == '0' <==> n == 0
    decreases n
  {
    if n < 10 then [DigitChar(n)] else Show(n / 10) + [DigitChar(n % 10)]
  }

  /** Reading back the text of a number gives the number. */
  lemma {:induction false} ValueOfShow(n: nat)
    ensures Value(Show(n)) == n
    decreases n
  {
    if n >= 10 {
      var s := Show(n);
      assert s[..|s| - 1] == Show(n / 10);
      ValueOfShow(n / 10);
    }
  }

  /** A digit string that is the decimal text of some number denotes exactly that number. */
  lemma ReadShown(s: string)
    requires IsDigits(s)
    ensures forall n: nat :: Show(n) == s ==> Value(s) == n
  {
  }

  /** A digit string without leading zeros denotes at least 1 unless it is "0". */
  lemma {:induction false} ValuePositive(s: string)
    requires Canonical(s) && s[0] != '0'
    ensures Value(s) >= 1
    decreases |s|
  {
    if |s| > 1 {
      var p := s[..|s| - 1];
      assert p[0] == s[0];
      ValuePositive(p);
    }
  }

  /** Writing out the number a canonical digit string denotes gives the string back. */
  lemma {:induction false} ShowOfValue(s: string)
    requires Canonical(s)
    ensures Show(Value(s)) == s
    decreases |s|
  {
    var d := s[|s| - 1];
    if |s| == 1 {
      assert s == [d];
      assert DigitChar(DigitValue(d)) == d;
    } else {
      var p := s[..|s| - 1];
      assert p[0] == s[0];
      ValuePositive(p);
      ShowOfValue(p);
      var n := Value(s);
      assert n == Value(p) * 10 + DigitValue(d);
      assert n / 10 == Value(p) && n % 10 == DigitValue(d);
      assert Show(n) == Show(Value(p)) + [DigitChar(DigitValue(d))];
      assert DigitChar(DigitValue(d)) == d;
      assert s == p + [d];
    }
  }
}
