/**
 * Python's `str()` of an integer (decimal, with a leading `-` when negative),
 * together with the reading of such a string back into a number.
 */
module Decimal {

  predicate IsDigit(c: char) {
    '0' <= c <= '9'
  }

  predicate IsDigits(s: string) {
    forall i :: 0 <= i < |s| ==> IsDigit(s[i])
  }

  function DigitChar(d: nat): (c: char)
    requires d < 10
    ensures IsDigit(c)
  {
    ('0' as int + d) as char
  }

  function DigitValue(c: char): (d: nat)
    requires IsDigit(c)
    ensures d < 10
  {
    c as int - '0' as int
  }

  /** The number a string of decimal digits denotes (most significant first). */
  function DigitsValue(s: string): nat
    requires IsDigits(s)
  {
    if s == [] then 0 else 10 * DigitsValue(s[..|s| - 1]) + DigitValue(s[|s| - 1])
  }

  /** `str(n)` for a non-negative integer: at least one digit, no leading zero. */
  function NatToString(n: nat): (r: string)
    ensures |r| >= 1 && IsDigits(r)
    ensures r[0] == '0' ==> n == 0
  {
    if n < 10 then [DigitChar(n)] else NatToString(n / 10) + [DigitChar(n % 10)]
  }

  /** Digits with no leading zero, except the single digit `0`. */
  predicate IsCanonicalDigits(s: string) {
    |s| >= 1 && IsDigits(s) && (s[0] == '0' ==> |s| == 1)
  }

  /** The form Python prints: canonical digits, with a `-` only before a non-zero number. */
  predicate IsCanonicalIntString(s: string) {
    IsCanonicalDigits(s) || (|s| >= 2 && s[0] == '-' && IsCanonicalDigits(s[1..]) && s[1] != '0')
  }

  /** `str(i)` for any integer: canonical, and signed exactly when `i` is negative. */
  function IntToString(i: int): (r: string)
    ensures IsCanonicalIntString(r)
    ensures r[0] == '-' <==> i < 0
  {
    if i < 0 then "-" + NatToString(-i) else NatToString(i)
  }

  /** An optional `-` followed by digits. */
  predicate IsIntString(s: string) {
    (|s| > 0 && s[0] == '-' && IsDigits(s[1..])) || IsDigits(s)
  }

  /** `int(s)` for the strings `IntToString` produces. */
  function IntValue(s: string): int
    requires IsIntString(s)
  {
    if |s| > 0 && s[0] == '-' then -(DigitsValue(s[1..]) as int) else DigitsValue(s)
  }

  lemma {:induction false} NatToStringRoundTrip(n: nat)
    ensures DigitsValue(NatToString(n)) == n
  {
    if n >= 10 {
      var s := NatToString(n);
      assert s[..|s| - 1] == NatToString(n / 10);
      NatToStringRoundTrip(n / 10);
    }
  }

  /** Reading back the decimal rendering of `i` gives `i`. */
  lemma IntToStringRoundTrip(i: int)
    ensures IsIntString(IntToString(i)) && IntValue(IntToString(i)) == i
  {
    if i < 0 {
      assert IntToString(i)[1..] == NatToString(-i);
      NatToStringRoundTrip(-i);
    } else {
      NatToStringRoundTrip(i);
    }
  }

  /** A canonical digit string with a non-zero first digit denotes a positive number. */
  lemma {:induction false} LeadingDigitPositive(d: string)
    requires |d| >= 1 && IsDigits(d) && d[0] != '0'
    ensures DigitsValue(d) >= 1
  {
    if |d| > 1 {
      LeadingDigitPositive(d[..|d| - 1]);
    }
  }

  /** A canonical digit string is the rendering of the number it denotes. */
  lemma {:induction false} CanonicalDigitsUnique(d: string)
    requires IsCanonicalDigits(d)
    ensures d == NatToString(DigitsValue(d))
  {
    var n := DigitsValue(d);
    var c := d[|d| - 1];
    assert DigitChar(DigitValue(c)) == c;
    if |d| > 1 {
      var prefix := d[..|d| - 1];
      LeadingDigitPositive(prefix);
      CanonicalDigitsUnique(prefix);
      var m := DigitsValue(prefix);
      assert n == 10 * m + DigitValue(c);
      assert n / 10 == m && n % 10 == DigitValue(c);
      assert d == prefix + [c];
    }
  }

  /** Python prints each integer one way only: a canonical string is `str` of its value. */
  lemma CanonicalIntStringUnique(s: string)
    requires IsCanonicalIntString(s)
    ensures IsIntString(s) && s == IntToString(IntValue(s))
  {
    if IsCanonicalDigits(s) {
      CanonicalDigitsUnique(s);
    } else {
      CanonicalDigitsUnique(s[1..]);
      LeadingDigitPositive(s[1..]);
      assert s == "-" + s[1..];
    }
  }
}
