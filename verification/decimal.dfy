/** Python's `str(n)` for integers (used for message ids in post URLs and for
    HTTP status codes in error messages), together with the parser that
    inverts it. */
module Decimal {
  import opened Wrappers

  predicate IsDigit(c: char) {
    '0' <= c <= '9'
  }

  predicate AllDigits(s: string) {
    forall k :: 0 <= k < |s| ==> IsDigit(s[k])
  }

  /** A numeral as `str` writes a natural number: digits only, and no
      leading zero unless the numeral is "0" itself. */
  predicate Numeral(s: string) {
    |s| > 0 && AllDigits(s) && (s[0] == '0' ==> |s| == 1)
  }

  function DigitChar(d: nat): (c: char)
    requires d < 10
    ensures IsDigit(c) && c as int - '0' as int == d
  {
    ('0' as int + d) as char
  }

  /** The decimal rendering of a natural number: non-empty, digits only and
      without a leading zero unless the number is zero itself. */
  function NatToString(n: nat): (s: string)
    ensures Numeral(s)
    ensures s[0] == '0' ==> n == 0
    decreases n
  {
    if n < 10 then [DigitChar(n)] else NatToString(n / 10) + [DigitChar(n % 10)]
  }

  /** Python's `str(n)`: a minus sign before the magnitude of a negative number. */
  function IntToString(n: int): (s: string)
    ensures |s| > 0
    ensures n < 0 <==> s[0] == '-'
    ensures n >= 0 ==> Numeral(s)
    ensures n < 0 ==> Numeral(s[1..]) && s[1] != '0'
    ensures ':' !in s && '/' !in s
  {
    if n < 0 then "-" + NatToString(-n) else NatToString(n)
  }

  /** The value of a string of decimal digits. */
  function ParseDigits(s: string): nat
    requires AllDigits(s)
    decreases |s|
  {
    if |s| == 0 then 0
    else ParseDigits(s[..|s| - 1]) * 10 + (s[|s| - 1] as int - '0' as int)
  }

  /** The integer a string spells in `str`'s form: a numeral, or a minus
      sign before a numeral other than "0"; `None` for any other string,
      so "042" and "-0" are refused. */
  function ParseInt(s: string): Option<int> {
    if Numeral(s) then Some(ParseDigits(s))
    else if |s| > 1 && s[0] == '-' && Numeral(s[1..]) && s[1] != '0' then Some(0 - ParseDigits(s[1..]) as int)
    else None
  }

  lemma {:induction false} ParseNatToString(n: nat)
    ensures ParseDigits(NatToString(n)) == n
    decreases n
  {
    var s := NatToString(n);
    if n >= 10 {
      ParseNatToString(n / 10);
      assert s[..|s| - 1] == NatToString(n / 10);
    }
  }

  /** Parsing the rendering of any integer gives the integer back, so the
      rendering loses nothing. */
  lemma IntToStringRoundTrip(n: int)
    ensures ParseInt(IntToString(n)) == Some(n)
  {
    var s := IntToString(n);
    if n < 0 {
      ParseNatToString(-n);
      assert s[1..] == NatToString(-n);
    } else {
      ParseNatToString(n);
    }
  }

  /** A numeral with a non-zero first digit has a positive value. */
  lemma {:induction false} LeadingDigitPositive(s: string)
    requires |s| > 0 && AllDigits(s) && s[0] != '0'
    ensures ParseDigits(s) > 0
    decreases |s|
  {
    if |s| > 1 {
      LeadingDigitPositive(s[..|s| - 1]);
    }
  }

  /** Rendering the value of a numeral gives the numeral back. */
  lemma {:induction false} NumeralRoundTrip(s: string)
    requires Numeral(s)
    ensures NatToString(ParseDigits(s)) == s
    decreases |s|
  {
    if |s| > 1 {
      var prefix := s[..|s| - 1];
      LeadingDigitPositive(prefix);
      NumeralRoundTrip(prefix);
      var n := ParseDigits(s);
      assert n / 10 == ParseDigits(prefix) && n % 10 == s[|s| - 1] as int - '0' as int;
      assert s == prefix + [s[|s| - 1]];
    }
  }

  /** The only string that parses to an integer is that integer's
      rendering: the parser accepts `str`'s form and no other. */
  lemma ParseIntCanonical(s: string, n: int)
    requires ParseInt(s) == Some(n)
    ensures s == IntToString(n)
  {
    if Numeral(s) {
      NumeralRoundTrip(s);
    } else {
      LeadingDigitPositive(s[1..]);
      NumeralRoundTrip(s[1..]);
      assert s == "-" + s[1..];
    }
  }

  /** Distinct integers render differently. */
  lemma IntToStringInjective(m: int, n: int)
    ensures IntToString(m) == IntToString(n) ==> m == n
  {
    IntToStringRoundTrip(m);
    IntToStringRoundTrip(n);
  }
}
