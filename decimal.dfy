/** Decimal text of integers, as Python's `str(n)` writes it and `int(s)` reads it back.
    The bot stores Discord ids as decimal strings (`str(interaction.user.id)`) and turns
    them back into numbers before a send (`int(identifier)`); project ids are written in
    decimal inside the project link. */
module Decimal {

  import opened Wrappers

  predicate IsDigit(c: char) {
    '0' <= c <= '9'
  }

  predicate AllDigits(s: string) {
    forall k :: 0 <= k < |s| ==> IsDigit(s[k])
  }

  function DigitChar(d: nat): (c: char)
    requires d < 10
    ensures IsDigit(c)
  {
    "0123456789"[d]
  }

  function DigitValue(c: char): (d: nat)
    requires IsDigit(c)
    ensures d < 10
  {
    (c as int - '0' as int) as nat
  }

  lemma DigitRoundTrip(d: nat)
    requires d < 10
    ensures DigitValue(DigitChar(d)) == d
  {
    // the character table, entry by entry
    assert "0123456789"[d] as int - '0' as int == d by {
      if d == 0 {} else if d == 1 {} else if d == 2 {} else if d == 3 {} else if d == 4 {}
      else if d == 5 {} else if d == 6 {} else if d == 7 {} else if d == 8 {} else {}
    }
  }

  /** `str(n)` for n >= 0: most significant digit first, no leading zeros. */
  function NatToString(n: nat): (s: string)
    ensures |s| > 0 && AllDigits(s)
  {
    if n < 10 then [DigitChar(n)] else NatToString(n / 10) + [DigitChar(n % 10)]
  }

  /** `str(n)` for any integer: a minus sign before the digits of |n| when n < 0. */
  function IntToString(n: int): (s: string)
    ensures |s| > 0
    ensures forall k :: 0 <= k < |s| ==> IsDigit(s[k]) || s[k] == '-'
  {
    if n < 0 then "-" + NatToString(-n) else NatToString(n)
  }

  /** The value of a string of digits, read most significant digit first. */
  function DigitsValue(s: string): nat
    requires AllDigits(s)
  {
    if s == [] then 0 else DigitsValue(s[..|s| - 1]) * 10 + DigitValue(s[|s| - 1])
  }

  /** `int(s)` restricted to the form `str` produces: an optional minus sign and
      at least one digit; anything else is rejected. */
  function ParseInt(s: string): (r: Option<int>)
    ensures r.Some? ==> |s| > 0
  {
    if |s| > 0 && s[0] == '-' then
      var t := s[1..];
      if |t| > 0 && AllDigits(t) then Some(-(DigitsValue(t) as int)) else None
    else if |s| > 0 && AllDigits(s) then Some(DigitsValue(s))
    else None
  }

  lemma {:induction false} NatRoundTrip(n: nat)
    ensures DigitsValue(NatToString(n)) == n
  {
    if n < 10 {
      DigitRoundTrip(n);
      assert NatToString(n)[..0] == [];
    } else {
      var s := NatToString(n);
      var p := NatToString(n / 10);
      assert s[..|s| - 1] == p;
      assert s[|s| - 1] == DigitChar(n % 10);
      NatRoundTrip(n / 10);
      DigitRoundTrip(n % 10);
    }
  }

  /** `int(str(n)) == n`: the decimal text determines the number it was made from. */
  lemma IntRoundTrip(n: int)
    ensures ParseInt(IntToString(n)) == Some(n)
  {
    if n < 0 {
      var s := IntToString(n);
      assert s[1..] == NatToString(-n);
      NatRoundTrip(-n);
    } else {
      NatRoundTrip(n);
      assert NatToString(n)[0] != '-';
    }
  }

  /** Distinct numbers have distinct decimal texts. */
  lemma IntToStringInjective(a: int, b: int)
    requires IntToString(a) == IntToString(b)
    ensures a == b
  {
    IntRoundTrip(a);
    IntRoundTrip(b);
  }
}
