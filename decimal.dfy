/**
 * Decimal text of integers, as Python's `"%d" % n` produces it: an optional
 * minus sign followed by the digits of |n| with no leading zero.  The parser
 * `ParseInt` is the partner that proves the formatting loses nothing.
 */
module Decimal {
  import opened Wrappers

  predicate IsDigit(c: char) {
    '0' <= c <= '9'
  }

  predicate AllDigits(s: string) {
    forall i :: 0 <= i < |s| ==> IsDigit(s[i])
  }

  function DigitChar(d: nat): (c: char)
    requires d < 10
    ensures IsDigit(c) && c as int - '0' as int == d
  {
    (d + '0' as int) as char
  }

  function DigitValue(c: char): (d: nat)
    requires IsDigit(c)
    ensures d < 10 && DigitChar(d) == c
  {
    c as int - '0' as int
  }

  /** The `%d` text of a natural number. */
  function NatToString(n: nat): (s: string)
    ensures |s| >= 1
  {
    if n < 10 then [DigitChar(n)] else NatToString(n / 10) + [DigitChar(n % 10)]
  }

  /** The `%d` text of any integer: a `-` in front of a negative one. */
  function IntToString(n: int): (s: string)
    ensures |s| >= 1
  {
    if n < 0 then "-" + NatToString(-n) else NatToString(n)
  }

  /** `%d` writes only digits, with no leading zero. */
  lemma {:induction false} NatToStringDigits(n: nat)
    ensures AllDigits(NatToString(n))
    ensures NatToString(n)[0] == '0' ==> n == 0
  {
    if n >= 10 {
      NatToStringDigits(n / 10);
    }
  }

  /** The text of an integer is digits, preceded by `-` exactly when it is negative. */
  lemma IntToStringAlphabet(n: int)
    ensures IsDigit(IntToString(n)[|IntToString(n)| - 1])
    ensures forall i :: 0 <= i < |IntToString(n)| ==>
              IsDigit(IntToString(n)[i]) || (i == 0 && IntToString(n)[i] == '-' && n < 0)
  {
    if n < 0 {
      NatToStringDigits(-n);
      assert forall i :: 1 <= i < |IntToString(n)| ==> IntToString(n)[i] == NatToString(-n)[i - 1];
    } else {
      NatToStringDigits(n);
    }
  }

  /** The value of a string of decimal digits, most significant first. */
  function ParseDigits(s: string): nat
    requires AllDigits(s)
  {
    if s == [] then 0 else ParseDigits(s[..|s| - 1]) * 10 + DigitValue(s[|s| - 1])
  }

  /** Reads back an optional `-` and one or more digits; anything else is `None`. */
  function ParseInt(s: string): Option<int> {
    if |s| >= 2 && s[0] == '-' && AllDigits(s[1..]) then Some(-(ParseDigits(s[1..]) as int))
    else if |s| >= 1 && AllDigits(s) then Some(ParseDigits(s))
    else None
  }

  lemma {:induction false} ParseNatToString(n: nat)
    ensures AllDigits(NatToString(n)) && ParseDigits(NatToString(n)) == n
  {
    var s := NatToString(n);
    NatToStringDigits(n);
    if n >= 10 {
      NatToStringDigits(n / 10);
      ParseNatToString(n / 10);
      assert s[..|s| - 1] == NatToString(n / 10);
    }
  }

  /** Formatting with `%d` and parsing back is the identity on every integer. */
  lemma IntToStringRoundTrip(n: int)
    ensures ParseInt(IntToString(n)) == Some(n)
  {
    var s := IntToString(n);
    IntToStringAlphabet(n);
    if n < 0 {
      assert s[1..] == NatToString(-n);
      ParseNatToString(-n);
    } else {
      ParseNatToString(n);
    }
  }
}
