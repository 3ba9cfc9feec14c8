/** Decimal text of integers, as Python's `str(int)` and f-string `{n}` produce it,
    together with a parser that inverts it. */
module Decimal {
  import opened Wrappers

  predicate IsDigit(c: char) {
    '0' <= c <= '9'
  }

  predicate AllDigits(s: string) {
    forall i :: 0 <= i < |s| ==> IsDigit(s[i])
  }

  function DigitChar(d: nat): (c: char)
    requires d < 10
    ensures IsDigit(c) && c as int - '0' as int == d
  {
    ('0' as int + d) as char
  }

  /** Decimal digits of a natural number, most significant first, without leading zeros. */
  function NatToString(n: nat): (s: string)
    ensures |s| > 0 && AllDigits(s)
    ensures s[0] == '0' ==> n == 0
    decreases n
  {
    if n < 10 then [DigitChar(n)] else NatToString(n / 10) + [DigitChar(n % 10)]
  }

  /** `str(i)` for a Python int: a minus sign before the digits of a negative number, no leading
      zero except in `0` itself, and no `-0`. */
  function IntToString(i: int): (s: string)
    ensures |s| > 0 && IsDigit(s[|s| - 1])
    ensures forall j :: 0 <= j < |s| ==> s[j] == '-' || IsDigit(s[j])
    ensures (s[0] == '-') == (i < 0)
    ensures s[0] == '-' ==> |s| > 1 && s[1] != '0'
    ensures s[0] == '0' ==> s == "0"
  {
    if i < 0 then "-" + NatToString(-i) else NatToString(i)
  }

  /** The number a string of digits denotes. */
  function DigitsValue(s: string): nat
    requires AllDigits(s)
  {
    if s == [] then 0 else DigitsValue(s[..|s| - 1]) * 10 + (s[|s| - 1] as int - '0' as int)
  }

  /** `int(s)` restricted to the strings `str` produces: an optional minus sign and at least one digit. */
  function ParseInt(s: string): Option<int> {
    if |s| > 0 && s[0] == '-' then
      if |s| > 1 && AllDigits(s[1..]) then Some(-(DigitsValue(s[1..]) as int)) else None
    else if |s| > 0 && AllDigits(s) then Some(DigitsValue(s))
    else None
  }

  lemma {:induction false} NatToStringRoundTrip(n: nat)
    ensures DigitsValue(NatToString(n)) == n
    decreases n
  {
    if n >= 10 {
      var s := NatToString(n);
      assert s[..|s| - 1] == NatToString(n / 10);
      NatToStringRoundTrip(n / 10);
    }
  }

  /** Reading back the text of an integer gives the integer. */
  lemma IntToStringRoundTrip(i: int)
    ensures ParseInt(IntToString(i)) == Some(i)
  {
    var s := IntToString(i);
    if i < 0 {
      assert s[1..] == NatToString(-i);
      NatToStringRoundTrip(-i);
    } else {
      NatToStringRoundTrip(i);
    }
  }

  /** Distinct integers have distinct decimal texts. */
  lemma IntToStringInjective(a: int, b: int)
    requires IntToString(a) == IntToString(b)
    ensures a == b
  {
    IntToStringRoundTrip(a);
    IntToStringRoundTrip(b);
  }

  /** Python's form of an integer's text: an optional minus sign, then digits with no leading zero
      (except `0` itself), and no `-0`. */
  predicate Canonical(t: string) {
    if |t| > 0 && t[0] == '-' then |t| > 1 && AllDigits(t[1..]) && t[1] != '0'
    else |t| > 0 && AllDigits(t) && (t[0] == '0' ==> t == "0")
  }

  lemma {:induction false} LeadingDigitPositive(t: string)
    requires t != [] && AllDigits(t) && t[0] != '0'
    ensures DigitsValue(t) > 0
    decreases |t|
  {
    if |t| > 1 {
      LeadingDigitPositive(t[..|t| - 1]);
    }
  }

  lemma {:induction false} DigitsNoLeadingZero(t: string)
    requires t != [] && AllDigits(t) && (t[0] == '0' ==> t == "0")
    ensures NatToString(DigitsValue(t)) == t
    decreases |t|
  {
    var v := DigitsValue(t);
    if |t| == 1 {
      assert t[..|t| - 1] == [];
      assert v == DigitsValue([]) * 10 + (t[0] as int - '0' as int);
      assert DigitChar(v) == t[0];
    } else {
      var front := t[..|t| - 1];
      LeadingDigitPositive(front);
      DigitsNoLeadingZero(front);
      assert v / 10 == DigitsValue(front) && v % 10 == t[|t| - 1] as int - '0' as int;
      assert t == front + [t[|t| - 1]];
    }
  }

  /** `IntToString` writes Python's form, and it is the only text in that form that denotes the integer. */
  lemma IntToStringCanonical(i: int, t: string)
    ensures Canonical(IntToString(i))
    ensures Canonical(t) && ParseInt(t) == Some(i) ==> t == IntToString(i)
  {
    if Canonical(t) && ParseInt(t) == Some(i) {
      if t[0] == '-' {
        DigitsNoLeadingZero(t[1..]);
        LeadingDigitPositive(t[1..]);
        assert t == "-" + t[1..];
      } else {
        DigitsNoLeadingZero(t);
      }
    }
  }
}
