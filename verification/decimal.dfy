/** Decimal spelling of integers, as Python's `str(int)` (and so `json.dumps`,
    f-strings and PyYAML) writes them, together with a reader that inverts it. */
module Decimal {
  import opened Results

  predicate IsDigit(c: char) {
    '0' <= c <= '9'
  }

  predicate AllDigits(s: string) {
    forall i :: 0 <= i < |s| ==> IsDigit(s[i])
  }

  function DigitChar(d: nat): (c: char)
    requires d < 10
    ensures IsDigit(c) && c as int - '0' as int == d
  {
    "0123456789"[d]
  }

  /** The value of a string of decimal digits, most significant first. */
  function DigitsValue(s: string): nat
    requires AllDigits(s)
  {
    if |s| == 0 then 0 else DigitsValue(s[..|s| - 1]) * 10 + (s[|s| - 1] as int - '0' as int)
  }

  /** A digit string without superfluous leading zeros: the int rule of
      section 6 of RFC 8259, which is also the form `str(int)` produces. */
  predicate IsCanonicalDigits(s: string) {
    |s| > 0 && AllDigits(s) && (s[0] != '0' || |s| == 1)
  }

  function NatToString(n: nat): (s: string)
    ensures IsCanonicalDigits(s)
    ensures DigitsValue(s) == n
  {
    if n < 10 then [DigitChar(n)]
    else
      var prefix := NatToString(n / 10);
      var s := prefix + [DigitChar(n % 10)];
      assert s[..|s| - 1] == prefix;
      s
  }

  /** `str(i)` for a Python int: an optional minus sign and the digits. */
  function IntToString(i: int): (s: string)
    ensures |s| > 0 && (s[0] == '-' <==> i < 0)
    ensures forall k :: 0 < k < |s| ==> IsDigit(s[k])
    ensures IsDigit(s[0]) || (s[0] == '-' && |s| >= 2)
    ensures IsDigit(s[|s| - 1])
  {
    if i < 0 then "-" + NatToString(-i) else NatToString(i)
  }

  /** Reads an integer written as in section 6 of RFC 8259 (minus sign
      allowed, no leading zeros, no fraction or exponent). */
  function ReadInt(s: string): Option<int> {
    if |s| > 0 && s[0] == '-' then
      if IsCanonicalDigits(s[1..]) then Some(0 - DigitsValue(s[1..]) as int) else None
    else if IsCanonicalDigits(s) then Some(DigitsValue(s))
    else None
  }

  lemma ReadIntOfIntToString(i: int)
    ensures ReadInt(IntToString(i)) == Some(i)
  {
    var s := IntToString(i);
    if i < 0 {
      assert s[1..] == NatToString(-i);
    }
  }

  /** Two integers with the same spelling are equal. */
  lemma IntToStringInjective(i: int, j: int)
    requires IntToString(i) == IntToString(j)
    ensures i == j
  {
    ReadIntOfIntToString(i);
    ReadIntOfIntToString(j);
  }

  /** Length of the longest prefix of `s` made of digits. */
  function DigitRun(s: string): (n: nat)
    ensures n <= |s| && AllDigits(s[..n])
    ensures n < |s| ==> !IsDigit(s[n])
  {
    if |s| > 0 && IsDigit(s[0]) then
      var n := 1 + DigitRun(s[1..]);
      assert s[..n] == [s[0]] + s[1..][..n - 1];
      n
    else 0
  }

  /** The digit run at the head of a string is exactly the digits placed
      there when the next character is not a digit. */
  lemma {:induction false} DigitRunOfDigits(d: string, rest: string)
    requires AllDigits(d)
    requires rest == [] || !IsDigit(rest[0])
    ensures DigitRun(d + rest) == |d|
  {
    if |d| > 0 {
      assert (d + rest)[1..] == d[1..] + rest;
      DigitRunOfDigits(d[1..], rest);
    } else {
      assert d + rest == rest;
    }
  }

  /** `str` of a three-digit number. */
  lemma ThreeDigits(n: int, a: nat, b: nat, c: nat)
    requires 0 < a < 10 && b < 10 && c < 10
    requires n == a * 100 + b * 10 + c
    ensures IntToString(n) == [DigitChar(a), DigitChar(b), DigitChar(c)]
  {
    var ab := a * 10 + b;
    assert ab / 10 == a && ab % 10 == b;
    assert n / 10 == ab && n % 10 == c;
    assert NatToString(ab) == [DigitChar(a), DigitChar(b)];
    assert NatToString(n) == NatToString(ab) + [DigitChar(c)];
  }

  /** `str` of a four-digit number. */
  lemma FourDigits(n: int, a: nat, b: nat, c: nat, d: nat)
    requires 0 < a < 10 && b < 10 && c < 10 && d < 10
    requires n == a * 1000 + b * 100 + c * 10 + d
    ensures IntToString(n) == [DigitChar(a), DigitChar(b), DigitChar(c), DigitChar(d)]
  {
    var abc := a * 100 + b * 10 + c;
    ThreeDigits(abc, a, b, c);
    assert n / 10 == abc && n % 10 == d;
    assert NatToString(n) == NatToString(abc) + [DigitChar(d)];
  }
}
