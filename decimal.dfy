/**
 * Decimal notation of non-negative integers, as Python's `str()` writes an
 * `int`, together with its inverse. The client id embeds random numbers in
 * this notation.
 */
module Decimal {

  predicate IsDigit(c: char) {
    '0' <= c <= '9'
  }

  predicate AllDigits(s: string) {
    forall i :: 0 <= i < |s| ==> IsDigit(s[i])
  }

  function DigitChar(d: nat): (c: char)
    requires d < 10
    ensures IsDigit(c) && c as int - '0' as int == d
  {
    ('0' as int + d) as char
  }

  function DigitValue(c: char): (d: nat)
    requires IsDigit(c)
    ensures d < 10 && DigitChar(d) == c
  {
    c as int - '0' as int
  }

  /** `str(n)`: the shortest decimal notation of `n`, without leading zeros. */
  function NatToString(n: nat): (s: string)
    ensures |s| > 0 && AllDigits(s)
    ensures s[0] == '0' <==> n == 0
    ensures n == 0 ==> s == "0"
  {
    if n < 10 then [DigitChar(n)] else NatToString(n / 10) + [DigitChar(n % 10)]
  }

  /** The number a string of decimal digits denotes (`int(s)`; 0 for ""). */
  function ParseNat(s: string): nat
    requires AllDigits(s)
  {
    if s == [] then 0 else 10 * ParseNat(s[..|s| - 1]) + DigitValue(s[|s| - 1])
  }

  /** Reading back what `NatToString` writes gives the number again. */
  lemma {:induction false} ParseNatToString(n: nat)
    ensures ParseNat(NatToString(n)) == n
  {
    var s := NatToString(n);
    if n >= 10 {
      assert s[..|s| - 1] == NatToString(n / 10);
      ParseNatToString(n / 10);
    }
  }

  /** A digit string that does not start with 0 denotes a positive number. */
  lemma {:induction false} ParsePositive(s: string)
    requires AllDigits(s) && |s| > 0 && s[0] != '0'
    ensures ParseNat(s) > 0
  {
    if |s| > 1 {
      ParsePositive(s[..|s| - 1]);
    }
  }

  /** Every canonical digit string is what `NatToString` writes for its value. */
  lemma {:induction false} NatToStringParse(s: string)
    requires AllDigits(s) && |s| > 0
    requires s[0] == '0' ==> |s| == 1
    ensures NatToString(ParseNat(s)) == s
  {
    var last := s[|s| - 1];
    if |s| == 1 {
      assert s == [last];
    } else {
      var init := s[..|s| - 1];
      ParsePositive(init);
      NatToStringParse(init);
      var n := ParseNat(s);
      assert n == 10 * ParseNat(init) + DigitValue(last);
      assert n / 10 == ParseNat(init) && n % 10 == DigitValue(last);
      assert s == init + [last];
    }
  }

  /** The longest suffix of `s` made of decimal digits. */
  function TrailingDigits(s: string): (t: string)
    ensures |t| <= |s| && t == s[|s| - |t|..]
    ensures AllDigits(t)
    ensures |t| < |s| ==> !IsDigit(s[|s| - |t| - 1])
  {
    if |s| > 0 && IsDigit(s[|s| - 1]) then TrailingDigits(s[..|s| - 1]) + [s[|s| - 1]] else []
  }

  /** Digits written after a non-digit are exactly the trailing digits. */
  lemma TrailingDigitsAfter(p: string, d: string)
    requires |p| > 0 && !IsDigit(p[|p| - 1])
    requires AllDigits(d)
    ensures TrailingDigits(p + d) == d
  {
    var s := p + d;
    assert s[|s| - |d|..] == d;
  }
}
