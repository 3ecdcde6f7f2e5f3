/**
 * Python's `int(text)` on base-10 text and `str(n)` on integers, as far as the
 * descriptor counter needs them.
 */
module PyInt {
  import opened Wrappers
  import opened Strings

  predicate IsDigit(c: char)
  {
    '0' <= c <= '9'
  }

  predicate AllDigits(s: string)
  {
    forall i :: 0 <= i < |s| ==> IsDigit(s[i])
  }

  /** The value of a run of decimal digits (leading zeros allowed). */
  function DigitsValue(s: string): nat
    requires AllDigits(s)
    decreases |s|
  {
    if s == [] then 0
    else DigitsValue(s[..|s| - 1]) * 10 + (s[|s| - 1] as int - '0' as int)
  }

  /**
   * `int(text)`: surrounding white space is ignored, one optional sign, then
   * one or more decimal digits; anything else raises ValueError (None here).
   */
  function ParseInt(text: string): Option<int>
  {
    ParseSigned(Strip(text))
  }

  /** `int` on text already stripped of white space. */
  function ParseSigned(t: string): Option<int>
  {
    var digits := if |t| > 0 && (t[0] == '-' || t[0] == '+') then t[1..] else t;
    if |digits| == 0 || !AllDigits(digits) then None
    else
      var v: int := DigitsValue(digits);
      Some(if t[0] == '-' then -v else v)
  }

  /** The decimal digits of `n`, without leading zeros. */
  function NatDigits(n: nat): (r: string)
    ensures |r| > 0 && AllDigits(r)
    ensures r[0] == '0' ==> n == 0
    decreases n
  {
    if n < 10 then [('0' as int + n) as char]
    else NatDigits(n / 10) + [('0' as int + n % 10) as char]
  }

  /** `str(n)`. */
  function IntToString(n: int): string
  {
    if n < 0 then "-" + NatDigits(-n) else NatDigits(n)
  }

  /** Reading back the digits of `n` gives `n`. */
  lemma {:induction false} DigitsValueOfNatDigits(n: nat)
    ensures DigitsValue(NatDigits(n)) == n
    decreases n
  {
    if n >= 10 {
      var s := NatDigits(n);
      DigitsValueOfNatDigits(n / 10);
      assert s[..|s| - 1] == NatDigits(n / 10);
    }
  }

  /** Text that neither starts nor ends with white space is its own `strip()`. */
  lemma StripUnpadded(s: string)
    requires s != [] && !IsSpace(s[0]) && !IsSpace(s[|s| - 1])
    ensures Strip(s) == s
  {
    assert TrimLeft(s) == s;
  }

  /** `int(str(n)) == n` for every integer `n`. */
  lemma ParseIntOfIntToString(n: int)
    ensures ParseInt(IntToString(n)) == Some(n)
  {
    var s := IntToString(n);
    if n < 0 {
      DigitsValueOfNatDigits(-n);
      assert s[1..] == NatDigits(-n);
      assert DigitsValue(s[1..]) == -n;
      ParseIntOfNegated(s);
    } else {
      DigitsValueOfNatDigits(n);
      assert s == NatDigits(n);
      ParseIntOfDigits(s);
    }
  }

  /** Digits and the minus sign are not white space. */
  lemma SignOrDigitNotSpace(c: char)
    requires IsDigit(c) || c == '-'
    ensures !IsSpace(c)
  {
  }

  /** `int(d) == DigitsValue(d)` for a non-empty run of digits. */
  lemma ParseIntOfDigits(d: string)
    requires |d| > 0 && AllDigits(d)
    ensures ParseInt(d) == Some(DigitsValue(d))
  {
    SignOrDigitNotSpace(d[0]);
    SignOrDigitNotSpace(d[|d| - 1]);
    StripUnpadded(d);
  }

  /** `int(s) == -DigitsValue(s[1..])` for a minus sign followed by a non-empty run of digits. */
  lemma ParseIntOfNegated(s: string)
    requires |s| > 1 && s[0] == '-' && AllDigits(s[1..])
    ensures ParseInt(s) == Some(-(DigitsValue(s[1..]) as int))
  {
    assert IsDigit(s[1..][|s| - 2]);
    SignOrDigitNotSpace(s[0]);
    SignOrDigitNotSpace(s[|s| - 1]);
    StripUnpadded(s);
  }

  /** `str(n)` is made of digits and an optional minus sign only. */
  lemma IntToStringCharacters(n: int)
    ensures forall i :: 0 <= i < |IntToString(n)| ==> IntToString(n)[i] == '-' || IsDigit(IntToString(n)[i])
  {
  }
}
