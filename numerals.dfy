/**
 * Numerals as JavaScript writes and reads them: `String(n)` for an integer,
 * `padStart(2, '0')`, and the value of a run of digits in a radix.
 */
module Numerals {
  import opened Wrappers

  /** The value 0..35 of an ASCII letter or digit, as ECMAScript's parseInt reads digits. */
  function DigitOf(c: char): (d: Option<nat>)
    ensures d.Some? ==> d.value < 36
    ensures ('0' <= c <= '9') ==> d == Some((c as int) - ('0' as int))
  {
    if '0' <= c <= '9' then Some((c as int) - ('0' as int))
    else if 'a' <= c <= 'z' then Some((c as int) - ('a' as int) + 10)
    else if 'A' <= c <= 'Z' then Some((c as int) - ('A' as int) + 10)
    else None
  }

  predicate IsDigitIn(c: char, radix: nat) {
    DigitOf(c).Some? && DigitOf(c).value < radix
  }

  predicate AllDigitsIn(s: string, radix: nat) {
    forall i :: 0 <= i < |s| ==> IsDigitIn(s[i], radix)
  }

  /** The value of a digit string, most significant digit first. */
  function ValueIn(s: string, radix: nat): nat
    requires AllDigitsIn(s, radix)
  {
    if s == [] then 0
    else ValueIn(s[..|s| - 1], radix) * radix + DigitOf(s[|s| - 1]).value
  }

  /** The decimal digit for d. */
  function DigitChar(d: nat): (c: char)
    requires d < 10
    ensures DigitOf(c) == Some(d)
  {
    (('0' as int) + d) as char
  }

  /** `String(n)` for a non-negative integer: decimal, no leading zero. */
  function Digits(n: nat): (s: string)
    ensures |s| >= 1 && AllDigitsIn(s, 10)
    ensures |s| > 1 ==> s[0] != '0'
    ensures n < 10 <==> |s| == 1
  {
    if n < 10 then [DigitChar(n)] else Digits(n / 10) + [DigitChar(n % 10)]
  }

  /** `String(k)` for any integer: a minus sign before the digits of |k|. */
  function IntString(k: int): (s: string)
    ensures |s| >= 1
    ensures k < 0 <==> s[0] == '-'
  {
    if k < 0 then "-" + Digits(-k) else Digits(k)
  }

  /** `s.padStart(2, '0')`: zeros in front of s until it has at least two characters. */
  function PadStart2(s: string): (r: string)
    ensures |r| == if |s| >= 2 then |s| else 2
    ensures r[|r| - |s|..] == s
    ensures forall i :: 0 <= i < |r| - |s| ==> r[i] == '0'
  {
    if |s| >= 2 then s else if |s| == 1 then "0" + s else "00"
  }

  lemma {:induction false} ValueOfDigits(n: nat)
    ensures ValueIn(Digits(n), 10) == n
  {
    if n >= 10 {
      var s := Digits(n);
      assert s[..|s| - 1] == Digits(n / 10);
      ValueOfDigits(n / 10);
    }
  }

  /** Leading zeros do not change the value of a numeral. */
  lemma {:induction false} ValueOfZeroPrefixed(s: string, radix: nat)
    requires radix > 0 && AllDigitsIn(s, radix)
    ensures AllDigitsIn("0" + s, radix) && ValueIn("0" + s, radix) == ValueIn(s, radix)
  {
    assert DigitOf('0') == Some(0);
    if s != [] {
      var z := "0" + s;
      assert z[..|z| - 1] == "0" + s[..|s| - 1];
      ValueOfZeroPrefixed(s[..|s| - 1], radix);
    }
  }

  /** A numeral padded to two characters still has the value of the number. */
  lemma ValueOfPadded(n: nat)
    ensures AllDigitsIn(PadStart2(Digits(n)), 10)
    ensures ValueIn(PadStart2(Digits(n)), 10) == n
  {
    ValueOfDigits(n);
    var s := Digits(n);
    if |s| == 1 {
      ValueOfZeroPrefixed(s, 10);
    }
  }
}
