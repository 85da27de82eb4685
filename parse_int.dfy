/**
 * ECMAScript's global `parseInt(string)` without a radix argument (section
 * 19.2.5 of ECMA-262): leading white space is skipped, one sign is read, a
 * `0x`/`0X` prefix selects radix 16, and the longest run of digits that follows
 * is the value; no digit at all gives NaN, here None.
 */
module IntParsing {
  import opened Wrappers
  import opened Numerals

  /** StrWhiteSpaceChar: WhiteSpace (TAB, VT, FF, ZWNBSP and every Zs space) or LineTerminator. */
  predicate IsStrWhiteSpace(c: char) {
    var u := c as int;
    u == 0x09 || u == 0x0A || u == 0x0B || u == 0x0C || u == 0x0D || u == 0x20
    || u == 0xA0 || u == 0x1680 || (0x2000 <= u <= 0x200A) || u == 0x2028 || u == 0x2029
    || u == 0x202F || u == 0x205F || u == 0x3000 || u == 0xFEFF
  }

  /** The string without its leading white space. */
  function TrimStart(s: string): (r: string)
    ensures r != [] ==> !IsStrWhiteSpace(r[0])
  {
    if s != [] && IsStrWhiteSpace(s[0]) then TrimStart(s[1..]) else s
  }

  /** The number of digits of the radix at the front of s. */
  function DigitRun(s: string, radix: nat): (n: nat)
    ensures n <= |s| && AllDigitsIn(s[..n], radix)
    ensures n < |s| ==> !IsDigitIn(s[n], radix)
  {
    if s != [] && IsDigitIn(s[0], radix) then 1 + DigitRun(s[1..], radix) else 0
  }

  /** What follows the sign: an optional `0x`/`0X` prefix and the digits of the radix it selects. */
  function ParseUnsigned(s: string): Option<nat> {
    var hex := |s| >= 2 && s[0] == '0' && (s[1] == 'x' || s[1] == 'X');
    var radix := if hex then 16 else 10;
    var digits := if hex then s[2..] else s;
    var n := DigitRun(digits, radix);
    if n == 0 then None else Some(ValueIn(digits[..n], radix))
  }

  function Signed(sign: int, u: Option<nat>): Option<int> {
    if u.None? then None else Some(sign * u.value)
  }

  function ParseInt(text: string): Option<int> {
    var s := TrimStart(text);
    if s != [] && s[0] == '-' then Signed(-1, ParseUnsigned(s[1..]))
    else if s != [] && s[0] == '+' then Signed(1, ParseUnsigned(s[1..]))
    else Signed(1, ParseUnsigned(s))
  }

  lemma {:induction false} TrimStartOfPadded(ws: string, s: string)
    requires forall i :: 0 <= i < |ws| ==> IsStrWhiteSpace(ws[i])
    requires s != [] ==> !IsStrWhiteSpace(s[0])
    ensures TrimStart(ws + s) == s
  {
    if ws != [] {
      assert (ws + s)[1..] == ws[1..] + s;
      TrimStartOfPadded(ws[1..], s);
    }
  }

  lemma {:induction false} DigitRunOfNumeral(d: string, rest: string, radix: nat)
    requires AllDigitsIn(d, radix)
    requires rest == [] || !IsDigitIn(rest[0], radix)
    ensures DigitRun(d + rest, radix) == |d|
  {
    if d != [] {
      assert (d + rest)[1..] == d[1..] + rest;
      DigitRunOfNumeral(d[1..], rest, radix);
    }
  }

  lemma ParseUnsignedOfDigits(m: nat, rest: string)
    requires rest == [] || DigitOf(rest[0]).None?
    ensures ParseUnsigned(Digits(m) + rest) == Some(m)
  {
    var d := Digits(m);
    var s := d + rest;
    assert |s| >= 2 && s[0] == '0' ==> |d| == 1 && s[1] == rest[0];
    DigitRunOfNumeral(d, rest, 10);
    assert s[..|d|] == d;
    ValueOfDigits(m);
  }

  /**
   * A numeral written by `String(n)`, with any white space before it and
   * anything after it that is not a letter or digit (a line break, say),
   * parses back to n.
   */
  lemma ParseIntOfNumeral(ws: string, n: int, rest: string)
    requires forall i :: 0 <= i < |ws| ==> IsStrWhiteSpace(ws[i])
    requires rest == [] || DigitOf(rest[0]).None?
    ensures ParseInt(ws + IntString(n) + rest) == Some(n)
  {
    var t := IntString(n) + rest;
    assert ws + IntString(n) + rest == ws + t;
    IntStringStartsWithSignOrDigit(n);
    assert t[0] == IntString(n)[0];
    TrimStartOfPadded(ws, t);
    ParseIntOfIntString(n, rest);
  }

  /** A sign or a decimal digit is not white space. */
  lemma SignOrDigitIsNotSpace(c: char)
    requires c == '-' || '0' <= c <= '9'
    ensures !IsStrWhiteSpace(c)
  {
  }

  /** How ParseInt reads a text that starts with a sign or a digit. */
  lemma ParseIntOfSigned(s: string)
    requires s != [] && (s[0] == '-' || '0' <= s[0] <= '9')
    ensures ParseInt(s) == if s[0] == '-' then Signed(-1, ParseUnsigned(s[1..])) else Signed(1, ParseUnsigned(s))
  {
    SignOrDigitIsNotSpace(s[0]);
    assert TrimStart(s) == s;
  }

  lemma ParseIntOfNegative(m: nat, rest: string)
    requires m > 0
    requires rest == [] || DigitOf(rest[0]).None?
    ensures ParseInt("-" + Digits(m) + rest) == Some(-(m as int))
  {
    var t := "-" + Digits(m) + rest;
    assert t[1..] == Digits(m) + rest;
    ParseUnsignedOfDigits(m, rest);
    ParseIntOfSigned(t);
  }

  lemma ParseIntOfNonNegative(m: nat, rest: string)
    requires rest == [] || DigitOf(rest[0]).None?
    ensures ParseInt(Digits(m) + rest) == Some(m)
  {
    var t := Digits(m) + rest;
    assert '0' <= t[0] <= '9';
    ParseUnsignedOfDigits(m, rest);
    ParseIntOfSigned(t);
  }

  lemma ParseIntOfIntString(n: int, rest: string)
    requires rest == [] || DigitOf(rest[0]).None?
    ensures ParseInt(IntString(n) + rest) == Some(n)
  {
    if n < 0 {
      assert IntString(n) == "-" + Digits(-n);
      assert IntString(n) + rest == "-" + Digits(-n) + rest;
      ParseIntOfNegative(-n, rest);
    } else {
      assert IntString(n) == Digits(n);
      ParseIntOfNonNegative(n, rest);
    }
  }

  /** `String(n)` starts with a minus sign or a digit, never with white space. */
  lemma IntStringStartsWithSignOrDigit(n: int)
    ensures !IsStrWhiteSpace(IntString(n)[0])
  {
    var c := IntString(n)[0];
    if n >= 0 {
      assert c == Digits(n)[0];
      assert IsDigitIn(c, 10);
      assert '0' <= c <= '9';
    }
    SignOrDigitIsNotSpace(c);
  }

  /** A body that does not start with a number is NaN. */
  lemma ParseIntOfLetters()
    ensures ParseInt("abc") == None
    ensures ParseInt("") == None
  {
    assert TrimStart("abc") == "abc";
    assert DigitOf('a') == Some(10);
    assert DigitRun("abc", 10) == 0;
  }

  /** A `0x` numeral is read in radix 16. */
  lemma ParseIntOfHex()
    ensures ParseInt(" 0x1A") == Some(26)
  {
    assert TrimStart("0x1A") == "0x1A";
    assert TrimStart(" 0x1A") == "0x1A";
    var h := "0x1A"[2..];
    assert h == "1A";
    assert DigitOf('1') == Some(1) && DigitOf('A') == Some(10);
    assert DigitRun("A", 16) == 1;
    assert DigitRun(h, 16) == 2;
    assert h[..2] == "1A" && "1A"[..1] == "1";
    assert ValueIn("1A", 16) == 26;
  }
}
