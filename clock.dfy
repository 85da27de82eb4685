/**
 * The timer's `HH:MM:SS` text. `Hms` is the reference: whole seconds split
 * into hours (uncapped), minutes and seconds. `TimeText` is what the widget
 * computes from a difference of `Date.now() / 1000` and an integer start, here
 * carried as an exact number of milliseconds, with `Math.floor` and the
 * truncating JavaScript `%` written out.
 */
module Clock {
  import opened Wrappers
  import opened Numerals

  const MsPerSecond := 1000
  const MsPerMinute := 60000
  const MsPerHour := 3600000

  /** One field: `String(v).padStart(2, '0')`. */
  function Field(v: int): string {
    PadStart2(IntString(v))
  }

  /** Reference text for d whole seconds. */
  function Hms(d: nat): string {
    Field(d / 3600) + ":" + Field(d / 60 % 60) + ":" + Field(d % 60)
  }

  /** Integer division rounding toward zero, as `a / b` followed by truncation in JavaScript. */
  function Trunc(a: int, b: int): (q: int)
    requires b > 0
    ensures a >= 0 ==> 0 <= a - b * q < b
    ensures a < 0 ==> -b < a - b * q <= 0
  {
    if a >= 0 then a / b else -((-a) / b)
  }

  /**
   * The three fields for a difference of ms milliseconds (timeLeft = ms / 1000):
   * `Math.floor(timeLeft / 3600)`, `Math.floor((timeLeft / 60) % 60)` and
   * `Math.floor(timeLeft % 60)`, where `x % m` is `x - m * trunc(x / m)`.
   * Dafny's `/` by a positive divisor is the floor.
   */
  function TimeText(ms: int): string {
    var hours := ms / MsPerHour;
    var minutes := (ms - MsPerHour * Trunc(ms, MsPerHour)) / MsPerMinute;
    var seconds := (ms - MsPerMinute * Trunc(ms, MsPerMinute)) / MsPerSecond;
    Field(hours) + ":" + Field(minutes) + ":" + Field(seconds)
  }

  // ---- arithmetic on Euclidean division ----

  lemma MulGap(m: int, x: int, y: int)
    requires m > 0 && x > y
    ensures m * x >= m * y + m
  {
    var k := x - y;
    assert m * x == m * y + m * k;
    MulNonNegative(m, k - 1);
    assert m * k == m + m * (k - 1);
  }

  lemma {:induction false} MulNonNegative(m: int, j: int)
    requires m > 0 && j >= 0
    ensures m * j >= 0
  {
    if j > 0 {
      MulNonNegative(m, j - 1);
      assert m * j == m * (j - 1) + m;
    }
  }

  lemma DivModUnique(a: int, m: int, q: int, r: int)
    requires m > 0 && 0 <= r < m && a == m * q + r
    ensures a / m == q && a % m == r
  {
    var q0, r0 := a / m, a % m;
    assert a == m * q0 + r0;
    if q0 > q {
      MulGap(m, q0, q);
      assert false;
    } else if q0 < q {
      MulGap(m, q, q0);
      assert false;
    }
  }

  lemma MulMonotone(b: int, x: int, y: int)
    requires b > 0 && x <= y
    ensures b * x <= b * y
  {
    MulNonNegative(b, y - x);
    assert b * y == b * x + b * (y - x);
  }

  /** Flooring twice is flooring by the product. */
  lemma DivDiv(a: int, b: int, c: int)
    requires b > 0 && c > 0
    ensures a / b / c == a / (b * c)
  {
    var q, r := a / b, a % b;
    var q2, r2 := q / c, q % c;
    assert a == b * q + r;
    assert q == c * q2 + r2;
    assert b * q == (b * c) * q2 + b * r2 by {
      assert b * q == b * (c * q2) + b * r2;
      assert b * (c * q2) == (b * c) * q2;
    }
    MulNonNegative(b, r2);
    MulMonotone(b, r2, c - 1);
    assert b * (c - 1) + b == b * c;
    DivModUnique(a, b * c, q2, b * r2 + r);
  }

  /** The part of a below one b*c, counted in b's, is a's count of b's modulo c. */
  lemma ModDiv(a: int, b: int, c: int)
    requires b > 0 && c > 0
    ensures (a % (b * c)) / b == (a / b) % c
  {
    var Q, R := a / (b * c), a % (b * c);
    var S, T := R / b, R % b;
    assert a == (b * c) * Q + R;
    assert R == b * S + T;
    assert 0 <= S < c;
    assert a == b * (c * Q + S) + T by {
      assert (b * c) * Q == b * (c * Q);
    }
    DivModUnique(a, b, c * Q + S, T);
    DivModUnique(c * Q + S, c, Q, S);
  }

  /** The three JavaScript fields of a non-negative difference, in whole seconds. */
  lemma WholeSecondFields(ms: int)
    requires ms >= 0
    ensures ms / MsPerHour == ms / 1000 / 3600
    ensures (ms - MsPerHour * Trunc(ms, MsPerHour)) / MsPerMinute == ms / 1000 / 60 % 60
    ensures (ms - MsPerMinute * Trunc(ms, MsPerMinute)) / MsPerSecond == ms / 1000 % 60
  {
    DivDiv(ms, 1000, 3600);
    DivDiv(ms, 1000, 60);
    assert ms - MsPerHour * Trunc(ms, MsPerHour) == ms % (60000 * 60);
    ModDiv(ms, 60000, 60);
    assert ms - MsPerMinute * Trunc(ms, MsPerMinute) == ms % (1000 * 60);
    ModDiv(ms, 1000, 60);
  }

  /** For a non-negative difference the exact float computation agrees with the whole-second reference. */
  lemma TimeTextWholeSeconds(ms: int)
    requires ms >= 0
    ensures TimeText(ms) == Hms(ms / 1000)
  {
    WholeSecondFields(ms);
  }

  /** A difference half a second in the future shows every field as -1. */
  lemma TimeTextHalfSecondEarly()
    ensures TimeText(-500) == "-1:-1:-1"
  {
    HalfSecondEarlyFields();
    assert Field(-1) == "-1" by {
      assert Digits(1) == "1";
    }
  }

  /** The three field values of -500 ms. */
  lemma HalfSecondEarlyFields()
    ensures -500 / MsPerHour == -1
    ensures (-500 - MsPerHour * Trunc(-500, MsPerHour)) / MsPerMinute == -1
    ensures (-500 - MsPerMinute * Trunc(-500, MsPerMinute)) / MsPerSecond == -1
  {
    assert Trunc(-500, MsPerHour) == 0 by { assert 500 / MsPerHour == 0; }
    assert Trunc(-500, MsPerMinute) == 0 by { assert 500 / MsPerMinute == 0; }
  }

  // ---- the three fields of the text ----

  function HoursPart(s: string): string requires |s| >= 6 { s[..|s| - 6] }
  function MinutesPart(s: string): string requires |s| >= 5 { s[|s| - 5..|s| - 3] }
  function SecondsPart(s: string): string requires |s| >= 2 { s[|s| - 2..] }

  lemma DigitsBelow100(v: nat)
    requires v < 100
    ensures |Digits(v)| <= 2
  {
    if v >= 10 {
      assert v / 10 < 10;
    }
  }

  /** Reads an `hh:mm:ss` text back into seconds; None when it is not of that shape. */
  function ParseHms(s: string): Option<nat> {
    if |s| >= 8 && s[|s| - 6] == ':' && s[|s| - 3] == ':'
      && AllDigitsIn(HoursPart(s), 10) && AllDigitsIn(MinutesPart(s), 10)
      && AllDigitsIn(SecondsPart(s), 10)
    then Some(ValueIn(HoursPart(s), 10) * 3600 + ValueIn(MinutesPart(s), 10) * 60
              + ValueIn(SecondsPart(s), 10))
    else None
  }

  /** Hours, minutes and seconds add back up to d. */
  lemma HmsArith(d: nat)
    ensures d / 3600 * 3600 + d / 60 % 60 * 60 + d % 60 == d
  {
    DivDiv(d, 60, 60);
    assert d == 60 * (d / 60) + d % 60;
    assert d / 60 == 60 * (d / 60 / 60) + d / 60 % 60;
  }

  /** Where the parts of `h:m:x` sit when m and x have two characters. */
  lemma PartsOfJoined(h: string, m: string, x: string)
    requires |m| == 2 && |x| == 2
    ensures var s := h + ":" + m + ":" + x;
      |s| >= 6 && s[|s| - 6] == ':' && s[|s| - 3] == ':'
      && HoursPart(s) == h && MinutesPart(s) == m && SecondsPart(s) == x
  {
    var s := h + ":" + m + ":" + x;
    assert s[..|s| - 6] == h;
    assert s[|s| - 5..|s| - 3] == m;
    assert s[|s| - 2..] == x;
  }

  /** Hms is the three padded fields, and the separators sit where ParseHms looks for them. */
  lemma HmsLayout(d: nat)
    ensures var s := Hms(d);
      |s| >= 8 && s[|s| - 6] == ':' && s[|s| - 3] == ':'
      && HoursPart(s) == Field(d / 3600)
      && MinutesPart(s) == Field(d / 60 % 60)
      && SecondsPart(s) == Field(d % 60)
  {
    var h, m, x := Field(d / 3600), Field(d / 60 % 60), Field(d % 60);
    DigitsBelow100(d / 60 % 60);
    DigitsBelow100(d % 60);
    PartsOfJoined(h, m, x);
  }

  /** The shape promised by the widget: hours padded but never cut, minutes and seconds two digits below 60. */
  lemma HmsFields(d: nat)
    ensures var s := Hms(d);
      |s| >= 8 && s[|s| - 6] == ':' && s[|s| - 3] == ':'
      && |HoursPart(s)| == (if d / 3600 < 10 then 2 else |Digits(d / 3600)|)
      && AllDigitsIn(HoursPart(s), 10) && AllDigitsIn(MinutesPart(s), 10)
      && AllDigitsIn(SecondsPart(s), 10)
      && ValueIn(HoursPart(s), 10) == d / 3600
      && ValueIn(MinutesPart(s), 10) == d / 60 % 60 < 60
      && ValueIn(SecondsPart(s), 10) == d % 60 < 60
      && ValueIn(HoursPart(s), 10) * 3600 + ValueIn(MinutesPart(s), 10) * 60
         + ValueIn(SecondsPart(s), 10) == d
  {
    HmsLayout(d);
    ValueOfPadded(d / 3600);
    ValueOfPadded(d / 60 % 60);
    ValueOfPadded(d % 60);
    HmsArith(d);
  }

  /** Reading the text back gives the number of seconds: Hms loses nothing and is one-to-one. */
  lemma HmsRoundTrip(d: nat)
    ensures ParseHms(Hms(d)) == Some(d)
  {
    HmsFields(d);
    ParseHmsOfFields(Hms(d), d);
  }

  lemma ParseHmsOfFields(s: string, d: nat)
    requires |s| >= 8 && s[|s| - 6] == ':' && s[|s| - 3] == ':'
    requires AllDigitsIn(HoursPart(s), 10) && AllDigitsIn(MinutesPart(s), 10)
    requires AllDigitsIn(SecondsPart(s), 10)
    requires ValueIn(HoursPart(s), 10) * 3600 + ValueIn(MinutesPart(s), 10) * 60
             + ValueIn(SecondsPart(s), 10) == d
    ensures ParseHms(s) == Some(d)
  {
  }
}
