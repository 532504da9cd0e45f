/**
 * `format_timestamp` of the video-processing service: seconds (a Python float,
 * taken here as an exact `real`) rendered as the SubRip clock `HH:MM:SS,mmm`.
 * Python's float `//` and `%` by a positive divisor are floor division and
 * floor modulo; `int()` of a non-negative value is its floor.
 */
module Timestamps {
  import opened Wrappers
  import opened Text

  /** Python's `x % d` for d > 0, exactly: `x - d * (x // d)`. */
  function FloorMod(x: real, d: real): real
    requires d > 0.0
  {
    x - d * (x / d).Floor as real
  }

  datatype Clock = Clock(hours: int, minutes: int, seconds: int, millis: int)

  /** The four integers `format_timestamp` computes before formatting. */
  function ClockOf(t: real): Clock {
    var hours := (t / 3600.0).Floor;
    var minutes := (FloorMod(t, 3600.0) / 60.0).Floor;
    var rem := FloorMod(t, 60.0);
    var millis := (FloorMod(rem, 1.0) * 1000.0).Floor;
    Clock(hours, minutes, rem.Floor, millis)
  }

  /** `f"{hours:02d}:{minutes:02d}:{seconds_int:02d},{milliseconds:03d}"` */
  function Render(c: Clock): string {
    FormatInt(c.hours, 2) + ":" + FormatInt(c.minutes, 2) + ":"
      + FormatInt(c.seconds, 2) + "," + FormatInt(c.millis, 3)
  }

  /** `format_timestamp(seconds)`: every timestamp reads back as the clock it was
      formatted from, since the minutes, seconds and milliseconds take exactly 2, 2
      and 3 digits. */
  function FormatTimestamp(t: real): (r: string)
    ensures ParseTimestamp(r) == Some(ClockOf(t))
  {
    Decompose(t);
    RenderReadsBack(ClockOf(t));
    Render(ClockOf(t))
  }

  /** The instant a clock reading denotes, in seconds. */
  function ClockValue(c: Clock): real {
    (3600 * c.hours + 60 * c.minutes + c.seconds) as real + c.millis as real / 1000.0
  }

  /** The clock reading of a whole number of milliseconds, by integer division. */
  function MillisClock(n: int): Clock {
    Clock(n / 3600000, (n % 3600000) / 60000, (n % 60000) / 1000, n % 1000)
  }

  lemma FloorIs(x: real, k: int)
    requires k as real <= x < k as real + 1.0
    ensures x.Floor == k
  {
  }

  /** The seconds split into whole hours, minutes, seconds and a fraction. */
  lemma {:induction false} Decompose(t: real)
    ensures var c := ClockOf(t);
      var frac := FloorMod(FloorMod(t, 60.0), 1.0);
      && 0 <= c.minutes <= 59 && 0 <= c.seconds <= 59 && 0 <= c.millis <= 999
      && 0.0 <= frac < 1.0
      && t == (3600 * c.hours + 60 * c.minutes + c.seconds) as real + frac
      && c.millis as real <= frac * 1000.0 < c.millis as real + 1.0
  {
    var c := ClockOf(t);
    var h := c.hours;
    var a := FloorMod(t, 3600.0);
    assert a == t - 3600.0 * h as real;
    assert 0.0 <= a < 3600.0;
    var m := c.minutes;
    assert m == (a / 60.0).Floor;
    var b := a - 60.0 * m as real;
    assert 0.0 <= b < 60.0;
    assert 0 <= m <= 59;
    FloorIs(t / 60.0, 60 * h + m);
    var rem := FloorMod(t, 60.0);
    assert rem == b;
    assert c.seconds == rem.Floor;
    FloorIs(rem / 1.0, c.seconds);
    var frac := FloorMod(rem, 1.0);
    assert frac == rem - c.seconds as real;
  }

  /** For t >= 0: minutes and seconds lie in [0, 59], milliseconds in [0, 999], and
      the hours are the whole hours of t; a negative t gives negative hours. */
  lemma TimestampFields(t: real)
    ensures var c := ClockOf(t);
      && 0 <= c.minutes <= 59 && 0 <= c.seconds <= 59 && 0 <= c.millis <= 999
      && c.hours == (t / 3600.0).Floor
      && (c.hours >= 0 <==> t >= 0.0)
  {
    Decompose(t);
  }

  /** The timestamp truncates: the instant it shows is at most t and less than a
      millisecond before it. */
  lemma TimestampTruncates(t: real)
    ensures ClockValue(ClockOf(t)) <= t < ClockValue(ClockOf(t)) + 1.0 / 1000.0
  {
    Decompose(t);
  }

  /** The clock shown for t is the reading of the whole milliseconds below t. */
  lemma ClockIsFlooredMillis(t: real)
    ensures ClockOf(t) == MillisClock((t * 1000.0).Floor)
  {
    var c := ClockOf(t);
    Decompose(t);
    var n := 3600000 * c.hours + 60000 * c.minutes + 1000 * c.seconds + c.millis;
    assert ClockValue(c) * 1000.0 == n as real;
    TimestampTruncates(t);
    FloorIs(t * 1000.0, n);
    MillisOfClock(c);
  }

  /** Integer division recovers a clock reading from its total milliseconds. */
  lemma MillisOfClock(c: Clock)
    requires 0 <= c.minutes <= 59 && 0 <= c.seconds <= 59 && 0 <= c.millis <= 999
    ensures MillisClock(3600000 * c.hours + 60000 * c.minutes + 1000 * c.seconds + c.millis) == c
  {
    var n := 3600000 * c.hours + 60000 * c.minutes + 1000 * c.seconds + c.millis;
    var low := 60000 * c.minutes + 1000 * c.seconds + c.millis;
    var sub := 1000 * c.seconds + c.millis;
    DivModUnique(n, 3600000, c.hours, low);
    DivModUnique(low, 60000, c.minutes, sub);
    DivModUnique(n, 60000, 60 * c.hours + c.minutes, sub);
    DivModUnique(sub, 1000, c.seconds, c.millis);
    DivModUnique(n, 1000, 3600 * c.hours + 60 * c.minutes + c.seconds, c.millis);
  }

  lemma DivModUnique(n: int, d: int, q: int, r: int)
    requires d > 0 && 0 <= r < d && n == q * d + r
    ensures n / d == q && n % d == r
  {
    var q0, r0 := n / d, n % d;
    assert n == q0 * d + r0 && 0 <= r0 < d;
    assert (q - q0) * d == r0 - r;
    if q > q0 {
      MulAtLeast(q - q0, d);
    } else if q < q0 {
      MulAtLeast(q0 - q, d);
    }
  }

  lemma MulAtLeast(k: int, d: int)
    requires k >= 1 && d > 0
    ensures k * d >= d
  {
  }

  /** Reads a non-empty run of decimal digits. */
  function ParseUnsigned(s: string): Option<nat> {
    if s != [] && AllDigits(s) then Some(ParseDecimal(s)) else None
  }

  /** Reads a decimal integer with an optional leading minus sign. */
  function ParseSigned(s: string): Option<int> {
    if s != [] && s[0] == '-' then
      match ParseUnsigned(s[1..])
      case Some(k) => Some(-(k as int))
      case None => None
    else ParseUnsigned(s)
  }

  /** Reads `H..H:MM:SS,mmm` (hours possibly signed) back into its four fields. */
  function ParseTimestamp(s: string): Option<Clock> {
    var n := |s|;
    if n < 12 || s[n - 10] != ':' || s[n - 7] != ':' || s[n - 4] != ',' then None
    else
      match (ParseSigned(s[..n - 10]), ParseSigned(s[n - 9..n - 7]),
             ParseSigned(s[n - 6..n - 4]), ParseSigned(s[n - 3..]))
      case (Some(h), Some(m), Some(sec), Some(ms)) => Some(Clock(h, m, sec, ms))
      case _ => None
  }

  /** Any integer formatted with `{n:0Wd}` (W >= 1) reads back as itself. */
  lemma {:induction false} FormatIntParses(n: int, width: nat)
    requires width >= 1
    ensures ParseSigned(FormatInt(n, width)) == Some(n)
    ensures |FormatInt(n, width)| >= width
  {
    if n >= 0 {
      NonNegativeParses(n, width);
    } else {
      NegativeParses(n, width);
      assert |FormatInt(n, width)| >= width by {
        assert |ZeroPad(DecimalString(-n), width - 1)| >= width - 1;
      }
    }
  }

  lemma {:induction false} NonNegativeParses(n: nat, width: nat)
    requires width >= 1
    ensures ParseSigned(FormatInt(n, width)) == Some(n)
    ensures |FormatInt(n, width)| >= width
  {
    FormatIntReadsBack(n, width);
    DigitsParse(FormatInt(n, width));
  }

  /** A negative n formatted with `{n:0Wd}` is a minus sign before -n padded to
      W - 1 digits. */
  lemma {:induction false} NegativeParses(n: int, width: nat)
    requires n < 0 && width >= 1
    ensures ParseSigned(FormatInt(n, width)) == Some(n)
  {
    var k: nat := -n;
    var p := ZeroPad(DecimalString(k), width - 1);
    ZeroPadReadsBack(k, width - 1);
    MinusParses(p);
    assert FormatInt(n, width) == "-" + p;
  }

  /** A non-empty run of digits reads as its number. */
  lemma DigitsParse(p: string)
    requires p != [] && AllDigits(p)
    ensures ParseSigned(p) == Some(ParseDecimal(p))
  {
    assert IsDigit(p[0]);
    assert ParseUnsigned(p) == Some(ParseDecimal(p));
  }

  /** A minus sign before a non-empty run of digits reads as the negated number. */
  lemma MinusParses(p: string)
    requires p != [] && AllDigits(p)
    ensures ParseSigned("-" + p) == Some(-(ParseDecimal(p) as int))
  {
    var s := "-" + p;
    assert s[1..] == p;
  }

  /** The four fields of a timestamp are found again at fixed distances from its end. */
  lemma SplitFields(hh: string, mm: string, ss: string, ms: string)
    requires |hh| >= 2 && |mm| == 2 && |ss| == 2 && |ms| == 3
    ensures var s := hh + ":" + mm + ":" + ss + "," + ms;
      var n := |s|;
      && n == |hh| + 10 && s[n - 10] == ':' && s[n - 7] == ':' && s[n - 4] == ','
      && s[..n - 10] == hh && s[n - 9..n - 7] == mm && s[n - 6..n - 4] == ss && s[n - 3..] == ms
  {
  }

  lemma {:induction false} RenderReadsBack(c: Clock)
    requires 0 <= c.minutes <= 59 && 0 <= c.seconds <= 59 && 0 <= c.millis <= 999
    ensures ParseTimestamp(Render(c)) == Some(c)
  {
    var hh, mm, ss, ms := FormatInt(c.hours, 2), FormatInt(c.minutes, 2), FormatInt(c.seconds, 2),
                          FormatInt(c.millis, 3);
    assert |hh| >= 2 && ParseSigned(hh) == Some(c.hours) by {
      FormatIntParses(c.hours, 2);
    }
    assert |mm| == 2 && ParseSigned(mm) == Some(c.minutes) by {
      assert Pow10(2) == 100;
      FormatIntWidth(c.minutes, 2);
      FormatIntParses(c.minutes, 2);
    }
    assert |ss| == 2 && ParseSigned(ss) == Some(c.seconds) by {
      assert Pow10(2) == 100;
      FormatIntWidth(c.seconds, 2);
      FormatIntParses(c.seconds, 2);
    }
    assert |ms| == 3 && ParseSigned(ms) == Some(c.millis) by {
      assert Pow10(3) == 1000;
      FormatIntWidth(c.millis, 3);
      FormatIntParses(c.millis, 3);
    }
    FieldsParse(hh, mm, ss, ms, c);
  }

  /** Four fields of the right widths, each reading back as its number, make a
      timestamp that reads back as the clock. */
  lemma {:induction false} FieldsParse(hh: string, mm: string, ss: string, ms: string, c: Clock)
    requires |hh| >= 2 && |mm| == 2 && |ss| == 2 && |ms| == 3
    requires ParseSigned(hh) == Some(c.hours) && ParseSigned(mm) == Some(c.minutes)
    requires ParseSigned(ss) == Some(c.seconds) && ParseSigned(ms) == Some(c.millis)
    ensures ParseTimestamp(hh + ":" + mm + ":" + ss + "," + ms) == Some(c)
  {
    SplitFields(hh, mm, ss, ms);
  }
}
