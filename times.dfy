/**
 * The time conversion of `getProcessedLine`: `LocalTime.parse` of the TIME token and the
 * decimal-hour rendering `String.format(Locale.US, "%08.6f", hour + minute/60. + second/3600.)`.
 */
module Times {
  import opened Results
  import opened Numerals

  /** What `getHour`, `getMinute` and `getSecond` read off a `LocalTime`. */
  datatype TimeOfDay = TimeOfDay(hour: nat, minute: nat, second: nat)

  predicate IsValid(t: TimeOfDay) {
    t.hour < 24 && t.minute < 60 && t.second < 60
  }

  predicate DigitPair(s: string, i: nat) {
    i + 2 <= |s| && IsDigit(s[i]) && IsDigit(s[i + 1])
  }

  function PairValue(s: string, i: nat): nat
    requires DigitPair(s, i)
  {
    (s[i] as int - '0' as int) * 10 + (s[i + 1] as int - '0' as int)
  }

  /** The optional fraction of a second: a point and at most nine digits. */
  predicate IsFraction(f: string) {
    1 <= |f| <= 10 && f[0] == '.' && AllDigits(f[1..])
  }

  /**
   * `LocalTime.parse` with the ISO local-time format: `HH:MM`, `HH:MM:SS` or
   * `HH:MM:SS.f...`, with hour below 24 and minute and second below 60. The fraction is
   * accepted and then ignored, since only `getSecond` is read.
   */
  function ParseTime(s: string): (r: Option<TimeOfDay>)
    ensures r.Some? ==> IsValid(r.value)
  {
    if !(5 <= |s| && DigitPair(s, 0) && s[2] == ':' && DigitPair(s, 3)) then None
    else
      var h := PairValue(s, 0);
      var m := PairValue(s, 3);
      if |s| == 5 then
        if h < 24 && m < 60 then Some(TimeOfDay(h, m, 0)) else None
      else if !(8 <= |s| && s[5] == ':' && DigitPair(s, 6) && (|s| == 8 || IsFraction(s[8..]))) then None
      else
        var sec := PairValue(s, 6);
        if h < 24 && m < 60 && sec < 60 then Some(TimeOfDay(h, m, sec)) else None
  }

  function TwoDigits(n: nat): string
    requires n < 100
  {
    PadDigits(n, 2)
  }

  /** The converter's own `HH:MM:SS` rendering of a time of day. */
  function FormatTime(t: TimeOfDay): string
    requires IsValid(t)
  {
    TwoDigits(t.hour) + ":" + TwoDigits(t.minute) + ":" + TwoDigits(t.second)
  }

  lemma TwoDigitsPair(s: string, i: nat, n: nat)
    requires n < 100 && i + 2 <= |s| && s[i..i + 2] == TwoDigits(n)
    ensures DigitPair(s, i) && PairValue(s, i) == n
  {
    var d := TwoDigits(n);
    assert s[i] == d[0] && s[i + 1] == d[1];
    assert d[..1] == [d[0]];
    assert DigitsValue(d[..1]) == d[0] as int - '0' as int;
  }

  /** Round trip: a valid time written `HH:MM:SS`, with or without a fraction, parses back to itself. */
  lemma ParseFormatTime(t: TimeOfDay, frac: string)
    requires IsValid(t)
    requires frac == "" || IsFraction(frac)
    ensures ParseTime(FormatTime(t) + frac) == Some(t)
  {
    var s := FormatTime(t) + frac;
    TwoDigitsPair(s, 0, t.hour);
    TwoDigitsPair(s, 3, t.minute);
    TwoDigitsPair(s, 6, t.second);
    assert s[8..] == frac;
  }

  /** Round trip for the short form: `HH:MM` parses with second zero. */
  lemma ParseShortTime(hour: nat, minute: nat)
    requires hour < 24 && minute < 60
    ensures ParseTime(TwoDigits(hour) + ":" + TwoDigits(minute)) == Some(TimeOfDay(hour, minute, 0))
  {
    var s := TwoDigits(hour) + ":" + TwoDigits(minute);
    TwoDigitsPair(s, 0, hour);
    TwoDigitsPair(s, 3, minute);
  }

  /** The converse: every accepted token is one of those two shapes, with a valid time. */
  lemma ParsedTimeShape(s: string)
    requires ParseTime(s).Some?
    ensures var t := ParseTime(s).value;
      || (s == TwoDigits(t.hour) + ":" + TwoDigits(t.minute) && t.second == 0)
      || (|s| >= 8 && s[..8] == FormatTime(t) && (|s| == 8 || IsFraction(s[8..])))
  {
    var t := ParseTime(s).value;
    PairDigits(s, 0);
    PairDigits(s, 3);
    if |s| == 5 {
      assert s == s[0..2] + ":" + s[3..5];
    } else {
      PairDigits(s, 6);
      assert s[..8] == s[0..2] + ":" + s[3..5] + ":" + s[6..8];
    }
  }

  lemma PairDigits(s: string, i: nat)
    requires DigitPair(s, i)
    ensures PairValue(s, i) < 100 && s[i..i + 2] == TwoDigits(PairValue(s, i))
  {
    var n := PairValue(s, i);
    var d := TwoDigits(n);
    assert d == PadDigits(n / 10, 1) + [DigitChar(n % 10)];
    assert PadDigits(n / 10, 1) == PadDigits(n / 100, 0) + [DigitChar(n / 10 % 10)];
  }

  function SecondOfDay(t: TimeOfDay): nat {
    3600 * t.hour + 60 * t.minute + t.second
  }

  /**
   * The time in micro-hours, rounded to the nearest: the value `%.6f` prints with its point
   * removed. With a denominator of 3600 the exact value is never halfway between two
   * micro-hours, so the rounding direction never matters.
   */
  function MicroHours(t: TimeOfDay): (u: nat)
    requires IsValid(t)
    ensures -1800 < 1000000 * SecondOfDay(t) - 3600 * u < 1800
    ensures u < 24 * 1000000
    ensures t.hour < 10 <==> u < 10 * 1000000
  {
    HoursBelowTen(t);
    RoundedMicroHours(SecondOfDay(t));
    (5000 * SecondOfDay(t) + 9) / 18
  }

  /** A valid time is before 10:00 exactly when fewer than 36000 seconds of the day have passed. */
  lemma HoursBelowTen(t: TimeOfDay)
    requires IsValid(t)
    ensures SecondOfDay(t) < 86400
    ensures t.hour < 10 <==> SecondOfDay(t) < 36000
  {
    assert 60 * t.minute + t.second < 3600;
  }

  /**
   * Rounding `sec / 3600` hours to micro-hours: `1000000 * sec / 3600` is `5000 * sec / 18`,
   * and adding 9 before the division rounds to the nearest. The numerator is odd, so it
   * is never a multiple of 18 and the error stays strictly inside half a micro-hour.
   */
  lemma RoundedMicroHours(sec: nat)
    requires sec < 86400
    ensures var u := (5000 * sec + 9) / 18;
      && -1800 < 1000000 * sec - 3600 * u < 1800
      && u < 24 * 1000000
      && (sec < 36000 <==> u < 10 * 1000000)
  {
    var n := 5000 * sec + 9;
    var u := n / 18;
    var r := n % 18;
    assert n == 18 * u + r && 0 <= r < 18;
    assert n % 2 == 1 by {
      assert n == 2 * (2500 * sec + 4) + 1;
    }
    assert r % 2 == 1 by {
      assert n == 2 * (9 * u) + r;
    }
    assert 1000000 * sec - 3600 * u == 200 * (r - 9);
    assert n <= 5000 * 86399 + 9;
    if sec < 36000 {
      assert n <= 5000 * 35999 + 9;
    } else {
      assert n >= 5000 * 36000 + 9;
    }
  }

  /**
   * `String.format(Locale.US, "%08.6f", hours)`: integer hours, a point, six digits. The
   * digits around the point read as the micro-hour count, and the text is never shorter
   * than eight characters, so the zero-fill flag never adds anything.
   */
  function DecimalHours(t: TimeOfDay): (s: string)
    requires IsValid(t)
    ensures 8 <= |s| <= 9 && (|s| == 8 <==> t.hour < 10)
    ensures s[|s| - 7] == '.' && AllDigits(s[..|s| - 7]) && AllDigits(s[|s| - 6..])
    ensures DigitsValue(s[..|s| - 7] + s[|s| - 6..]) == MicroHours(t)
  {
    var u := MicroHours(t);
    var whole := NatToString(u / 1000000);
    var frac := PadDigits(u % 1000000, 6);
    var s := whole + "." + frac;
    assert s[..|s| - 7] == whole && s[|s| - 6..] == frac;
    assert Pow10(6) == 1000000;
    DigitsValueAppend(whole, frac);
    assert u / 1000000 < 10 ==> |whole| == 1;
    assert Pow10(2) == 100;
    NatToStringLength(u / 1000000, 2);
    s
  }
}
