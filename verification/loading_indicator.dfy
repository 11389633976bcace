/**
 * The elapsed-time clock shown while a video is being generated:
 * `formatTime` renders a number of seconds as `MM:SS`.
 */
module LoadingIndicator {

  import opened Base
  import opened Strings

  /**
   * JavaScript's `%` on integers: the remainder takes the sign of the
   * dividend and is smaller than the divisor in magnitude; for a
   * non-negative dividend it is the mathematical remainder.
   */
  function JsRemainder(a: int, b: int): (r: int)
    requires b > 0
    ensures -b < r < b
    ensures a >= 0 ==> r == a % b
    ensures a < 0 ==> r <= 0 && (-r) == (-a) % b
  {
    if a >= 0 then a % b else -((-a) % b)
  }

  /** `padStart(2, '0')`. */
  function Pad2(s: string): string
  {
    PadStart(s, 2, '0')
  }

  /**
   * `formatTime(totalSeconds)`: whole minutes (`Math.floor(t / 60)`, which for
   * a positive divisor is Dafny's `/`) and the JavaScript remainder modulo 60,
   * each converted with `toString` and padded to two characters.
   */
  function FormatTime(totalSeconds: int): (r: string)
    ensures |r| >= 5
    ensures totalSeconds >= 0 ==>
      r == Pad2(DecimalString(totalSeconds / 60)) + ":" + Pad2(DecimalString(totalSeconds % 60))
  {
    var minutes := Pad2(NumberToString(totalSeconds / 60));
    var seconds := Pad2(NumberToString(JsRemainder(totalSeconds, 60)));
    minutes + ":" + seconds
  }

  /** Reads a `minutes:SS` clock back as a number of seconds: the last two characters are the seconds, after a ':'. */
  function ParseClock(s: string): Option<int>
  {
    if |s| < 3 || s[|s| - 3] != ':' then None
    else ClockValue(s[..|s| - 3], s[|s| - 2..])
  }

  /** The seconds denoted by a minutes field and a two-digit seconds field. */
  function ClockValue(minutes: string, seconds: string): Option<int>
  {
    if minutes != [] && |seconds| == 2 && IsDigits(minutes) && IsDigits(seconds)
    then Some(ParseDecimal(minutes) * 60 + ParseDecimal(seconds))
    else None
  }

  /** A padded decimal field is all digits and keeps the value of the number. */
  lemma PaddedDecimal(n: nat)
    ensures IsDigits(Pad2(DecimalString(n)))
    ensures ParseDecimal(Pad2(DecimalString(n))) == n
  {
    var d := DecimalString(n);
    var p := Pad2(d);
    ParseDecimalString(n);
    var z := p[..|p| - |d|];
    assert p == z + d;
    assert forall i :: 0 <= i < |z| ==> z[i] == '0';
    ParseDecimalLeadingZeros(z, d);
  }

  /** A two-digit field worth less than 60 starts with a digit from 0 to 5. */
  lemma TwoDigitBelowSixty(f: string)
    requires |f| == 2 && IsDigits(f) && ParseDecimal(f) < 60
    ensures '0' <= f[0] <= '5'
  {
    assert f[..1][..0] == [];
    assert f[..1] == [f[0]];
    assert ParseDecimal(f) == DigitValue(f[0]) * 10 + DigitValue(f[1]);
  }

  /**
   * For a non-negative time the seconds field is the last two characters,
   * two digits worth `t % 60` (so from 00 to 59), preceded by ':' and at
   * least two minute digits.
   */
  lemma SecondsField(t: int)
    requires t >= 0
    ensures var r := FormatTime(t);
      |r| >= 5 && r[|r| - 3] == ':' && IsDigits(r[..|r| - 3]) && IsDigits(r[|r| - 2..])
      && ParseDecimal(r[|r| - 2..]) == t % 60 && '0' <= r[|r| - 2] <= '5'
  {
    ClockShape(FormatTime(t), t / 60, t % 60);
  }

  lemma ClockShape(r: string, minutes: nat, seconds: nat)
    requires seconds < 60 && r == Pad2(DecimalString(minutes)) + ":" + Pad2(DecimalString(seconds))
    ensures |r| >= 5 && r[|r| - 3] == ':' && IsDigits(r[..|r| - 3]) && IsDigits(r[|r| - 2..])
      && ParseDecimal(r[|r| - 2..]) == seconds && '0' <= r[|r| - 2] <= '5'
  {
    var m := Pad2(DecimalString(minutes));
    var sec := Pad2(DecimalString(seconds));
    PaddedLength(minutes);
    PaddedLength(seconds);
    PaddedDecimal(minutes);
    PaddedDecimal(seconds);
    TwoDigitBelowSixty(sec);
    SecondsAtEnd(m, sec);
  }

  lemma SecondsAtEnd(m: string, sec: string)
    requires |m| >= 2 && |sec| == 2
    ensures var r := m + ":" + sec;
      |r| >= 5 && r[|r| - 3] == ':' && r[..|r| - 3] == m && r[|r| - 2..] == sec && r[|r| - 2] == sec[0]
  {
    var r := m + ":" + sec;
    assert r[..|r| - 3] == m;
    assert r[|r| - 2..] == sec;
  }

  /** A clock whose fields are a padded minute count and a two-digit second count reads back as their total. */
  lemma ClockReadsBack(m: string, sec: string)
    requires IsDigits(m) && |m| >= 2 && IsDigits(sec) && |sec| == 2
    ensures ParseClock(m + ":" + sec) == Some(ParseDecimal(m) * 60 + ParseDecimal(sec))
  {
    ClockSplits(m, sec);
    ClockFieldsValue(m, sec);
  }

  lemma ClockFieldsValue(m: string, sec: string)
    requires IsDigits(m) && |m| >= 2 && IsDigits(sec) && |sec| == 2
    ensures ClockValue(m, sec) == Some(ParseDecimal(m) * 60 + ParseDecimal(sec))
  {
  }

  /** The ':' before the two-digit seconds field separates the fields. */
  lemma ClockSplits(m: string, sec: string)
    requires |sec| == 2
    ensures ParseClock(m + ":" + sec) == ClockValue(m, sec)
  {
    var r := m + ":" + sec;
    assert r[|r| - 3] == ':';
    assert r[..|r| - 3] == m;
    assert r[|r| - 2..] == sec;
  }

  /** Reading the clock back gives the number of seconds it was made from. */
  lemma FormatTimeRoundTrip(t: int)
    requires t >= 0
    ensures ParseClock(FormatTime(t)) == Some(t)
  {
    FieldsReadBack(FormatTime(t), t);
  }

  /** A clock made of the padded whole minutes and remaining seconds of `t` reads back as `t`. */
  lemma FieldsReadBack(r: string, t: nat)
    requires r == Pad2(DecimalString(t / 60)) + ":" + Pad2(DecimalString(t % 60))
    ensures ParseClock(r) == Some(t)
  {
    var minutes, seconds := t / 60, t % 60;
    assert minutes * 60 + seconds == t;
    var m := Pad2(DecimalString(minutes));
    var sec := Pad2(DecimalString(seconds));
    PaddedLength(minutes);
    PaddedDecimal(minutes);
    PaddedLength(seconds);
    PaddedDecimal(seconds);
    ClockReadsBack(m, sec);
    assert ParseDecimal(m) * 60 + ParseDecimal(sec) == minutes * 60 + seconds;
  }

  /** Below 100 minutes the clock is exactly `MM:SS`. */
  lemma ShortClock(t: int)
    requires 0 <= t < 6000
    ensures |FormatTime(t)| == 5 && FormatTime(t)[2] == ':'
  {
    ShortClockShape(t / 60, t % 60);
  }

  lemma ShortClockShape(minutes: nat, seconds: nat)
    requires minutes < 100 && seconds < 60
    ensures var r := Pad2(DecimalString(minutes)) + ":" + Pad2(DecimalString(seconds));
      |r| == 5 && r[2] == ':'
  {
    PaddedLength(minutes);
    PaddedLength(seconds);
    TwoFieldClock(Pad2(DecimalString(minutes)), Pad2(DecimalString(seconds)));
  }

  lemma TwoFieldClock(m: string, sec: string)
    requires |m| == 2 && |sec| == 2
    ensures |m + ":" + sec| == 5 && (m + ":" + sec)[2] == ':'
  {
  }

  /** Below 100 a padded field is exactly two characters; from 100 on it is the number's own digits. */
  lemma PaddedLength(n: nat)
    ensures |Pad2(DecimalString(n))| == if n < 100 then 2 else |DecimalString(n)|
  {
    DecimalStringLength(n);
  }

  /** From 100 minutes on, `padStart` does not truncate: the minutes take three digits or more. */
  lemma LongClock(t: int)
    requires t >= 6000
    ensures |FormatTime(t)| >= 6 && FormatTime(t)[|FormatTime(t)| - 3] == ':'
  {
    var minutes, seconds := t / 60, t % 60;
    assert minutes >= 100 && seconds < 60;
    LongClockShape(minutes, seconds);
    assert FormatTime(t) == Pad2(DecimalString(minutes)) + ":" + Pad2(DecimalString(seconds));
  }

  lemma LongClockShape(minutes: nat, seconds: nat)
    requires minutes >= 100 && seconds < 60
    ensures var r := Pad2(DecimalString(minutes)) + ":" + Pad2(DecimalString(seconds));
      |r| >= 6 && r[|r| - 3] == ':'
  {
    DecimalStringLength(minutes);
    PaddedLength(minutes);
    PaddedLength(seconds);
  }

  lemma FormatTimeZero()
    ensures FormatTime(0) == "00:00"
  {
    var zero := Pad2(DecimalString(0));
    assert DecimalString(0) == "0";
    assert zero == "00";
    assert FormatTime(0) == zero + ":" + zero;
  }
}
