/**
  The `Timer` component: the dial (size 800 by default) over a countdown
  mounted at angle 2400, and the digital readout `MM:SS` that reads the angle
  directly as a number of seconds.
 */
module Timer {
  import opened Decimal
  import opened Wrappers
  import AngleControl
  import CanvasDrawing

  const DefaultSize: real := 800.0
  const InitialAngle: int := 2400

  /** `Math.floor(totalSeconds / 60)`. */
  function Minutes(totalSeconds: int): (m: int)
    ensures 60 * m <= totalSeconds < 60 * m + 60
  {
    totalSeconds / 60
  }

  /** `totalSeconds % 60` with JavaScript's `%`, whose result takes the sign of the dividend. */
  function Seconds(totalSeconds: int): (s: int)
    ensures -60 < s < 60
    ensures totalSeconds >= 0 ==> 0 <= s && 60 * Minutes(totalSeconds) + s == totalSeconds
    ensures totalSeconds < 0 ==> s <= 0 && (totalSeconds - s) % 60 == 0
  {
    if totalSeconds >= 0 then totalSeconds % 60 else -((-totalSeconds) % 60)
  }

  /**
    `formatNumber`: `num < 10 ? '0' + num : num.toString()`. A non-negative
    number gets at least two digits, a leading zero exactly when below 10; a
    negative one is below 10 too, so it gets `'0'` before its minus sign.
   */
  function FormatNumber(num: int): (s: string)
    ensures |s| >= 2
    ensures num >= 0 ==> AllDigits(s) && (s[0] == '0' <==> num < 10)
    ensures 0 <= num < 100 ==> |s| == 2
    ensures num < 0 ==> s[..2] == "0-"
  {
    if num < 10 then "0" + IntToString(num) else IntToString(num)
  }

  /** A non-negative number is padded to at least two digits, by a leading zero exactly when below 10, and reads back as itself. */
  lemma FormatNumberPadded(num: int)
    requires num >= 0
    ensures var s := FormatNumber(num);
      && |s| >= 2 && AllDigits(s) && Parse(s) == num
      && (s[0] == '0' <==> num < 10)
      && (|s| == 2 <==> num < 100)
  {
    ParseNatToString(num);
    if num < 10 {
      ParseLeadingZero(NatToString(num));
    } else {
      var q := num / 10;
      assert NatToString(num) == NatToString(q) + [DigitChar(num % 10)];
    }
  }

  /**
    `formatTime`: the angle read as seconds. For a non-negative angle it is the
    digits of the minutes, `:` and two digits of seconds.
   */
  function FormatTime(angle: int): (s: string)
    ensures |s| >= 5
    ensures angle >= 0 ==> s[|s| - 3] == ':' && AllDigits(s[..|s| - 3]) && AllDigits(s[|s| - 2..])
    ensures 0 <= angle < 6000 ==> |s| == 5 && s[2] == ':'
  {
    var mm, ss := FormatNumber(Minutes(angle)), FormatNumber(Seconds(angle));
    assert angle >= 0 ==> (mm + ":" + ss)[..|mm|] == mm && (mm + ":" + ss)[|mm| + 1..] == ss;
    mm + ":" + ss
  }

  /**
    For a non-negative angle the readout ends in `:` and two digits of seconds,
    after the digits of the minutes; reading both back gives the angle.
   */
  lemma FormatTimeRoundTrip(angle: int)
    requires angle >= 0
    ensures var s := FormatTime(angle);
      && |s| >= 5 && s[|s| - 3] == ':'
      && AllDigits(s[..|s| - 3]) && AllDigits(s[|s| - 2..])
      && Parse(s[|s| - 2..]) < 60
      && 60 * Parse(s[..|s| - 3]) + Parse(s[|s| - 2..]) == angle
  {
    var mm, ss := FormatNumber(Minutes(angle)), FormatNumber(Seconds(angle));
    FormatNumberPadded(Minutes(angle));
    FormatNumberPadded(Seconds(angle));
    var s := FormatTime(angle);
    assert s[..|s| - 3] == mm;
    assert s[|s| - 2..] == ss;
  }

  /** Below 100 minutes (so on the whole dial) the readout is exactly `MM:SS`. */
  lemma FormatTimeFixedWidth(angle: int)
    requires 0 <= angle < 6000
    ensures var s := FormatTime(angle);
      && |s| == 5 && s[2] == ':'
      && AllDigits(s[..2]) && AllDigits(s[3..])
      && Parse(s[..2]) == angle / 60 && Parse(s[3..]) == angle % 60
  {
    FormatNumberPadded(Minutes(angle));
    FormatNumberPadded(Seconds(angle));
    var s := FormatTime(angle);
    assert s[..2] == FormatNumber(Minutes(angle));
    assert s[3..] == FormatNumber(Seconds(angle));
  }

  /** Different non-negative angles never show the same readout. */
  lemma FormatTimeInjective(a: int, b: int)
    requires a >= 0 && b >= 0 && FormatTime(a) == FormatTime(b)
    ensures a == b
  {
    FormatTimeRoundTrip(a);
    FormatTimeRoundTrip(b);
  }

  lemma FormatTimeExamples()
    ensures FormatTime(2400) == "40:00"
    ensures FormatTime(65) == "01:05"
    ensures FormatTime(0) == "00:00"
    ensures FormatTime(3600) == "60:00"
  {
  }

  /**
    A negative angle, which no tick or drag produces, shows JavaScript's text
    for a negative floor and a negative remainder.
   */
  lemma FormatTimeNegative()
    ensures FormatTime(-65) == "0-2:0-5"
  {
  }

  /** A mounted timer shows 40:00 and stays stopped until Start. */
  method Mount() returns (control: AngleControl.Countdown, size: real, shown: string)
    ensures fresh(control) && control.angle == InitialAngle && !control.isActive && control.OnDial()
    ensures size == 800.0 && shown == "40:00"
  {
    control := new AngleControl.Countdown(InitialAngle);
    size := DefaultSize;
    shown := FormatTime(control.angle);
    FormatTimeExamples();
  }

  /**
    Mount, press Start, let three seconds pass, read the display; press Stop, let
    more time pass, read it again.
   */
  method StartRunStop(pausedSeconds: nat) returns (running: string, stopped: string)
    ensures running == "39:57" && stopped == "39:57"
  {
    var control, _, _ := Mount();
    control.Start();
    control.Elapse(3);
    AngleControl.TicksClamp(InitialAngle, 3);
    running := FormatTime(control.angle);
    control.Stop();
    control.Elapse(pausedSeconds);
    stopped := FormatTime(control.angle);
    assert control.angle == 2397;
    assert NatToString(39) == NatToString(3) + "9";
    assert NatToString(57) == NatToString(5) + "7";
  }

  /**
    On the dial (0..3600, which ticks and drags keep) the readout runs from
    "00:00" to "60:00": two digits of minutes at most 60, two digits of seconds,
    and seconds "00" when the minutes are 60.
   */
  lemma DisplayOnDial(angle: int)
    requires 0 <= angle <= 3600
    ensures var s := FormatTime(angle);
      && |s| == 5 && s[2] == ':' && AllDigits(s[..2]) && AllDigits(s[3..])
      && Parse(s[..2]) <= 60 && Parse(s[3..]) < 60
      && (Parse(s[..2]) == 60 ==> s == "60:00")
  {
    FormatTimeFixedWidth(angle);
    if angle == 3600 {
      FormatTimeExamples();
    }
  }

  /**
    The number written beside major mark `i` is the minute count the readout
    shows when the needle points at that mark.
   */
  lemma LabelMatchesReadout(i: nat, radius: real)
    requires i < CanvasDrawing.TickCount && CanvasDrawing.MarkAt(i, radius).isMajor
    ensures CanvasDrawing.NeedleDegrees(60 * i) == CanvasDrawing.MarkDegrees(i) as real
    ensures CanvasDrawing.MarkAt(i, radius).text == Some(Minutes(60 * i))
    ensures FormatTime(60 * i)[3..] == "00"
  {
  }
}
