/** The player panel: the `m:ss` clock, the lyric-offset quick buttons, the progress
    bar width, and which parts of the lyric area are shown. */
module PlayerPanel {
  import opened Text
  import opened Numeric
  import opened LrcParser
  import opened SettingsStore
  import App

  // ---------------------------------------------------------------------------
  // formatTime
  // ---------------------------------------------------------------------------

  /** A JavaScript number of seconds: NaN (an unknown duration) or a finite value. */
  datatype Num = NaN | Finite(x: real)

  /** Rounding toward zero, as JavaScript's `%` uses for its quotient. */
  function Trunc(x: real): (n: int)
    ensures x >= 0.0 ==> n == x.Floor
    ensures x < 0.0 ==> n == -((-x).Floor)
  {
    if x >= 0.0 then x.Floor else -((-x).Floor)
  }

  /** JavaScript's `x % m`: the remainder takes the sign of `x`. */
  function JsMod(x: real, m: real): real
    requires m != 0.0
  {
    x - m * Trunc(x / m) as real
  }

  /** `formatTime`: minutes, a colon, and the whole seconds padded to two digits. */
  function FormatTime(s: Num): (r: string)
    ensures s.NaN? ==> r == "0:00"
  {
    match s
    case NaN => "0:00"
    case Finite(x) =>
      var m := (x / 60.0).Floor;
      var sec := JsMod(x, 60.0).Floor;
      IntToString(m) + ":" + PadStart2(IntToString(sec))
  }

  /** For a non-negative time the clock reads the whole minutes, then the remaining
      whole seconds as exactly two digits. */
  lemma FormatTimeNonNegative(x: real)
    requires x >= 0.0
    ensures var total := x.Floor;
            FormatTime(Finite(x)) ==
              NatToString(total / 60) + ":" + [Digit(total % 60 / 10), Digit(total % 60 % 10)]
  {
    var total := x.Floor;
    var q := total / 60;
    MinutesOf(x);
    assert (x / 60.0).Floor == q;
    assert JsMod(x, 60.0) == x - 60.0 * q as real;
    SecondsOf(x, q);
    var sec := total % 60;
    assert JsMod(x, 60.0).Floor == sec;
    if sec < 10 {
      assert NatToString(sec) == [Digit(sec)];
    } else {
      assert NatToString(sec) == NatToString(sec / 10) + [Digit(sec % 10)];
      assert NatToString(sec / 10) == [Digit(sec / 10)];
    }
  }

  lemma MinutesOf(x: real)
    requires x >= 0.0
    ensures (x / 60.0).Floor == x.Floor / 60
  {
    var q := x.Floor / 60;
    assert q as real * 60.0 <= x;
    assert x < (q + 1) as real * 60.0;
  }

  lemma SecondsOf(x: real, q: int)
    requires x >= 0.0 && q == x.Floor / 60
    ensures (x - 60.0 * q as real).Floor == x.Floor % 60
  {
  }

  /** Negative times keep JavaScript's sign rules: -5 s reads "-1:-5". */
  lemma FormatTimeNegative()
    ensures FormatTime(Finite(-5.0)) == "-1:-5"
  {
    assert (-5.0 / 60.0).Floor == -1;
    assert Trunc(-5.0 / 60.0) == 0;
    assert JsMod(-5.0, 60.0) == -5.0;
    assert IntToString(-5) == "-5";
    assert IntToString(-1) == "-1";
  }

  // ---------------------------------------------------------------------------
  // Offset controls
  // ---------------------------------------------------------------------------

  const OffsetLimit := 10.0

  /** "-" button: `max(-10, offset - step)`, with a step of 0.5 s on this panel and
      0.1 s in the settings dialog. */
  function StepDown(offset: real, step: real): (r: real)
    ensures r >= -OffsetLimit
    ensures r == offset - step || r == -OffsetLimit
    ensures offset - step >= -OffsetLimit ==> r == offset - step
  {
    if offset - step < -OffsetLimit then -OffsetLimit else offset - step
  }

  /** "+" button: `min(10, offset + step)`. */
  function StepUp(offset: real, step: real): (r: real)
    ensures r <= OffsetLimit
    ensures r == offset + step || r == OffsetLimit
    ensures offset + step <= OffsetLimit ==> r == offset + step
  {
    if offset + step > OffsetLimit then OffsetLimit else offset + step
  }

  /** An offset inside [-10, 10] stays inside after any button, whatever the step. */
  lemma StepsKeepRange(offset: real, step: real)
    requires -OffsetLimit <= offset <= OffsetLimit && step >= 0.0
    ensures -OffsetLimit <= StepDown(offset, step) <= offset
    ensures offset <= StepUp(offset, step) <= OffsetLimit
  {
  }

  /** Away from the limits, "+" undoes "-". */
  lemma StepUpUndoesDown(offset: real, step: real)
    requires offset - step >= -OffsetLimit && offset <= OffsetLimit && step >= 0.0
    ensures StepUp(StepDown(offset, step), step) == offset
  {
  }

  /** The settings after pressing "-", "+" or reset: only the offset changes, and a
      stored offset in range stays in range. */
  lemma OffsetButtonsUpdate(s: Settings, step: real)
    requires -OffsetLimit <= s.lyricOffset <= OffsetLimit && step >= 0.0
    ensures Merge(s, OffsetPatch(StepDown(s.lyricOffset, step))) == s.(lyricOffset := StepDown(s.lyricOffset, step))
    ensures Merge(s, OffsetPatch(StepUp(s.lyricOffset, step))) == s.(lyricOffset := StepUp(s.lyricOffset, step))
    ensures Merge(s, OffsetPatch(0.0)) == s.(lyricOffset := 0.0)
    ensures -OffsetLimit <= Merge(s, OffsetPatch(StepDown(s.lyricOffset, step))).lyricOffset <= OffsetLimit
    ensures -OffsetLimit <= Merge(s, OffsetPatch(StepUp(s.lyricOffset, step))).lyricOffset <= OffsetLimit
  {
    OffsetPatchOnlyOffset(s, StepDown(s.lyricOffset, step));
    OffsetPatchOnlyOffset(s, StepUp(s.lyricOffset, step));
    OffsetPatchOnlyOffset(s, 0.0);
  }

  /** `Number.prototype.toFixed(1)`: a sign for negatives, then the magnitude rounded
      to tenths, ties going up. */
  function ToFixed1(x: real): (r: string)
    ensures |r| >= 3
    ensures r[0] == '-' <==> x < 0.0
  {
    if x < 0.0 then "-" + Tenths(-x) else Tenths(x)
  }

  /** The digits of a non-negative number rounded to tenths. */
  function Tenths(x: real): (r: string)
    requires x >= 0.0
    ensures |r| >= 3 && IsDigit(r[0]) && r[|r| - 2] == '.' && IsDigit(r[|r| - 1])
  {
    var n := Round(x * 10.0);
    assert n >= 0;
    NatToString(n / 10) + "." + [Digit(n % 10)]
  }

  /** The printed tenths read back to the nearest tenth of the value. */
  lemma TenthsReadsBack(x: real)
    requires x >= 0.0
    ensures var r := Tenths(x);
            var n := DigitsValue(r[..|r| - 2]) * 10 + DigitValue(r[|r| - 1]);
            n == Round(x * 10.0) && RealAbs(n as real - x * 10.0) <= 0.5
  {
    var n := Round(x * 10.0);
    var r := Tenths(x);
    assert r[..|r| - 2] == NatToString(n / 10);
    NatToStringRoundTrip(n / 10);
  }

  /** The offset label: a `+` for positive offsets, then `toFixed(1)` and `s`. */
  function OffsetLabel(offset: real): (r: string)
    ensures |r| >= 4 && r[|r| - 1] == 's'
    ensures r[0] == '+' <==> offset > 0.0
    ensures r[0] == '-' <==> offset < 0.0
  {
    (if offset > 0.0 then "+" else "") + ToFixed1(offset) + "s"
  }

  // ---------------------------------------------------------------------------
  // Progress bar and lyric area
  // ---------------------------------------------------------------------------

  /** `currentTime / (duration || 1) * 100`, times in milliseconds. */
  function WidthPercent(currentTime: int, duration: int): (w: real)
    ensures duration > 0 && 0 <= currentTime <= duration ==> 0.0 <= w <= 100.0
    ensures duration > 0 && currentTime == duration ==> w == 100.0
  {
    var f := currentTime as real / App.Divisor(duration) as real;
    if duration > 0 && 0 <= currentTime <= duration then
      DivMonoWithin(currentTime as real, duration as real);
      f * 100.0
    else f * 100.0
  }

  lemma DivMonoWithin(a: real, d: real)
    requires 0.0 <= a <= d && d > 0.0
    ensures 0.0 <= a / d <= 1.0
  {
    assert (a / d) * d == a;
    MulMonoStrict(a / d, d);
  }

  lemma MulMonoStrict(q: real, d: real)
    requires d > 0.0
    ensures q > 1.0 ==> q * d > d
  {
    if q > 1.0 {
      assert q * d - d == (q - 1.0) * d;
    }
  }

  /** What the lyric area shows: a placeholder, or one role per line. */
  datatype LyricArea = Placeholder | Lines(roles: seq<App.LineRole>)

  /** The offset buttons are shown only when there are lyrics. */
  predicate ShowsOffsetControls(lyrics: seq<LyricLine>) {
    |lyrics| > 0
  }

  function LyricAreaOf(lyrics: seq<LyricLine>, activeIndex: int): (a: LyricArea)
    ensures a.Placeholder? <==> !ShowsOffsetControls(lyrics)
    ensures a.Lines? ==> a.roles == App.LyricList(|lyrics|, activeIndex)
  {
    if |lyrics| == 0 then Placeholder else Lines(App.LyricList(|lyrics|, activeIndex))
  }
}
