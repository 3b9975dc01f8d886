/** The settings dialog: offset buttons and slider, the shadow percentage, and the
    list of audio output devices. */
module SettingsDialog {
  import opened Wrappers
  import opened Numeric
  import opened SettingsStore
  import PlayerPanel

  /** The dialog's offset buttons move by a tenth of a second. */
  const DialogStep := 0.1

  /** Pressing "-0.1s", "+0.1s" and reset: the stored offset changes as the panel's
      buttons do, with the dialog's step, and stays within [-10, 10]. */
  lemma DialogButtonsUpdate(s: Settings)
    requires -PlayerPanel.OffsetLimit <= s.lyricOffset <= PlayerPanel.OffsetLimit
    ensures Merge(s, OffsetPatch(PlayerPanel.StepDown(s.lyricOffset, DialogStep))).lyricOffset
              == if s.lyricOffset - 0.1 < -10.0 then -10.0 else s.lyricOffset - 0.1
    ensures Merge(s, OffsetPatch(PlayerPanel.StepUp(s.lyricOffset, DialogStep))).lyricOffset
              == if s.lyricOffset + 0.1 > 10.0 then 10.0 else s.lyricOffset + 0.1
    ensures -10.0 <= Merge(s, OffsetPatch(PlayerPanel.StepDown(s.lyricOffset, DialogStep))).lyricOffset <= 10.0
    ensures -10.0 <= Merge(s, OffsetPatch(PlayerPanel.StepUp(s.lyricOffset, DialogStep))).lyricOffset <= 10.0
  {
    PlayerPanel.OffsetButtonsUpdate(s, DialogStep);
  }

  // ---------------------------------------------------------------------------
  // Range inputs
  // ---------------------------------------------------------------------------

  function ClampReal(x: real, lo: real, hi: real): (c: real)
    requires lo <= hi
    ensures lo <= c <= hi
    ensures lo <= x <= hi ==> c == x
  {
    if x < lo then lo else if x > hi then hi else x
  }

  /** The value a range input reports for a pointer position `x`: clamped to
      [lo, hi] and rounded to the nearest step `1/den` counted from `lo`, a tie going
      up (the range state's value sanitisation in the HTML Living Standard). */
  function RangeValue(x: real, lo: int, hi: int, den: nat): (r: real)
    requires lo <= hi && den >= 1
    ensures lo as real <= r <= hi as real
    ensures RealAbs(r - ClampReal(x, lo as real, hi as real)) * den as real <= 0.5
  {
    var c := ClampReal(x, lo as real, hi as real);
    var d := den as real;
    var y := (c - lo as real) * d;
    var k := Round(y);
    var span := (hi - lo) * den;
    RangeSteps(c, lo as real, hi as real, d, y);
    var r := lo as real + k as real / d;
    RangeStepBound(k, span, y, d, lo as real, hi as real, c);
    r
  }

  lemma RangeSteps(c: real, lo: real, hi: real, d: real, y: real)
    requires lo <= c <= hi && d >= 1.0 && y == (c - lo) * d
    ensures 0.0 <= y <= (hi - lo) * d
  {
    assert (hi - lo) * d - y == (hi - c) * d;
  }

  lemma RangeStepBound(k: int, span: int, y: real, d: real, lo: real, hi: real, c: real)
    requires d >= 1.0 && 0.0 <= y <= span as real && span as real == (hi - lo) * d
    requires y == (c - lo) * d && y - 0.5 < k as real <= y + 0.5
    ensures lo <= lo + k as real / d <= hi
    ensures RealAbs(lo + k as real / d - c) * d <= 0.5
  {
    assert 0 <= k <= span;
    var q := k as real / d;
    assert q * d == k as real;
    assert (lo + q - c) * d == k as real - y;
    assert RealAbs(lo + q - c) * d == RealAbs(k as real - y);
  }

  /** The offset slider: from -10 to 10 in steps of 0.1. */
  function SliderOffset(x: real): (r: real)
    ensures -10.0 <= r <= 10.0
  {
    RangeValue(x, -10, 10, 10)
  }

  /** The shadow slider: from 0 to 1 in steps of 0.05. */
  function SliderShadow(x: real): (r: real)
    ensures 0.0 <= r <= 1.0
  {
    RangeValue(x, 0, 1, 20)
  }

  /** The shadow label: `round((shadowOpacity ?? 0.5) * 100)` percent. */
  function ShadowPercent(shadowOpacity: Option<real>): (pct: int)
    ensures shadowOpacity.None? ==> pct == 50
    ensures shadowOpacity.Some? && 0.0 <= shadowOpacity.value <= 1.0 ==> 0 <= pct <= 100
    ensures shadowOpacity.Some? ==> RealAbs(pct as real - shadowOpacity.value * 100.0) <= 0.5
  {
    Round(shadowOpacity.GetOr(0.5) * 100.0)
  }

  // ---------------------------------------------------------------------------
  // Output devices
  // ---------------------------------------------------------------------------

  datatype Device = Device(deviceId: string, kind: string, labelText: string)

  /** `devs.filter(d => d.kind === "audiooutput")`. */
  function AudioOutputs(devs: seq<Device>): (r: seq<Device>)
    ensures |r| <= |devs|
    ensures forall d :: d in r ==> d in devs && d.kind == "audiooutput"
    ensures forall d :: d in devs && d.kind == "audiooutput" ==> d in r
  {
    if |devs| == 0 then []
    else if devs[0].kind == "audiooutput" then [devs[0]] + AudioOutputs(devs[1..])
    else AudioOutputs(devs[1..])
  }

  /** Filtering keeps the devices' order: the result is the list minus the others. */
  lemma {:induction false} AudioOutputsOrder(a: seq<Device>, b: seq<Device>)
    ensures AudioOutputs(a + b) == AudioOutputs(a) + AudioOutputs(b)
    decreases |a|
  {
    if |a| > 0 {
      assert (a + b)[1..] == a[1..] + b;
      AudioOutputsOrder(a[1..], b);
    } else {
      assert a + b == b;
    }
  }

  /** An option's text: the device label, or `设备 (` with the first five
      characters of the id and `...)` when the label is empty. */
  function DeviceLabel(d: Device): (r: string)
    ensures d.labelText != [] ==> r == d.labelText
    ensures d.labelText == [] ==> r == "设备 (" + d.deviceId[..Min(5, |d.deviceId|)] + "...)"
    ensures d.labelText == [] ==> |r| <= 13
  {
    if d.labelText != [] then d.labelText
    else "设备 (" + d.deviceId[..Min(5, |d.deviceId|)] + "...)"
  }

  function Min(a: int, b: int): int {
    if a < b then a else b
  }

  datatype DeviceOption = DeviceOption(value: string, text: string)

  /** The device menu: the system default first, then one option per output. */
  function DeviceOptions(devs: seq<Device>): (opts: seq<DeviceOption>)
    ensures |opts| == |AudioOutputs(devs)| + 1
    ensures opts[0] == DeviceOption("default", "系统默认设备")
    ensures forall i :: 1 <= i < |opts| ==>
              opts[i] == DeviceOption(AudioOutputs(devs)[i - 1].deviceId, DeviceLabel(AudioOutputs(devs)[i - 1]))
  {
    var outs := AudioOutputs(devs);
    [DeviceOption("default", "系统默认设备")] +
      seq(|outs|, i requires 0 <= i < |outs| => DeviceOption(outs[i].deviceId, DeviceLabel(outs[i])))
  }
}
