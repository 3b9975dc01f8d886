/** The persisted user settings and their partial update. An update is the object
    spread `{...state, ...partial}`: every field the partial carries overwrites the
    stored one, every other field is kept. */
module SettingsStore {
  import opened Wrappers

  datatype Settings = Settings(
    fontSize: real,
    color: string,
    activeColor: string,
    backgroundColor: string,
    shadowOpacity: real,
    showDesktopLyric: bool,
    loop: bool,
    lyricOffset: real,
    audioDeviceId: string,
    apiUrl: string)

  /** `Partial<PlayerSettings>`: `Some` for a key the object carries. */
  datatype Patch = Patch(
    fontSize: Option<real>,
    color: Option<string>,
    activeColor: Option<string>,
    backgroundColor: Option<string>,
    shadowOpacity: Option<real>,
    showDesktopLyric: Option<bool>,
    loop: Option<bool>,
    lyricOffset: Option<real>,
    audioDeviceId: Option<string>,
    apiUrl: Option<string>)

  function DefaultSettings(): (s: Settings)
    ensures s.fontSize == 32.0 && s.lyricOffset == 0.0 && s.showDesktopLyric && !s.loop
    ensures s.shadowOpacity == 0.1 && s.audioDeviceId == "default" && s.apiUrl == "http://localhost:8080"
  {
    Settings(32.0, "#ffffff", "#ffeb3b", "rgba(0, 0, 0, 0)", 0.1, true, false, 0.0, "default",
             "http://localhost:8080")
  }

  const EmptyPatch := Patch(None, None, None, None, None, None, None, None, None, None)

  /** A patch that changes only the lyric offset (what every offset control sends). */
  function OffsetPatch(o: real): Patch {
    EmptyPatch.(lyricOffset := Some(o))
  }

  /** `{...s, ...p}`. */
  function Merge(s: Settings, p: Patch): (r: Settings) {
    Settings(
      p.fontSize.GetOr(s.fontSize),
      p.color.GetOr(s.color),
      p.activeColor.GetOr(s.activeColor),
      p.backgroundColor.GetOr(s.backgroundColor),
      p.shadowOpacity.GetOr(s.shadowOpacity),
      p.showDesktopLyric.GetOr(s.showDesktopLyric),
      p.loop.GetOr(s.loop),
      p.lyricOffset.GetOr(s.lyricOffset),
      p.audioDeviceId.GetOr(s.audioDeviceId),
      p.apiUrl.GetOr(s.apiUrl))
  }

  /** Field by field: a carried value wins, a missing one keeps the stored value. */
  lemma MergeFields(s: Settings, p: Patch)
    ensures p.fontSize.Some? ==> Merge(s, p).fontSize == p.fontSize.value
    ensures p.fontSize.None? ==> Merge(s, p).fontSize == s.fontSize
    ensures p.color.Some? ==> Merge(s, p).color == p.color.value
    ensures p.color.None? ==> Merge(s, p).color == s.color
    ensures p.activeColor.Some? ==> Merge(s, p).activeColor == p.activeColor.value
    ensures p.activeColor.None? ==> Merge(s, p).activeColor == s.activeColor
    ensures p.backgroundColor.Some? ==> Merge(s, p).backgroundColor == p.backgroundColor.value
    ensures p.backgroundColor.None? ==> Merge(s, p).backgroundColor == s.backgroundColor
    ensures p.shadowOpacity.Some? ==> Merge(s, p).shadowOpacity == p.shadowOpacity.value
    ensures p.shadowOpacity.None? ==> Merge(s, p).shadowOpacity == s.shadowOpacity
    ensures p.showDesktopLyric.Some? ==> Merge(s, p).showDesktopLyric == p.showDesktopLyric.value
    ensures p.showDesktopLyric.None? ==> Merge(s, p).showDesktopLyric == s.showDesktopLyric
    ensures p.loop.Some? ==> Merge(s, p).loop == p.loop.value
    ensures p.loop.None? ==> Merge(s, p).loop == s.loop
    ensures p.lyricOffset.Some? ==> Merge(s, p).lyricOffset == p.lyricOffset.value
    ensures p.lyricOffset.None? ==> Merge(s, p).lyricOffset == s.lyricOffset
    ensures p.audioDeviceId.Some? ==> Merge(s, p).audioDeviceId == p.audioDeviceId.value
    ensures p.audioDeviceId.None? ==> Merge(s, p).audioDeviceId == s.audioDeviceId
    ensures p.apiUrl.Some? ==> Merge(s, p).apiUrl == p.apiUrl.value
    ensures p.apiUrl.None? ==> Merge(s, p).apiUrl == s.apiUrl
  {
  }

  /** An offset-only update changes the offset and nothing else. */
  lemma OffsetPatchOnlyOffset(s: Settings, o: real)
    ensures Merge(s, OffsetPatch(o)) == s.(lyricOffset := o)
  {
  }

  /** The empty partial leaves the settings as they are. */
  lemma MergeEmpty(s: Settings)
    ensures Merge(s, EmptyPatch) == s
  {
  }

  /** Applying the same partial twice is the same as applying it once. */
  lemma MergeIdempotent(s: Settings, p: Patch)
    ensures Merge(Merge(s, p), p) == Merge(s, p)
  {
  }

  /** Two partials in a row act as one partial in which the later keys win. */
  function Then(p: Patch, q: Patch): Patch {
    Patch(
      if q.fontSize.Some? then q.fontSize else p.fontSize,
      if q.color.Some? then q.color else p.color,
      if q.activeColor.Some? then q.activeColor else p.activeColor,
      if q.backgroundColor.Some? then q.backgroundColor else p.backgroundColor,
      if q.shadowOpacity.Some? then q.shadowOpacity else p.shadowOpacity,
      if q.showDesktopLyric.Some? then q.showDesktopLyric else p.showDesktopLyric,
      if q.loop.Some? then q.loop else p.loop,
      if q.lyricOffset.Some? then q.lyricOffset else p.lyricOffset,
      if q.audioDeviceId.Some? then q.audioDeviceId else p.audioDeviceId,
      if q.apiUrl.Some? then q.apiUrl else p.apiUrl)
  }

  lemma MergeThen(s: Settings, p: Patch, q: Patch)
    ensures Merge(Merge(s, p), q) == Merge(s, Then(p, q))
  {
  }

  class Store {
    var fontSize: real
    var color: string
    var activeColor: string
    var backgroundColor: string
    var shadowOpacity: real
    var showDesktopLyric: bool
    var loop: bool
    var lyricOffset: real
    var audioDeviceId: string
    var apiUrl: string

    function State(): Settings
      reads this
    {
      Settings(fontSize, color, activeColor, backgroundColor, shadowOpacity, showDesktopLyric, loop,
               lyricOffset, audioDeviceId, apiUrl)
    }

    constructor ()
      ensures State() == DefaultSettings()
    {
      fontSize := 32.0;
      color := "#ffffff";
      activeColor := "#ffeb3b";
      backgroundColor := "rgba(0, 0, 0, 0)";
      shadowOpacity := 0.1;
      showDesktopLyric := true;
      loop := false;
      lyricOffset := 0.0;
      audioDeviceId := "default";
      apiUrl := "http://localhost:8080";
    }

    /** `updateSettings`: the new state is the old one with the partial spread over it. */
    method UpdateSettings(p: Patch)
      modifies this
      ensures State() == Merge(old(State()), p)
    {
      var s := Merge(State(), p);
      fontSize := s.fontSize;
      color := s.color;
      activeColor := s.activeColor;
      backgroundColor := s.backgroundColor;
      shadowOpacity := s.shadowOpacity;
      showDesktopLyric := s.showDesktopLyric;
      loop := s.loop;
      lyricOffset := s.lyricOffset;
      audioDeviceId := s.audioDeviceId;
      apiUrl := s.apiUrl;
    }
  }
}
