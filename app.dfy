/** The main window's logic: the per-frame sync step that follows the audio clock,
    the progress of the active line, the lyric list's line roles, the title derived
    from an opened file, the lyric loader and the seek rule. All times are integer
    milliseconds; a fixed two-second fallback duration is 2000. */
module App {
  import opened Wrappers
  import opened Text
  import opened LrcParser
  import opened LyricLineView
  import opened PlayerStore
  import opened Numeric

  // ---------------------------------------------------------------------------
  // Active line
  // ---------------------------------------------------------------------------

  /** `findLastIndex(l => t >= l.time)`: the last line that has started, or -1. */
  function LastStarted(ls: seq<LyricLine>, t: int): (r: int)
    ensures -1 <= r < |ls|
    ensures r >= 0 ==> ls[r].time <= t
    ensures forall j :: r < j < |ls| ==> ls[j].time > t
  {
    if |ls| == 0 then -1
    else if ls[|ls| - 1].time <= t then |ls| - 1
    else LastStarted(ls[..|ls| - 1], t)
  }

  /** The three facts above single out one index. */
  lemma LastStartedUnique(ls: seq<LyricLine>, t: int, r: int)
    requires -1 <= r < |ls|
    requires r >= 0 ==> ls[r].time <= t
    requires forall j :: r < j < |ls| ==> ls[j].time > t
    ensures r == LastStarted(ls, t)
  {
  }

  /** The search from the end, as a loop. */
  method FindLastIndex(ls: seq<LyricLine>, t: int) returns (index: int)
    ensures index == LastStarted(ls, t)
  {
    index := |ls| - 1;
    while index >= 0 && !(t >= ls[index].time)
      invariant -1 <= index < |ls|
      invariant forall j :: index < j < |ls| ==> ls[j].time > t
      decreases index + 1
    {
      index := index - 1;
    }
    LastStartedUnique(ls, t, index);
  }

  /** A later clock never selects an earlier line. */
  lemma LastStartedMonotone(ls: seq<LyricLine>, t1: int, t2: int)
    requires t1 <= t2
    ensures LastStarted(ls, t1) <= LastStarted(ls, t2)
  {
  }

  /** On sorted lyrics the active line is the one whose interval holds the clock:
      every line up to it has started, and none does before the first line. */
  lemma LastStartedSorted(ls: seq<LyricLine>, t: int)
    requires SortedByTime(ls)
    ensures LastStarted(ls, t) == -1 <==> (|ls| == 0 || t < ls[0].time)
    ensures forall j :: 0 <= j <= LastStarted(ls, t) ==> ls[j].time <= t
  {
    var r := LastStarted(ls, t);
    if r >= 0 {
      assert ls[0].time <= ls[r].time;
    }
  }

  // ---------------------------------------------------------------------------
  // Line duration and progress
  // ---------------------------------------------------------------------------

  /** End time minus start if the line has one, else the gap to the next line, else
      two seconds for the last line. */
  function Duration(ls: seq<LyricLine>, i: nat): (d: int)
    requires i < |ls|
    ensures ls[i].endTime.Some? ==> d == ls[i].endTime.value - ls[i].time
    ensures ls[i].endTime.None? && i + 1 < |ls| ==> d == ls[i + 1].time - ls[i].time
    ensures ls[i].endTime.None? && i + 1 == |ls| ==> d == 2000
  {
    if ls[i].endTime.Some? then ls[i].endTime.value - ls[i].time
    else if i < |ls| - 1 then ls[i + 1].time - ls[i].time
    else 2000
  }

  /** On sorted lyrics a line without an end time never has a negative duration. */
  lemma DurationNonNegative(ls: seq<LyricLine>, i: nat)
    requires i < |ls| && SortedByTime(ls) && ls[i].endTime.None?
    ensures Duration(ls, i) >= 0
  {
  }

  /** `dur || 1`: only a zero duration is replaced (by one second). */
  function Divisor(d: int): (r: int)
    ensures r != 0
    ensures d != 0 ==> r == d
    ensures d == 0 ==> r == 1000
  {
    if d == 0 then 1000 else d
  }

  /** `min(1, max(0, (t - time) / (dur || 1)))`. */
  function LineProgress(ls: seq<LyricLine>, i: nat, t: int): (p: real)
    requires i < |ls|
    ensures 0.0 <= p <= 1.0
  {
    Clamp01((t - ls[i].time) as real / Divisor(Duration(ls, i)) as real)
  }

  /** With a positive duration the progress is 0 up to the start, 1 from the end on. */
  lemma LineProgressEnds(ls: seq<LyricLine>, i: nat, t: int)
    requires i < |ls| && Duration(ls, i) > 0
    ensures t <= ls[i].time ==> LineProgress(ls, i, t) == 0.0
    ensures t >= ls[i].time + Duration(ls, i) ==> LineProgress(ls, i, t) == 1.0
  {
    var d := Duration(ls, i) as real;
    var x := (t - ls[i].time) as real;
    ScaleCompare(x / d, 0.0, d);
    ScaleCompare(x / d, d, d);
    assert (x / d) * d == x;
  }

  /** For a fixed line with a non-negative duration, progress never decreases as
      the clock advances. */
  lemma LineProgressMonotone(ls: seq<LyricLine>, i: nat, t1: int, t2: int)
    requires i < |ls| && Duration(ls, i) >= 0 && t1 <= t2
    ensures LineProgress(ls, i, t1) <= LineProgress(ls, i, t2)
  {
    var d := Divisor(Duration(ls, i)) as real;
    DivMono((t1 - ls[i].time) as real, (t2 - ls[i].time) as real, d);
    ClampMono((t1 - ls[i].time) as real / d, (t2 - ls[i].time) as real / d);
  }

  /** `currentProgress`: 0 without an active line in range, else that line's progress
      at the stored time. */
  function CurrentProgress(activeIndex: int, ls: seq<LyricLine>, currentTime: int): (p: real)
    ensures 0.0 <= p <= 1.0
    ensures (activeIndex < 0 || activeIndex >= |ls|) ==> p == 0.0
    ensures 0 <= activeIndex < |ls| ==> p == LineProgress(ls, activeIndex, currentTime)
  {
    if activeIndex < 0 || activeIndex >= |ls| then 0.0
    else LineProgress(ls, activeIndex, currentTime)
  }

  // ---------------------------------------------------------------------------
  // The sync step
  // ---------------------------------------------------------------------------

  /** What was last sent to the overlay window. */
  datatype Sent = Sent(index: int, progress: real)

  const NothingSent := Sent(-1, -1.0)

  /** The `update-lyric` payload. */
  datatype LyricMessage = LyricMessage(text: string, progress: real)

  /** The stored clock follows the audio clock only when it drifts by more than
      50 ms, so after a step the two are never further apart than that. */
  function NextStoredTime(stored: int, t: int): (r: int)
    ensures IntAbs(r - t) <= 50
    ensures r == t || r == stored
    ensures IntAbs(t - stored) <= 50 <==> r == stored
  {
    if IntAbs(t - stored) > 50 then t else stored
  }

  /** The active index is written only for a found line that differs from it, so a
      step never resets it to -1. */
  function NextActiveIndex(stored: int, index: int): (r: int)
    ensures r == index || r == stored
    ensures stored != -1 ==> r != -1
    ensures index != -1 ==> r == index
  {
    if index != -1 && index != stored then index else stored
  }

  /** The overlay message of one step, if any. */
  function Outgoing(ls: seq<LyricLine>, t: int, show: bool, last: Sent): (m: Option<LyricMessage>)
    ensures m.Some? ==> show && LastStarted(ls, t) != -1
    ensures m.Some? ==> m.value.text == ls[LastStarted(ls, t)].text
    ensures m.Some? ==> m.value.progress == LineProgress(ls, LastStarted(ls, t), t)
    ensures show && LastStarted(ls, t) != -1 && LastStarted(ls, t) != last.index ==> m.Some?
    ensures m.Some? <==>
              (show && LastStarted(ls, t) != -1 &&
               (LastStarted(ls, t) != last.index ||
                RealAbs(LineProgress(ls, LastStarted(ls, t), t) - last.progress) > 0.03))
  {
    var index := LastStarted(ls, t);
    if index == -1 || !show then None
    else
      var p := LineProgress(ls, index, t);
      if index != last.index || RealAbs(p - last.progress) > 0.03 then Some(LyricMessage(ls[index].text, p))
      else None
  }

  /** The record is replaced exactly when a message goes out. */
  function NextSent(ls: seq<LyricLine>, t: int, show: bool, last: Sent): (r: Sent)
    ensures Outgoing(ls, t, show, last).None? ==> r == last
    ensures Outgoing(ls, t, show, last).Some? ==>
              r == Sent(LastStarted(ls, t), Outgoing(ls, t, show, last).value.progress)
  {
    var m := Outgoing(ls, t, show, last);
    if m.Some? then Sent(LastStarted(ls, t), m.value.progress) else last
  }

  /** A second step at the same clock sends nothing. */
  lemma RepeatTickSilent(ls: seq<LyricLine>, t: int, show: bool, last: Sent)
    ensures Outgoing(ls, t, show, NextSent(ls, t, show, last)).None?
  {
    var m := Outgoing(ls, t, show, last);
    if m.Some? {
      var index := LastStarted(ls, t);
      var p := LineProgress(ls, index, t);
      assert NextSent(ls, t, show, last) == Sent(index, p);
      assert RealAbs(p - p) == 0.0;
    }
  }

  /** From the initial record the first step with a started line and the overlay on
      always sends. */
  lemma FirstTickSends(ls: seq<LyricLine>, t: int, show: bool)
    ensures Outgoing(ls, t, show, NothingSent).Some? <==> (show && LastStarted(ls, t) != -1)
  {
  }

  /** A sent progress is what the main window's own progress shows once its stored
      clock and active index have caught up with the step. */
  lemma SentMatchesCurrentProgress(ls: seq<LyricLine>, t: int, show: bool, last: Sent)
    requires Outgoing(ls, t, show, last).Some?
    ensures Outgoing(ls, t, show, last).value.progress == CurrentProgress(LastStarted(ls, t), ls, t)
  {
  }

  /** One animation-frame step over the store. */
  class SyncEngine {
    var lastSent: Sent

    constructor ()
      ensures lastSent == NothingSent
    {
      lastSent := NothingSent;
    }

    /** Returns the overlay message (if any), whether the list scrolls to the new
        active line, and whether another frame is requested. */
    method Tick(audioTime: int, store: Store, showDesktopLyric: bool)
      returns (msg: Option<LyricMessage>, scroll: bool, again: bool)
      modifies this, store
      ensures msg == Outgoing(old(store.lyrics), audioTime, showDesktopLyric, old(lastSent))
      ensures lastSent == NextSent(old(store.lyrics), audioTime, showDesktopLyric, old(lastSent))
      ensures store.State() == old(store.State()).(
                currentTime := NextStoredTime(old(store.currentTime), audioTime),
                activeIndex := NextActiveIndex(old(store.activeIndex), LastStarted(old(store.lyrics), audioTime)))
      ensures scroll <==> LastStarted(old(store.lyrics), audioTime) != -1 &&
                          LastStarted(old(store.lyrics), audioTime) != old(store.activeIndex)
      ensures again == store.isPlaying
    {
      var time := audioTime;
      if IntAbs(time - store.currentTime) > 50 {
        store.SetCurrentTime(time);
      }
      var currentLyrics := store.lyrics;
      var index := FindLastIndex(currentLyrics, time);
      scroll := false;
      if index != -1 && index != store.activeIndex {
        store.SetActiveIndex(index);
        scroll := true;
      }
      msg := None;
      if index != -1 && showDesktopLyric {
        var progress := LineProgress(currentLyrics, index, time);
        if index != lastSent.index || RealAbs(progress - lastSent.progress) > 0.03 {
          msg := Some(LyricMessage(currentLyrics[index].text, progress));
          lastSent := Sent(index, progress);
        }
      }
      again := store.isPlaying;
    }
  }

  // ---------------------------------------------------------------------------
  // Lyric list
  // ---------------------------------------------------------------------------

  /** How a line of the list is drawn: the active one as karaoke, the others
      statically, in the highlight colour iff they come before the active one. */
  datatype LineRole = Karaoke | Static(highlighted: bool)

  function LyricList(count: nat, activeIndex: int): (roles: seq<LineRole>)
    ensures |roles| == count
    ensures forall i :: 0 <= i < count ==> (roles[i].Karaoke? <==> i == activeIndex)
    ensures forall i :: 0 <= i < count && i != activeIndex ==> roles[i] == Static(i < activeIndex)
  {
    seq(count, i => if i == activeIndex then Karaoke else Static(i < activeIndex))
  }

  /** At most one karaoke line, and the highlighted lines are a prefix. */
  lemma LyricListShape(count: nat, activeIndex: int, i: nat, j: nat)
    requires i < j < count
    ensures !(LyricList(count, activeIndex)[i].Karaoke? && LyricList(count, activeIndex)[j].Karaoke?)
    ensures LyricList(count, activeIndex)[j] == Static(true) ==> LyricList(count, activeIndex)[i] == Static(true)
  {
  }

  // ---------------------------------------------------------------------------
  // Opening a file
  // ---------------------------------------------------------------------------

  /** The text after the last `/` (`path.split("/").pop()`). */
  function LastSegment(s: string): (r: string)
    ensures '/' !in r
    ensures |r| <= |s| && s[|s| - |r|..] == r
    ensures |r| < |s| ==> s[|s| - |r| - 1] == '/'
  {
    if |s| == 0 || s[|s| - 1] == '/' then []
    else LastSegment(s[..|s| - 1]) + [s[|s| - 1]]
  }

  /** Number of trailing characters that are neither `.` nor `/`. */
  function TailLen(s: string): (n: nat)
    ensures n <= |s|
    ensures forall k :: |s| - n <= k < |s| ==> s[k] != '.' && s[k] != '/'
    ensures n < |s| ==> s[|s| - n - 1] == '.' || s[|s| - n - 1] == '/'
  {
    if |s| == 0 || s[|s| - 1] == '.' || s[|s| - 1] == '/' then 0
    else TailLen(s[..|s| - 1]) + 1
  }

  /** Where `/\.[^/.]+$/` matches: a dot followed by a non-empty run free of `.` and
      `/` up to the end. No other position matches. */
  function ExtensionDot(s: string): (i: Option<nat>)
    ensures i.Some? ==> i.value + 1 < |s| && s[i.value] == '.'
    ensures i.Some? ==> forall k :: i.value < k < |s| ==> s[k] != '.' && s[k] != '/'
    ensures i.None? ==> forall d :: 0 <= d < |s| - 1 && s[d] == '.' ==>
                          exists k :: d < k < |s| && (s[k] == '.' || s[k] == '/')
  {
    var n := TailLen(s);
    if n >= 1 && n < |s| && s[|s| - n - 1] == '.' then Some(|s| - n - 1)
    else
      assert forall d :: 0 <= d < |s| - 1 && s[d] == '.' ==> d < |s| - n;
      None
  }

  /** The dialog's title fallback for a file with no usable name. */
  const UnknownTitle := "Êú™Áü•Ê≠åÊõ≤"
  const LocalArtist := "Êú¨Âú∞Èü≥Ê∫ê"

  /** The last segment with its extension removed (`replace(/\.[^/.]+$/, "")`). */
  function Stem(base: string): (stem: string)
    requires '/' !in base
    ensures '/' !in stem
    ensures |stem| <= |base| && base[..|stem|] == stem
  {
    var cut := if ExtensionDot(base).Some? then ExtensionDot(base).value else |base|;
    PrefixNoSlash(base, cut);
    base[..cut]
  }

  /** The title shown for an opened file: its last path segment without the
      extension, or the fallback when that is empty. */
  function DisplayName(path: string): (name: string)
    ensures name != []
    ensures '/' !in name
    ensures name == UnknownTitle || (|name| <= |LastSegment(path)| && LastSegment(path)[..|name|] == name)
  {
    var stem := Stem(LastSegment(path));
    if stem == [] then UnknownTitleUsable(); UnknownTitle else stem
  }

  lemma UnknownTitleUsable()
    ensures UnknownTitle != [] && '/' !in UnknownTitle
  {
    forall k | 0 <= k < |UnknownTitle| ensures UnknownTitle[k] != '/' {
    }
  }

  lemma PrefixNoSlash(s: string, i: nat)
    requires '/' !in s && i <= |s|
    ensures '/' !in s[..i]
  {
    forall k | 0 <= k < i ensures s[..i][k] != '/' {
      assert s[..i][k] == s[k];
    }
  }

  /** Round trip: a file `dir/stem.ext` is titled `stem`. */
  lemma DisplayNameOf(dir: string, stem: string, ext: string)
    requires stem != [] && '/' !in stem
    requires ext != [] && '/' !in ext && '.' !in ext
    ensures DisplayName(dir + "/" + stem + "." + ext) == stem
  {
    var base := stem + "." + ext;
    assert dir + "/" + stem + "." + ext == dir + "/" + base;
    LastSegmentOf(dir, base);
    ExtensionDotOf(stem, ext);
    assert base[..|stem|] == stem;
  }

  /** A last segment without a dot is the title as it stands. */
  lemma DisplayNameNoExtension(dir: string, stem: string)
    requires stem != [] && '/' !in stem && '.' !in stem
    ensures DisplayName(dir + "/" + stem) == stem
  {
    LastSegmentOf(dir, stem);
    TailLenAll(stem);
  }

  /** `dir/.ext` has an empty stem once the extension is removed: the fallback title. */
  lemma DisplayNameDotFile(dir: string, ext: string)
    requires ext != [] && '/' !in ext && '.' !in ext
    ensures DisplayName(dir + "/" + "." + ext) == UnknownTitle
  {
    var base := "." + ext;
    assert dir + "/" + "." + ext == dir + "/" + base;
    LastSegmentOf(dir, base);
    ExtensionDotOf([], ext);
    assert [] + "." + ext == base;
  }

  /** A path ending in `/` has an empty last segment: the fallback title. */
  lemma DisplayNameTrailingSlash(dir: string)
    ensures DisplayName(dir + "/") == UnknownTitle
  {
    LastSegmentOf(dir, []);
    assert dir + "/" + [] == dir + "/";
  }

  /** A text free of `.` and `/` is all tail. */
  lemma {:induction false} TailLenAll(s: string)
    requires '.' !in s && '/' !in s
    ensures TailLen(s) == |s|
    decreases |s|
  {
    if |s| > 0 {
      assert s[|s| - 1] in s;
      assert forall c :: c in s[..|s| - 1] ==> c in s;
      TailLenAll(s[..|s| - 1]);
    }
  }

  lemma ExtensionDotOf(stem: string, ext: string)
    requires ext != [] && '/' !in ext && '.' !in ext
    ensures ExtensionDot(stem + "." + ext) == Some(|stem|)
  {
    var base := stem + "." + ext;
    TailLenOf(stem, ext);
    assert base[|stem|] == '.';
  }

  lemma {:induction false} TailLenOf(stem: string, ext: string)
    requires '/' !in ext && '.' !in ext
    ensures TailLen(stem + "." + ext) == |ext|
    decreases |ext|
  {
    var s := stem + "." + ext;
    if |ext| > 0 {
      assert s[..|s| - 1] == stem + "." + ext[..|ext| - 1];
      assert s[|s| - 1] == ext[|ext| - 1];
      TailLenOf(stem, ext[..|ext| - 1]);
    } else {
      assert s[|s| - 1] == '.';
    }
  }

  lemma {:induction false} LastSegmentOf(dir: string, base: string)
    requires '/' !in base
    ensures LastSegment(dir + "/" + base) == base
    decreases |base|
  {
    var path := dir + "/" + base;
    if |base| == 0 {
      assert path[|path| - 1] == '/';
    } else {
      assert path[..|path| - 1] == dir + "/" + base[..|base| - 1];
      LastSegmentOf(dir, base[..|base| - 1]);
      assert base == base[..|base| - 1] + [base[|base| - 1]];
    }
  }

  /** A lyric file found beside the audio: where it is and what it holds. */
  datatype LyricFile = LyricFile(path: string, content: string)

  /** The audio file chosen in the open dialog. */
  datatype OpenedFile = OpenedFile(path: string, url: string)

  /** `path.toLowerCase().endsWith(".srt")`; only ASCII letters lower to `s`, `r`
      or `t`, so ASCII lower-casing decides it exactly. */
  predicate IsSrtPath(path: string) {
    |path| >= 4 && StartsAtNoCase(path, |path| - 4, ".srt")
  }

  /** The lyrics loaded with a track: parsed as SubRip or LRC by extension, none
      when no lyric file was found. */
  function LoadedLyrics(found: Option<LyricFile>): (ls: seq<LyricLine>)
    ensures found.None? ==> ls == []
    ensures found.Some? && IsSrtPath(found.value.path) ==> ls == SrtResult(found.value.content)
    ensures found.Some? && !IsSrtPath(found.value.path) ==> ls == LrcResult(found.value.content)
  {
    match found
    case None => []
    case Some(f) => if IsSrtPath(f.path) then SrtResult(f.content) else LrcResult(f.content)
  }

  /** Loaded lyrics are always time-sorted. */
  lemma LoadedLyricsSorted(found: Option<LyricFile>)
    ensures SortedByTime(LoadedLyrics(found))
  {
    if found.Some? {
      if IsSrtPath(found.value.path) {
        SrtResultProps(found.value.content);
      } else {
        LrcResultProps(found.value.content);
      }
    }
  }

  /** `handleOpenMusic`, with the dialog's answer, the matching lyric file and the
      saved playback position (ms) as parameters. Nothing happens when the dialog
      is cancelled. */
  method OpenMusic(store: Store, file: Option<OpenedFile>, found: Option<LyricFile>, lastPos: Option<int>)
    modifies store
    ensures file.None? ==> store.State() == old(store.State())
    ensures file.Some? ==> store.State() == old(store.State()).(
              audioPath := Some(file.value.url),
              musicInfo := MusicInfo(DisplayName(file.value.path), LocalArtist, None, None, None),
              isPlaying := false,
              currentTime := lastPos.GetOr(0),
              lyrics := LoadedLyrics(found))
  {
    if file.Some? {
      var name := DisplayName(file.value.path);
      store.SetAudio(file.value.url, MusicInfo(name, LocalArtist, None, None, None));
      var lyrics: seq<LyricLine> := [];
      if found.Some? {
        if IsSrtPath(found.value.path) {
          lyrics := ParseSrt(found.value.content);
        } else {
          lyrics := ParseLrc(found.value.content);
        }
      }
      store.SetLyrics(lyrics);
      if lastPos.Some? {
        store.SetCurrentTime(lastPos.value);
      }
    }
  }

  // ---------------------------------------------------------------------------
  // Seeking
  // ---------------------------------------------------------------------------

  lemma ScaleFraction(c: real, d: real)
    requires 0.0 <= c <= 1.0
    ensures d >= 0.0 ==> 0.0 <= c * d <= d
  {
    if d >= 0.0 {
      MulMono(c, 1.0, d);
      MulMono(0.0, c, d);
    }
  }

  /** Click position on the progress bar to media time: the fraction of the bar
      left of the click, clamped to [0, 1], times the duration. A bar of zero width
      yields NaN (None) for a click exactly on its left edge, which the media
      element rejects. */
  function SeekTime(clientX: real, left: real, width: real, duration: int): (r: Option<real>)
    requires width >= 0.0
    ensures width > 0.0 ==> r.Some?
    ensures r.Some? && duration >= 0 ==> 0.0 <= r.value <= duration as real
    ensures r.Some? && clientX <= left ==> r.value == 0.0
    ensures r.Some? && clientX >= left + width ==> r.value == duration as real
  {
    if width == 0.0 then
      if clientX > left then Some(duration as real)
      else if clientX < left then Some(0.0)
      else None
    else
      var f := (clientX - left) / width;
      ScaleCompare(f, 0.0, width);
      ScaleCompare(f, width, width);
      assert f * width == clientX - left;
      var c := Clamp01(f);
      ScaleFraction(c, duration as real);
      Some(c * duration as real)
  }
}
