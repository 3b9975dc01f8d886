/** The desktop overlay window: it receives the current line and its progress from
    the main window, keeps its own copy of the display settings, asks the main process
    to resize it when its content height changes, and draws each `\n`-separated
    sub-line with the same per-character fill rule as the main window. */
module LyricApp {
  import opened Wrappers
  import opened Text
  import opened Numeric
  import opened LyricLineView

  // ---------------------------------------------------------------------------
  // Lyric state and its reducer
  // ---------------------------------------------------------------------------

  datatype LyricData = LyricData(text: string, progress: real)

  const Placeholder := "桌面歌词准备就绪..."

  function InitialLyricData(): (d: LyricData)
    ensures d.text == Placeholder && d.progress == 0.0
  {
    LyricData(Placeholder, 0.0)
  }

  /** An `update-lyric` payload: a bare string or a `{text, progress}` object. */
  datatype Incoming = TextOnly(s: string) | Full(data: LyricData)

  /** A reducer either keeps the previous state object (no re-render) or replaces it. */
  datatype Update = Keep | Replace(next: LyricData)

  function Apply(prev: LyricData, u: Update): LyricData {
    match u
    case Keep => prev
    case Replace(next) => next
  }

  /** The `setLyricData` reducer. A bare string shows that text from progress 0,
      keeping the state when it already is exactly that; an object keeps the state
      when its text is the same and its progress within 0.001, and replaces it
      otherwise. */
  function Reduce(prev: LyricData, msg: Incoming): (u: Update)
    ensures msg.TextOnly? ==> Apply(prev, u) == LyricData(msg.s, 0.0)
    ensures msg.TextOnly? ==> (u == Keep <==> prev == LyricData(msg.s, 0.0))
    ensures msg.Full? ==> (u == Keep <==> prev.text == msg.data.text && RealAbs(prev.progress - msg.data.progress) < 0.001)
    ensures msg.Full? && u != Keep ==> u == Replace(msg.data)
  {
    match msg
    case TextOnly(s) =>
      if prev.text == s && prev.progress == 0.0 then Keep else Replace(LyricData(s, 0.0))
    case Full(data) =>
      if prev.text == data.text && RealAbs(prev.progress - data.progress) < 0.001 then Keep
      else Replace(data)
  }

  /** After any message the state shows its text, within 0.001 of its progress. */
  lemma ReduceTracksMessage(prev: LyricData, d: LyricData)
    ensures Apply(prev, Reduce(prev, Full(d))).text == d.text
    ensures RealAbs(Apply(prev, Reduce(prev, Full(d))).progress - d.progress) < 0.001
  {
  }

  /** Delivering the same message again changes nothing. */
  lemma ReduceIdempotent(prev: LyricData, msg: Incoming)
    ensures Reduce(Apply(prev, Reduce(prev, msg)), msg) == Keep
  {
    if msg.Full? {
      var u := Reduce(prev, msg);
      if u != Keep {
        assert Apply(prev, u) == msg.data;
        assert RealAbs(msg.data.progress - msg.data.progress) == 0.0;
      }
    }
  }

  // ---------------------------------------------------------------------------
  // Settings
  // ---------------------------------------------------------------------------

  /** A settings value as it arrives over IPC. */
  datatype Value = Num(n: real) | Str(s: string) | Flag(b: bool)

  /** The settings object, keyed by property name. */
  type OverlaySettings = map<string, Value>

  function InitialSettings(): (s: OverlaySettings)
    ensures s.Keys == {"fontSize", "color", "activeColor", "backgroundColor", "glowColor"}
    ensures s["fontSize"] == Num(32.0) && s["backgroundColor"] == Str("rgba(0, 0, 0, 0.3)")
  {
    map["fontSize" := Num(32.0), "color" := Str("#ffffff"), "activeColor" := Str("#ffeb3b"),
        "backgroundColor" := Str("rgba(0, 0, 0, 0.3)"), "glowColor" := Str("rgba(0,0,0,0.8)")]
  }

  /** `{...prev, ...incoming}`: every incoming key wins, every other key is kept. */
  function MergeSettings(prev: OverlaySettings, incoming: OverlaySettings): (r: OverlaySettings)
    ensures r.Keys == prev.Keys + incoming.Keys
    ensures forall k :: k in incoming ==> r[k] == incoming[k]
    ensures forall k :: k in prev && k !in incoming ==> r[k] == prev[k]
  {
    prev + incoming
  }

  /** Merging the same settings twice equals merging them once. */
  lemma MergeSettingsIdempotent(prev: OverlaySettings, incoming: OverlaySettings)
    ensures MergeSettings(MergeSettings(prev, incoming), incoming) == MergeSettings(prev, incoming)
  {
  }

  // ---------------------------------------------------------------------------
  // Window height
  // ---------------------------------------------------------------------------

  /** The window height for a content height: 24 px of padding, rounded up. */
  function TargetHeight(contentHeight: real): (h: int)
    ensures contentHeight + 24.0 <= h as real < contentHeight + 25.0
  {
    Ceil(contentHeight + 24.0)
  }

  /** The height to request from the main process, if the target moved by more
      than 3 px from the last one requested. */
  function ResizeRequest(last: int, contentHeight: real): (r: Option<int>)
    ensures r.Some? <==> IntAbs(TargetHeight(contentHeight) - last) > 3
    ensures r.Some? ==> r.value == TargetHeight(contentHeight)
  {
    var target := TargetHeight(contentHeight);
    if IntAbs(target - last) > 3 then Some(target) else None
  }

  class HeightTracker {
    var lastHeight: int

    constructor ()
      ensures lastHeight == 0
    {
      lastHeight := 0;
    }

    /** `updateWindowHeight`: the last height changes only when a request is sent. */
    method UpdateWindowHeight(contentHeight: real) returns (sent: Option<int>)
      modifies this
      ensures sent == ResizeRequest(old(lastHeight), contentHeight)
      ensures lastHeight == if sent.Some? then sent.value else old(lastHeight)
    {
      var targetHeight := Ceil(contentHeight + 24.0);
      sent := None;
      if IntAbs(targetHeight - lastHeight) > 3 {
        sent := Some(targetHeight);
        lastHeight := targetHeight;
      }
    }
  }

  /** Once a height has been requested, the same content height asks for nothing. */
  lemma ResizeSettles(last: int, contentHeight: real)
    ensures var next := match ResizeRequest(last, contentHeight) case Some(h) => h case None => last;
            ResizeRequest(next, contentHeight) == None
  {
  }

  // ---------------------------------------------------------------------------
  // Drawing
  // ---------------------------------------------------------------------------

  /** The characters of each word of a karaoke sub-line; the same spans the main
      window draws, without the focus scale and word colour. */
  function OverlayWords(text: string, p: real): (words: seq<seq<CharView>>)
    ensures |words| == |SplitWords(text)|
  {
    CharsOf(LineView(text, p))
  }

  /** The characters of each word span. */
  function CharsOf(views: seq<WordView>): (words: seq<seq<CharView>>)
    ensures |words| == |views|
    ensures forall k :: 0 <= k < |views| ==> words[k] == views[k].chars
  {
    seq(|views|, k requires 0 <= k < |views| => views[k].chars)
  }

  /** The overlay spans spell the sub-line, character `i` carrying fill
      `CharFill(i, text.length || 1, p)`. */
  lemma OverlayWordsChars(text: string, p: real)
    ensures Flatten(OverlayWords(text, p)) == CharsFrom(text, 0, Total(text), p)
  {
    var views := LineView(text, p);
    FlattenChars(views);
    LineViewChars(text, p);
  }

  function Flatten(words: seq<seq<CharView>>): seq<CharView> {
    if |words| == 0 then [] else words[0] + Flatten(words[1..])
  }

  lemma {:induction false} FlattenChars(views: seq<WordView>)
    ensures Flatten(CharsOf(views)) == FlatChars(views)
  {
    if |views| > 0 {
      FlattenChars(views[1..]);
      assert CharsOf(views)[1..] == CharsOf(views[1..]);
    }
  }

  /** `renderKaraokeLine`: split the sub-line into words and draw them. */
  method RenderKaraokeLine(text: string, progress: real) returns (words: seq<seq<CharView>>)
    ensures words == OverlayWords(text, progress)
  {
    var parts := SplitWords(text);
    var totalChars := Total(text);
    words := RenderWords(parts, totalChars, progress);
  }

  /** The loop over the words: each word is drawn at the running character offset,
      which then advances by the word's character count. */
  method RenderWords(parts: seq<string>, totalChars: nat, progress: real) returns (words: seq<seq<CharView>>)
    requires totalChars >= 1
    ensures words == CharsOf(ViewsFrom(parts, 0, totalChars, progress))
  {
    var charIndexOffset: nat := 0;
    ghost var target := CharsOf(ViewsFrom(parts, 0, totalChars, progress));
    words := [];
    for k := 0 to |parts|
      invariant words == target[..k]
      invariant charIndexOffset == |Concat(parts[..k])|
    {
      ViewsFromAt(parts, 0, totalChars, progress, k);
      ConcatPrefixStep(parts, k);
      var wordChars := RenderWordChars(parts[k], charIndexOffset, totalChars, progress);
      WordsSnoc(target, k);
      words := words + [wordChars];
      charIndexOffset := charIndexOffset + |parts[k]|;
    }
    WordsAll(target);
  }

  lemma WordsSnoc(t: seq<seq<CharView>>, k: nat)
    requires k < |t|
    ensures t[..k] + [t[k]] == t[..k + 1]
  {
  }

  lemma WordsAll(t: seq<seq<CharView>>)
    ensures t[..|t|] == t
  {
  }

  /** The loop over one word's characters: the fill of line offset `offset + i`,
      computed as 1 past the character's interval, 0 before it, linear inside. */
  method RenderWordChars(word: string, offset: nat, totalChars: nat, progress: real)
    returns (wordChars: seq<CharView>)
    requires totalChars >= 1
    ensures wordChars == WordAt(word, offset, totalChars, progress).chars
  {
    ghost var target := WordAt(word, offset, totalChars, progress).chars;
    wordChars := [];
    for i := 0 to |word|
      invariant wordChars == target[..i]
    {
      var globalIdx := offset + i;
      var charStart := globalIdx as real / totalChars as real;
      var charEnd := (globalIdx + 1) as real / totalChars as real;
      IntervalOrdered(globalIdx, totalChars);
      var charProgress := 0.0;
      if progress >= charEnd {
        charProgress := 1.0;
      } else if progress <= charStart {
        charProgress := 0.0;
      } else {
        charProgress := (progress - charStart) / (charEnd - charStart);
      }
      assert target[i] == CharView(word[i], CharFill(globalIdx, totalChars, progress));
      wordChars := wordChars + [CharView(word[i], charProgress)];
    }
  }

  /** One drawn sub-line: its font size and its word spans. */
  datatype OverlayLine = OverlayLine(fontSize: real, words: seq<seq<CharView>>)

  /** The first sub-line is drawn at the full font size, the others at 0.7 of it. */
  function SubLineFontSize(idx: nat, fontSize: real): (f: real)
    ensures idx == 0 ==> f == fontSize
    ensures idx > 0 ==> f == fontSize * 0.7
    ensures idx > 0 && fontSize > 0.0 ==> 0.0 < f < fontSize
  {
    if idx == 0 then fontSize else fontSize * 0.7
  }

  /** The whole overlay: the text split on `\n`, every sub-line drawn with the same
      progress. */
  method RenderOverlay(data: LyricData, fontSize: real) returns (lines: seq<OverlayLine>)
    ensures |lines| == |SplitOn(data.text, '\n')|
    ensures forall idx :: 0 <= idx < |lines| ==>
              lines[idx] == OverlayLine(SubLineFontSize(idx, fontSize),
                                        OverlayWords(SplitOn(data.text, '\n')[idx], data.progress))
  {
    var subLines := SplitOn(data.text, '\n');
    lines := [];
    for idx := 0 to |subLines|
      invariant |lines| == idx
      invariant forall j :: 0 <= j < idx ==>
                  lines[j] == OverlayLine(SubLineFontSize(j, fontSize), OverlayWords(subLines[j], data.progress))
    {
      var isMain := idx == 0;
      var words := RenderKaraokeLine(subLines[idx], data.progress);
      lines := lines + [OverlayLine(if isMain then fontSize else fontSize * 0.7, words)];
    }
  }
}
