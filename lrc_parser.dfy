/** The two subtitle parsers of the player: SubRip (`.srt`) and LRC. Both turn the
    text of a lyric file into a time-sorted sequence of LyricLine. All times are
    integer milliseconds, so `h*3600 + m*60 + s + ms/1000` seconds becomes
    `h*3600000 + m*60000 + s*1000 + ms` and the 0.01-second dedup key becomes `time / 10`.
    The regular expressions of the source are written out as recognisers; for each of
    them the greedy choices are forced (a digit is never a `:` or a `]`, a `-` is never
    white space), so matching at a position is deterministic. */
module LrcParser {
  import opened Wrappers
  import opened Text
  import opened Sorting

  /** A lyric line: start time, optional end time (SRT only), text. */
  datatype LyricLine = LyricLine(time: int, endTime: Option<int>, text: string)

  /** A timestamp recognised at some position: its value and the index just after it. */
  datatype Stamp = Stamp(ms: nat, end: nat)

  function Num2(s: string, i: nat): nat
    requires i + 2 <= |s| && IsDigit(s[i]) && IsDigit(s[i + 1])
  {
    DigitValue(s[i]) * 10 + DigitValue(s[i + 1])
  }

  function Num3(s: string, i: nat): nat
    requires i + 3 <= |s| && IsDigit(s[i]) && IsDigit(s[i + 1]) && IsDigit(s[i + 2])
  {
    DigitValue(s[i]) * 100 + DigitValue(s[i + 1]) * 10 + DigitValue(s[i + 2])
  }

  // ---------------------------------------------------------------------------
  // SRT timestamps: \d{1,2}:\d{2}:\d{2}[,.]\d{3}
  // ---------------------------------------------------------------------------

  /** The rest of an SRT timestamp after its hour digits, starting at the `:`. */
  predicate SrtTail(s: string, p: nat) {
    p + 10 <= |s| && s[p] == ':' && IsDigit(s[p + 1]) && IsDigit(s[p + 2]) && s[p + 3] == ':' &&
    IsDigit(s[p + 4]) && IsDigit(s[p + 5]) && (s[p + 6] == ',' || s[p + 6] == '.') &&
    IsDigit(s[p + 7]) && IsDigit(s[p + 8]) && IsDigit(s[p + 9])
  }

  /** The timestamp pattern anchored at `i`. Two hour digits are taken when present:
      with a digit at `i + 1` the one-digit alternative would need a `:` there. */
  function SrtStampAt(s: string, i: nat): (m: Option<Stamp>)
    ensures m.Some? ==> i + 11 <= m.value.end <= |s|
  {
    if i >= |s| || !IsDigit(s[i]) then None
    else
      var wide := i + 1 < |s| && IsDigit(s[i + 1]);
      var p := if wide then i + 2 else i + 1;
      if !SrtTail(s, p) then None
      else
        var hours := if wide then Num2(s, i) else DigitValue(s[i]);
        Some(Stamp(hours * 3600000 + Num2(s, p + 1) * 60000 + Num2(s, p + 4) * 1000 + Num3(s, p + 7), p + 10))
  }

  /** Leftmost timestamp at or after `i` (what `String.prototype.match` finds). */
  function FirstSrtStamp(s: string, i: nat): (m: Option<Stamp>)
    ensures m.None? ==> forall k :: i <= k ==> SrtStampAt(s, k).None?
    ensures m.Some? ==> exists k :: (i <= k < |s| && SrtStampAt(s, k) == m &&
      forall j :: i <= j < k ==> SrtStampAt(s, j).None?)
    decreases |s| - i
  {
    if i >= |s| then None
    else if SrtStampAt(s, i).Some? then SrtStampAt(s, i)
    else FirstSrtStamp(s, i + 1)
  }

  /** `parseSrtTime`: the value of the first timestamp in the text, or 0 without one. */
  function ParseSrtTime(s: string): (ms: nat)
    ensures (forall k :: 0 <= k ==> SrtStampAt(s, k).None?) ==> ms == 0
    ensures SrtStampAt(s, 0).Some? ==> ms == SrtStampAt(s, 0).value.ms
  {
    match FirstSrtStamp(s, 0)
    case Some(st) => st.ms
    case None => 0
  }

  /** The text of an SRT timestamp `H:MM:SS,mmm` (one hour digit) or `HH:MM:SS,mmm`. */
  function SrtStampText(h: nat, m: nat, sec: nat, ms: nat, sep: char): string
    requires h < 100 && m < 100 && sec < 100 && ms < 1000
  {
    (if h < 10 then [Digit(h)] else [Digit(h / 10), Digit(h % 10)]) +
    [':', Digit(m / 10), Digit(m % 10), ':', Digit(sec / 10), Digit(sec % 10), sep,
     Digit(ms / 100), Digit(ms / 10 % 10), Digit(ms % 10)]
  }

  function Digit(d: nat): (c: char)
    requires d < 10
    ensures IsDigit(c) && DigitValue(c) == d
  {
    ('0' as int + d) as char
  }

  /** parseSrtTime reads back the hours, minutes, seconds and milliseconds of a
      well-formed timestamp, with either separator. */
  lemma ParseSrtTimeOfStamp(h: nat, m: nat, sec: nat, ms: nat, sep: char)
    requires h < 100 && m < 100 && sec < 100 && ms < 1000
    requires sep == ',' || sep == '.'
    ensures ParseSrtTime(SrtStampText(h, m, sec, ms, sep)) == h * 3600000 + m * 60000 + sec * 1000 + ms
  {
    var s := SrtStampText(h, m, sec, ms, sep);
    var p := if h < 10 then 1 else 2;
    assert SrtTail(s, p);
    Num2Of(s, p + 1, m);
    Num2Of(s, p + 4, sec);
    Num3Of(s, p + 7, ms);
    if h >= 10 {
      Num2Of(s, 0, h);
    }
    assert SrtStampAt(s, 0).Some?;
  }

  lemma Num2Of(s: string, i: nat, v: nat)
    requires v < 100 && i + 2 <= |s|
    requires s[i] == Digit(v / 10) && s[i + 1] == Digit(v % 10)
    ensures Num2(s, i) == v
  {
  }

  lemma Num3Of(s: string, i: nat, v: nat)
    requires v < 1000 && i + 3 <= |s|
    requires s[i] == Digit(v / 100) && s[i + 1] == Digit(v / 10 % 10) && s[i + 2] == Digit(v % 10)
    ensures Num3(s, i) == v
  {
  }

  /** A timestamp recognised inside a longer text is recognised the same way in the
      substring a capture group hands to parseSrtTime. */
  lemma StampInSlice(s: string, i: nat)
    requires SrtStampAt(s, i).Some?
    ensures SrtStampAt(s[i..SrtStampAt(s, i).value.end], 0) == Some(Stamp(SrtStampAt(s, i).value.ms, SrtStampAt(s, i).value.end - i))
  {
    var t := s[i..SrtStampAt(s, i).value.end];
    var p := if IsDigit(s[i + 1]) then 2 else 1;
    assert SrtTail(t, p);
  }

  // ---------------------------------------------------------------------------
  // SRT timing lines: stamp \s* --> \s* stamp
  // ---------------------------------------------------------------------------

  /** The two capture groups of the timing-line pattern. */
  datatype Timing = Timing(start: string, end: string)

  function TimingAt(s: string, i: nat): Option<Timing> {
    match SrtStampAt(s, i)
    case None => None
    case Some(st1) => ArrowAndStamp(s, i, st1.end)
  }

  /** The rest of a timing match whose first stamp spans `s[i..e1]`: `\s*-->\s*` and
      the second stamp. */
  function ArrowAndStamp(s: string, i: nat, e1: nat): Option<Timing>
    requires i <= e1 <= |s|
  {
    var a := SkipSpaces(s, e1);
    if !StartsAt(s, a, "-->") then None
    else
      var b := SkipSpaces(s, a + 3);
      match SrtStampAt(s, b)
      case None => None
      case Some(st2) => Some(Timing(s[i..e1], s[b..st2.end]))
  }

  /** Leftmost timing match in a line; `test` succeeds exactly when this is Some. */
  function FindTiming(s: string, i: nat): (t: Option<Timing>)
    ensures t.None? ==> forall k :: i <= k ==> TimingAt(s, k).None?
    decreases |s| - i
  {
    if i >= |s| then None
    else if TimingAt(s, i).Some? then TimingAt(s, i)
    else FindTiming(s, i + 1)
  }

  /** A reported timing match is the one at the first position from `i` that has one. */
  lemma {:induction false} FindTimingLeftmost(s: string, i: nat)
    requires FindTiming(s, i).Some?
    ensures exists k :: (i <= k < |s| && TimingAt(s, k) == FindTiming(s, i) &&
      forall j :: i <= j < k ==> TimingAt(s, j).None?)
    decreases |s| - i
  {
    if TimingAt(s, i).None? {
      FindTimingLeftmost(s, i + 1);
      var k :| i + 1 <= k < |s| && TimingAt(s, k) == FindTiming(s, i + 1) &&
        forall j :: i + 1 <= j < k ==> TimingAt(s, j).None?;
      assert TimingAt(s, k) == FindTiming(s, i);
    } else {
      assert TimingAt(s, i) == FindTiming(s, i);
    }
  }

  /** The start and end capture groups parse to the values recognised in the line. */
  lemma {:induction false} FindTimingValues(s: string, i: nat)
    requires FindTiming(s, i).Some?
    ensures exists k: nat, b: nat ::
      (i <= k && SrtStampAt(s, k).Some? && SrtStampAt(s, b).Some? &&
       FindTiming(s, i).value.start == s[k..SrtStampAt(s, k).value.end] &&
       FindTiming(s, i).value.end == s[b..SrtStampAt(s, b).value.end])
    decreases |s| - i
  {
    if TimingAt(s, i).None? {
      assert FindTiming(s, i) == FindTiming(s, i + 1);
      FindTimingValues(s, i + 1);
    } else {
      assert FindTiming(s, i) == TimingAt(s, i);
      var b := TimingAtValues(s, i);
    }
  }

  /** The capture groups of a timing match at `i` are the stamp recognised at `i`
      and the one recognised at the returned position `b`. */
  lemma TimingAtValues(s: string, i: nat) returns (b: nat)
    requires TimingAt(s, i).Some?
    ensures SrtStampAt(s, i).Some? && SrtStampAt(s, b).Some?
    ensures TimingAt(s, i).value.start == s[i..SrtStampAt(s, i).value.end]
    ensures TimingAt(s, i).value.end == s[b..SrtStampAt(s, b).value.end]
  {
    var e1 := SrtStampAt(s, i).value.end;
    assert TimingAt(s, i) == ArrowAndStamp(s, i, e1);
    b := ArrowAndStampValues(s, i, e1);
  }

  lemma ArrowAndStampValues(s: string, i: nat, e1: nat) returns (b: nat)
    requires i <= e1 <= |s| && ArrowAndStamp(s, i, e1).Some?
    ensures SrtStampAt(s, b).Some?
    ensures ArrowAndStamp(s, i, e1).value.start == s[i..e1]
    ensures ArrowAndStamp(s, i, e1).value.end == s[b..SrtStampAt(s, b).value.end]
  {
    var a := SkipSpaces(s, e1);
    assert a + 3 <= |s| by {
      assert StartsAt(s, a, "-->");
    }
    b := SkipSpaces(s, a + 3);
    var st2 := SrtStampAt(s, b).value;
    assert ArrowAndStamp(s, i, e1) == Some(Timing(s[i..e1], s[b..st2.end]));
  }

  /** Each side of a timing line is parsed to the value recognised there. */
  lemma TimingStartValue(s: string, k: nat)
    requires SrtStampAt(s, k).Some?
    ensures ParseSrtTime(s[k..SrtStampAt(s, k).value.end]) == SrtStampAt(s, k).value.ms
  {
    StampInSlice(s, k);
  }

  // ---------------------------------------------------------------------------
  // SRT text cleanup
  // ---------------------------------------------------------------------------

  /** `.replace(/<[^>]*>/g, '')`: a `<` up to the next `>` is removed; a `<` with no
      `>` after it stays. */
  function StripTags(s: string): (r: string)
    ensures |r| <= |s|
    decreases |s|
  {
    if |s| == 0 then []
    else if s[0] == '<' && '>' in s[1..] then StripTags(s[FirstIndexOf(s[1..], '>') + 2..])
    else [s[0]] + StripTags(s[1..])
  }

  /** After tag removal no `<` is followed, anywhere later, by a `>`. */
  lemma {:induction false} StripTagsLeavesNoTag(s: string)
    ensures forall i, j :: 0 <= i < j < |StripTags(s)| && StripTags(s)[i] == '<' ==> StripTags(s)[j] != '>'
    ensures forall c :: c in StripTags(s) ==> c in s
    decreases |s|
  {
    if |s| > 0 {
      if s[0] == '<' && '>' in s[1..] {
        var k := FirstIndexOf(s[1..], '>') + 2;
        StripTagsLeavesNoTag(s[k..]);
        forall c | c in StripTags(s[k..]) ensures c in s {
          var m :| 0 <= m < |s[k..]| && s[k..][m] == c;
          assert s[k + m] == c;
        }
      } else {
        var rest := StripTags(s[1..]);
        StripTagsLeavesNoTag(s[1..]);
        forall c | c in rest ensures c in s {
          var m :| 0 <= m < |s[1..]| && s[1..][m] == c;
          assert s[1 + m] == c;
        }
        assert s[0] == '<' ==> '>' !in rest;
        var r := [s[0]] + rest;
        assert r == StripTags(s);
        forall i, j | 0 <= i < j < |r| && r[i] == '<' ensures r[j] != '>' {
          assert r[j] == rest[j - 1];
          if i > 0 {
            assert r[i] == rest[i - 1];
          }
        }
        forall c | c in r ensures c in s {
          if c != s[0] {
            assert c in rest;
          }
        }
      }
    }
  }

  /** The six entity replacements, in the order the source applies them. */
  function DecodeEntities(s: string): string {
    var a := ReplaceAll(s, "&nbsp;", " ");
    var b := ReplaceAll(a, "&amp;", "&");
    var c := ReplaceAll(b, "&lt;", "<");
    var d := ReplaceAll(c, "&gt;", ">");
    var e := ReplaceAll(d, "&quot;", "\"");
    ReplaceAll(e, "&#39;", "'")
  }

  /** Text of an SRT entry: tags removed, entities decoded, trimmed. */
  function CleanText(s: string): (r: string)
    ensures r == [] || (!IsSpace(r[0]) && !IsSpace(r[|r| - 1]))
  {
    Trim(DecodeEntities(StripTags(s)))
  }

  // ---------------------------------------------------------------------------
  // SRT blocks
  // ---------------------------------------------------------------------------

  /** Index of the last `\n` in `s[lo..hi]`, if any. */
  function LastNewline(s: string, lo: nat, hi: nat): (j: Option<nat>)
    requires lo <= hi <= |s|
    ensures j.Some? ==> lo <= j.value < hi && s[j.value] == '\n'
    ensures j.None? ==> forall k :: lo <= k < hi ==> s[k] != '\n'
    ensures j.Some? ==> forall k :: j.value < k < hi ==> s[k] != '\n'
    decreases hi - lo
  {
    if hi == lo then None
    else if s[hi - 1] == '\n' then Some(hi - 1)
    else LastNewline(s, lo, hi - 1)
  }

  /** `\n\s*\n` anchored at `i`: greedy `\s*` gives back characters until the last
      newline of the white-space run can close the match. The end of the match. */
  function SeparatorAt(s: string, i: nat): (e: Option<nat>)
    ensures e.Some? ==> i + 2 <= e.value <= |s|
  {
    if i >= |s| || s[i] != '\n' then None
    else
      var k := SkipSpaces(s, i + 1);
      match LastNewline(s, i + 1, k)
      case None => None
      case Some(j) => Some(j + 1)
  }

  /** `s.split(/\n\s*\n/)`, scanning for the separator from `q`; `p` is where the
      current piece started. */
  function SplitBlocksFrom(s: string, p: nat, q: nat): (blocks: seq<string>)
    requires p <= q <= |s|
    ensures |blocks| >= 1
    decreases |s| - q
  {
    if q >= |s| then [s[p..]]
    else match SeparatorAt(s, q)
      case Some(e) => [s[p..q]] + SplitBlocksFrom(s, e, e)
      case None => SplitBlocksFrom(s, p, q + 1)
  }

  /** No block that the split produces contains a separator: every `\n\s*\n` of the
      text was cut at. */
  lemma {:induction false} SplitBlocksNoSeparator(s: string, p: nat, q: nat)
    requires p <= q <= |s|
    requires forall k :: p <= k < q ==> SeparatorAt(s, k).None?
    ensures forall m, k :: 0 <= m < |SplitBlocksFrom(s, p, q)| ==> SeparatorAt(SplitBlocksFrom(s, p, q)[m], k).None?
    decreases |s| - q
  {
    var blocks := SplitBlocksFrom(s, p, q);
    if q >= |s| {
      forall m, k | 0 <= m < |blocks| ensures SeparatorAt(blocks[m], k).None? {
        assert blocks[m] == s[p..] == s[p..|s|];
        if SeparatorAt(s[p..|s|], k).Some? {
          SeparatorInSlice(s, p, |s|, k);
        }
      }
    } else {
      match SeparatorAt(s, q)
      case Some(e) =>
        SplitBlocksNoSeparator(s, e, e);
        forall m, k | 0 <= m < |blocks| ensures SeparatorAt(blocks[m], k).None? {
          if m == 0 {
            if SeparatorAt(s[p..q], k).Some? {
              SeparatorInSlice(s, p, q, k);
            }
          } else {
            assert blocks[m] == SplitBlocksFrom(s, e, e)[m - 1];
          }
        }
      case None =>
        SplitBlocksNoSeparator(s, p, q + 1);
    }
  }

  /** A separator inside a slice is one in the whole text: the white space run only
      grows. */
  lemma SeparatorInSlice(s: string, a: nat, b: nat, k: nat)
    requires a <= b <= |s|
    requires SeparatorAt(s[a..b], k).Some?
    ensures SeparatorAt(s, a + k).Some?
  {
    var t := s[a..b];
    var kk := SkipSpaces(t, k + 1);
    var j := LastNewline(t, k + 1, kk).value;
    assert s[a + k] == t[k] == '\n';
    var u := s[a + k + 1..a + kk];
    assert AllSpace(u) by {
      forall i | 0 <= i < |u| ensures IsSpace(u[i]) {
        assert t[k + 1..kk][i] == t[k + 1 + i] == s[a + k + 1 + i] == u[i];
      }
    }
    SkipSpacesAtLeast(s, a + k + 1, a + kk);
    assert s[a + j] == '\n';
  }

  /** `\s*` skips at least a run of white space that starts where it starts. */
  lemma {:induction false} SkipSpacesAtLeast(s: string, i: nat, j: nat)
    requires i <= j <= |s|
    requires AllSpace(s[i..j])
    ensures SkipSpaces(s, i) >= j
    decreases j - i
  {
    if i < j {
      assert IsSpace(s[i..j][0]);
      assert s[i + 1..j] == s[i..j][1..];
      SkipSpacesAtLeast(s, i + 1, j);
    }
  }

  /** Blocks that hold something besides white space. */
  function NonBlankBlocks(blocks: seq<string>): (r: seq<string>)
    ensures forall k :: 0 <= k < |r| ==> Trim(r[k]) != []
  {
    if |blocks| == 0 then []
    else if Trim(blocks[0]) != [] then [blocks[0]] + NonBlankBlocks(blocks[1..])
    else NonBlankBlocks(blocks[1..])
  }

  /** `block.split('\n').map(trim).filter(line => line)`. */
  function TrimmedLines(lines: seq<string>): (r: seq<string>)
    ensures forall k :: 0 <= k < |r| ==> r[k] != []
  {
    if |lines| == 0 then []
    else if Trim(lines[0]) != [] then [Trim(lines[0])] + TrimmedLines(lines[1..])
    else TrimmedLines(lines[1..])
  }

  /** First line (index and capture groups) that holds a timing. */
  function FirstTimingLine(lines: seq<string>, i: nat): (r: Option<(nat, Timing)>)
    ensures r.Some? ==> i <= r.value.0 < |lines| && FindTiming(lines[r.value.0], 0) == Some(r.value.1)
    ensures r.Some? ==> forall k :: i <= k < r.value.0 ==> FindTiming(lines[k], 0).None?
    ensures r.None? ==> forall k :: i <= k < |lines| ==> FindTiming(lines[k], 0).None?
    decreases |lines| - i
  {
    if i >= |lines| then None
    else match FindTiming(lines[i], 0)
      case Some(t) => Some((i, t))
      case None => FirstTimingLine(lines, i + 1)
  }

  /** The entry one SRT block contributes, if any. */
  function BlockEntry(block: string): (r: Option<LyricLine>)
    ensures r.Some? ==> r.value.endTime.Some? && r.value.text != [] && r.value.time >= 0
  {
    CueEntry(TrimmedLines(SplitOn(block, '\n')))
  }

  /** The entry of a block from its trimmed non-empty lines. It exists exactly when
      some line holds a timing and the lines after the first such line clean up to a
      non-empty text; it then starts at the first captured stamp, ends at the second
      and carries that text. */
  function CueEntry(lines: seq<string>): (r: Option<LyricLine>)
    ensures r.Some? <==>
              (FirstTimingLine(lines, 0).Some? && FirstTimingLine(lines, 0).value.0 + 1 < |lines| &&
               CleanText(Join(lines[FirstTimingLine(lines, 0).value.0 + 1..], "\n")) != [])
    ensures r.Some? ==>
              FirstTimingLine(lines, 0).Some? && FirstTimingLine(lines, 0).value.0 + 1 < |lines| &&
              r.value == LyricLine(ParseSrtTime(FirstTimingLine(lines, 0).value.1.start),
                                   Some(ParseSrtTime(FirstTimingLine(lines, 0).value.1.end)),
                                   CleanText(Join(lines[FirstTimingLine(lines, 0).value.0 + 1..], "\n")))
  {
    if |lines| < 2 then None
    else match FirstTimingLine(lines, 0)
      case None => None
      case Some((k, t)) =>
        var textLines := lines[k + 1..];
        if |textLines| == 0 then None
        else
          var text := CleanText(Join(textLines, "\n"));
          if text == [] then None
          else Some(LyricLine(ParseSrtTime(t.start), Some(ParseSrtTime(t.end)), text))
  }

  /** A whole timestamp text is recognised, with the same value, wherever it occurs. */
  lemma StampOfWhole(a: string, s: string, k: nat)
    requires SrtStampAt(a, 0).Some? && SrtStampAt(a, 0).value.end == |a|
    requires k + |a| <= |s| && s[k..k + |a|] == a
    ensures SrtStampAt(s, k) == Some(Stamp(SrtStampAt(a, 0).value.ms, k + |a|))
  {
    forall t | 0 <= t < |a| ensures s[k + t] == a[t] {
      assert s[k..k + |a|][t] == s[k + t];
    }
    var p := if IsDigit(a[1]) then 2 else 1;
    assert SrtTail(s, k + p);
  }

  /** A timestamp text holds no white space and no line break. */
  lemma StampNoSpace(a: string)
    requires SrtStampAt(a, 0).Some? && SrtStampAt(a, 0).value.end == |a|
    ensures forall t :: 0 <= t < |a| ==> !IsSpace(a[t]) && a[t] != '\n'
  {
    forall t | 0 <= t < |a| ensures !IsSpace(a[t]) && a[t] != '\n' {
      StampChar(a, t);
    }
  }

  lemma StampChar(a: string, t: nat)
    requires SrtStampAt(a, 0).Some? && SrtStampAt(a, 0).value.end == |a| && t < |a|
    ensures IsDigit(a[t]) || a[t] == ':' || a[t] == ',' || a[t] == '.'
  {
    var p := if IsDigit(a[1]) then 2 else 1;
    if t >= p {
      var d := t - p;
      assert d == 0 || d == 1 || d == 2 || d == 3 || d == 4 || d == 5 || d == 6 || d == 7 || d == 8 || d == 9;
      assert a[t] == a[p + d];
    }
  }

  /** A line of digits (an SRT cue number) holds no timing. */
  lemma DigitsHoldNoTiming(n: string, i: nat)
    requires forall t :: 0 <= t < |n| ==> IsDigit(n[t])
    ensures FindTiming(n, i).None?
    decreases |n| - i
  {
    if i < |n| {
      assert SrtStampAt(n, i).None? by {
        var p := if i + 1 < |n| && IsDigit(n[i + 1]) then i + 2 else i + 1;
        assert p < |n| ==> n[p] != ':';
      }
      DigitsHoldNoTiming(n, i + 1);
    }
  }

  /** The timing line `a --> b` of two whole timestamps yields `a` and `b` as its groups. */
  lemma TimingLineOf(a: string, b: string)
    requires SrtStampAt(a, 0).Some? && SrtStampAt(a, 0).value.end == |a|
    requires SrtStampAt(b, 0).Some? && SrtStampAt(b, 0).value.end == |b|
    ensures FindTiming(a + " --> " + b, 0) == Some(Timing(a, b))
  {
    var line := a + " --> " + b;
    var n := |a|;
    StampsOfLine(a, b);
    ArrowOfLine(a, b);
    TimingAtOf(line, 0, n, n + 1, n + 5, |line|);
    PartsOfLine(a, b);
  }

  lemma PartsOfLine(a: string, b: string)
    ensures (a + " --> " + b)[0..|a|] == a
    ensures (a + " --> " + b)[|a| + 5..|a + " --> " + b|] == b
  {
  }

  /** Both stamps of `a --> b` are recognised where they stand. */
  lemma StampsOfLine(a: string, b: string)
    requires SrtStampAt(a, 0).Some? && SrtStampAt(a, 0).value.end == |a|
    requires SrtStampAt(b, 0).Some? && SrtStampAt(b, 0).value.end == |b|
    ensures SrtStampAt(a + " --> " + b, 0).Some? && SrtStampAt(a + " --> " + b, 0).value.end == |a|
    ensures SrtStampAt(a + " --> " + b, |a| + 5).Some? &&
            SrtStampAt(a + " --> " + b, |a| + 5).value.end == |a + " --> " + b|
  {
    var line := a + " --> " + b;
    assert line[0..|a|] == a;
    StampOfWhole(a, line, 0);
    assert line[|a| + 5..|a| + 5 + |b|] == b;
    StampOfWhole(b, line, |a| + 5);
  }

  /** In `a --> b` the arrow follows `a` after one space, and `b` follows it after one. */
  lemma ArrowOfLine(a: string, b: string)
    requires b != [] && !IsSpace(b[0])
    ensures SkipSpaces(a + " --> " + b, |a|) == |a| + 1
    ensures StartsAt(a + " --> " + b, |a| + 1, "-->")
    ensures SkipSpaces(a + " --> " + b, |a| + 4) == |a| + 5
  {
    SpaceBeforeArrow(a, b);
    ArrowAfterStamp(a, b);
    SpaceAfterArrow(a, b);
  }

  lemma SpaceBeforeArrow(a: string, b: string)
    ensures SkipSpaces(a + " --> " + b, |a|) == |a| + 1
  {
    var line := a + " --> " + b;
    assert line[|a|] == ' ' && line[|a| + 1] == '-';
    OneSpace(line, |a|);
  }

  lemma ArrowAfterStamp(a: string, b: string)
    ensures StartsAt(a + " --> " + b, |a| + 1, "-->")
  {
    var line := a + " --> " + b;
    var n := |a|;
    assert line[n + 1] == '-' && line[n + 2] == '-' && line[n + 3] == '>';
    Arrow(line, n + 1);
  }

  lemma SpaceAfterArrow(a: string, b: string)
    requires b != [] && !IsSpace(b[0])
    ensures SkipSpaces(a + " --> " + b, |a| + 4) == |a| + 5
  {
    var line := a + " --> " + b;
    assert line[|a| + 4] == ' ' && line[|a| + 5] == b[0];
    OneSpace(line, |a| + 4);
  }
  /** A single space before a non-space character is skipped. */
  lemma OneSpace(s: string, k: nat)
    requires k + 1 < |s| && s[k] == ' ' && !IsSpace(s[k + 1])
    ensures SkipSpaces(s, k) == k + 1
  {
    assert SkipSpaces(s, k + 1) == k + 1;
  }

  lemma Arrow(s: string, k: nat)
    requires k + 3 <= |s| && s[k] == '-' && s[k + 1] == '-' && s[k + 2] == '>'
    ensures StartsAt(s, k, "-->")
  {
    assert s[k..k + 3] == "-->";
  }

  /** A timing match assembled from its parts: the first stamp ends at `e1`, the arrow
      starts at `a` and the second stamp runs from `b` to `e2`. */
  lemma TimingAtOf(s: string, i: nat, e1: nat, a: nat, b: nat, e2: nat)
    requires SrtStampAt(s, i).Some? && SrtStampAt(s, i).value.end == e1
    requires SkipSpaces(s, e1) == a && StartsAt(s, a, "-->") && SkipSpaces(s, a + 3) == b
    requires SrtStampAt(s, b).Some? && SrtStampAt(s, b).value.end == e2
    ensures TimingAt(s, i) == Some(Timing(s[i..e1], s[b..e2]))
  {
    assert TimingAt(s, i) == ArrowAndStamp(s, i, e1);
    ArrowAndStampOf(s, i, e1, a, b, e2);
  }

  lemma ArrowAndStampOf(s: string, i: nat, e1: nat, a: nat, b: nat, e2: nat)
    requires i <= e1 <= |s|
    requires SkipSpaces(s, e1) == a && StartsAt(s, a, "-->") && SkipSpaces(s, a + 3) == b
    requires SrtStampAt(s, b).Some? && SrtStampAt(s, b).value.end == e2
    ensures ArrowAndStamp(s, i, e1) == Some(Timing(s[i..e1], s[b..e2]))
  {
  }

  /** Tag removal leaves a text without `<` as it is. */
  lemma {:induction false} StripTagsPlain(s: string)
    requires '<' !in s
    ensures StripTags(s) == s
    decreases |s|
  {
    if |s| > 0 {
      assert '<' !in s[1..];
      StripTagsPlain(s[1..]);
    }
  }

  /** A tag `<...>` at the front is removed and the rest is cleaned as before. */
  lemma StripTagsTag(tag: string, rest: string)
    requires '>' !in tag
    ensures StripTags("<" + tag + ">" + rest) == StripTags(rest)
  {
    var s := "<" + tag + ">" + rest;
    assert s[1..] == tag + ">" + rest;
    assert s[1..][|tag|] == '>';
    var k := FirstIndexOf(s[1..], '>');
    assert k == |tag|;
    assert s[k + 2..] == rest;
  }

  /** A text wrapped in a tag pair, without markup or entities of its own, cleans up
      to its trimmed content. */
  lemma CleanTextTagged(tag: string, x: string)
    requires '>' !in tag && '<' !in x && '&' !in x
    ensures CleanText("<" + tag + ">" + x + "</" + tag + ">") == Trim(x)
  {
    var whole := "<" + tag + ">" + x + "</" + tag + ">";
    assert StripTags(whole) == x by {
      var close := "</" + tag + ">";
      assert whole == "<" + tag + ">" + (x + close);
      StripTagsTag(tag, x + close);
      StripTagsPlainPrefix(x, close);
      ClosingTagStripped(tag);
      assert x + [] == x;
    }
    DecodePlain(x);
    assert CleanText(whole) == Trim(DecodeEntities(StripTags(whole)));
  }

  lemma ClosingTagStripped(tag: string)
    requires '>' !in tag
    ensures StripTags("</" + tag + ">") == []
  {
    assert "</" + tag + ">" == "<" + ("/" + tag) + ">" + [];
    StripTagsTag("/" + tag, []);
  }

  /** Tag removal copies a prefix without `<` unchanged. */
  lemma {:induction false} StripTagsPlainPrefix(x: string, y: string)
    requires '<' !in x
    ensures StripTags(x + y) == x + StripTags(y)
    decreases |x|
  {
    if |x| > 0 {
      assert (x + y)[0] == x[0];
      assert (x + y)[1..] == x[1..] + y;
      StripTagsPlainPrefix(x[1..], y);
      assert x == [x[0]] + x[1..];
    } else {
      assert x + y == y;
    }
  }

  /** No entity starts anywhere in a text without `&`. */
  lemma NoEntityIn(s: string, pat: string)
    requires '&' !in s && |pat| > 0 && pat[0] == '&'
    ensures forall i :: 0 <= i <= |s| ==> !StartsAt(s, i, pat)
  {
  }

  /** Text without markup or entities is only trimmed by the SRT text cleanup. */
  lemma CleanTextPlain(s: string)
    requires '<' !in s && '&' !in s
    ensures CleanText(s) == Trim(s)
  {
    StripTagsPlain(s);
    DecodePlain(s);
  }

  /** Without entities in the input, the cleaned text holds no `<` followed later by a
      `>`: every tag is gone, and only characters of the input remain. */
  lemma CleanTextNoTag(s: string)
    requires '&' !in s
    ensures forall i, j :: 0 <= i < j < |CleanText(s)| && CleanText(s)[i] == '<' ==> CleanText(s)[j] != '>'
    ensures forall c :: c in CleanText(s) ==> c in s
  {
    var t := StripTags(s);
    StripTagsLeavesNoTag(s);
    DecodePlain(t);
    assert CleanText(s) == Trim(t);
    var a, b :| 0 <= a <= b <= |t| && Trim(t) == t[a..b];
    SliceNoTag(t, a, b);
  }

  /** A slice keeps the absence of tags, and holds only characters of the whole. */
  lemma SliceNoTag(t: string, a: nat, b: nat)
    requires a <= b <= |t|
    requires forall i, j :: 0 <= i < j < |t| && t[i] == '<' ==> t[j] != '>'
    ensures forall i, j :: 0 <= i < j < |t[a..b]| && t[a..b][i] == '<' ==> t[a..b][j] != '>'
    ensures forall c :: c in t[a..b] ==> c in t
  {
    var r := t[a..b];
    forall i, j | 0 <= i < j < |r| && r[i] == '<' ensures r[j] != '>' {
      assert r[i] == t[a + i] && r[j] == t[a + j];
    }
    forall c | c in r ensures c in t {
      var m :| 0 <= m < |r| && r[m] == c;
      assert t[a + m] == c;
    }
  }

  /** Entity decoding leaves a text without `&` as it is. */
  lemma DecodePlain(s: string)
    requires '&' !in s
    ensures DecodeEntities(s) == s
  {
    NoEntityIn(s, "&nbsp;");
    ReplaceAllAbsent(s, "&nbsp;", " ");
    NoEntityIn(s, "&amp;");
    ReplaceAllAbsent(s, "&amp;", "&");
    NoEntityIn(s, "&lt;");
    ReplaceAllAbsent(s, "&lt;", "<");
    NoEntityIn(s, "&gt;");
    ReplaceAllAbsent(s, "&gt;", ">");
    NoEntityIn(s, "&quot;");
    ReplaceAllAbsent(s, "&quot;", "\"");
    NoEntityIn(s, "&#39;");
    ReplaceAllAbsent(s, "&#39;", "'");
  }

  /** A cue of the usual shape: a number line, a timing line `a --> b` and one line of
      plain text. Its entry starts at `a`, ends at `b` and carries the text. */
  lemma BlockEntryOfCue(n: string, a: string, b: string, text: string)
    requires n != [] && forall t :: 0 <= t < |n| ==> IsDigit(n[t])
    requires SrtStampAt(a, 0).Some? && SrtStampAt(a, 0).value.end == |a|
    requires SrtStampAt(b, 0).Some? && SrtStampAt(b, 0).value.end == |b|
    requires text != [] && Trim(text) == text
    requires '\n' !in text && '<' !in text && '&' !in text
    ensures BlockEntry(n + "\n" + (a + " --> " + b) + "\n" + text) ==
            Some(LyricLine(SrtStampAt(a, 0).value.ms, Some(SrtStampAt(b, 0).value.ms), text))
  {
    var lines := CueLines(n, a, b, text);
    DigitsHoldNoTiming(n, 0);
    TimingLineOf(a, b);
    SecondLineTiming(n, a + " --> " + b, text, Timing(a, b));
    assert lines[2..] == [text];
    CleanTextPlain(text);
  }

  /** With no timing on the first line and one on the second, the second is the
      timing line. */
  lemma SecondLineTiming(x: string, y: string, z: string, t: Timing)
    requires FindTiming(x, 0).None? && FindTiming(y, 0) == Some(t)
    ensures FirstTimingLine([x, y, z], 0) == Some((1, t))
  {
    assert FirstTimingLine([x, y, z], 0) == FirstTimingLine([x, y, z], 1);
  }

  /** The trimmed non-empty lines of such a cue are its three lines. */
  lemma CueLines(n: string, a: string, b: string, text: string) returns (lines: seq<string>)
    requires n != [] && forall t :: 0 <= t < |n| ==> IsDigit(n[t])
    requires SrtStampAt(a, 0).Some? && SrtStampAt(a, 0).value.end == |a|
    requires SrtStampAt(b, 0).Some? && SrtStampAt(b, 0).value.end == |b|
    requires text != [] && Trim(text) == text && '\n' !in text
    ensures lines == [n, a + " --> " + b, text]
    ensures TrimmedLines(SplitOn(n + "\n" + (a + " --> " + b) + "\n" + text, '\n')) == lines
  {
    var line := a + " --> " + b;
    lines := [n, line, text];
    LineOfStamps(a, b);
    DigitsLine(n);
    ThreeLines(n, line, text);
    ThreeTrimmed(n, line, text);
  }

  /** A line of digits holds no line break and is its own trim. */
  lemma DigitsLine(n: string)
    requires n != [] && forall t :: 0 <= t < |n| ==> IsDigit(n[t])
    ensures '\n' !in n && Trim(n) == n
  {
    TrimUnchanged(n);
  }

  /** Splitting three lines joined by `\n` gives them back. */
  lemma ThreeLines(x: string, y: string, z: string)
    requires '\n' !in x && '\n' !in y && '\n' !in z
    ensures SplitOn(x + "\n" + y + "\n" + z, '\n') == [x, y, z]
  {
    assert x + "\n" + y + "\n" + z == x + "\n" + (y + "\n" + z);
    SplitOnCons(x, y + "\n" + z, '\n');
    SplitOnCons(y, z, '\n');
  }

  /** Three trimmed non-empty lines are kept as they are. */
  lemma ThreeTrimmed(x: string, y: string, z: string)
    requires x != [] && y != [] && z != []
    requires Trim(x) == x && Trim(y) == y && Trim(z) == z
    ensures TrimmedLines([x, y, z]) == [x, y, z]
  {
    assert [x, y, z][1..] == [y, z];
    assert [y, z][1..] == [z];
    assert TrimmedLines([z]) == [z];
  }

  /** The timing line of two whole timestamps is one trimmed line. */
  lemma LineOfStamps(a: string, b: string)
    requires SrtStampAt(a, 0).Some? && SrtStampAt(a, 0).value.end == |a|
    requires SrtStampAt(b, 0).Some? && SrtStampAt(b, 0).value.end == |b|
    ensures '\n' !in a + " --> " + b
    ensures Trim(a + " --> " + b) == a + " --> " + b
  {
    var line := a + " --> " + b;
    StampNoSpace(a);
    StampNoSpace(b);
    forall t | 0 <= t < |line| ensures line[t] != '\n' {
      if t >= |a| + 5 {
        assert line[t] == b[t - |a| - 5];
      } else if t < |a| {
        assert line[t] == a[t];
      }
    }
    assert line[|line| - 1] == b[|b| - 1];
    TrimUnchanged(line);
  }

  /** Entries of a sequence of blocks, in block order (the `forEach` pushing into `result`). */
  function SrtEntries(blocks: seq<string>): seq<LyricLine> {
    if |blocks| == 0 then []
    else
      var front := SrtEntries(blocks[..|blocks| - 1]);
      match BlockEntry(blocks[|blocks| - 1])
      case Some(e) => front + [e]
      case None => front
  }

  /** BOM removal after trimming, and newline normalisation. */
  function StripBom(s: string): string {
    if |s| > 0 && s[0] == '\U{FEFF}' then s[1..] else s
  }

  function NormalizeSrt(content: string): string {
    ReplaceAll(ReplaceAll(StripBom(Trim(content)), "\r\n", "\n"), "\r", "\n")
  }

  /** The normalised text has no carriage return left, and U+FEFF counts as white space
      for `trim`, so the explicit BOM test after trimming never changes anything. */
  lemma NormalizeSrtProps(content: string)
    ensures '\r' !in NormalizeSrt(content)
    ensures StripBom(Trim(content)) == Trim(content)
  {
    ReplaceAllRemovesChar(ReplaceAll(StripBom(Trim(content)), "\r\n", "\n"), '\r', '\n');
  }

  /** The blocks the parser walks over. */
  function SrtBlocks(content: string): seq<string> {
    NonBlankBlocks(SplitBlocksFrom(NormalizeSrt(content), 0, 0))
  }

  // ---------------------------------------------------------------------------
  // Stable sort by time and dedup by 10 ms key
  // ---------------------------------------------------------------------------

  /** The key of `Array.prototype.sort((a, b) => a.time - b.time)`; the engine's sort
      is stable, as `SortBy` is. */
  function TimeOf(l: LyricLine): int {
    l.time
  }

  predicate SortedByTime(s: seq<LyricLine>) {
    SortedBy(s, TimeOf)
  }

  /** `Math.floor(time * 100) / 100` as a key: the 10-millisecond bucket. */
  function Key(l: LyricLine): int {
    l.time / 10
  }

  /** Keep an element when its key has not been seen yet (the `seen` Set loop). */
  function DedupFrom(s: seq<LyricLine>, seen: set<int>): (r: seq<LyricLine>)
    ensures |r| <= |s|
    ensures forall k :: 0 <= k < |r| ==> r[k] in s && Key(r[k]) !in seen
    decreases |s|
  {
    if |s| == 0 then []
    else if Key(s[0]) in seen then DedupFrom(s[1..], seen)
    else [s[0]] + DedupFrom(s[1..], seen + {Key(s[0])})
  }

  predicate DistinctKeys(s: seq<LyricLine>) {
    forall i, j :: 0 <= i < j < |s| ==> Key(s[i]) != Key(s[j])
  }

  /** Dedup leaves pairwise distinct keys. */
  lemma {:induction false} DedupDistinct(s: seq<LyricLine>, seen: set<int>)
    ensures DistinctKeys(DedupFrom(s, seen))
    decreases |s|
  {
    if |s| > 0 && Key(s[0]) !in seen {
      var seen' := seen + {Key(s[0])};
      var rest := DedupFrom(s[1..], seen');
      DedupDistinct(s[1..], seen');
      var r := [s[0]] + rest;
      forall i, j | 0 <= i < j < |r| ensures Key(r[i]) != Key(r[j]) {
        assert r[j] == rest[j - 1];
        if i > 0 { assert r[i] == rest[i - 1]; }
      }
    } else if |s| > 0 {
      DedupDistinct(s[1..], seen);
    }
  }

  /** The 10 ms buckets a sequence of lines falls in. */
  function KeysOf(s: seq<LyricLine>): set<int> {
    set x | x in s :: Key(x)
  }

  lemma KeysOfCons(s: seq<LyricLine>)
    requires |s| > 0
    ensures KeysOf(s) == {Key(s[0])} + KeysOf(s[1..])
  {
    forall k | k in KeysOf(s) ensures k in {Key(s[0])} + KeysOf(s[1..]) {
      var x :| x in s && Key(x) == k;
      if x != s[0] {
        assert x in s[1..];
      }
    }
  }

  /** The output covers exactly the buckets of the input that were not seen before. */
  lemma {:induction false} DedupKeepsKeys(s: seq<LyricLine>, seen: set<int>)
    ensures KeysOf(DedupFrom(s, seen)) == KeysOf(s) - seen
    decreases |s|
  {
    if |s| > 0 {
      KeysOfCons(s);
      if Key(s[0]) in seen {
        DedupKeepsKeys(s[1..], seen);
      } else {
        var seen' := seen + {Key(s[0])};
        var r := DedupFrom(s, seen);
        DedupKeepsKeys(s[1..], seen');
        assert r == [s[0]] + DedupFrom(s[1..], seen');
        assert ([s[0]] + DedupFrom(s[1..], seen'))[1..] == DedupFrom(s[1..], seen');
        KeysOfCons(r);
      }
    }
  }

  /** Dedup keeps a sorted input sorted (it only drops lines). */
  lemma {:induction false} DedupSorted(s: seq<LyricLine>, seen: set<int>)
    requires SortedByTime(s)
    ensures SortedByTime(DedupFrom(s, seen))
    decreases |s|
  {
    if |s| > 0 {
      SortedTail(s);
      if Key(s[0]) in seen {
        DedupSorted(s[1..], seen);
      } else {
        var seen' := seen + {Key(s[0])};
        var rest := DedupFrom(s[1..], seen');
        DedupSorted(s[1..], seen');
        HeadFirst(s);
        SortedCons(s[0], rest);
      }
    }
  }

  lemma SortedTail(s: seq<LyricLine>)
    requires |s| > 0 && SortedByTime(s)
    ensures SortedByTime(s[1..])
  {
    forall i, j | 0 <= i < j < |s| - 1 ensures s[1..][i].time <= s[1..][j].time {
      assert s[1..][i] == s[i + 1] && s[1..][j] == s[j + 1];
    }
  }

  lemma HeadFirst(s: seq<LyricLine>)
    requires |s| > 0 && SortedByTime(s)
    ensures forall y :: y in s[1..] ==> s[0].time <= y.time
  {
    forall y | y in s[1..] ensures s[0].time <= y.time {
      var m :| 0 <= m < |s| - 1 && s[1..][m] == y;
      assert s[m + 1] == y;
    }
  }

  lemma SortedCons(x: LyricLine, rest: seq<LyricLine>)
    requires SortedByTime(rest)
    requires forall k :: 0 <= k < |rest| ==> x.time <= rest[k].time
    ensures SortedByTime([x] + rest)
  {
    var r := [x] + rest;
    forall i, j | 0 <= i < j < |r| ensures r[i].time <= r[j].time {
      assert r[j] == rest[j - 1];
      if i > 0 {
        assert r[i] == rest[i - 1];
      }
    }
  }

  /** No earlier line of `s` shares the bucket of `s[i]`. */
  predicate FirstOfKey(s: seq<LyricLine>, i: nat)
    requires i < |s|
  {
    forall j :: 0 <= j < i ==> Key(s[j]) != Key(s[i])
  }

  /** Every kept line is the first line of its bucket in the input. */
  lemma {:induction false} DedupKeepsFirst(s: seq<LyricLine>, seen: set<int>)
    ensures forall k :: 0 <= k < |DedupFrom(s, seen)| ==>
      exists i :: 0 <= i < |s| && s[i] == DedupFrom(s, seen)[k] && FirstOfKey(s, i)
    decreases |s|
  {
    if |s| > 0 {
      var r := DedupFrom(s, seen);
      if Key(s[0]) in seen {
        DedupKeepsFirst(s[1..], seen);
        assert r == DedupFrom(s[1..], seen);
        forall k | 0 <= k < |r| ensures exists i :: 0 <= i < |s| && s[i] == r[k] && FirstOfKey(s, i) {
          var i :| 0 <= i < |s[1..]| && s[1..][i] == r[k] && FirstOfKey(s[1..], i);
          FirstOfKeyShift(s, i, seen);
          assert s[i + 1] == r[k] && FirstOfKey(s, i + 1);
        }
      } else {
        var seen' := seen + {Key(s[0])};
        var rest := DedupFrom(s[1..], seen');
        DedupKeepsFirst(s[1..], seen');
        assert r == [s[0]] + rest;
        forall k | 0 <= k < |r| ensures exists i :: 0 <= i < |s| && s[i] == r[k] && FirstOfKey(s, i) {
          if k == 0 {
            assert s[0] == r[0] && FirstOfKey(s, 0);
          } else {
            assert r[k] == rest[k - 1];
            var i :| 0 <= i < |s[1..]| && s[1..][i] == rest[k - 1] && FirstOfKey(s[1..], i);
            FirstOfKeyShift(s, i, seen');
            assert s[i + 1] == r[k] && FirstOfKey(s, i + 1);
          }
        }
      }
    } else {
      assert DedupFrom(s, seen) == [];
    }
  }

  lemma FirstOfKeyShift(s: seq<LyricLine>, i: nat, seen: set<int>)
    requires i + 1 < |s| && FirstOfKey(s[1..], i) && Key(s[0]) in seen && Key(s[i + 1]) !in seen
    ensures FirstOfKey(s, i + 1)
  {
    forall j | 0 <= j < i + 1 ensures Key(s[j]) != Key(s[i + 1]) {
      if j > 0 { assert s[j] == s[1..][j - 1]; }
    }
  }

  /** The dedup loop's invariant survives one line: a line of a new bucket moves from
      the lines to come to the lines kept. */
  lemma DedupLoopStep(s: seq<LyricLine>, i: nat, seen: set<int>, unique: seq<LyricLine>)
    requires i < |s|
    ensures Key(s[i]) in seen ==>
              unique + DedupFrom(s[i..], seen) == unique + DedupFrom(s[i + 1..], seen)
    ensures Key(s[i]) !in seen ==>
              unique + DedupFrom(s[i..], seen) == (unique + [s[i]]) + DedupFrom(s[i + 1..], seen + {Key(s[i])})
  {
    DedupStep(s, i, seen);
    if Key(s[i]) !in seen {
      var rest := DedupFrom(s[i + 1..], seen + {Key(s[i])});
      assert unique + ([s[i]] + rest) == (unique + [s[i]]) + rest;
    }
  }

  /** One step of the dedup loop. */
  lemma DedupStep(s: seq<LyricLine>, i: nat, seen: set<int>)
    requires i < |s|
    ensures DedupFrom(s[i..], seen) ==
      if Key(s[i]) in seen then DedupFrom(s[i + 1..], seen)
      else [s[i]] + DedupFrom(s[i + 1..], seen + {Key(s[i])})
  {
    assert s[i..][1..] == s[i + 1..];
  }

  // ---------------------------------------------------------------------------
  // parseSrt
  // ---------------------------------------------------------------------------

  /** What `parseSrt` returns. */
  function SrtResult(content: string): seq<LyricLine> {
    DedupFrom(SortBy(SrtEntries(SrtBlocks(content)), TimeOf), {})
  }

  /** What every SRT entry carries: a start time, an end time and non-empty text. */
  predicate SrtShaped(l: LyricLine) {
    l.endTime.Some? && l.text != [] && l.time >= 0
  }

  lemma {:induction false} SrtEntriesShape(blocks: seq<string>)
    ensures forall x :: x in SrtEntries(blocks) ==> SrtShaped(x)
    decreases |blocks|
  {
    if |blocks| > 0 {
      SrtEntriesShape(blocks[..|blocks| - 1]);
    }
  }

  /** `parseSrt` output is sorted by time, has no two lines in the same 10 ms bucket,
      covers exactly the buckets of the entries it collected, and every line carries
      an end time and non-empty text. */
  lemma SrtResultProps(content: string)
    ensures SortedByTime(SrtResult(content))
    ensures DistinctKeys(SrtResult(content))
    ensures KeysOf(SrtResult(content)) == KeysOf(SrtEntries(SrtBlocks(content)))
    ensures forall x :: x in SrtResult(content) ==> SrtShaped(x)
  {
    SortDedupProps(SrtEntries(SrtBlocks(content)));
    SrtEntriesShape(SrtBlocks(content));
  }

  /** Sorting then deduplicating any entries gives sorted lines with distinct keys,
      covering the entries' keys, each line one of the entries. */
  lemma SortDedupProps(entries: seq<LyricLine>)
    ensures var u := DedupFrom(SortBy(entries, TimeOf), {});
            && SortedByTime(u) && DistinctKeys(u) && KeysOf(u) == KeysOf(entries)
            && forall x :: x in u ==> x in entries
  {
    var sorted := SortBy(entries, TimeOf);
    SortByProps(entries, TimeOf);
    DedupDistinct(sorted, {});
    DedupKeepsKeys(sorted, {});
    DedupSorted(sorted, {});
    SameKeys(sorted, entries);
    forall x | x in DedupFrom(sorted, {}) ensures x in entries {
      assert x in multiset(sorted);
    }
  }

  lemma SameKeys(a: seq<LyricLine>, b: seq<LyricLine>)
    requires multiset(a) == multiset(b)
    ensures KeysOf(a) == KeysOf(b)
  {
    forall x ensures x in a <==> x in b {
      assert x in a <==> x in multiset(a);
      assert x in b <==> x in multiset(b);
    }
  }

  /** `parseSrt`: collect one entry per usable block, sort, then keep the first line
      of each 10 ms bucket. */
  method ParseSrt(content: string) returns (unique: seq<LyricLine>)
    ensures unique == SrtResult(content)
  {
    var result := CollectSrtEntries(SrtBlocks(content));
    var sorted := SortBy(result, TimeOf);
    unique := DedupByKey(sorted);
  }

  /** The block loop of `parseSrt`: push the entry of every usable block. */
  method CollectSrtEntries(blocks: seq<string>) returns (result: seq<LyricLine>)
    ensures result == SrtEntries(blocks)
  {
    result := [];
    var b := 0;
    while b < |blocks|
      invariant 0 <= b <= |blocks|
      invariant result == SrtEntries(blocks[..b])
    {
      SrtEntriesSnoc(blocks, b);
      var entry := BlockEntry(blocks[b]);
      if entry.Some? {
        result := result + [entry.value];
      }
      b := b + 1;
    }
    assert blocks[..|blocks|] == blocks;
  }

  lemma SrtEntriesSnoc(blocks: seq<string>, b: nat)
    requires b < |blocks|
    ensures SrtEntries(blocks[..b + 1]) ==
      match BlockEntry(blocks[b]) case Some(e) => SrtEntries(blocks[..b]) + [e] case None => SrtEntries(blocks[..b])
  {
    assert blocks[..b + 1][..b] == blocks[..b];
  }

  /** The dedup loop of `parseSrt`: keep a line when its 10 ms bucket is new. */
  method DedupByKey(sorted: seq<LyricLine>) returns (unique: seq<LyricLine>)
    ensures unique == DedupFrom(sorted, {})
  {
    unique := [];
    var seen: set<int> := {};
    var i := 0;
    while i < |sorted|
      invariant 0 <= i <= |sorted|
      invariant unique + DedupFrom(sorted[i..], seen) == DedupFrom(sorted, {})
    {
      DedupLoopStep(sorted, i, seen, unique);
      var key := Key(sorted[i]);
      if key !in seen {
        seen := seen + {key};
        unique := unique + [sorted[i]];
      }
      i := i + 1;
    }
  }

  // ---------------------------------------------------------------------------
  // LRC: \[(\d{2}):(\d{2})\.(\d{2,3})\]
  // ---------------------------------------------------------------------------

  /** The LRC time tag anchored at `i`. Three fraction digits are thousandths, two are
      hundredths; with a third digit present the two-digit alternative would need `]`
      where the digit is. */
  function LrcTagAt(s: string, i: nat): (m: Option<Stamp>)
    ensures m.Some? ==> i + 10 <= m.value.end <= |s|
  {
    if i + 10 <= |s| && s[i] == '[' && IsDigit(s[i + 1]) && IsDigit(s[i + 2]) && s[i + 3] == ':' &&
       IsDigit(s[i + 4]) && IsDigit(s[i + 5]) && s[i + 6] == '.' && IsDigit(s[i + 7]) && IsDigit(s[i + 8])
    then
      var whole := Num2(s, i + 1) * 60000 + Num2(s, i + 4) * 1000;
      if IsDigit(s[i + 9]) then
        if i + 11 <= |s| && s[i + 10] == ']' then Some(Stamp(whole + Num3(s, i + 7), i + 11)) else None
      else if s[i + 9] == ']' then Some(Stamp(whole + Num2(s, i + 7) * 10, i + 10))
      else None
    else None
  }

  /** The text of an LRC tag `[mm:ss.xx]` (hundredths) or `[mm:ss.xxx]` (thousandths). */
  function LrcTagText(m: nat, sec: nat, frac: nat, thousandths: bool): string
    requires m < 100 && sec < 100 && frac < (if thousandths then 1000 else 100)
  {
    if thousandths then
      ['[', Digit(m / 10), Digit(m % 10), ':', Digit(sec / 10), Digit(sec % 10), '.',
       Digit(frac / 100), Digit(frac / 10 % 10), Digit(frac % 10), ']']
    else
      ['[', Digit(m / 10), Digit(m % 10), ':', Digit(sec / 10), Digit(sec % 10), '.',
       Digit(frac / 10), Digit(frac % 10), ']']
  }

  /** A tag reads back as minutes, seconds and a fraction counted in hundredths for two
      digits and in thousandths for three. */
  lemma LrcTagValue(m: nat, sec: nat, frac: nat, thousandths: bool)
    requires m < 100 && sec < 100 && frac < (if thousandths then 1000 else 100)
    ensures LrcTagAt(LrcTagText(m, sec, frac, thousandths), 0) ==
      Some(Stamp(m * 60000 + sec * 1000 + (if thousandths then frac else frac * 10),
                 if thousandths then 11 else 10))
  {
    var s := LrcTagText(m, sec, frac, thousandths);
    Num2Of(s, 1, m);
    Num2Of(s, 4, sec);
    if thousandths {
      Num3Of(s, 7, frac);
    } else {
      Num2Of(s, 7, frac);
    }
  }

  /** `line.replace(timeExp, '')` from position `i`. */
  function StripLrcTags(s: string, i: nat): string
    requires i <= |s|
    decreases |s| - i
  {
    if i == |s| then []
    else match LrcTagAt(s, i)
      case Some(st) => StripLrcTags(s, st.end)
      case None => [s[i]] + StripLrcTags(s, i + 1)
  }

  /** The times of the tags the `exec` loop visits from position `i`, in order. */
  function LrcTimes(s: string, i: nat): (ts: seq<nat>)
    requires i <= |s|
    ensures |ts| <= (|s| - i) / 10
    decreases |s| - i
  {
    if i == |s| then []
    else match LrcTagAt(s, i)
      case Some(st) => [st.ms] + LrcTimes(s, st.end)
      case None => LrcTimes(s, i + 1)
  }

  /** The entries of one LRC line: one per tag, all with the stripped text; none
      when the stripped text is empty. */
  function LrcLineEntries(line: string): (r: seq<LyricLine>)
    ensures Trim(StripLrcTags(line, 0)) == [] ==> r == []
    ensures Trim(StripLrcTags(line, 0)) != [] ==> |r| == |LrcTimes(line, 0)|
    ensures forall k :: 0 <= k < |r| ==>
      r[k] == LyricLine(LrcTimes(line, 0)[k], None, Trim(StripLrcTags(line, 0)))
  {
    var text := Trim(StripLrcTags(line, 0));
    if text == [] then [] else Stamped(LrcTimes(line, 0), text)
  }

  /** One entry per time, all with the same text. */
  function Stamped(ts: seq<nat>, text: string): seq<LyricLine> {
    seq(|ts|, k requires 0 <= k < |ts| => LyricLine(ts[k], None, text))
  }

  lemma StampedCons(t: nat, ts: seq<nat>, text: string)
    ensures Stamped([t] + ts, text) == [LyricLine(t, None, text)] + Stamped(ts, text)
  {
    assert forall k :: 1 <= k < 1 + |ts| ==> ([t] + ts)[k] == ts[k - 1];
  }

  function LrcEntries(lines: seq<string>): seq<LyricLine> {
    if |lines| == 0 then []
    else LrcEntries(lines[..|lines| - 1]) + LrcLineEntries(lines[|lines| - 1])
  }

  lemma LrcEntriesSnoc(lines: seq<string>, n: nat)
    requires n < |lines|
    ensures LrcEntries(lines[..n + 1]) == LrcEntries(lines[..n]) + LrcLineEntries(lines[n])
  {
    assert lines[..n + 1][..n] == lines[..n];
  }

  /** What `parseLrc` returns. */
  function LrcResult(content: string): seq<LyricLine> {
    SortBy(LrcEntries(SplitOn(content, '\n')), TimeOf)
  }

  /** Every LRC entry has no end time and non-empty text. */
  lemma {:induction false} LrcEntriesShape(lines: seq<string>)
    ensures forall k :: 0 <= k < |LrcEntries(lines)| ==>
      LrcEntries(lines)[k].endTime.None? && LrcEntries(lines)[k].text != []
    decreases |lines|
  {
    if |lines| > 0 {
      LrcEntriesShape(lines[..|lines| - 1]);
      var front := LrcEntries(lines[..|lines| - 1]);
      var last := LrcLineEntries(lines[|lines| - 1]);
      forall k | 0 <= k < |LrcEntries(lines)|
        ensures LrcEntries(lines)[k].endTime.None? && LrcEntries(lines)[k].text != []
      {
        if k >= |front| {
          assert LrcEntries(lines)[k] == last[k - |front|];
        }
      }
    }
  }

  /** `parseLrc` output is sorted, is a permutation of the per-tag entries (so there
      is no deduplication), and no entry has an end time. */
  lemma LrcResultProps(content: string)
    ensures SortedByTime(LrcResult(content))
    ensures multiset(LrcResult(content)) == multiset(LrcEntries(SplitOn(content, '\n')))
    ensures forall k :: 0 <= k < |LrcResult(content)| ==>
      LrcResult(content)[k].endTime.None? && LrcResult(content)[k].text != []
  {
    var entries := LrcEntries(SplitOn(content, '\n'));
    SortByProps(entries, TimeOf);
    LrcEntriesShape(SplitOn(content, '\n'));
    forall k | 0 <= k < |LrcResult(content)|
      ensures LrcResult(content)[k].endTime.None? && LrcResult(content)[k].text != []
    {
      assert LrcResult(content)[k] in multiset(entries);
    }
  }

  /** `parseLrc`: for each line, strip the tags; if text remains, push one entry per
      tag found by the `exec` loop; finally sort by time. */
  method ParseLrc(content: string) returns (r: seq<LyricLine>)
    ensures r == LrcResult(content)
  {
    var lines := SplitOn(content, '\n');
    var result: seq<LyricLine> := [];
    var n := 0;
    while n < |lines|
      invariant 0 <= n <= |lines|
      invariant result == LrcEntries(lines[..n])
    {
      LrcEntriesSnoc(lines, n);
      var pushed := ParseLrcLine(lines[n]);
      result := result + pushed;
      n := n + 1;
    }
    assert lines[..|lines|] == lines;
    r := SortBy(result, TimeOf);
  }

  /** The body of `parseLrc`'s line loop: nothing for a line without text, else the
      `exec` loop pushing one entry per tag. */
  method ParseLrcLine(line: string) returns (pushed: seq<LyricLine>)
    ensures pushed == LrcLineEntries(line)
  {
    var text := Trim(StripLrcTags(line, 0));
    pushed := [];
    if text != [] {
      var lastIndex := 0;
      while lastIndex < |line|
        invariant 0 <= lastIndex <= |line|
        invariant pushed + Stamped(LrcTimes(line, lastIndex), text) == Stamped(LrcTimes(line, 0), text)
        decreases |line| - lastIndex
      {
        var m := LrcTagAt(line, lastIndex);
        LrcLineStep(line, lastIndex, text, pushed);
        if m.Some? {
          pushed := pushed + [LyricLine(m.value.ms, None, text)];
          lastIndex := m.value.end;
        } else {
          lastIndex := lastIndex + 1;
        }
      }
      assert pushed + Stamped([], text) == pushed;
    }
  }

  /** One turn of the `exec` loop: a tag at `i` moves its entry from the entries to
      come to the entries pushed; elsewhere the search moves on by one. */
  lemma LrcLineStep(line: string, i: nat, text: string, pushed: seq<LyricLine>)
    requires i < |line|
    ensures match LrcTagAt(line, i)
            case Some(st) =>
              pushed + Stamped(LrcTimes(line, i), text) ==
                (pushed + [LyricLine(st.ms, None, text)]) + Stamped(LrcTimes(line, st.end), text)
            case None => LrcTimes(line, i) == LrcTimes(line, i + 1)
  {
    match LrcTagAt(line, i)
    case Some(st) =>
      var rest := Stamped(LrcTimes(line, st.end), text);
      StampedCons(st.ms, LrcTimes(line, st.end), text);
      assert pushed + ([LyricLine(st.ms, None, text)] + rest) == (pushed + [LyricLine(st.ms, None, text)]) + rest;
    case None =>
  }
}
