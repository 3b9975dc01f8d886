/** The karaoke rendering of the active lyric line (`ActiveKaraokeLine`) and the
    plain rendering of the other lines (`StaticLine`). The line is cut into words and
    white-space runs; character `i` of a line of `total` characters owns the progress
    interval `[i/total, (i+1)/total)` and is filled 1, 0 or linearly in between. */
module LyricLineView {
  import opened Text

  // ---------------------------------------------------------------------------
  // Word split: text.split(/(\s+)/)
  // ---------------------------------------------------------------------------

  /** Index of the first white-space character at or after `i`, or `|s|`. */
  function WordEnd(s: string, i: nat): (j: nat)
    requires i <= |s|
    ensures i <= j <= |s|
    ensures j < |s| ==> IsSpace(s[j])
    decreases |s| - i
  {
    if i == |s| || IsSpace(s[i]) then i else WordEnd(s, i + 1)
  }

  lemma {:induction false} WordEndNoSpace(s: string, i: nat)
    requires i <= |s|
    ensures NoSpace(s[i..WordEnd(s, i)])
    decreases |s| - i
  {
    if i < |s| && !IsSpace(s[i]) {
      WordEndNoSpace(s, i + 1);
      var j := WordEnd(s, i);
      assert forall k :: i < k < j ==> s[k] == s[i + 1..j][k - i - 1];
      forall k | 0 <= k < j - i ensures !IsSpace(s[i..j][k]) {
        if k > 0 { assert s[i..j][k] == s[i + 1..j][k - 1]; }
      }
    }
  }

  /** Words (no white space) at even indices, non-empty white-space runs at odd ones. */
  predicate Alternates(parts: seq<string>) {
    (forall k :: 0 <= k < |parts| && k % 2 == 0 ==> NoSpace(parts[k])) &&
    (forall k :: 0 <= k < |parts| && k % 2 == 1 ==> parts[k] != [] && AllSpace(parts[k]))
  }

  lemma AlternatesCons(word: string, gap: string, rest: seq<string>)
    requires NoSpace(word) && gap != [] && AllSpace(gap) && Alternates(rest)
    ensures Alternates([word, gap] + rest)
  {
    var parts := [word, gap] + rest;
    forall k | 2 <= k < |parts| ensures parts[k] == rest[k - 2] && (k % 2 == (k - 2) % 2) {
    }
  }

  lemma ConcatCons2(a: string, b: string, rest: seq<string>)
    ensures Concat([a, b] + rest) == a + b + Concat(rest)
  {
    assert ([a, b] + rest)[1..] == [b] + rest;
    assert ([b] + rest)[1..] == rest;
  }

  lemma SplitThree(s: string, w: nat, e: nat)
    requires w <= e <= |s|
    ensures s == s[..w] + s[w..e] + s[e..]
  {
    assert s[..e] == s[..w] + s[w..e];
  }

  /** `s.split(/(\s+)/)`: the separator is captured, so the result alternates words
      (possibly empty, at even indices) and maximal white-space runs (at odd indices). */
  function SplitWords(s: string): (parts: seq<string>)
    ensures |parts| >= 1
    decreases |s|
  {
    var w := WordEnd(s, 0);
    if w == |s| then [s]
    else
      var e := SkipSpaces(s, w);
      [s[..w], s[w..e]] + SplitWords(s[e..])
  }

  /** The pieces put back together give the text. */
  lemma {:induction false} SplitWordsConcat(s: string)
    ensures Concat(SplitWords(s)) == s
    decreases |s|
  {
    var w := WordEnd(s, 0);
    if w < |s| {
      var e := SkipSpaces(s, w);
      SplitWordsStep(s, w, e);
      SplitWordsConcat(s[e..]);
      ConcatCons2(s[..w], s[w..e], SplitWords(s[e..]));
      SplitThree(s, w, e);
    } else {
      SplitWordsSingle(s);
      assert Concat([s]) == s + Concat([]);
    }
  }

  /** Every even-index part is a word without white space, every odd-index part a
      non-empty white-space run. */
  lemma {:induction false} SplitWordsAlternates(s: string)
    ensures Alternates(SplitWords(s))
    decreases |s|
  {
    var w := WordEnd(s, 0);
    WordPrefix(s, w);
    if w < |s| {
      var e := SkipSpaces(s, w);
      SplitWordsStep(s, w, e);
      GapRun(s, w, e);
      SplitWordsAlternates(s[e..]);
      AlternatesCons(s[..w], s[w..e], SplitWords(s[e..]));
    } else {
      assert s[..w] == s;
    }
  }

  /** The first part is a word. */
  lemma SplitWordsFirst(s: string)
    ensures NoSpace(SplitWords(s)[0])
  {
    var w := WordEnd(s, 0);
    WordPrefix(s, w);
    if w < |s| {
      SplitWordsStep(s, w, SkipSpaces(s, w));
    } else {
      assert s[..w] == s;
    }
  }

  /** The last part is a word too, so the count of parts is odd. */
  lemma {:induction false} SplitWordsLast(s: string)
    ensures NoSpace(SplitWords(s)[|SplitWords(s)| - 1])
    decreases |s|
  {
    var w := WordEnd(s, 0);
    if w < |s| {
      var e := SkipSpaces(s, w);
      SplitWordsLast(s[e..]);
      SplitWordsTail(s, w, e);
    } else {
      SplitWordsSingle(s);
    }
  }

  lemma SplitWordsTail(s: string, w: nat, e: nat)
    requires w == WordEnd(s, 0) < |s| && e == SkipSpaces(s, w)
    ensures SplitWords(s)[|SplitWords(s)| - 1] == SplitWords(s[e..])[|SplitWords(s[e..])| - 1]
  {
    SplitWordsStep(s, w, e);
    EndsCons(s[..w], s[w..e], SplitWords(s[e..]), SplitWords(s));
  }

  /** One step of the split: a word, then a non-empty white-space run, then the rest. */
  lemma SplitWordsStep(s: string, w: nat, e: nat)
    requires w == WordEnd(s, 0) < |s| && e == SkipSpaces(s, w)
    ensures SplitWords(s) == [s[..w], s[w..e]] + SplitWords(s[e..])
  {
  }

  /** The white-space run after the first word is not empty. */
  lemma GapRun(s: string, w: nat, e: nat)
    requires w == WordEnd(s, 0) < |s| && e == SkipSpaces(s, w)
    ensures s[w..e] != [] && AllSpace(s[w..e])
  {
  }

  lemma WordPrefix(s: string, w: nat)
    requires w == WordEnd(s, 0)
    ensures NoSpace(s[..w])
  {
    WordEndNoSpace(s, 0);
    assert s[0..w] == s[..w];
  }

  lemma EndsCons(a: string, b: string, rest: seq<string>, parts: seq<string>)
    requires |rest| > 0 && parts == [a, b] + rest
    ensures parts[|parts| - 1] == rest[|rest| - 1]
  {
  }

  /** A text without white space is a single part. */
  lemma SplitWordsSingle(s: string)
    requires WordEnd(s, 0) == |s|
    ensures SplitWords(s) == [s] && NoSpace(s)
  {
    WordPrefix(s, |s|);
    assert s[..|s|] == s;
  }

  // ---------------------------------------------------------------------------
  // Per-character fill
  // ---------------------------------------------------------------------------

  /** `text.length || 1`: the denominator is never zero. */
  function Total(text: string): (t: nat)
    ensures t >= 1
    ensures text != [] ==> t == |text|
  {
    if |text| == 0 then 1 else |text|
  }

  /** The fill of the character at line offset `i`: 1 once the progress has passed its
      interval, 0 before it, the covered fraction inside it. */
  function CharFill(i: nat, total: nat, p: real): (f: real)
    requires total >= 1
    ensures 0.0 <= f <= 1.0
    ensures f == 1.0 <==> p >= (i + 1) as real / total as real
    ensures f == 0.0 <==> p <= i as real / total as real
  {
    var start := i as real / total as real;
    var end := (i + 1) as real / total as real;
    IntervalOrdered(i, total);
    if p >= end then 1.0
    else if p <= start then 0.0
    else
      DivBetween(p - start, end - start);
      (p - start) / (end - start)
  }

  lemma IntervalOrdered(i: nat, total: nat)
    requires total >= 1
    ensures i as real / total as real < (i + 1) as real / total as real
  {
    var t := total as real;
    assert (i as real / t) * t == i as real;
    assert ((i + 1) as real / t) * t == (i + 1) as real;
  }

  lemma DivBetween(a: real, b: real)
    requires 0.0 < a < b
    ensures 0.0 < a / b < 1.0
  {
    var q := a / b;
    assert q * b == a;
    if q >= 1.0 {
      MulMono(1.0, q, b);
    }
    if q <= 0.0 {
      MulMono(q, 0.0, b);
    }
  }

  lemma MulMono(a: real, b: real, t: real)
    requires a <= b && t >= 0.0
    ensures a * t <= b * t
  {
    assert b * t - a * t == (b - a) * t;
  }

  function Clamp01(x: real): (r: real)
    ensures 0.0 <= r <= 1.0
  {
    if x < 0.0 then 0.0 else if x > 1.0 then 1.0 else x
  }

  lemma ClampMono(x: real, y: real)
    requires x <= y
    ensures Clamp01(x) <= Clamp01(y)
  {
  }

  lemma ScaleCompare(x: real, n: real, t: real)
    requires t > 0.0
    ensures x >= n / t <==> x * t >= n
    ensures x <= n / t <==> x * t <= n
  {
    assert (n / t) * t == n;
    assert (x - n / t) * t == x * t - n;
  }

  /** Reference definition: the fill of character `i` is how far `progress * total`
      has gone past `i`, clamped to [0, 1]. */
  lemma CharFillIsClamp(i: nat, total: nat, p: real)
    requires total >= 1
    ensures CharFill(i, total, p) == Clamp01(p * total as real - i as real)
  {
    var t := total as real;
    var start := i as real / t;
    var end := (i + 1) as real / t;
    ScaleCompare(p, (i + 1) as real, t);
    ScaleCompare(p, i as real, t);
    if start < p < end {
      assert start * t == i as real;
      assert end * t == (i + 1) as real;
      assert (end - start) * t == 1.0;
      var f := (p - start) / (end - start);
      assert f * (end - start) == p - start;
      assert f * (end - start) * t == (p - start) * t;
      assert f == (p - start) * t;
    }
  }

  /** Fill grows with progress. */
  lemma CharFillMonotone(i: nat, total: nat, p1: real, p2: real)
    requires total >= 1 && p1 <= p2
    ensures CharFill(i, total, p1) <= CharFill(i, total, p2)
  {
    CharFillIsClamp(i, total, p1);
    CharFillIsClamp(i, total, p2);
    MulMono(p1, p2, total as real);
    ClampMono(p1 * total as real - i as real, p2 * total as real - i as real);
  }

  /** Along the line: once a later character has any fill, every earlier character is
      full. Hence fill never increases along the line, and at most one character is
      partly filled. */
  lemma CharFillAlongLine(i: nat, j: nat, total: nat, p: real)
    requires total >= 1 && i < j
    ensures CharFill(j, total, p) > 0.0 ==> CharFill(i, total, p) == 1.0
    ensures CharFill(i, total, p) >= CharFill(j, total, p)
  {
    CharFillIsClamp(i, total, p);
    CharFillIsClamp(j, total, p);
  }

  lemma AtMostOnePartial(i: nat, j: nat, total: nat, p: real)
    requires total >= 1 && i != j
    ensures !(0.0 < CharFill(i, total, p) < 1.0 && 0.0 < CharFill(j, total, p) < 1.0)
  {
    if i < j {
      CharFillAlongLine(i, j, total, p);
    } else {
      CharFillAlongLine(j, i, total, p);
    }
  }

  // ---------------------------------------------------------------------------
  // Words: focus and colour
  // ---------------------------------------------------------------------------

  /** The word starting at line offset `offset` is scaled up while the progress lies in
      its interval. */
  predicate Focused(offset: nat, len: nat, total: nat, p: real)
    requires total >= 1
  {
    offset as real / total as real <= p < (offset + len) as real / total as real
  }

  /** The word is coloured `activeColor` once the progress reaches its end. */
  predicate Painted(offset: nat, len: nat, total: nat, p: real)
    requires total >= 1
  {
    p >= (offset + len) as real / total as real
  }

  lemma DivMono(a: real, b: real, t: real)
    requires a <= b && t > 0.0
    ensures a / t <= b / t
  {
    assert (a / t) * t == a;
    assert (b / t) * t == b;
  }

  /** Two words that do not overlap are never focused at the same time; an empty word
      is never focused. */
  lemma FocusExclusive(o1: nat, l1: nat, o2: nat, l2: nat, total: nat, p: real)
    requires total >= 1 && o1 + l1 <= o2
    ensures !(Focused(o1, l1, total, p) && Focused(o2, l2, total, p))
    ensures !Focused(o1, 0, total, p)
  {
    DivMono((o1 + l1) as real, o2 as real, total as real);
  }

  /** A non-empty word is painted exactly when every one of its characters is full. */
  lemma PaintedIffFilled(offset: nat, len: nat, total: nat, p: real)
    requires total >= 1 && len > 0
    ensures Painted(offset, len, total, p) <==>
      forall i :: offset <= i < offset + len ==> CharFill(i, total, p) == 1.0
  {
    if Painted(offset, len, total, p) {
      forall i | offset <= i < offset + len ensures CharFill(i, total, p) == 1.0 {
        DivMono((i + 1) as real, (offset + len) as real, total as real);
      }
    }
    assert CharFill(offset + len - 1, total, p) == 1.0 ==> Painted(offset, len, total, p);
  }

  // ---------------------------------------------------------------------------
  // The rendered line
  // ---------------------------------------------------------------------------

  /** One character: the glyph, and the width fraction of the coloured overlay
      (drawn at `fill * 105%` and only when `fill > 0`). */
  datatype CharView = CharView(ch: char, fill: real)

  /** One word span: its text, the line offset it starts at, the focus scale and the
      colour flag, and its characters. */
  datatype WordView = WordView(text: string, offset: nat, focused: bool, painted: bool, chars: seq<CharView>)

  function WordAt(word: string, offset: nat, total: nat, p: real): (v: WordView)
    requires total >= 1
    ensures v.text == word && v.offset == offset && |v.chars| == |word|
    ensures v.focused == Focused(offset, |word|, total, p) && v.painted == Painted(offset, |word|, total, p)
  {
    WordView(word, offset, Focused(offset, |word|, total, p), Painted(offset, |word|, total, p),
             seq(|word|, i requires 0 <= i < |word| => CharView(word[i], CharFill(offset + i, total, p))))
  }

  /** The word spans of `parts` when the first starts at line offset `offset`. */
  function ViewsFrom(parts: seq<string>, offset: nat, total: nat, p: real): (vs: seq<WordView>)
    requires total >= 1
    ensures |vs| == |parts|
    ensures forall k :: 0 <= k < |vs| ==> vs[k].text == parts[k] && vs[k].offset >= offset
    ensures forall k :: 0 <= k < |vs| ==>
      vs[k].focused == Focused(vs[k].offset, |parts[k]|, total, p) &&
      vs[k].painted == Painted(vs[k].offset, |parts[k]|, total, p)
  {
    if |parts| == 0 then []
    else [WordAt(parts[0], offset, total, p)] + ViewsFrom(parts[1..], offset + |parts[0]|, total, p)
  }

  /** What `ActiveKaraokeLine` renders for a line and a progress value. */
  function LineView(text: string, p: real): seq<WordView> {
    ViewsFrom(SplitWords(text), 0, Total(text), p)
  }

  /** `ActiveKaraokeLine`: split the text, then render the parts. */
  method RenderActiveLine(text: string, progress: real) returns (views: seq<WordView>)
    ensures views == LineView(text, progress)
  {
    var parts := SplitWords(text);
    var totalChars := Total(text);
    views := RenderParts(parts, totalChars, progress);
  }

  /** The `parts.map` loop: each word is rendered at the running character offset,
      which then advances by the word's length. */
  method RenderParts(parts: seq<string>, totalChars: nat, progress: real) returns (views: seq<WordView>)
    requires totalChars >= 1
    ensures views == ViewsFrom(parts, 0, totalChars, progress)
  {
    var charOffset: nat := 0;
    views := [];
    ghost var target := ViewsFrom(parts, 0, totalChars, progress);
    for k := 0 to |parts|
      invariant views == target[..k]
      invariant charOffset == |Concat(parts[..k])|
    {
      ViewsFromAt(parts, 0, totalChars, progress, k);
      ConcatPrefixStep(parts, k);
      var element := WordAt(parts[k], charOffset, totalChars, progress);
      PrefixSnoc(target, k);
      views := views + [element];
      charOffset := charOffset + |parts[k]|;
    }
  }

  lemma PrefixSnoc(t: seq<WordView>, k: nat)
    requires k < |t|
    ensures t[..k] + [t[k]] == t[..k + 1]
  {
  }

  /** Word `k` is drawn at the line offset equal to the length of the words before it. */
  lemma ViewsFromAt(parts: seq<string>, offset: nat, total: nat, p: real, k: nat)
    requires total >= 1 && k < |parts|
    ensures ViewsFrom(parts, offset, total, p)[k] == WordAt(parts[k], offset + |Concat(parts[..k])|, total, p)
  {
    ViewsFromOffset(parts, offset, total, p, k);
    ViewsFromElem(parts, offset, total, p, k);
  }

  lemma {:induction false} ViewsFromElem(parts: seq<string>, offset: nat, total: nat, p: real, k: nat)
    requires total >= 1 && k < |parts|
    ensures ViewsFrom(parts, offset, total, p)[k] == WordAt(parts[k], ViewsFrom(parts, offset, total, p)[k].offset, total, p)
    decreases k
  {
    if k > 0 {
      ViewsFromElem(parts[1..], offset + |parts[0]|, total, p, k - 1);
      ViewsFromShift(parts, offset, total, p, k);
    }
  }

  /** Word `k > 0` of the line is word `k - 1` of the rest after the first word. */
  lemma ViewsFromShift(parts: seq<string>, offset: nat, total: nat, p: real, k: nat)
    requires total >= 1 && 0 < k < |parts|
    ensures ViewsFrom(parts, offset, total, p)[k] == ViewsFrom(parts[1..], offset + |parts[0]|, total, p)[k - 1]
  {
  }

  /** Each word starts where the previous one ended: offsets advance by word length. */
  lemma {:induction false} ViewsFromOffset(parts: seq<string>, offset: nat, total: nat, p: real, k: nat)
    requires total >= 1 && k < |parts|
    ensures ViewsFrom(parts, offset, total, p)[k].offset == offset + |Concat(parts[..k])|
    decreases k
  {
    if k == 0 {
      assert parts[..0] == [];
    } else {
      ViewsFromOffset(parts[1..], offset + |parts[0]|, total, p, k - 1);
      ViewsFromShift(parts, offset, total, p, k);
      ConcatPrefixCons(parts, k);
    }
  }

  lemma ConcatPrefixCons(parts: seq<string>, k: nat)
    requires 0 < k <= |parts|
    ensures Concat(parts[..k]) == parts[0] + Concat(parts[1..][..k - 1])
  {
    assert parts[..k][1..] == parts[1..][..k - 1];
  }

  /** The words before word `k` are at least as long as those before word `j < k`
      plus word `j` itself. */
  lemma {:induction false} ConcatPrefixMono(parts: seq<string>, j: nat, k: nat)
    requires j < k <= |parts|
    ensures |Concat(parts[..j])| + |parts[j]| <= |Concat(parts[..k])|
    decreases k
  {
    if k == j + 1 {
      ConcatPrefixStep(parts, j);
    } else {
      ConcatPrefixMono(parts, j, k - 1);
      ConcatPrefixStep(parts, k - 1);
    }
  }

  /** Words are laid out left to right without overlap. */
  lemma ViewsFromOrdered(parts: seq<string>, offset: nat, total: nat, p: real, j: nat, k: nat)
    requires total >= 1 && j < k < |parts|
    ensures ViewsFrom(parts, offset, total, p)[j].offset + |parts[j]| <= ViewsFrom(parts, offset, total, p)[k].offset
  {
    ViewsFromOffset(parts, offset, total, p, j);
    ViewsFromOffset(parts, offset, total, p, k);
    ConcatPrefixMono(parts, j, k);
  }

  /** In a rendered line at most one word is focused. */
  lemma LineViewFocus(text: string, p: real)
    ensures forall j, k :: 0 <= j < k < |LineView(text, p)| ==>
      !(LineView(text, p)[j].focused && LineView(text, p)[k].focused)
  {
    var parts := SplitWords(text);
    var total := Total(text);
    var vs := LineView(text, p);
    forall j, k | 0 <= j < k < |vs| ensures !(vs[j].focused && vs[k].focused) {
      ViewsFromOrdered(parts, 0, total, p, j, k);
      FocusExclusive(vs[j].offset, |parts[j]|, vs[k].offset, |parts[k]|, total, p);
    }
  }

  /** Painting runs left to right: a painted word has only painted words before it. */
  lemma LineViewPainted(text: string, p: real)
    ensures forall j, k :: 0 <= j < k < |LineView(text, p)| && LineView(text, p)[k].painted ==>
      LineView(text, p)[j].painted
  {
    var parts := SplitWords(text);
    var total := Total(text);
    var vs := LineView(text, p);
    forall j, k | 0 <= j < k < |vs| && vs[k].painted ensures vs[j].painted {
      ViewsFromOrdered(parts, 0, total, p, j, k);
      DivMono((vs[j].offset + |parts[j]|) as real, (vs[k].offset + |parts[k]|) as real, total as real);
    }
  }

  /** The characters of all word spans, in order. */
  function FlatChars(vs: seq<WordView>): seq<CharView> {
    if |vs| == 0 then [] else vs[0].chars + FlatChars(vs[1..])
  }

  /** Character `i` of the text, with the fill of line offset `offset + i`. */
  function CharsFrom(s: string, offset: nat, total: nat, p: real): (cs: seq<CharView>)
    requires total >= 1
    ensures |cs| == |s|
  {
    seq(|s|, i requires 0 <= i < |s| => CharView(s[i], CharFill(offset + i, total, p)))
  }

  lemma {:induction false} FlatViewsFrom(parts: seq<string>, offset: nat, total: nat, p: real)
    requires total >= 1
    ensures FlatChars(ViewsFrom(parts, offset, total, p)) == CharsFrom(Concat(parts), offset, total, p)
    decreases |parts|
  {
    if |parts| > 0 {
      var vs := ViewsFrom(parts, offset, total, p);
      var w := parts[0];
      FlatViewsFrom(parts[1..], offset + |w|, total, p);
      assert vs[1..] == ViewsFrom(parts[1..], offset + |w|, total, p);
      var lhs := FlatChars(vs);
      var rhs := CharsFrom(Concat(parts), offset, total, p);
      assert lhs == vs[0].chars + CharsFrom(Concat(parts[1..]), offset + |w|, total, p);
      assert |lhs| == |rhs|;
      forall i | 0 <= i < |lhs| ensures lhs[i] == rhs[i] {
        if i < |w| {
          assert lhs[i] == vs[0].chars[i];
        } else {
          assert Concat(parts)[i] == Concat(parts[1..])[i - |w|];
        }
      }
    }
  }

  /** The rendered characters spell the text, and character `i` carries the fill of
      line offset `i`: the running offset never skips or repeats a character. */
  lemma LineViewChars(text: string, p: real)
    ensures FlatChars(LineView(text, p)) == CharsFrom(text, 0, Total(text), p)
  {
    FlatViewsFrom(SplitWords(text), 0, Total(text), p);
    SplitWordsConcat(text);
  }

  // ---------------------------------------------------------------------------
  // StaticLine
  // ---------------------------------------------------------------------------

  /** A non-active line: the text padded by a space on each side, at 0.8 of the
      font size, in the given colour. */
  datatype StaticView = StaticView(content: string, color: string, fontSize: real)

  function StaticLine(text: string, color: string, fontSize: real): (v: StaticView)
    ensures |v.content| == |text| + 2 && v.content[1..|v.content| - 1] == text
    ensures v.content == " " + text + " " && v.color == color
    ensures v.fontSize == fontSize * 0.8
    ensures fontSize > 0.0 ==> 0.0 < v.fontSize < fontSize
  {
    StaticView(" " + text + " ", color, fontSize * 0.8)
  }
}
