/** `parseRSSFeed`: podcast items pulled out of an RSS 2.0 document with regular
    expressions. Each expression is written here as the search it performs; the tag
    names are matched without regard to ASCII case (the `/i` flag), and a lazy
    `([\s\S]*?)` body ends at the first closing tag. */
module ElectronRss {
  import opened Wrappers
  import opened Text

  // ---------------------------------------------------------------------------
  // Searching
  // ---------------------------------------------------------------------------

  /** The first index at or after `from` holding `c`, or `|s|` when there is none. */
  function FindChar(s: string, from: nat, c: char): (k: nat)
    requires from <= |s|
    ensures from <= k <= |s|
    ensures k < |s| ==> s[k] == c
    decreases |s| - from
  {
    if from == |s| || s[from] == c then from else FindChar(s, from + 1, c)
  }

  /** No `c` lies between `from` and the index found. */
  lemma {:induction false} FindCharFirst(s: string, from: nat, c: char)
    requires from <= |s|
    ensures forall j :: from <= j < FindChar(s, from, c) ==> s[j] != c
    decreases |s| - from
  {
    if from < |s| && s[from] != c {
      FindCharFirst(s, from + 1, c);
    }
  }

  /** The first index at or after `from` where `pat` starts, case ignored. */
  function FindNoCase(s: string, from: nat, pat: string): (k: Option<nat>)
    requires from <= |s|
    ensures k.Some? ==> from <= k.value && k.value + |pat| <= |s|
    decreases |s| - from
  {
    if StartsAtNoCase(s, from, pat) then Some(from)
    else if from == |s| then None
    else FindNoCase(s, from + 1, pat)
  }

  /** The search finds the first occurrence, and nothing only when there is none. */
  lemma {:induction false} FindNoCaseSpec(s: string, from: nat, pat: string)
    requires from <= |s|
    ensures var k := FindNoCase(s, from, pat);
            && (k.Some? ==> StartsAtNoCase(s, k.value, pat))
            && (k.Some? ==> forall j :: from <= j < k.value ==> !StartsAtNoCase(s, j, pat))
            && (k.None? ==> forall j :: from <= j <= |s| ==> !StartsAtNoCase(s, j, pat))
    decreases |s| - from
  {
    if !StartsAtNoCase(s, from, pat) && from < |s| {
      FindNoCaseSpec(s, from + 1, pat);
    }
  }

  /** The search stops at the first occurrence. */
  lemma FindNoCaseAt(s: string, from: nat, pat: string, c: nat)
    requires from <= c <= |s| && StartsAtNoCase(s, c, pat)
    requires forall j :: from <= j < c ==> !StartsAtNoCase(s, j, pat)
    ensures FindNoCase(s, from, pat) == Some(c)
  {
    FindNoCaseSpec(s, from, pat);
  }

  /** A lower-case pattern present at `c`, whose first character lowers from nothing
      in `[lo, c)`, is found at `c`. */
  lemma FindNoCaseExact(s: string, lo: nat, c: nat, pat: string)
    requires lo <= c && c + |pat| <= |s| && |pat| > 0
    requires s[c..c + |pat|] == pat
    requires forall k :: 0 <= k < |pat| ==> LowerAscii(pat[k]) == pat[k]
    requires forall j :: lo <= j < c ==> LowerAscii(s[j]) != pat[0]
    ensures FindNoCase(s, lo, pat) == Some(c)
  {
    forall k | 0 <= k < |pat| ensures LowerAscii(s[c + k]) == pat[k] {
      assert s[c + k] == s[c..c + |pat|][k];
    }
    StartsAtNoCaseChars(s, c, pat);
    FindNoCaseAt(s, lo, pat, c);
  }

  // ---------------------------------------------------------------------------
  // Elements: /<name[^>]*>([\s\S]*?)<\/name>/i
  // ---------------------------------------------------------------------------

  /** Where an element matched: the `<` of its opening tag, and its body
      `s[contentStart..contentEnd]`, which the closing tag follows. */
  datatype ElementMatch = ElementMatch(start: nat, contentStart: nat, contentEnd: nat)

  function Closing(name: string): string {
    "</" + name + ">"
  }

  /** A tag name as the expressions write it: non-empty, in lower case, without `>`. */
  predicate TagName(name: string) {
    |name| > 0 && '>' !in name && forall k :: 0 <= k < |name| ==> LowerAscii(name[k]) == name[k]
  }

  /** `<name>body</name>`. */
  function Element(name: string, body: string): string {
    "<" + name + ">" + body + Closing(name)
  }

  /** The element match that starts at `i`: the opening tag runs to the first `>`,
      the body to the first closing tag after it. */
  function ElementAt(s: string, i: nat, name: string): (m: Option<ElementMatch>)
    requires i <= |s|
    ensures m.Some? ==> m.value.start == i < m.value.contentStart <= m.value.contentEnd &&
                        m.value.contentEnd + |Closing(name)| <= |s|
  {
    if !StartsAtNoCase(s, i, "<" + name) then None
    else
      var g := FindChar(s, i + 1 + |name|, '>');
      if g == |s| then None
      else match FindNoCase(s, g + 1, Closing(name))
        case None => None
        case Some(k) => Some(ElementMatch(i, g + 1, k))
  }

  /** The leftmost match at or after `from`, as `exec` finds it. */
  function FirstElement(s: string, from: nat, name: string): (m: Option<ElementMatch>)
    requires from <= |s|
    ensures m.Some? ==> from <= m.value.start < m.value.contentStart <= m.value.contentEnd &&
                        m.value.contentEnd + |Closing(name)| <= |s|
    decreases |s| - from
  {
    var here := ElementAt(s, from, name);
    if here.Some? then here
    else if from == |s| then None
    else FirstElement(s, from + 1, name)
  }

  /** A match is an opening tag up to its first `>`, then a body, then the first
      closing tag after that `>`. */
  lemma ElementAtShape(s: string, i: nat, name: string)
    requires i <= |s| && ElementAt(s, i, name).Some?
    ensures var m := ElementAt(s, i, name).value;
            && StartsAtNoCase(s, i, "<" + name)
            && i + 1 + |name| < m.contentStart
            && s[m.contentStart - 1] == '>'
            && (forall j :: i + 1 + |name| <= j < m.contentStart - 1 ==> s[j] != '>')
            && StartsAtNoCase(s, m.contentEnd, Closing(name))
            && (forall j :: m.contentStart <= j < m.contentEnd ==> !StartsAtNoCase(s, j, Closing(name)))
  {
    FindCharFirst(s, i + 1 + |name|, '>');
    FindNoCaseSpec(s, ElementAt(s, i, name).value.contentStart, Closing(name));
  }

  /** `exec` returns the leftmost match, and none only when no position matches. */
  lemma {:induction false} FirstElementLeftmost(s: string, from: nat, name: string)
    requires from <= |s|
    ensures var m := FirstElement(s, from, name);
            && (m.Some? ==> ElementAt(s, m.value.start, name) == m)
            && (m.Some? ==> forall j :: from <= j < m.value.start ==> ElementAt(s, j, name).None?)
            && (m.None? ==> forall j :: from <= j <= |s| ==> ElementAt(s, j, name).None?)
    decreases |s| - from
  {
    if ElementAt(s, from, name).None? && from < |s| {
      FirstElementLeftmost(s, from + 1, name);
    }
  }

  /** `itemContent.match(...)[1]`: the body of the first such element. */
  function ElementText(s: string, name: string): (t: Option<string>)
  {
    match FirstElement(s, 0, name)
    case None => None
    case Some(m) => Some(s[m.contentStart..m.contentEnd])
  }

  /** No `<` in `t` is followed by `c` (case ignored) or ends `t`: no tag whose name
      starts with `c` opens inside `t`. */
  predicate NoOpening(t: string, c: char) {
    forall j :: 0 <= j < |t| && t[j] == '<' ==> j + 1 < |t| && LowerAscii(t[j + 1]) != c
  }

  /** An element with a bare opening tag, whatever follows it, is found with its body
      when no closing tag starts inside the body. */
  lemma ElementTextOf(name: string, body: string, rest: string)
    requires NoOpening(body, '/') && TagName(name)
    ensures ElementText(Element(name, body) + rest, name) == Some(body)
  {
    var s := Element(name, body) + rest;
    var L := 1 + |name|;
    var c := L + 1 + |body|;
    assert s[..L] == "<" + name;
    OpeningOf(s, name);
    ClosingOf(s, name, body, rest);
    assert ElementAt(s, 0, name) == Some(ElementMatch(0, L + 1, c));
    assert FirstElement(s, 0, name) == Some(ElementMatch(0, L + 1, c));
    assert s[L + 1..c] == body;
  }

  lemma OpeningOf(s: string, name: string)
    requires |s| > 1 + |name| && s[..1 + |name|] == "<" + name && s[1 + |name|] == '>'
    requires forall k :: 0 <= k < |name| ==> LowerAscii(name[k]) == name[k]
    ensures StartsAtNoCase(s, 0, "<" + name)
    ensures FindChar(s, 1 + |name|, '>') == 1 + |name|
  {
    forall k | 0 <= k < 1 + |name| ensures LowerAscii(s[k]) == ("<" + name)[k] {
      assert s[k] == s[..1 + |name|][k];
      if k > 0 { assert ("<" + name)[k] == name[k - 1]; }
    }
    StartsAtNoCaseChars(s, 0, "<" + name);
  }

  lemma ClosingOf(s: string, name: string, body: string, rest: string)
    requires NoOpening(body, '/') && s == "<" + name + ">" + body + Closing(name) + rest
    requires forall k :: 0 <= k < |name| ==> LowerAscii(name[k]) == name[k]
    ensures FindNoCase(s, 2 + |name|, Closing(name)) == Some(2 + |name| + |body|)
  {
    var lo := 2 + |name|;
    var c := lo + |body|;
    assert s[c..c + |Closing(name)|] == Closing(name);
    forall k | 0 <= k < |Closing(name)| ensures LowerAscii(s[c + k]) == Closing(name)[k] {
      assert s[c + k] == s[c..c + |Closing(name)|][k];
      if 2 <= k < 2 + |name| { assert Closing(name)[k] == name[k - 2]; }
    }
    StartsAtNoCaseChars(s, c, Closing(name));
    forall j | lo <= j < c ensures !StartsAtNoCase(s, j, Closing(name)) {
      StartsAtNoCaseChars(s, j, Closing(name));
      assert s[j] == body[j - lo];
      if j + 1 < c {
        assert s[j + 1] == body[j + 1 - lo];
      } else {
        assert s[j + 1] == Closing(name)[0];
      }
    }
    FindNoCaseAt(s, lo, Closing(name), c);
  }

  // ---------------------------------------------------------------------------
  // The items of a feed: /<item[^>]*>([\s\S]*?)<\/item>/gi
  // ---------------------------------------------------------------------------

  /** The matches the global expression yields from `lastIndex` on: each search
      resumes after the previous match's closing tag. */
  function ItemMatches(s: string, lastIndex: nat): (ms: seq<ElementMatch>)
    requires lastIndex <= |s|
    ensures InBounds(s, ms)
    decreases |s| - lastIndex
  {
    match FirstElement(s, lastIndex, "item")
    case None => []
    case Some(m) => [m] + ItemMatches(s, m.contentEnd + |Closing("item")|)
  }

  /** The matches come in document order and do not overlap: each starts after the
      closing tag of the one before. */
  lemma ItemMatchesOrdered(s: string, lastIndex: nat)
    requires lastIndex <= |s|
    ensures var ms := ItemMatches(s, lastIndex);
            && (forall j :: 0 <= j < |ms| ==>
                  lastIndex <= ms[j].start < ms[j].contentStart <= ms[j].contentEnd &&
                  ms[j].contentEnd + |Closing("item")| <= |s|)
            && (forall j :: 0 <= j < |ms| - 1 ==> ms[j].contentEnd + |Closing("item")| <= ms[j + 1].start)
  {
    ItemMatchesChained(s, lastIndex);
    ChainedOrdered(ItemMatches(s, lastIndex), lastIndex, |s|);
  }

  /** Matches laid out one after another: each starts at or after `from`, and the
      next one at or after the end of its closing tag, all within `n`. */
  predicate Chained(ms: seq<ElementMatch>, from: nat, n: nat)
    decreases |ms|
  {
    ms == [] ||
    (from <= ms[0].start < ms[0].contentStart <= ms[0].contentEnd &&
     ms[0].contentEnd + |Closing("item")| <= n &&
     Chained(ms[1..], ms[0].contentEnd + |Closing("item")|, n))
  }

  lemma {:induction false} ItemMatchesChained(s: string, lastIndex: nat)
    requires lastIndex <= |s|
    ensures Chained(ItemMatches(s, lastIndex), lastIndex, |s|)
    decreases |s| - lastIndex
  {
    var f := FirstElement(s, lastIndex, "item");
    if f.Some? {
      var next := f.value.contentEnd + |Closing("item")|;
      ItemMatchesChained(s, next);
      ItemMatchesCons(s, lastIndex);
      assert ([f.value] + ItemMatches(s, next))[1..] == ItemMatches(s, next);
    }
  }

  lemma {:induction false} ChainedOrdered(ms: seq<ElementMatch>, from: nat, n: nat)
    requires Chained(ms, from, n)
    ensures forall j :: 0 <= j < |ms| ==>
              from <= ms[j].start < ms[j].contentStart <= ms[j].contentEnd &&
              ms[j].contentEnd + |Closing("item")| <= n
    ensures forall j :: 0 <= j < |ms| - 1 ==> ms[j].contentEnd + |Closing("item")| <= ms[j + 1].start
    decreases |ms|
  {
    if ms != [] {
      ChainedOrdered(ms[1..], ms[0].contentEnd + |Closing("item")|, n);
      assert forall j :: 1 <= j < |ms| ==> ms[j] == ms[1..][j - 1];
    }
  }

  /** A search that finds a match yields it, then the matches after its closing tag. */
  lemma ItemMatchesCons(s: string, lastIndex: nat)
    requires lastIndex <= |s| && FirstElement(s, lastIndex, "item").Some?
    ensures var m := FirstElement(s, lastIndex, "item").value;
            ItemMatches(s, lastIndex) == [m] + ItemMatches(s, m.contentEnd + |Closing("item")|)
  {
  }

  // ---------------------------------------------------------------------------
  // CDATA: replace(/<!\[CDATA\[(.*?)\]\]>/gi, '$1')
  // ---------------------------------------------------------------------------

  const CdataOpen := "<![cdata["
  const CdataClose := "]]>"

  /** The characters `.` does not match. */
  predicate IsLineTerminator(c: char) {
    c == '\n' || c == '\r' || c == '\U{2028}' || c == '\U{2029}'
  }

  /** A CDATA section at the start of `s`: the index of its `]]>`, if the section's
      text holds no line terminator. */
  function CdataAt(s: string): (k: Option<nat>)
    ensures k.Some? ==> |CdataOpen| <= k.value && k.value + |CdataClose| <= |s|
  {
    if !StartsAtNoCase(s, 0, CdataOpen) then None
    else match FindNoCase(s, |CdataOpen|, CdataClose)
      case None => None
      case Some(k) =>
        if SingleLine(s[|CdataOpen|..k]) then Some(k) else None
  }

  /** A text that `.` matches character by character. */
  predicate SingleLine(t: string) {
    forall j :: 0 <= j < |t| ==> !IsLineTerminator(t[j])
  }

  /** Every CDATA section is replaced by its text. */
  function StripCdata(s: string): (r: string)
    decreases |s|
  {
    if s == [] then []
    else if CdataAt(s).Some? then
      var k := CdataAt(s).value;
      s[|CdataOpen|..k] + StripCdata(s[k + |CdataClose|..])
    else [s[0]] + StripCdata(s[1..])
  }

  /** Text without a `<` has no CDATA section and is kept as it is. */
  lemma {:induction false} StripCdataPlain(s: string)
    requires '<' !in s
    ensures StripCdata(s) == s
    decreases |s|
  {
    if s != [] {
      assert CdataOpen[0] == '<' && LowerAscii(s[0]) != '<';
      assert CdataAt(s).None?;
      assert '<' !in s[1..];
      StripCdataPlain(s[1..]);
      assert s == [s[0]] + s[1..];
    }
  }

  /** A text wrapped in one CDATA section comes back unwrapped. */
  lemma StripCdataWrapped(x: string)
    requires ']' !in x && SingleLine(x)
    ensures StripCdata("<![CDATA[" + x + "]]>") == x
  {
    var s := "<![CDATA[" + x + "]]>";
    var n := |CdataOpen|;
    CdataAtWrapped(x);
    StripCdataSection(s, n + |x|);
    assert s[n..n + |x|] == x;
    assert s[n + |x| + |CdataClose|..] == [];
    assert x + [] == x;
  }

  /** A section found at the start is replaced by its text. */
  lemma StripCdataSection(s: string, k: nat)
    requires CdataAt(s) == Some(k)
    ensures StripCdata(s) == s[|CdataOpen|..k] + StripCdata(s[k + |CdataClose|..])
  {
    assert s != [];
  }

  lemma CdataAtWrapped(x: string)
    requires ']' !in x && SingleLine(x)
    ensures CdataAt("<![CDATA[" + x + "]]>") == Some(|CdataOpen| + |x|)
  {
    var s := "<![CDATA[" + x + "]]>";
    var n := |CdataOpen|;
    CdataOpens(x);
    assert s[n..] == x + CdataClose;
    CdataCloses(s, n, x);
    assert s[n..n + |x|] == x;
  }

  lemma CdataOpens(x: string)
    ensures StartsAtNoCase("<![CDATA[" + x + "]]>", 0, CdataOpen)
  {
    var s := "<![CDATA[" + x + "]]>";
    var n := |CdataOpen|;
    forall k | 0 <= k < n ensures LowerAscii(s[k]) == CdataOpen[k] {
      assert s[k] == "<![CDATA["[k];
    }
    StartsAtNoCaseChars(s, 0, CdataOpen);
  }

  /** The first `]]>` after the section's opening is the one that follows its text. */
  lemma CdataCloses(s: string, n: nat, x: string)
    requires n <= |s| && s[n..] == x + CdataClose && ']' !in x
    ensures FindNoCase(s, n, CdataClose) == Some(n + |x|)
  {
    forall j | n <= j < n + |x| ensures LowerAscii(s[j]) != CdataClose[0] {
      assert s[j] == s[n..][j - n] == x[j - n];
    }
    assert s[n + |x|..n + |x| + |CdataClose|] == s[n..][|x|..] == CdataClose;
    FindNoCaseExact(s, n, n + |x|, CdataClose);
  }

  // ---------------------------------------------------------------------------
  // Enclosure URLs: /<name[^>]*url=["']([^"']+)["'][^>]*>/i
  // ---------------------------------------------------------------------------

  predicate IsQuote(c: char) {
    c == '"' || c == '\''
  }

  /** The first quote at or after `from`, or `|s|`. */
  function FindQuote(s: string, from: nat): (k: nat)
    requires from <= |s|
    ensures from <= k <= |s|
    ensures k < |s| ==> IsQuote(s[k])
    decreases |s| - from
  {
    if from == |s| || IsQuote(s[from]) then from else FindQuote(s, from + 1)
  }

  /** No quote lies between `from` and the index found. */
  lemma {:induction false} FindQuoteFirst(s: string, from: nat)
    requires from <= |s|
    ensures forall j :: from <= j < FindQuote(s, from) ==> !IsQuote(s[j])
    decreases |s| - from
  {
    if from < |s| && !IsQuote(s[from]) {
      FindQuoteFirst(s, from + 1);
    }
  }

  /** The run from `from` up to the next quote holds no quote. */
  lemma QuoteFreeRun(s: string, from: nat)
    requires from <= |s|
    ensures forall j :: 0 <= j < FindQuote(s, from) - from ==> !IsQuote(s[from..FindQuote(s, from)][j])
  {
    var e := FindQuote(s, from);
    FindQuoteFirst(s, from);
    forall j | 0 <= j < e - from ensures !IsQuote(s[from..e][j]) {
      assert s[from..e][j] == s[from + j];
    }
  }

  /** The quoted value of a `url=` at `p`: a quote, a non-empty run free of quotes up
      to the next quote, and a `>` somewhere after that. */
  function UrlAt(s: string, p: nat): (u: Option<string>)
    requires p <= |s|
    ensures u.Some? ==> u.value != [] && forall j :: 0 <= j < |u.value| ==> !IsQuote(u.value[j])
  {
    if StartsAtNoCase(s, p, "url=") && p + 4 < |s| && IsQuote(s[p + 4]) then
      var e := FindQuote(s, p + 5);
      if p + 5 < e < |s| && FindChar(s, e + 1, '>') < |s| then
        QuoteFreeRun(s, p + 5);
        Some(s[p + 5..e])
      else None
    else None
  }

  /** The greedy `[^>]*` before `url=` settles on the last `url=` that works, among
      the positions in `[lo, hi)`. */
  function LastUrl(s: string, lo: nat, hi: nat): (u: Option<string>)
    requires lo <= hi <= |s|
    ensures u.Some? ==> u.value != []
    decreases hi - lo
  {
    if hi == lo then None
    else match UrlAt(s, hi - 1)
      case Some(v) => Some(v)
      case None => LastUrl(s, lo, hi - 1)
  }

  /** The URL the expression captures when it starts at `i`: the `url=` must lie
      inside the opening tag, before its first `>`. */
  function TagUrlAt(s: string, i: nat, name: string): (u: Option<string>)
    requires i <= |s|
    ensures u.Some? ==> u.value != [] && StartsAtNoCase(s, i, "<" + name)
  {
    if !StartsAtNoCase(s, i, "<" + name) then None
    else
      var from := i + 1 + |name|;
      LastUrl(s, from, FindChar(s, from, '>'))
  }

  /** The URL of the leftmost match at or after `from`. */
  function TagUrl(s: string, name: string, from: nat): (u: Option<string>)
    requires from <= |s|
    ensures u.Some? ==> u.value != []
    decreases |s| - from
  {
    var here := TagUrlAt(s, from, name);
    if here.Some? then here
    else if from == |s| then None
    else TagUrl(s, name, from + 1)
  }

  /** The search reports the leftmost position whose tag yields a URL, and nothing
      when no position from `from` on does. */
  lemma {:induction false} TagUrlLeftmost(s: string, name: string, from: nat)
    requires from <= |s|
    ensures TagUrl(s, name, from).None? ==> forall k :: from <= k <= |s| ==> TagUrlAt(s, k, name).None?
    ensures TagUrl(s, name, from).Some? ==> exists k :: (from <= k <= |s| &&
      TagUrlAt(s, k, name) == TagUrl(s, name, from) &&
      forall j :: from <= j < k ==> TagUrlAt(s, j, name).None?)
    decreases |s| - from
  {
    if TagUrlAt(s, from, name).None? && from < |s| {
      TagUrlLeftmost(s, name, from + 1);
      if TagUrl(s, name, from).Some? {
        var k :| from + 1 <= k <= |s| && TagUrlAt(s, k, name) == TagUrl(s, name, from + 1) &&
          forall j :: from + 1 <= j < k ==> TagUrlAt(s, j, name).None?;
        assert TagUrlAt(s, k, name) == TagUrl(s, name, from);
      }
    }
  }

  // ---------------------------------------------------------------------------
  // Items
  // ---------------------------------------------------------------------------

  /** An item; a field is None when its element is missing. */
  datatype Item = Item(title: Option<string>, description: Option<string>, link: Option<string>,
                       pubDate: Option<string>, audioUrl: Option<string>)

  /** `item.title && item.audioUrl`: both present and non-empty. */
  predicate Kept(it: Item) {
    it.title.Some? && it.title.value != [] && it.audioUrl.Some? && it.audioUrl.value != []
  }

  function TrimOpt(t: Option<string>): Option<string> {
    match t case Some(v) => Some(Trim(v)) case None => None
  }

  function CleanOpt(t: Option<string>): Option<string> {
    match t case Some(v) => Some(Trim(StripCdata(v))) case None => None
  }

  /** The fields of one item's body. Title and description lose their CDATA
      wrappers and surrounding white space, link and date their white space; the
      audio URL is the `<enclosure>` one, or else the `<itunes:enclosure>` one. */
  function ParseItem(content: string): Item {
    var enclosure := TagUrl(content, "enclosure", 0);
    Item(CleanOpt(ElementText(content, "title")),
         CleanOpt(ElementText(content, "description")),
         TrimOpt(ElementText(content, "link")),
         TrimOpt(ElementText(content, "pubdate")),
         if enclosure.Some? then enclosure else TagUrl(content, "itunes:enclosure", 0))
  }

  // ---------------------------------------------------------------------------
  // A typical item body
  // ---------------------------------------------------------------------------

  /** A title wrapped in a CDATA section. */
  function CdataTitle(x: string): string {
    Element("title", "<![CDATA[" + x + "]]>")
  }

  /** An empty tag `<name url="u"/>`. */
  function UrlTag(name: string, u: string): string {
    "<" + name + " url=\"" + u + "\"/>"
  }

  /** A URL as the expression captures it: non-empty, with no quote, and no `>` that
      would end the tag early. */
  predicate PlainUrl(u: string) {
    u != [] && '>' !in u && forall j :: 0 <= j < |u| ==> !IsQuote(u[j])
  }

  /** An item with a CDATA-wrapped title and an `<enclosure>` tag: the title is the
      trimmed text, the audio URL is the tag's, and the item is kept exactly when the
      trimmed title is not empty. */
  lemma ParseItemEnclosure(x: string, u: string)
    requires '<' !in x && ']' !in x && SingleLine(x) && PlainUrl(u)
    ensures ParseItem(CdataTitle(x) + UrlTag("enclosure", u)).title == Some(Trim(x))
    ensures ParseItem(CdataTitle(x) + UrlTag("enclosure", u)).audioUrl == Some(u)
    ensures Kept(ParseItem(CdataTitle(x) + UrlTag("enclosure", u))) <==> Trim(x) != []
  {
    TitleOf(x, UrlTag("enclosure", u));
    assert TagUrl(CdataTitle(x) + UrlTag("enclosure", u), "enclosure", 0) == Some(u) by {
      KnownTagNames();
      TagUrlAfterTitle(x, "enclosure", u);
    }
  }

  /** The search for a tag passes over a CDATA title and captures the URL of the tag
      after it; the title's only tags start with `t`, `!` and `/`. */
  lemma TagUrlAfterTitle(x: string, name: string, u: string)
    requires '<' !in x && PlainUrl(u) && TagName(name)
    requires name[0] != 't' && name[0] != '!' && name[0] != '/'
    ensures TagUrl(CdataTitle(x) + UrlTag(name, u), name, 0) == Some(u)
  {
    var t := CdataTitle(x);
    var s := t + UrlTag(name, u);
    TitleNoOpening(x, name[0]);
    assert s[0..|t|] == t;
    NoOpeningNoTag(s, 0, t, name);
    TagUrlSkip(s, name, 0, |t|);
    assert s[|t|..] == UrlTag(name, u);
    TagUrlAtOf(s, |t|, name, u);
  }

  /** Without an `<enclosure>` tag the audio URL is the `<itunes:enclosure>` one. */
  lemma ParseItemItunes(x: string, v: string)
    requires '<' !in x && ']' !in x && SingleLine(x) && PlainUrl(v) && '<' !in v
    ensures ParseItem(CdataTitle(x) + UrlTag("itunes:enclosure", v)).title == Some(Trim(x))
    ensures ParseItem(CdataTitle(x) + UrlTag("itunes:enclosure", v)).audioUrl == Some(v)
  {
    TitleOf(x, UrlTag("itunes:enclosure", v));
    ItunesNoEnclosure(x, v);
    assert TagUrl(CdataTitle(x) + UrlTag("itunes:enclosure", v), "itunes:enclosure", 0) == Some(v) by {
      KnownTagNames();
      TagUrlAfterTitle(x, "itunes:enclosure", v);
    }
  }

  /** Such an item has no `<enclosure` anywhere. */
  lemma ItunesNoEnclosure(x: string, v: string)
    requires '<' !in x && '<' !in v
    ensures TagUrl(CdataTitle(x) + UrlTag("itunes:enclosure", v), "enclosure", 0) == None
  {
    var t := CdataTitle(x);
    var e := UrlTag("itunes:enclosure", v);
    var s := t + e;
    TitleNoOpening(x, 'e');
    ItunesNoOpening(v);
    assert s[0..|t|] == t;
    assert s[|t|..|t| + |e|] == e;
    NoOpeningNoTag(s, 0, t, "enclosure");
    NoOpeningNoTag(s, |t|, e, "enclosure");
    TagUrlSkip(s, "enclosure", 0, |s|);
  }

  /** The names the item expressions use. */
  lemma KnownTagNames()
    ensures TagName("title") && TagName("enclosure") && TagName("itunes:enclosure")
  {
  }

  /** The title element is found first, and its CDATA wrapper removed. */
  lemma TitleOf(x: string, rest: string)
    requires '<' !in x && ']' !in x && SingleLine(x)
    ensures CleanOpt(ElementText(CdataTitle(x) + rest, "title")) == Some(Trim(x))
  {
    var body := "<![CDATA[" + x + "]]>";
    var s := CdataTitle(x) + rest;
    assert ElementText(s, "title") == Some(body) by {
      CdataBodyNoClosing(x);
      KnownTagNames();
      ElementTextOf("title", body, rest);
    }
    assert StripCdata(body) == x by {
      StripCdataWrapped(x);
    }
  }

  lemma CdataBodyNoClosing(x: string)
    requires '<' !in x
    ensures NoOpening("<![CDATA[" + x + "]]>", '/')
  {
    var b := "<![CDATA[" + x + "]]>";
    forall j | 0 <= j < |b| && b[j] == '<' ensures j + 1 < |b| && LowerAscii(b[j + 1]) != '/' {
      assert b[j] !in x;
    }
  }

  lemma TitleNoOpening(x: string, c: char)
    requires '<' !in x && c != 't' && c != '!' && c != '/'
    ensures NoOpening(CdataTitle(x), c)
  {
    var t := CdataTitle(x);
    forall j | 0 <= j < |t| && t[j] == '<' ensures j + 1 < |t| && LowerAscii(t[j + 1]) != c {
      assert t[j] !in x;
    }
  }

  lemma ItunesNoOpening(v: string)
    requires '<' !in v
    ensures NoOpening(UrlTag("itunes:enclosure", v), 'e')
  {
    var e := UrlTag("itunes:enclosure", v);
    forall j | 0 <= j < |e| && e[j] == '<' ensures j + 1 < |e| && LowerAscii(e[j + 1]) != 'e' {
      assert e[j] !in v;
    }
  }

  /** Where `t` lies in `s` and opens no tag starting like `name`, no `<name` match
      starts. */
  lemma NoOpeningNoTag(s: string, lo: nat, t: string, name: string)
    requires lo + |t| <= |s| && s[lo..lo + |t|] == t && |name| > 0 && NoOpening(t, name[0])
    ensures forall j :: lo <= j < lo + |t| ==> !StartsAtNoCase(s, j, "<" + name)
  {
    forall j | lo <= j < lo + |t| ensures !StartsAtNoCase(s, j, "<" + name) {
      StartsAtNoCaseChars(s, j, "<" + name);
      assert s[j] == t[j - lo];
      if t[j - lo] == '<' && j + 1 - lo < |t| {
        assert s[j + 1] == t[j + 1 - lo];
        assert ("<" + name)[1] == name[0];
      }
    }
  }

  /** The search for a tag passes over positions where it cannot open. */
  lemma {:induction false} TagUrlSkip(s: string, name: string, from: nat, stop: nat)
    requires from <= stop <= |s|
    requires forall j :: from <= j < stop ==> !StartsAtNoCase(s, j, "<" + name)
    ensures TagUrl(s, name, from) == TagUrl(s, name, stop)
    decreases stop - from
  {
    if from < stop {
      TagUrlSkip(s, name, from + 1, stop);
    }
  }

  /** `<name url="u"/>` ending the text at `k` yields `u` at `k`. */
  lemma TagUrlAtOf(s: string, k: nat, name: string, u: string)
    requires k <= |s| && s[k..] == UrlTag(name, u) && PlainUrl(u) && TagName(name)
    ensures TagUrl(s, name, k) == Some(u)
  {
    var from := k + 1 + |name|;
    assert StartsAtNoCase(s, k, "<" + name) by {
      TagOpens(s, k, name, u);
    }
    assert LastUrl(s, from, FindChar(s, from, '>')) == Some(u) by {
      TagRest(s, k, name, u);
      UrlTail(s, from, u);
    }
    TagUrlOpened(s, k, name);
  }

  /** Once the tag opens at `i`, the URL is the last working `url=` inside it. */
  lemma TagUrlOpened(s: string, i: nat, name: string)
    requires i <= |s| && StartsAtNoCase(s, i, "<" + name)
    requires LastUrl(s, i + 1 + |name|, FindChar(s, i + 1 + |name|, '>')).Some?
    ensures TagUrl(s, name, i) == LastUrl(s, i + 1 + |name|, FindChar(s, i + 1 + |name|, '>'))
  {
    assert TagUrlAt(s, i, name) == LastUrl(s, i + 1 + |name|, FindChar(s, i + 1 + |name|, '>'));
  }

  /** After the tag name comes ` url="u"/>`, to the end. */
  lemma TagRest(s: string, k: nat, name: string, u: string)
    requires k <= |s| && s[k..] == UrlTag(name, u)
    ensures k + 1 + |name| <= |s|
    ensures s[k + 1 + |name|..] == " url=\"" + u + "\"/>"
  {
    assert s[k + 1 + |name|..] == s[k..][1 + |name|..];
  }

  lemma TagOpens(s: string, k: nat, name: string, u: string)
    requires k <= |s| && s[k..] == UrlTag(name, u) && TagName(name)
    ensures StartsAtNoCase(s, k, "<" + name)
  {
    forall i | 0 <= i < 1 + |name| ensures LowerAscii(s[k + i]) == ("<" + name)[i] {
      assert s[k + i] == s[k..][i];
      if i > 0 { assert s[k + i] == name[i - 1]; }
    }
    StartsAtNoCaseChars(s, k, "<" + name);
  }

  /** A tag that ends with ` url="u"/>` from `from` on captures `u`: the written
      `url=` works, and none after it does. */
  lemma UrlTail(s: string, from: nat, u: string)
    requires from <= |s| && s[from..] == " url=\"" + u + "\"/>" && PlainUrl(u)
    ensures LastUrl(s, from, FindChar(s, from, '>')) == Some(u)
  {
    var p := from + 1;
    var q := p + 5 + |u|;
    UrlTailLayout(s, from, u);
    TailEnd(s, from, u);
    forall r | p < r < q + 2 ensures UrlAt(s, r).None? {
      NoUrlAfter(s, p, q, r);
    }
    UrlAtTail(s, from, u);
    LastUrlAt(s, from, p, q + 2);
  }

  /** The characters of ` url="u"/>` at `from`. */
  lemma UrlTailLayout(s: string, from: nat, u: string)
    requires from <= |s| && s[from..] == " url=\"" + u + "\"/>" && PlainUrl(u)
    ensures var q := from + 6 + |u|;
            && |s| == q + 3 && s[from] == ' ' && s[from + 5] == '"'
            && s[q] == '"' && s[q + 1] == '/' && s[q + 2] == '>'
            && s[from + 6..q] == u
            && (forall j :: from + 5 < j < q ==> !IsQuote(s[j]) && s[j] != '>')
            && (forall i :: 0 <= i < 4 ==> s[from + 1 + i] == "url="[i])
  {
    var q := from + 6 + |u|;
    assert s[from + 6..q] == s[from..][6..6 + |u|] == u;
    forall j | from + 5 < j < q ensures !IsQuote(s[j]) && s[j] != '>' {
      assert s[j] == u[j - from - 6];
    }
    forall i | 0 <= i < 4 ensures s[from + 1 + i] == "url="[i] {
      assert s[from + 1 + i] == s[from..][1 + i];
    }
  }

  /** The tag's `>` is its last character. */
  lemma TailEnd(s: string, from: nat, u: string)
    requires from <= |s| && s[from..] == " url=\"" + u + "\"/>" && PlainUrl(u)
    ensures FindChar(s, from, '>') == from + 8 + |u|
  {
    UrlTailLayout(s, from, u);
    FindCharAt(s, from, '>', from + 8 + |u|);
  }

  /** The written `url="u"` captures `u`. */
  lemma UrlAtTail(s: string, from: nat, u: string)
    requires from <= |s| && s[from..] == " url=\"" + u + "\"/>" && PlainUrl(u)
    ensures UrlAt(s, from + 1) == Some(u)
  {
    var p := from + 1;
    var q := p + 5 + |u|;
    UrlTailLayout(s, from, u);
    StartsAtNoCaseChars(s, p, "url=");
    FindQuoteAt(s, p + 5, q);
    FindCharAt(s, q + 1, '>', q + 2);
  }

  /** After the captured value only `"/>` is left: a later `url=` finds no closing
      quote. */
  lemma NoUrlAfter(s: string, p: nat, q: nat, r: nat)
    requires p < r <= |s| && q + 3 == |s| && s[q + 1] == '/' && s[q + 2] == '>'
    requires forall j :: p + 4 < j < q ==> !IsQuote(s[j])
    ensures UrlAt(s, r).None?
  {
    if StartsAtNoCase(s, r, "url=") && r + 4 < |s| && IsQuote(s[r + 4]) {
      assert r + 4 == q;
      FindQuoteNone(s, q + 1);
    }
  }

  lemma {:induction false} FindQuoteNone(s: string, from: nat)
    requires from <= |s|
    requires forall j :: from <= j < |s| ==> !IsQuote(s[j])
    ensures FindQuote(s, from) == |s|
    decreases |s| - from
  {
    if from < |s| {
      FindQuoteNone(s, from + 1);
    }
  }

  lemma {:induction false} FindCharAt(s: string, from: nat, c: char, k: nat)
    requires from <= k < |s| && s[k] == c
    requires forall j :: from <= j < k ==> s[j] != c
    ensures FindChar(s, from, c) == k
    decreases k - from
  {
    if from < k {
      FindCharAt(s, from + 1, c, k);
    }
  }

  lemma {:induction false} FindQuoteAt(s: string, from: nat, k: nat)
    requires from <= k < |s| && IsQuote(s[k])
    requires forall j :: from <= j < k ==> !IsQuote(s[j])
    ensures FindQuote(s, from) == k
    decreases k - from
  {
    if from < k {
      FindQuoteAt(s, from + 1, k);
    }
  }

  /** The greedy search settles on the last position that works. */
  lemma {:induction false} LastUrlAt(s: string, lo: nat, p: nat, hi: nat)
    requires lo <= p < hi <= |s| && UrlAt(s, p).Some?
    requires forall r :: p < r < hi ==> UrlAt(s, r).None?
    ensures LastUrl(s, lo, hi) == UrlAt(s, p)
    decreases hi
  {
    if p < hi - 1 {
      LastUrlAt(s, lo, p, hi - 1);
    }
  }

  /** The body of a match. */
  function Body(s: string, m: ElementMatch): string
    requires m.contentStart <= m.contentEnd <= |s|
  {
    s[m.contentStart..m.contentEnd]
  }

  predicate InBounds(s: string, ms: seq<ElementMatch>) {
    forall j :: 0 <= j < |ms| ==> ms[j].contentStart <= ms[j].contentEnd <= |s|
  }

  /** The item `parse` gives for each match, in order. */
  function Parsed(s: string, ms: seq<ElementMatch>, parse: string -> Item): (items: seq<Item>)
    requires InBounds(s, ms)
    ensures |items| == |ms|
  {
    if ms == [] then [] else [parse(Body(s, ms[0]))] + Parsed(s, ms[1..], parse)
  }

  /** The items that have a title and an audio URL, in their order. */
  function Keep(items: seq<Item>): (kept: seq<Item>)
    ensures |kept| <= |items|
  {
    if items == [] then []
    else (if Kept(items[0]) then [items[0]] else []) + Keep(items[1..])
  }

  /** The items the scan pushes from `lastIndex` on, each match's body read by
      `parse`. The scan is stated for any item parser; `FeedItems` uses `ParseItem`. */
  function FeedFrom(xml: string, lastIndex: nat, parse: string -> Item): seq<Item>
    requires lastIndex <= |xml|
    decreases |xml| - lastIndex
  {
    match FirstElement(xml, lastIndex, "item")
    case None => []
    case Some(m) =>
      var it := parse(xml[m.contentStart..m.contentEnd]);
      (if Kept(it) then [it] else []) + FeedFrom(xml, m.contentEnd + |Closing("item")|, parse)
  }

  /** One step of the scan: the item of match `e`, if kept, then the rest. */
  lemma FeedFromStep(xml: string, lastIndex: nat, e: ElementMatch, parse: string -> Item)
    requires lastIndex <= |xml| && FirstElement(xml, lastIndex, "item") == Some(e)
    ensures var it := parse(xml[e.contentStart..e.contentEnd]);
            FeedFrom(xml, lastIndex, parse) ==
              (if Kept(it) then [it] else []) + FeedFrom(xml, e.contentEnd + |Closing("item")|, parse)
  {
  }

  /** What `parseRSSFeed` returns. */
  function FeedItems(xml: string): seq<Item> {
    FeedFrom(xml, 0, ParseItem)
  }

  /** The feed is the matched items, parsed and filtered in document order. */
  lemma {:induction false} FeedFromMatches(xml: string, lastIndex: nat, parse: string -> Item)
    requires lastIndex <= |xml|
    ensures FeedFrom(xml, lastIndex, parse) == Keep(Parsed(xml, ItemMatches(xml, lastIndex), parse))
    decreases |xml| - lastIndex
  {
    var f := FirstElement(xml, lastIndex, "item");
    if f.Some? {
      var next := f.value.contentEnd + |Closing("item")|;
      FeedFromMatches(xml, next, parse);
      FeedFromStep(xml, lastIndex, f.value, parse);
      ItemsStep(xml, lastIndex, parse);
      KeepCons(parse(xml[f.value.contentStart..f.value.contentEnd]), Parsed(xml, ItemMatches(xml, next), parse));
    }
  }

  /** Every returned item has a title and an audio URL, and every item that has both
      is returned. */
  lemma {:induction false} KeepExact(items: seq<Item>)
    ensures forall it :: it in Keep(items) ==> Kept(it)
    ensures forall it :: it in items && Kept(it) ==> it in Keep(items)
    decreases |items|
  {
    if items != [] {
      KeepExact(items[1..]);
      assert forall it :: it in items ==> it == items[0] || it in items[1..];
    }
  }

  /** Document order: the items kept from two runs are those of the first run, then
      those of the second. */
  lemma {:induction false} KeepAppend(a: seq<Item>, b: seq<Item>)
    ensures Keep(a + b) == Keep(a) + Keep(b)
    decreases |a|
  {
    if a != [] {
      assert (a + b)[1..] == a[1..] + b;
      KeepAppend(a[1..], b);
    } else {
      assert a + b == b;
    }
  }

  /** One step of the scan: the item of the first match, then those after it. */
  lemma ItemsStep(xml: string, lastIndex: nat, parse: string -> Item)
    requires lastIndex <= |xml| && FirstElement(xml, lastIndex, "item").Some?
    ensures var m := FirstElement(xml, lastIndex, "item").value;
            Parsed(xml, ItemMatches(xml, lastIndex), parse) ==
              [parse(xml[m.contentStart..m.contentEnd])] + Parsed(xml, ItemMatches(xml, m.contentEnd + |Closing("item")|), parse)
  {
    var m := FirstElement(xml, lastIndex, "item").value;
    var rest := ItemMatches(xml, m.contentEnd + |Closing("item")|);
    ItemMatchesCons(xml, lastIndex);
    assert ([m] + rest)[1..] == rest;
  }

  lemma KeepCons(it: Item, rest: seq<Item>)
    ensures Keep([it] + rest) == (if Kept(it) then [it] else []) + Keep(rest)
  {
    assert ([it] + rest)[1..] == rest;
  }

  /** The scan's invariant survives one match `e`: its item, if kept, moves from the
      items still to come to the items pushed. */
  lemma FeedInvariantStep(xml: string, lastIndex: nat, e: ElementMatch, items: seq<Item>, parse: string -> Item)
    requires lastIndex <= |xml| && FirstElement(xml, lastIndex, "item") == Some(e)
    ensures var it := parse(xml[e.contentStart..e.contentEnd]);
            items + FeedFrom(xml, lastIndex, parse) ==
              (if Kept(it) then items + [it] else items) + FeedFrom(xml, e.contentEnd + |Closing("item")|, parse)
  {
    var it := parse(xml[e.contentStart..e.contentEnd]);
    FeedFromStep(xml, lastIndex, e, parse);
    PushStep(items, it, FeedFrom(xml, e.contentEnd + |Closing("item")|, parse));
  }

  /** Pushing a kept item moves it from the front of the items to come to the end of
      the items pushed. */
  lemma PushStep(items: seq<Item>, it: Item, later: seq<Item>)
    ensures items + ((if Kept(it) then [it] else []) + later) ==
            (if Kept(it) then items + [it] else items) + later
  {
    if Kept(it) {
      assert items + ([it] + later) == (items + [it]) + later;
    } else {
      assert [] + later == later;
    }
  }

  /** The scan of `parseRSSFeed`: run the item expression over the document from
      `lastIndex` 0, parse each body, and push the items that have a title and an
      audio URL. */
  method ScanItems(xml: string, parse: string -> Item) returns (items: seq<Item>)
    ensures items == FeedFrom(xml, 0, parse)
  {
    items := [];
    var lastIndex: nat := 0;
    var m := FirstElement(xml, lastIndex, "item");
    while m.Some?
      invariant lastIndex <= |xml| && m == FirstElement(xml, lastIndex, "item")
      invariant items + FeedFrom(xml, lastIndex, parse) == FeedFrom(xml, 0, parse)
      decreases |xml| - lastIndex
    {
      items, lastIndex := ScanStep(xml, lastIndex, m.value, items, parse);
      m := FirstElement(xml, lastIndex, "item");
    }
  }

  /** One turn of the scan: the body of match `e` is parsed, its item pushed if it
      has a title and an audio URL, and the search resumes after the closing tag. */
  method ScanStep(xml: string, lastIndex: nat, e: ElementMatch, items: seq<Item>, parse: string -> Item)
    returns (items': seq<Item>, lastIndex': nat)
    requires lastIndex <= |xml| && FirstElement(xml, lastIndex, "item") == Some(e)
    ensures lastIndex < lastIndex' <= |xml|
    ensures items' + FeedFrom(xml, lastIndex', parse) == items + FeedFrom(xml, lastIndex, parse)
  {
    var item := parse(xml[e.contentStart..e.contentEnd]);
    FeedInvariantStep(xml, lastIndex, e, items, parse);
    items' := if Kept(item) then items + [item] else items;
    lastIndex' := e.contentEnd + |Closing("item")|;
  }

  /** `parseRSSFeed`: the scan with `ParseItem` as the item parser. */
  method ParseRssFeed(xml: string) returns (items: seq<Item>)
    ensures items == FeedItems(xml)
    ensures forall it :: it in items ==> Kept(it)
  {
    items := ScanItems(xml, ParseItem);
    FeedFromMatches(xml, 0, ParseItem);
    KeepExact(Parsed(xml, ItemMatches(xml, 0), ParseItem));
  }
}
