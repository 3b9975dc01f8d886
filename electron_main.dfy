/** The Electron main process, without its I/O: where the lyric window is placed and
    how big it is, how it is resized, the `local-file` URL of an opened file and the
    path the protocol handler reads back from it, which lyric files are tried beside
    an audio file, and the lyric window's life cycle. The file system and the saved
    bounds file are parameters. */
module ElectronMain {
  import opened Wrappers
  import opened Text
  import opened Numeric
  import App

  // ---------------------------------------------------------------------------
  // Saved bounds and window placement
  // ---------------------------------------------------------------------------

  /** The saved window bounds; a missing coordinate is `undefined`. */
  datatype SavedBounds = SavedBounds(x: Option<int>, y: Option<int>, width: Option<int>, height: Option<int>)

  /** What reading the bounds file gives: no file, a file that is not valid JSON,
      JSON that is not an object, or an object's numeric fields. */
  datatype BoundsFile = NoFile | Unparsable | NotAnObject | Object(fields: SavedBounds)

  const DefaultBounds := SavedBounds(None, None, Some(1000), Some(200))

  /** `getSavedBounds`: the stored object if there is one, the 1000 x 200 default with
      no position otherwise. */
  function GetSavedBounds(f: BoundsFile): (b: SavedBounds)
    ensures f.Object? ==> b == f.fields
    ensures !f.Object? ==> b == DefaultBounds && b.x.None? && b.y.None?
  {
    if f.Object? then f.fields else DefaultBounds
  }

  /** A saved position is trusted when both coordinates exist and lie in
      [-1000, 10000) x [-100, 10000). */
  predicate PositionValid(b: SavedBounds) {
    b.x.Some? && b.y.Some? &&
    -1000 <= b.x.value < 10000 && -100 <= b.y.value < 10000
  }

  /** `n || d` on an optional number: a missing value or 0 gives the default. */
  function OrDefault(n: Option<int>, d: int): (r: int)
    ensures n.Some? && n.value != 0 ==> r == n.value
    ensures (n.None? || n.value == 0) ==> r == d
  {
    if n.Some? && n.value != 0 then n.value else d
  }

  function Max(a: int, b: int): (m: int)
    ensures m >= a && m >= b && (m == a || m == b)
  {
    if a >= b then a else b
  }

  /** The options the lyric window is created with; `centered` means the window is
      centred on the screen after creation. */
  datatype WindowOptions = WindowOptions(x: Option<int>, y: Option<int>, width: int, height: int, centered: bool)

  function LyricWindowOptions(b: SavedBounds): (o: WindowOptions)
    ensures o.centered <==> !PositionValid(b)
    ensures PositionValid(b) ==> o.x == b.x && o.y == b.y
    ensures !PositionValid(b) ==> o.x.None? && o.y.None?
    ensures o.width == OrDefault(b.width, 1000) && o.width != 0
    ensures o.height == Max(OrDefault(b.height, 200), 80) && o.height >= 80
  {
    var valid := PositionValid(b);
    WindowOptions(if valid then b.x else None, if valid then b.y else None,
                  OrDefault(b.width, 1000), Max(OrDefault(b.height, 200), 80), !valid)
  }

  /** Without usable saved bounds the window is centred at 1000 x 200. */
  lemma DefaultPlacement(f: BoundsFile)
    requires !f.Object?
    ensures LyricWindowOptions(GetSavedBounds(f)) == WindowOptions(None, None, 1000, 200, true)
  {
  }

  // ---------------------------------------------------------------------------
  // Resizing
  // ---------------------------------------------------------------------------

  datatype Bounds = Bounds(x: int, y: int, width: int, height: int)

  /** `resize-lyric-window`: the position is kept, the height is the requested one
      rounded up but at least 40, and the width is the requested one unless it is
      missing or 0. */
  function ResizedBounds(current: Bounds, width: Option<int>, height: real): (r: Bounds)
    ensures r.x == current.x && r.y == current.y
    ensures r.height == Max(Ceil(height), 40) && r.height >= 40 && r.height as real >= height
    ensures r.width == OrDefault(width, current.width)
  {
    Bounds(current.x, current.y, OrDefault(width, current.width), Max(Ceil(height), 40))
  }

  /** The overlay only ever sends a height; its window keeps its width. */
  lemma HeightOnlyResize(current: Bounds, height: real)
    ensures ResizedBounds(current, None, height).width == current.width
    ensures height > 40.0 ==> height <= ResizedBounds(current, None, height).height as real < height + 1.0
  {
  }

  // ---------------------------------------------------------------------------
  // The local-file protocol
  // ---------------------------------------------------------------------------

  const Scheme := "local-file://media"

  /** `open-file`: the URL the renderer plays an opened path from. */
  function OpenFileUrl(path: string): string
  {
    Scheme + path
  }

  /** `replace(/^local-file:\/\/media/, '')`. */
  function StripScheme(url: string): (r: string)
    ensures |url| >= |Scheme| && url[..|Scheme|] == Scheme ==> r == url[|Scheme|..]
  {
    if |url| >= |Scheme| && url[..|Scheme|] == Scheme then url[|Scheme|..] else url
  }

  function HexValue(c: char): (v: Option<nat>)
    ensures v.Some? ==> v.value < 16
  {
    if '0' <= c <= '9' then Some(c as int - '0' as int)
    else if 'a' <= c <= 'f' then Some(c as int - 'a' as int + 10)
    else if 'A' <= c <= 'F' then Some(c as int - 'A' as int + 10)
    else None
  }

  /** The byte of an escape `%XY` at `i`, if there is a well-formed one. */
  function EscapeAt(s: string, i: nat): (b: Option<nat>)
    ensures b.Some? ==> i + 3 <= |s| && s[i] == '%' && b.value < 256
  {
    if i + 3 <= |s| && s[i] == '%' && HexValue(s[i + 1]).Some? && HexValue(s[i + 2]).Some? then
      Some(HexValue(s[i + 1]).value * 16 + HexValue(s[i + 2]).value)
    else None
  }

  /** A UTF-8 continuation byte `10xxxxxx` escaped at `i`, as its six payload bits. */
  function ContinuationAt(s: string, i: nat): (v: Option<nat>)
    ensures v.Some? ==> i + 3 <= |s| && v.value < 64
  {
    match EscapeAt(s, i)
    case Some(b) => if 0x80 <= b < 0xC0 then Some(b - 0x80) else None
    case None => None
  }

  /** A Unicode scalar value as a character. */
  function ScalarChar(cp: int): (c: Option<char>)
    ensures c.Some? ==> c.value as int == cp
  {
    if 0 <= cp < 0xD800 || 0xE000 <= cp <= 0x10FFFF then Some(cp as char) else None
  }

  /** The character an escaped UTF-8 sequence at the start of `s` encodes, and how
      many characters the escapes take; None where `decodeURIComponent` throws a
      URIError (a malformed escape, a stray continuation byte, an overlong form, a
      surrogate, or a value past U+10FFFF). */
  function EscapedChar(s: string): (r: Option<(char, nat)>)
    ensures r.Some? ==> 3 <= r.value.1 <= |s|
  {
    match EscapeAt(s, 0)
    case None => None
    case Some(b) =>
      if b < 0x80 then Some((b as char, 3))
      else if 0xC0 <= b < 0xE0 then
        var c1 := ContinuationAt(s, 3);
        if c1.None? then None
        else
          var cp := (b - 0xC0) * 64 + c1.value;
          if cp < 0x80 then None
          else match ScalarChar(cp) case Some(ch) => Some((ch, 6)) case None => None
      else if 0xE0 <= b < 0xF0 then
        var c1 := ContinuationAt(s, 3);
        var c2 := ContinuationAt(s, 6);
        if c1.None? || c2.None? then None
        else
          var cp := (b - 0xE0) * 4096 + c1.value * 64 + c2.value;
          if cp < 0x800 then None
          else match ScalarChar(cp) case Some(ch) => Some((ch, 9)) case None => None
      else if 0xF0 <= b < 0xF8 then
        var c1 := ContinuationAt(s, 3);
        var c2 := ContinuationAt(s, 6);
        var c3 := ContinuationAt(s, 9);
        if c1.None? || c2.None? || c3.None? then None
        else
          var cp := (b - 0xF0) * 262144 + c1.value * 4096 + c2.value * 64 + c3.value;
          if cp < 0x10000 then None
          else match ScalarChar(cp) case Some(ch) => Some((ch, 12)) case None => None
      else None
  }

  /** `decodeURIComponent`: percent-escapes (section 2.1 of RFC 3986) are read as
      UTF-8, every other character is kept. */
  function Decode(s: string): (r: Option<string>)
    decreases |s|
  {
    if s == [] then Some([])
    else if s[0] != '%' then
      match Decode(s[1..]) case Some(rest) => Some([s[0]] + rest) case None => None
    else
      match EscapedChar(s)
      case None => None
      case Some((ch, n)) =>
        match Decode(s[n..]) case Some(rest) => Some([ch] + rest) case None => None
  }

  /** Text without a `%` decodes to itself. */
  lemma {:induction false} DecodePlain(s: string)
    requires '%' !in s
    ensures Decode(s) == Some(s)
    decreases |s|
  {
    if s != [] {
      assert '%' !in s[1..];
      DecodePlain(s[1..]);
      assert s == [s[0]] + s[1..];
    }
  }

  /** The protocol handler's answer: the file to serve, or error -6 (file not found). */
  datatype ProtocolResponse = ServeFile(path: string) | Failed(code: int)

  /** The `local-file` handler up to `path.normalize`: drop the scheme prefix, cut at
      the first `?`, percent-decode. */
  function ProtocolPath(url: string): (r: ProtocolResponse)
    ensures r.Failed? ==> r.code == -6
  {
    var stripped := StripScheme(url);
    var beforeQuery := SplitOn(stripped, '?')[0];
    match Decode(beforeQuery)
    case Some(p) => ServeFile(p)
    case None => Failed(-6)
  }

  /** A path that the browser's canonicalisation of a standard-scheme URL leaves as it
      is: no `#` (which starts a fragment), no `\` (which becomes `/`) and no `.` or
      `..` segment (which is resolved away). */
  predicate CanonicalPath(path: string) {
    '#' !in path && '\\' !in path && NoDotSegments(path)
  }

  /** No `/`-separated segment of the path is `.` or `..`. */
  predicate NoDotSegments(path: string) {
    forall k :: 0 <= k < |SplitOn(path, '/')| ==> SplitOn(path, '/')[k] != "." && SplitOn(path, '/')[k] != ".."
  }

  /** Round trip: a path with no `?` and no `%`, which the browser hands over
      unchanged, is served back from its URL. */
  lemma ProtocolRoundTrip(path: string)
    requires '?' !in path && '%' !in path && CanonicalPath(path)
    ensures ProtocolPath(OpenFileUrl(path)) == ServeFile(path)
  {
    var url := OpenFileUrl(path);
    assert url[..|Scheme|] == Scheme;
    assert url[|Scheme|..] == path;
    assert SplitOn(path, '?') == [path];
    DecodePlain(path);
  }

  /** As written, a `?` in a file name cuts the served path short. */
  lemma QuestionMarkTruncates()
    ensures ProtocolPath(OpenFileUrl("/a?b.mp3")) == ServeFile("/a")
  {
    var url := OpenFileUrl("/a?b.mp3");
    assert url[|Scheme|..] == "/a?b.mp3";
    assert StripScheme(url) == "/a?b.mp3";
    assert FirstIndexOf("/a?b.mp3", '?') == 2;
    assert SplitOn("/a?b.mp3", '?')[0] == "/a";
    DecodePlain("/a");
  }

  /** As written, a `%` not followed by two hex digits makes the file unplayable. */
  lemma PercentFails()
    ensures ProtocolPath(OpenFileUrl("/100%.mp3")).Failed?
  {
    var s := "/100%.mp3";
    var url := OpenFileUrl(s);
    assert url[|Scheme|..] == s;
    assert StripScheme(url) == s;
    assert '?' !in s;
    assert SplitOn(s, '?')[0] == s;
    assert EscapeAt(s[4..], 0).None?;
    assert Decode(s[4..]).None?;
    assert Decode(s[3..]).None?;
    assert Decode(s[2..]).None?;
    assert Decode(s[1..]).None?;
  }

  /** The corrected URL: the characters the handler interprets, `%` and `?`, and
      those the browser would rewrite in a standard-scheme URL, `#` and `\`, are
      escaped as `%25`, `%3F`, `%23` and `%5C`. */
  function EscapePath(path: string): (r: string)
    ensures '?' !in r && '#' !in r && '\\' !in r
  {
    if |path| == 0 then []
    else if path[0] == '%' then "%25" + EscapePath(path[1..])
    else if path[0] == '?' then "%3F" + EscapePath(path[1..])
    else if path[0] == '#' then "%23" + EscapePath(path[1..])
    else if path[0] == '\\' then "%5C" + EscapePath(path[1..])
    else [path[0]] + EscapePath(path[1..])
  }

  function FixedOpenFileUrl(path: string): (url: string)
    ensures |url| >= |Scheme| && url[..|Scheme|] == Scheme && url[|Scheme|..] == EscapePath(path)
  {
    Scheme + EscapePath(path)
  }

  /** Decoding undoes the escaping, whatever follows it. */
  lemma {:induction false} DecodeEscaped(path: string)
    ensures Decode(EscapePath(path)) == Some(path)
    decreases |path|
  {
    if |path| > 0 {
      var s := EscapePath(path);
      var rest := EscapePath(path[1..]);
      DecodeEscaped(path[1..]);
      if path[0] == '%' {
        assert s == "%25" + rest;
        assert EscapeAt(s, 0) == Some(0x25);
        assert s[3..] == rest;
      } else if path[0] == '?' {
        assert s == "%3F" + rest;
        assert EscapeAt(s, 0) == Some(0x3F);
        assert s[3..] == rest;
      } else if path[0] == '#' {
        assert s == "%23" + rest;
        assert EscapeAt(s, 0) == Some(0x23);
        assert s[3..] == rest;
      } else if path[0] == '\\' {
        assert s == "%5C" + rest;
        assert EscapeAt(s, 0) == Some(0x5C);
        assert s[3..] == rest;
      } else {
        assert s == [path[0]] + rest;
        assert s[1..] == rest;
      }
      assert path == [path[0]] + path[1..];
    }
  }

  /** Every path without `.` or `..` segments, whatever its characters, is served
      back from the corrected URL. */
  lemma FixedProtocolRoundTrip(path: string)
    requires NoDotSegments(path)
    ensures ProtocolPath(FixedOpenFileUrl(path)) == ServeFile(path)
  {
    var e := EscapePath(path);
    assert SplitOn(e, '?') == [e];
    DecodeEscaped(path);
  }

  // ---------------------------------------------------------------------------
  // Matching lyric files
  // ---------------------------------------------------------------------------

  /** Length of `s` without its trailing `/` characters. */
  function TrimmedEnd(s: string): (n: nat)
    ensures n <= |s|
    ensures n > 0 ==> s[n - 1] != '/'
    ensures forall k :: n <= k < |s| ==> s[k] == '/'
  {
    if |s| == 0 || s[|s| - 1] != '/' then |s| else TrimmedEnd(s[..|s| - 1])
  }

  /** POSIX `path.extname`: the extension of the last segment, trailing slashes
      ignored. */
  function Extname(path: string): (ext: string)
    ensures ext == [] || ext[0] == '.'
    ensures |ext| <= |path|
  {
    SegmentExtension(App.LastSegment(path[..TrimmedEnd(path)]))
  }

  /** The extension of one segment: from its last `.` to its end; empty when it has
      no dot, when its last dot is its first character, or when it is `..`. */
  function SegmentExtension(seg: string): (ext: string)
    ensures ext == [] || ext[0] == '.'
    ensures |ext| <= |seg| && ext == seg[|seg| - |ext|..]
  {
    var n := App.TailLen(seg);
    if n == |seg| || seg[|seg| - n - 1] != '.' || |seg| - n - 1 == 0 || seg == ".." then []
    else seg[|seg| - n - 1..]
  }

  /** A file `dir/stem.ext` has the extension `.ext`. */
  lemma ExtnameOf(dir: string, stem: string, ext: string)
    requires stem != [] && '/' !in stem
    requires ext != [] && '/' !in ext && '.' !in ext
    ensures Extname(dir + "/" + stem + "." + ext) == "." + ext
  {
    var base := stem + "." + ext;
    var path := dir + "/" + base;
    assert dir + "/" + stem + "." + ext == path;
    assert path[|path| - 1] == ext[|ext| - 1];
    assert TrimmedEnd(path) == |path|;
    assert path[..|path|] == path;
    App.LastSegmentOf(dir, base);
    SegmentExtensionOf(stem, ext);
  }

  lemma SegmentExtensionOf(stem: string, ext: string)
    requires stem != [] && '/' !in ext && '.' !in ext && ext != []
    ensures SegmentExtension(stem + "." + ext) == "." + ext
  {
    var base := stem + "." + ext;
    App.TailLenOf(stem, ext);
    assert base[|stem|] == '.';
    assert base[|stem|..] == "." + ext;
    assert base[|base| - 1] == ext[|ext| - 1];
  }

  /** The extensions tried, in order. */
  const LyricExtensions := [".lrc", ".srt", ".LRC", ".SRT"]

  /** The candidate lyric paths: the audio path without its extension, plus each
      lyric extension. */
  function Candidates(musicPath: string): (cs: seq<string>)
    ensures |cs| == |LyricExtensions|
    ensures forall k :: 0 <= k < |cs| ==> cs[k] == BasePath(musicPath) + LyricExtensions[k]
  {
    Paths(BasePath(musicPath), LyricExtensions)
  }

  /** The audio path without its extension. */
  function BasePath(musicPath: string): (base: string)
    ensures |base| <= |musicPath| && base == musicPath[..|base|]
  {
    musicPath[..|musicPath| - |Extname(musicPath)|]
  }

  /** The base path followed by each extension in turn. */
  function Paths(basePath: string, exts: seq<string>): (ps: seq<string>)
    ensures |ps| == |exts|
    ensures forall k :: 0 <= k < |exts| ==> ps[k] == basePath + exts[k]
  {
    seq(|exts|, k requires 0 <= k < |exts| => basePath + exts[k])
  }


  /** The file system as seen by `existsSync`/`readFileSync`: a path maps to its
      content, or to None when it exists but cannot be read. */
  type FileSystem = map<string, Option<string>>

  predicate Readable(fs: FileSystem, p: string) {
    p in fs && fs[p].Some?
  }

  /** The first readable candidate from index `k` on. */
  function FirstReadable(cs: seq<string>, fs: FileSystem, k: nat): Option<App.LyricFile>
    requires k <= |cs|
    decreases |cs| - k
  {
    if k == |cs| then None
    else if Readable(fs, cs[k]) then Some(App.LyricFile(cs[k], fs[cs[k]].value))
    else FirstReadable(cs, fs, k + 1)
  }

  /** The file found is a readable candidate with its content, and every candidate
      before it is missing or unreadable; nothing is found only when no candidate can
      be read. */
  lemma {:induction false} FirstReadableSpec(cs: seq<string>, fs: FileSystem, k: nat)
    requires k <= |cs|
    ensures var r := FirstReadable(cs, fs, k);
            r.Some? ==> exists j :: k <= j < |cs| && r.value.path == cs[j] && Readable(fs, cs[j]) &&
                                    r.value.content == fs[cs[j]].value &&
                                    forall i :: k <= i < j ==> !Readable(fs, cs[i])
    ensures FirstReadable(cs, fs, k).None? <==> forall j :: k <= j < |cs| ==> !Readable(fs, cs[j])
    decreases |cs| - k
  {
    if k < |cs| && !Readable(fs, cs[k]) {
      FirstReadableSpec(cs, fs, k + 1);
      var r := FirstReadable(cs, fs, k);
      if r.Some? {
        var j :| k + 1 <= j < |cs| && r.value.path == cs[j] && Readable(fs, cs[j]) &&
                 r.value.content == fs[cs[j]].value && forall i :: k + 1 <= i < j ==> !Readable(fs, cs[i]);
        assert forall i :: k <= i < j ==> !Readable(fs, cs[i]);
      }
    }
  }

  /** `find-matching-lyric`: try the candidates in order, return the first that can
      be read. */
  method FindMatchingLyric(musicPath: string, fs: FileSystem) returns (r: Option<App.LyricFile>)
    ensures r == FirstReadable(Candidates(musicPath), fs, 0)
  {
    var basePath := BasePath(musicPath);
    r := TryExtensions(basePath, LyricExtensions, fs);
  }

  /** The loop over `possibleExts`. */
  method TryExtensions(basePath: string, possibleExts: seq<string>, fs: FileSystem)
    returns (r: Option<App.LyricFile>)
    ensures r == FirstReadable(Paths(basePath, possibleExts), fs, 0)
  {
    ghost var cs := Paths(basePath, possibleExts);
    var k := 0;
    while k < |possibleExts|
      invariant 0 <= k <= |cs|
      invariant FirstReadable(cs, fs, 0) == FirstReadable(cs, fs, k)
    {
      var lrcPath := basePath + possibleExts[k];
      assert lrcPath == cs[k];
      if lrcPath in fs {
        var content := fs[lrcPath];
        if content.Some? {
          return Some(App.LyricFile(lrcPath, content.value));
        }
      }
      k := k + 1;
    }
    r := None;
  }

  // ---------------------------------------------------------------------------
  // The lyric window's life cycle
  // ---------------------------------------------------------------------------

  /** `lyricWin`: no window, a destroyed one, or a live one with its visibility. */
  datatype LyricWin = NoWindow | Destroyed | Live(visible: bool, bounds: Bounds)

  predicate Usable(w: LyricWin) {
    w.Live?
  }

  /** The window a fresh `createLyricWindow` yields, given the saved bounds file and
      the position the screen centres a window of that size at. */
  function CreatedWindow(f: BoundsFile, center: (int, int)): (w: LyricWin)
    ensures w.Live? && w.visible
  {
    var o := LyricWindowOptions(GetSavedBounds(f));
    var x := if o.centered then center.0 else o.x.value;
    var y := if o.centered then center.1 else o.y.value;
    Live(true, Bounds(x, y, o.width, o.height))
  }

  /** `toggle-lyric-window`. */
  function Toggled(w: LyricWin, visible: bool, f: BoundsFile, center: (int, int)): (r: LyricWin)
    ensures visible ==> r.Live? && r.visible
    ensures visible && w.Live? ==> r == w.(visible := true)
    ensures !visible ==> (r.Live? <==> w.Live?) && (r.Live? ==> !r.visible && r.bounds == w.bounds)
    ensures !visible && !w.Live? ==> r == w
  {
    if visible then
      if !w.Live? then CreatedWindow(f, center) else w.(visible := true)
    else if w.Live? then w.(visible := false)
    else w
  }

  /** Toggling is idempotent: a second toggle with the same flag changes nothing. */
  lemma ToggleIdempotent(w: LyricWin, visible: bool, f: BoundsFile, center: (int, int))
    ensures Toggled(Toggled(w, visible, f, center), visible, f, center) == Toggled(w, visible, f, center)
  {
  }

  class LyricWindowHost {
    var lyricWin: LyricWin

    constructor ()
      ensures lyricWin == NoWindow
    {
      lyricWin := NoWindow;
    }

    /** Start-up (`app.whenReady`): the lyric window is created next to the main one. */
    method Ready(f: BoundsFile, center: (int, int))
      modifies this
      ensures lyricWin == CreatedWindow(f, center)
      ensures lyricWin.Live? && lyricWin.visible
    {
      lyricWin := CreatedWindow(f, center);
    }

    /** `activate`: with no window open at all, both windows are created again;
        otherwise nothing changes. */
    method Activate(openWindows: nat, f: BoundsFile, center: (int, int))
      modifies this
      ensures openWindows == 0 ==> lyricWin == CreatedWindow(f, center)
      ensures openWindows != 0 ==> lyricWin == old(lyricWin)
    {
      if openWindows == 0 {
        lyricWin := CreatedWindow(f, center);
      }
    }

    method Toggle(visible: bool, f: BoundsFile, center: (int, int))
      modifies this
      ensures lyricWin == Toggled(old(lyricWin), visible, f, center)
    {
      if visible {
        if !lyricWin.Live? {
          lyricWin := CreatedWindow(f, center);
        } else {
          lyricWin := lyricWin.(visible := true);
        }
      } else {
        if lyricWin.Live? {
          lyricWin := lyricWin.(visible := false);
        }
      }
    }

    /** `update-lyric` / `update-settings` are forwarded only to a live window. */
    method Forward() returns (delivered: bool)
      ensures delivered <==> lyricWin.Live?
    {
      delivered := lyricWin.Live?;
    }

    /** The window's `closed` event drops the reference. */
    method OnClosed()
      modifies this
      ensures lyricWin == NoWindow
    {
      lyricWin := NoWindow;
    }

    /** The window object is destroyed while still referenced. */
    method OnDestroyed()
      modifies this
      ensures lyricWin == if old(lyricWin).NoWindow? then NoWindow else Destroyed
    {
      if !lyricWin.NoWindow? {
        lyricWin := Destroyed;
      }
    }

    /** `resize-lyric-window`: resize a live window and show it if hidden. */
    method Resize(width: Option<int>, height: real)
      modifies this
      ensures old(lyricWin).Live? ==> lyricWin == Live(true, ResizedBounds(old(lyricWin).bounds, width, height))
      ensures !old(lyricWin).Live? ==> lyricWin == old(lyricWin)
    {
      if lyricWin.Live? {
        lyricWin := Live(true, ResizedBounds(lyricWin.bounds, width, height));
      }
    }

    /** `reset-lyric-window`: a live window becomes 1000 x 200, centred and shown. */
    method Reset(center: (int, int)) returns (done: bool)
      modifies this
      ensures done <==> old(lyricWin).Live?
      ensures done ==> lyricWin == Live(true, Bounds(center.0, center.1, 1000, 200))
      ensures !done ==> lyricWin == old(lyricWin)
    {
      if lyricWin.Live? {
        lyricWin := Live(true, Bounds(center.0, center.1, 1000, 200));
        return true;
      }
      return false;
    }
  }
}
