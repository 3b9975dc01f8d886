# A verified model of a desktop lyric player

The program is a desktop lyric player built from three parts:

- a React renderer that plays local audio and shows time-synchronised lyrics;
- an Electron main process that owns a transparent always-on-top overlay window, serves local files through a `local-file://` protocol and parses podcast RSS feeds;
- a Go backend that downloads podcast episodes, queues them for transcription, caches the audio and asks a language model for summaries.

This project models the logic of those parts once the I/O is taken away, and proves what that logic promises.

| module | file | models |
|---|---|---|
| `LrcParser` | `lrc_parser.dfy` | the SubRip (`.srt`) and LRC parsers: timestamp recognition, block and timing-line search, text clean-up, the sort by time and the per-0.01 s deduplication |
| `App` | `app.dfy` | the per-frame sync engine (a `SyncEngine` class whose `Tick` updates the player store and the last message sent to the overlay), line duration and progress, the lyric list colouring, the song name taken from an opened path, loading lyrics, the seek clamp |
| `LyricLineView` | `lyric_line_view.dfy` | the karaoke line: whitespace split, per-character fill, word focus and colour, the running character offset; `src/App.tsx` holds copies of both components, `StaticLine` at lines 15-33 and the karaoke line at lines 35-120, covered by the same model |
| `LyricApp` | `lyric_app.dfy` | the overlay window: the message reducer, the settings merge, the resize threshold (a `HeightTracker` class), the sub-line split and the overlay's own fill loop |
| `PlayerStore`, `SettingsStore` | `player_store.dfy`, `settings_store.dfy` | the two stores as classes whose setters change exactly their own fields |
| `PlayerPanel`, `SettingsDialog` | `player_panel.dfy`, `settings_dialog.dfy` | time formatting, the clamped offset buttons, labels, the progress width, sliders, the audio-output device list |
| `ElectronMain` | `electron_main.dfy` | saved bounds and window placement, the resize clamp, the `local-file` URL to path decoding, the lyric-file search, the lyric-window life cycle (a `LyricWindowHost` class) |
| `ElectronRss` | `rss_feed.dfy` | `parseRSSFeed`: the `<item>` scan, field extraction, CDATA stripping, the `<enclosure>` / `<itunes:enclosure>` choice and the keep filter |
| `Backend` | `backend.dfy` | the episode table (a `Database` class over a map from GUID to episode), the FIFO `TranscriptionQueue` class, the worker's status transitions, the cache file name, cache eviction, the refresh decision and the summary-request configuration |
| `Sorting` | `sorting.dfy` | the stable ascending sort by an integer key that the parsers (by start time) and the cache eviction (by modification time) use |
| `Text`, `Numeric`, `Wrappers` | `text.dfy`, `numeric.dfy`, `wrappers.dfy` | the string and number built-ins the code relies on (`trim`, `split`, `replaceAll`, `padStart`, `Math.ceil`, `Math.round`) and `Option` / `Result` |

## Representation choices

- Time:
  - Lyric timestamps and the audio clock are integers in milliseconds, so `h*3600 + m*60 + s + ms/1000` seconds becomes `h*3600000 + m*60000 + s*1000 + ms`. The dedup key `floor(time*100)/100` becomes `ms / 10`, the drift threshold of 0.05 s becomes 50 ms, and the last line's 2 s duration becomes 2000 ms.
  - Backend durations are nanoseconds, as Go's `time.Duration` counts them.
- Progress values, fills, offsets and pixel sizes are exact `real`s.
- Strings are sequences of characters. Transcript content handed to the language model is a sequence of bytes (`seq<bv8>`), because Go's `len` and slicing count bytes.
- The file system, the database, the network, environment variables and clocks are parameters:
  - a map from path to readable content;
  - a `removed` predicate saying whether `os.Remove` succeeds;
  - `download` and `transcribe` functions returning a `Result`;
  - an environment map;
  - the elapsed time since the channel was updated.
- Regular expressions are written as the deterministic searches they perform. Each captured group is the substring between positions the search returns.

## Behaviour of the code worth noting

- When several lines share a start time, the active index is the last of them. src/App.tsx:305 uses `findLastIndex`.
- `dur || 1` replaces only a zero duration (src/App.tsx:320 and src/App.tsx:463). A negative duration is kept, and the progress then clamps to 0 or 1.
- The BOM check at src/utils/lrcParser.ts:26 runs after the `trim()` at src/utils/lrcParser.ts:25. `trim()` already removes U+FEFF, so the check never fires. `LrcParser.NormalizeSrtProps` proves this.

## Model

| member | source | states |
|---|---|---|
| LrcParser.SrtStampAt | src/utils/lrcParser.ts:10 | a `H:MM:SS,mmm` / `HH:MM:SS.mmm` stamp recognised at a position spans at least 11 characters and ends inside the text |
| LrcParser.FirstSrtStamp | src/utils/lrcParser.ts:10 | the leftmost match: none is found iff no position from `i` on holds a stamp, and a found one is the stamp at some position `k` before which, from `i` on, no position holds a stamp |
| LrcParser.ParseSrtTime | src/utils/lrcParser.ts:8-19 | 0 when the text holds no stamp anywhere; the stamp's millisecond value when the text starts with one |
| LrcParser.ParseSrtTimeOfStamp | src/utils/lrcParser.ts:8-19 | for every `h:mm:ss,mmm` or `h:mm:ss.mmm` text the result is `h*3600000 + m*60000 + s*1000 + ms` milliseconds |
| LrcParser.StampInSlice | src/utils/lrcParser.ts:56-59 | a stamp matched inside the timing line is matched with the same value in the capture group handed to parseSrtTime |
| LrcParser.FindTiming | src/utils/lrcParser.ts:46 | no timing match is reported only when no position of the line starts a `stamp --> stamp` match |
| LrcParser.FindTimingLeftmost | src/utils/lrcParser.ts:46 | a reported match is the match at some position `k` before which, from `i` on, no position starts one: the leftmost match |
| LrcParser.FindTimingValues | src/utils/lrcParser.ts:56-60 | both captured groups of a timing match are complete stamps taken from the line |
| LrcParser.TimingAtValues | src/utils/lrcParser.ts:56-58 | at a matching position the start group is the stamp read there and the end group is the stamp read after the arrow and its surrounding spaces |
| LrcParser.TimingStartValue | src/utils/lrcParser.ts:59-60 | parsing a captured group gives exactly the value of the stamp it holds |
| LrcParser.StripTags | src/utils/lrcParser.ts:69 | tag removal never lengthens the text |
| LrcParser.StripTagsLeavesNoTag | src/utils/lrcParser.ts:69 | after tag removal no `<` is followed later by `>`, and every remaining character comes from the input |
| LrcParser.CleanText | src/utils/lrcParser.ts:67-76 | the cleaned entry text is empty or starts and ends with a non-space character |
| LrcParser.CleanTextPlain | src/utils/lrcParser.ts:67-76 | a text with no `<` and no `&` is only trimmed |
| LrcParser.CleanTextTagged | src/utils/lrcParser.ts:67-76 | a text wrapped in one tag pair, such as `<i>x</i>`, cleans up to the trimmed `x` |
| LrcParser.CleanTextNoTag | src/utils/lrcParser.ts:67-76 | for a text without `&`, the cleaned text has no `<` followed later by `>`, and each of its characters comes from the input |
| LrcParser.StripTagsTag | src/utils/lrcParser.ts:69 | a leading `<tag>` is removed and the rest is stripped in turn |
| LrcParser.DecodeEntities | src/utils/lrcParser.ts:70-75 | the six entity replacements in source order (`&nbsp;`, `&amp;`, `&lt;`, `&gt;`, `&quot;`, `&#39;`); `LrcParser.DecodePlain` proves a text without `&` is unchanged |
| LrcParser.DecodePlain | src/utils/lrcParser.ts:70-75 | the entity replacements leave a text without `&` unchanged |
| LrcParser.LastNewline | src/utils/lrcParser.ts:34 | finds the last newline in a range, or reports that the range has none |
| LrcParser.SeparatorAt | src/utils/lrcParser.ts:34 | a `\n\s*\n` separator starting at a position covers at least two characters and ends inside the text |
| LrcParser.SplitBlocksFrom | src/utils/lrcParser.ts:34 | splitting on separators always yields at least one block |
| LrcParser.SplitBlocksNoSeparator | src/utils/lrcParser.ts:34 | no block that the split yields contains a `\n\s*\n` separator |
| LrcParser.SeparatorInSlice | src/utils/lrcParser.ts:34 | a separator found in a slice of the text is also a separator of the whole text at the same place |
| LrcParser.NonBlankBlocks | src/utils/lrcParser.ts:34 | every block kept by the filter is non-blank after trimming |
| LrcParser.TrimmedLines | src/utils/lrcParser.ts:37 | every kept line is non-empty |
| LrcParser.FirstTimingLine | src/utils/lrcParser.ts:44-53 | the first line holding a timing match: the found line matches and no earlier line does; none found means no line matches |
| LrcParser.BlockEntry | src/utils/lrcParser.ts:37-80 | a block yields an entry only if it has a timing line followed by text; the entry has an end time, a non-negative start and non-empty text |
| LrcParser.CueEntry | src/utils/lrcParser.ts:41-80 | an entry exists exactly when some trimmed line holds a timing and the lines after the first such line clean up to a non-empty text; the entry's start and end are the parsed capture groups of that line and its text is that cleaned text |
| LrcParser.BlockEntryOfCue | src/utils/lrcParser.ts:37-80 | the block `n`, `a --> b`, `text` (an index line of digits, two whole stamps, one trimmed line of plain text) yields the entry with start `a`, end `b` and that text |
| LrcParser.TimingLineOf | src/utils/lrcParser.ts:46-58 | in the line `a --> b` made of two whole stamps, the timing found at the start captures `a` and `b` |
| LrcParser.DigitsHoldNoTiming | src/utils/lrcParser.ts:46 | a line of digits only, such as a cue index, holds no timing |
| LrcParser.NormalizeSrt | src/utils/lrcParser.ts:25-31 | trim, the BOM test, then `\r\n` and lone `\r` to `\n`; `LrcParser.NormalizeSrtProps` proves no `\r` is left and the BOM test is dead |
| LrcParser.NormalizeSrtProps | src/utils/lrcParser.ts:25-31 | no `\r` survives newline normalisation; the BOM check after `trim()` never fires because trimming already removed U+FEFF |
| Sorting.InsertBy | src/utils/lrcParser.ts:84 | inserting into the sorted prefix adds exactly one element |
| Sorting.InsertByPerm | src/utils/lrcParser.ts:84 | insertion adds exactly the new element to the multiset |
| Sorting.InsertBySorted | src/utils/lrcParser.ts:84 | insertion into a sequence sorted by the key keeps it sorted |
| Sorting.SortBy | src/utils/lrcParser.ts:84 | sorting keeps the number of elements |
| Sorting.SortByProps | src/utils/lrcParser.ts:84 | the sort result is ascending by the key and a permutation of its input |
| Sorting.SortBySorted | src/utils/lrcParser.ts:84 | the sort result is ascending by the key |
| Sorting.SortByPerm | src/utils/lrcParser.ts:84 | the sort result is a permutation of its input |
| Sorting.SortByOfSorted | src/utils/lrcParser.ts:84 | sorting an already sorted sequence changes nothing |
| Sorting.WithKeyConcat | src/utils/lrcParser.ts:84 | selecting the elements of one key distributes over concatenation |
| Sorting.WithKeyNone | src/utils/lrcParser.ts:84 | a sequence with no element of a key selects nothing for it |
| Sorting.InsertByStable | src/utils/lrcParser.ts:84 | insertion puts the new element after every element of equal key already present |
| Sorting.SortByStable | src/utils/lrcParser.ts:84 | the sort is stable: elements of equal key keep their input order |
| LrcParser.DedupFrom | src/utils/lrcParser.ts:86-95 | the kept lines are drawn from the input, none has a key already seen, and there are no more of them than input lines |
| LrcParser.DedupDistinct | src/utils/lrcParser.ts:86-95 | no two kept lines share the key `floor(time*100)/100` (milliseconds / 10) |
| LrcParser.DedupKeepsKeys | src/utils/lrcParser.ts:86-95 | every key of the input that was not already seen is kept exactly once |
| LrcParser.DedupSorted | src/utils/lrcParser.ts:86-95 | deduplicating a sorted sequence keeps it sorted |
| LrcParser.DedupKeepsFirst | src/utils/lrcParser.ts:86-95 | each kept line is the first line of its key in the input |
| LrcParser.DedupByKey | src/utils/lrcParser.ts:87-95 | the `seen`-set loop computes exactly the deduplication function |
| LrcParser.SrtEntriesShape | src/utils/lrcParser.ts:36-81 | every collected SRT entry has an end time and non-empty trimmed text |
| LrcParser.CollectSrtEntries | src/utils/lrcParser.ts:36-81 | the `forEach` over blocks collects exactly the entries of the blocks that yield one, in order |
| LrcParser.SortDedupProps | src/utils/lrcParser.ts:84-95 | sort then dedup gives a sorted, key-distinct list covering every key of the entries, each line taken from the entries |
| LrcParser.SrtResult | src/utils/lrcParser.ts:21-98 | the block entries, sorted by start time, then deduplicated on the 10 ms key; `LrcParser.SrtResultProps` states the result's properties and `LrcParser.ParseSrt` is its loop form |
| LrcParser.SrtResultProps | src/utils/lrcParser.ts:21-98 | parseSrt's result is sorted, key-distinct, covers every key of the parsed entries, and every line has an end time and text |
| LrcParser.ParseSrt | src/utils/lrcParser.ts:21-98 | the method returns the SRT result whose properties SrtResultProps states |
| LrcParser.LrcTagAt | src/utils/lrcParser.ts:103 | a recognised `[mm:ss.xx]` / `[mm:ss.xxx]` tag spans 10 or more characters and ends inside the line |
| LrcParser.LrcTagValue | src/utils/lrcParser.ts:103-115 | `[mm:ss.xx]` is `m*60000 + s*1000 + xx*10` ms (hundredths) and `[mm:ss.xxx]` is `m*60000 + s*1000 + xxx` ms (thousandths) |
| LrcParser.LrcTimes | src/utils/lrcParser.ts:111-117 | a line of length n holds at most n/10 tags |
| LrcParser.StripLrcTags | src/utils/lrcParser.ts:106 | the line with every `[mm:ss.xx]` tag removed, before trimming; used by `LrcParser.LrcLineEntries` |
| LrcParser.LrcLineEntries | src/utils/lrcParser.ts:105-117 | an empty stripped text gives nothing; otherwise one entry per tag, in tag order, each with the tag's time, no end time and the same stripped text |
| LrcParser.ParseLrcLine | src/utils/lrcParser.ts:106-117 | the `while (exec)` loop pushes exactly one entry per tag of the line |
| LrcParser.LrcEntriesShape | src/utils/lrcParser.ts:105-118 | no LRC entry has an end time and every text is non-empty |
| LrcParser.LrcResult | src/utils/lrcParser.ts:100-121 | the entries of every line, sorted by start time with no deduplication; `LrcParser.LrcResultProps` states the result's properties and `LrcParser.ParseLrc` is its loop form |
| LrcParser.LrcResultProps | src/utils/lrcParser.ts:100-121 | parseLrc's result is sorted, a permutation of the per-line entries (no deduplication), without end times and with non-empty text |
| LrcParser.ParseLrc | src/utils/lrcParser.ts:100-121 | the method returns the LRC result whose properties LrcResultProps states |
| App.LastStarted | src/App.tsx:305 | `findLastIndex(time >= l.time)`: -1 or an index whose line has started, with every later line still in the future |
| App.LastStartedUnique | src/App.tsx:305 | any index with those three properties is the one LastStarted returns |
| App.FindLastIndex | src/App.tsx:305 | the backward search loop returns LastStarted |
| App.LastStartedMonotone | src/App.tsx:305 | a later playback time never selects an earlier line |
| App.LastStartedSorted | src/App.tsx:305 | on sorted lyrics the index is -1 iff the list is empty or the first line has not started, and every line up to it has started |
| App.Duration | src/App.tsx:312-317 | `endTime - time` when the line has an end time, else the next line's time minus this one's, else 2 s for the last line |
| App.DurationNonNegative | src/App.tsx:312-317 | on sorted lyrics a duration taken from the next line is never negative |
| App.Divisor | src/App.tsx:320 | `dur \|\| 1` is never zero: a non-zero duration is kept and a zero one becomes 1000 ms (one second) |
| App.LineProgress | src/App.tsx:318-321 | the clamped progress lies in [0, 1] |
| App.LineProgressEnds | src/App.tsx:318-321 | progress is 0 until the line starts and 1 once its duration has elapsed |
| App.LineProgressMonotone | src/App.tsx:318-321 | for a fixed line with non-negative duration, progress never decreases as time advances |
| App.CurrentProgress | src/App.tsx:454-464 | 0 when the active index is -1 or out of range, otherwise the same clamped progress the tick computes |
| App.NextStoredTime | src/App.tsx:301-303 | the stored time is replaced by the audio time iff they differ by more than 50 ms, so afterwards they are within 50 ms |
| App.NextActiveIndex | src/App.tsx:306-309 | the active index takes the new index unless that is -1, so a tick never resets it to -1 |
| App.Outgoing | src/App.tsx:310-331 | a message is sent only with the overlay on and a started line, carries that line's text and progress, and is sent exactly when the index changed or the progress moved by more than 0.03 since the last message |
| App.NextSent | src/App.tsx:330 | the last-sent record changes exactly when a message is sent, to that message's index and progress |
| App.RepeatTickSilent | src/App.tsx:322-331 | repeating a tick at the same time sends nothing |
| App.FirstTickSends | src/App.tsx:310-331 | with nothing sent yet, a tick sends iff the overlay is on and a line has started |
| App.SentMatchesCurrentProgress | src/App.tsx:318-321 | the progress sent to the overlay equals the in-window progress for the same line and time |
| App.SyncEngine.constructor | src/App.tsx:219 | the engine starts with nothing sent, `{index: -1, progress: -1}` |
| App.SyncEngine.Tick | src/App.tsx:300-335 | one frame: the message and new last-sent record as above, the store's time and active index updated and nothing else in it, a scroll iff the active index moved, another frame iff still playing |
| App.LyricList | src/App.tsx:745-765 | exactly the active line is karaoke; every other line is static and coloured active iff it lies before the active line |
| App.LyricListShape | src/App.tsx:745-765 | at most one karaoke line, and the active colour covers a prefix of the static lines |
| App.LastSegment | src/App.tsx:244-246 | `split("/").pop()` is the slash-free suffix that follows the last `/` |
| App.ExtensionDot | src/App.tsx:247 | the `/\.[^/.]+$/` match starts at a dot followed by at least one character and no further dot or slash; without a match no dot has such a tail |
| App.Stem | src/App.tsx:247 | removing the extension leaves a slash-free prefix of the last segment |
| App.DisplayName | src/App.tsx:243-247 | the displayed song name is never empty, has no `/`, and is either the fallback title or a prefix of the last path segment |
| App.DisplayNameNoExtension | src/App.tsx:243-247 | for `dir/stem` whose last segment has no dot the displayed name is the whole segment |
| App.DisplayNameDotFile | src/App.tsx:243-247 | for `dir/.ext` the stem is empty and the fallback title is shown |
| App.DisplayNameTrailingSlash | src/App.tsx:243-247 | for a path ending in `/` the last segment is empty and the fallback title is shown |
| App.TailLenAll | src/App.tsx:247 | in a text free of dots and slashes the trailing run without either is the whole text |
| App.DisplayNameOf | src/App.tsx:243-247 | for `dir/stem.ext` the displayed name is `stem` |
| App.ExtensionDotOf | src/App.tsx:247 | in `stem.ext` the extension match starts at the last dot |
| App.TailLenOf | src/App.tsx:247 | the trailing run without dot or slash of `stem.ext` is `ext` |
| App.LastSegmentOf | src/App.tsx:244-246 | the last path segment of `dir/base` is `base` |
| App.LoadedLyrics | src/App.tsx:253-259 | no match gives no lyrics; a path ending in `.srt` (any case) is parsed as SRT, anything else as LRC |
| App.LoadedLyricsSorted | src/App.tsx:253-259 | the loaded lyrics are always sorted by time |
| App.OpenMusic | src/App.tsx:237-271 | cancelling changes nothing; otherwise the store gets the URL, the derived name, the local artist, paused, the saved position or 0, and the loaded lyrics, with every other field unchanged |
| App.SeekTime | src/App.tsx:637-647 | a click maps to a time in [0, duration]: 0 at or left of the bar, the duration at or right of its end |
| LyricLineView.WordEnd | src/components/Player/LyricLine.tsx:43 | a word runs from its start to the next whitespace character or the end of the text |
| LyricLineView.WordEndNoSpace | src/components/Player/LyricLine.tsx:43 | the characters of a word contain no whitespace |
| LyricLineView.SplitWords | src/components/Player/LyricLine.tsx:43 | `text.split(/(\s+)/)` always yields at least one part |
| LyricLineView.SplitWordsConcat | src/components/Player/LyricLine.tsx:43 | the parts concatenate back to the text |
| LyricLineView.SplitWordsAlternates | src/components/Player/LyricLine.tsx:43 | the parts alternate between whitespace-free words and non-empty whitespace runs |
| LyricLineView.SplitWordsFirst | src/components/Player/LyricLine.tsx:43 | the first part is a (possibly empty) word |
| LyricLineView.SplitWordsLast | src/components/Player/LyricLine.tsx:43 | the last part is a (possibly empty) word |
| LyricLineView.SplitWordsStep | src/components/Player/LyricLine.tsx:43 | the split is the leading word, the whitespace run after it, then the split of the rest |
| LyricLineView.SplitWordsSingle | src/components/Player/LyricLine.tsx:43 | a text without whitespace splits into itself alone |
| LyricLineView.Total | src/components/Player/LyricLine.tsx:44 | `text.length \|\| 1`: at least 1, and the length for a non-empty text |
| LyricLineView.CharFill | src/components/Player/LyricLine.tsx:71-78 | a fill in [0, 1] that is 1 iff progress reached the character's end fraction and 0 iff progress is at or before its start fraction |
| LyricLineView.CharFillIsClamp | src/components/Player/LyricLine.tsx:71-78 | the three-way fill equals `clamp01(progress*total - i)` |
| LyricLineView.CharFillMonotone | src/components/Player/LyricLine.tsx:71-78 | a character's fill never decreases as progress grows |
| LyricLineView.CharFillAlongLine | src/components/Player/LyricLine.tsx:71-78 | an earlier character is at least as filled as a later one, and full once a later one has started |
| LyricLineView.AtMostOnePartial | src/components/Player/LyricLine.tsx:71-78 | at most one character is partially filled |
| LyricLineView.FocusExclusive | src/components/Player/LyricLine.tsx:57-59 | two non-overlapping words are never focused together, and an empty word is never focused |
| LyricLineView.PaintedIffFilled | src/components/Player/LyricLine.tsx:67-78 | a non-empty word gets the active colour iff every one of its characters is fully filled |
| LyricLineView.WordAt | src/components/Player/LyricLine.tsx:55-107 | a word's view has its text, offset, one fill per character, and the focus and colour rules at that offset |
| LyricLineView.ViewsFrom | src/components/Player/LyricLine.tsx:55-110 | one view per part, each with its part's text, focus and colour computed at its running offset |
| LyricLineView.ViewsFromOffset | src/components/Player/LyricLine.tsx:108 | the offset of part k is the start offset plus the lengths of the parts before it |
| LyricLineView.ViewsFromAt | src/components/Player/LyricLine.tsx:55-108 | part k is rendered as a word at the offset the earlier parts add up to |
| LyricLineView.ViewsFromOrdered | src/components/Player/LyricLine.tsx:108 | an earlier part ends at or before the offset where a later part starts |
| LyricLineView.LineViewFocus | src/components/Player/LyricLine.tsx:57-59 | at most one part of a line is focused |
| LyricLineView.LineViewPainted | src/components/Player/LyricLine.tsx:67 | the parts in the active colour form a prefix of the line |
| LyricLineView.CharsFrom | src/components/Player/LyricLine.tsx:70-78 | one character view per character |
| LyricLineView.FlatViewsFrom | src/components/Player/LyricLine.tsx:55-110 | the per-word character views, read left to right, are exactly the per-character views of the concatenated text |
| LyricLineView.LineView | src/components/Player/LyricLine.tsx:29-114 | the word views of the whitespace split at running character offsets; `LyricLineView.LineViewFocus`, `LyricLineView.LineViewPainted` and `LyricLineView.LineViewChars` state its properties |
| LyricLineView.LineViewChars | src/components/Player/LyricLine.tsx:43-110 | the rendered characters of a line are its characters in order, each filled by its global offset over `text.length \|\| 1` |
| LyricLineView.RenderActiveLine | src/components/Player/LyricLine.tsx:29-114 | the render returns the line view of the text at the given progress |
| LyricLineView.RenderParts | src/components/Player/LyricLine.tsx:55-110 | the `charOffset +=` loop over the parts computes the views with their running offsets |
| LyricLineView.StaticLine | src/components/Player/LyricLine.tsx:10-27 | the static line shows exactly the text between two spaces, in the given colour, at 0.8 × the font size, which is smaller than a positive font size |
| PlayerStore.InitialState | src/store/playerStore.ts:33-42 | no audio, no lyrics, not playing or transcribing, time and duration 0, active index -1, rate 1.0 |
| PlayerStore.Store.constructor | src/store/playerStore.ts:33-42 | a new store holds the initial state |
| PlayerStore.Store.SetAudio | src/store/playerStore.ts:44 | sets the path and music info, pauses and rewinds to 0; lyrics, active index, duration and the rest are unchanged |
| PlayerStore.Store.SetLyrics | src/store/playerStore.ts:45 | replaces only the lyrics; the active index is not reset |
| PlayerStore.Store.SetPlaying | src/store/playerStore.ts:46 | changes only `isPlaying` |
| PlayerStore.Store.SetCurrentTime | src/store/playerStore.ts:47 | changes only `currentTime` |
| PlayerStore.Store.SetDuration | src/store/playerStore.ts:48 | changes only `duration` |
| PlayerStore.Store.SetActiveIndex | src/store/playerStore.ts:49 | changes only `activeIndex` |
| PlayerStore.Store.SetTranscribing | src/store/playerStore.ts:50 | changes only `isTranscribing` |
| PlayerStore.Store.SetPlaybackRate | src/store/playerStore.ts:51 | changes only `playbackRate` |
| SettingsStore.DefaultSettings | src/store/settingsStore.ts:24-33 | font size 32, offset 0, desktop lyric shown, no loop, shadow 0.1, device "default", API URL `http://localhost:8080` |
| SettingsStore.Merge | src/store/settingsStore.ts:39 | `{...state, ...partial}` field by field; `SettingsStore.MergeFields`, `SettingsStore.MergeEmpty`, `SettingsStore.MergeIdempotent` and `SettingsStore.MergeThen` state its properties |
| SettingsStore.MergeFields | src/store/settingsStore.ts:39 | for each of the ten fields, a value the partial carries wins and a missing one keeps the stored value |
| SettingsStore.OffsetPatchOnlyOffset | src/store/settingsStore.ts:39 | an offset-only partial changes the offset and nothing else |
| SettingsStore.MergeEmpty | src/store/settingsStore.ts:39 | the empty partial leaves the settings unchanged |
| SettingsStore.MergeIdempotent | src/store/settingsStore.ts:39 | applying a partial twice equals applying it once |
| SettingsStore.MergeThen | src/store/settingsStore.ts:39 | two updates in a row equal one update with the later keys winning |
| SettingsStore.Store.constructor | src/store/settingsStore.ts:23-33 | a new store holds the defaults |
| SettingsStore.Store.UpdateSettings | src/store/settingsStore.ts:34-40 | the stored settings become the merge of the old settings with the partial |
| PlayerPanel.JsMod | src/components/Player/PlayerPanel.tsx:30 | JavaScript's `%` on numbers, whose remainder takes the sign of the dividend; `PlayerPanel.FormatTime` takes the seconds with it, and `PlayerPanel.FormatTimeNegative` shows the effect on a negative time |
| PlayerPanel.Trunc | src/components/Player/PlayerPanel.tsx:29-30 | the integer part toward zero of a real: its floor when non-negative and minus the floor of its negation otherwise |
| PlayerPanel.FormatTime | src/components/Player/PlayerPanel.tsx:27-32 | NaN is shown as `0:00` |
| PlayerPanel.FormatTimeNonNegative | src/components/Player/PlayerPanel.tsx:29-31 | a non-negative time is the whole minutes, `:`, and the whole seconds within the minute as two digits |
| PlayerPanel.FormatTimeNegative | src/components/Player/PlayerPanel.tsx:29-31 | a negative time is not padded as a clock: -5 s is shown as `-1:-5` |
| PlayerPanel.StepDown | src/components/Player/PlayerPanel.tsx:349-351 | `max(-10, offset - step)`: never below -10, and exactly `offset - step` when that stays in range |
| PlayerPanel.StepUp | src/components/Player/PlayerPanel.tsx:372-374 | `min(10, offset + step)`: never above 10, and exactly `offset + step` when that stays in range |
| PlayerPanel.StepsKeepRange | src/components/Player/PlayerPanel.tsx:349-374 | from an offset in [-10, 10] both buttons keep it in [-10, 10], moving it down and up respectively |
| PlayerPanel.StepUpUndoesDown | src/components/Player/PlayerPanel.tsx:349-374 | an unclamped step down followed by a step up returns to the original offset |
| PlayerPanel.OffsetButtonsUpdate | src/components/Player/PlayerPanel.tsx:349-391 | the -0.5 s, +0.5 s and reset buttons change only the stored offset, and it stays within [-10, 10] |
| PlayerPanel.ToFixed1 | src/components/SettingsDialog.tsx:115 | `toFixed(1)` has at least three characters and starts with `-` iff the value is negative |
| PlayerPanel.Tenths | src/components/SettingsDialog.tsx:115 | a non-negative value is written as digits, a point and one digit |
| PlayerPanel.TenthsReadsBack | src/components/SettingsDialog.tsx:115 | the written digits read back as the value in tenths, rounded to within half a tenth |
| PlayerPanel.OffsetLabel | src/components/SettingsDialog.tsx:114-115 | the offset label ends in `s` and starts with `+` iff the offset is positive, with `-` iff it is negative |
| PlayerPanel.WidthPercent | src/components/Player/PlayerPanel.tsx:325 | with a positive duration and the time inside it the bar width lies in [0, 100] %, reaching 100 % at the end |
| PlayerPanel.LyricAreaOf | src/components/Player/PlayerPanel.tsx:410-438 | the placeholder is shown iff there are no lyrics (when the offset controls are hidden); otherwise the lines follow the karaoke/static colouring rule |
| SettingsDialog.DialogButtonsUpdate | src/components/SettingsDialog.tsx:121-152 | the -0.1 s and +0.1 s buttons store `max(-10, offset - 0.1)` and `min(10, offset + 0.1)`, both within [-10, 10] |
| SettingsDialog.ClampReal | src/components/SettingsDialog.tsx:136-139 | a value clamped to a range lies in it and is unchanged when already inside |
| SettingsDialog.RangeValue | src/components/SettingsDialog.tsx:136-139 | a range input yields a value within its bounds and within half a step of the clamped input |
| SettingsDialog.SliderOffset | src/components/SettingsDialog.tsx:135-145 | the offset slider only produces values in [-10, 10] |
| SettingsDialog.SliderShadow | src/components/SettingsDialog.tsx:262-270 | the shadow slider only produces values in [0, 1] |
| SettingsDialog.ShadowPercent | src/components/SettingsDialog.tsx:260 | a missing opacity shows 50 %; otherwise the rounded percentage, within [0, 100] for an opacity in [0, 1] |
| SettingsDialog.AudioOutputs | src/components/SettingsDialog.tsx:26 | exactly the devices whose kind is `audiooutput` are listed |
| SettingsDialog.AudioOutputsOrder | src/components/SettingsDialog.tsx:26 | the filter keeps the enumeration order |
| SettingsDialog.DeviceLabel | src/components/SettingsDialog.tsx:238 | a labelled device shows its label; an unlabelled one shows `设备 (` + the first five characters of its id + `...)` |
| SettingsDialog.DeviceOptions | src/components/SettingsDialog.tsx:230-240 | the system default option comes first, then one option per audio output with its id and label, in order |
| ElectronMain.GetSavedBounds | electron/main.ts:19-32 | a saved JSON object is returned as it is; a missing, unreadable or non-object file gives 1000 x 200 with no position |
| ElectronMain.OrDefault | electron/main.ts:116-117 | `v \|\| d`: a present non-zero value is kept, a missing or zero one is replaced by the default |
| ElectronMain.LyricWindowOptions | electron/main.ts:103-132 | the saved position is used iff x and y are present with -1000 <= x < 10000 and -100 <= y < 10000, otherwise the window is centred; width `w \|\| 1000`, height `max(h \|\| 200, 80)` |
| ElectronMain.DefaultPlacement | electron/main.ts:103-132 | with no usable saved bounds the window is centred at 1000 x 200 |
| ElectronMain.ResizedBounds | electron/main.ts:499-508 | a resize keeps x and y, sets the height to `max(ceil(h), 40)` and the width to `width \|\| current width` |
| ElectronMain.HeightOnlyResize | electron/main.ts:499-508 | a height-only resize keeps the width and, above 40, rounds the height up by less than one pixel |
| ElectronMain.StripScheme | electron/main.ts:48 | a URL starting with `local-file://media` loses exactly that prefix |
| ElectronMain.EscapeAt | electron/main.ts:51 | a well-formed `%XY` escape (section 2.1 of RFC 3986) stands for one byte below 256 |
| ElectronMain.EscapedChar | electron/main.ts:51 | a decoded UTF-8 escape sequence takes 3 to 12 characters of the input |
| ElectronMain.Decode | electron/main.ts:51 | `decodeURIComponent`: escapes read as UTF-8, failing on a malformed escape; `ElectronMain.DecodePlain`, `ElectronMain.PercentFails` and `ElectronMain.DecodeEscaped` state its behaviour |
| ElectronMain.DecodePlain | electron/main.ts:51 | `decodeURIComponent` leaves a text without `%` unchanged |
| ElectronMain.ProtocolPath | electron/main.ts:44-59 | the handler fails only with error -6 (file not found) |
| ElectronMain.ProtocolRoundTrip | electron/main.ts:48-51 | a path without `?` and `%`, and which the browser hands over unchanged (no `#`, no `\`, no `.` or `..` segment), is served back from its `local-file://media` URL |
| ElectronMain.QuestionMarkTruncates | electron/main.ts:50 | as written, a `?` in a file name cuts the served path short |
| ElectronMain.PercentFails | electron/main.ts:51-58 | as written, a `%` not followed by two hex digits makes the file fail with -6 |
| ElectronMain.EscapePath | electron/main.ts:462 | the corrected URL path contains no `?`, `#` or `\` |
| ElectronMain.OpenFileUrl | electron/main.ts:462 | as written, the scheme followed by the raw path; `ElectronMain.ProtocolRoundTrip` and `ElectronMain.QuestionMarkTruncates` state what the handler makes of it |
| ElectronMain.FixedOpenFileUrl | electron/main.ts:462 | the corrected URL is the scheme followed by the path with `%` and `?` escaped |
| ElectronMain.DecodeEscaped | electron/main.ts:51 | decoding undoes that escaping for every path |
| ElectronMain.FixedProtocolRoundTrip | electron/main.ts:44-59 | every path without `.` or `..` segments, whatever its characters, is served back from its corrected URL |
| ElectronMain.Extname | electron/main.ts:477 | `path.extname` is empty or starts with a dot, and is no longer than the path |
| ElectronMain.SegmentExtension | electron/main.ts:477 | the extension of the last segment is a suffix of it starting with a dot |
| ElectronMain.ExtnameOf | electron/main.ts:477 | the extension of `dir/stem.ext` is `.ext` |
| ElectronMain.BasePath | electron/main.ts:478 | the base path is a prefix of the music path |
| ElectronMain.Candidates | electron/main.ts:477-482 | the candidates are the base path followed by `.lrc`, `.srt`, `.LRC`, `.SRT`, in that order |
| ElectronMain.FirstReadable | electron/main.ts:481-492 | the first readable candidate from a position on; `ElectronMain.FirstReadableSpec` characterises it |
| ElectronMain.FirstReadableSpec | electron/main.ts:481-492 | the result is the first readable candidate with its content, and null iff no candidate is readable |
| ElectronMain.FindMatchingLyric | electron/main.ts:476-493 | the handler returns the first readable candidate of the music path |
| ElectronMain.TryExtensions | electron/main.ts:481-492 | the loop over the extensions returns the first readable path, or null |
| ElectronMain.CreatedWindow | electron/main.ts:103-146 | a created lyric window is live and shown |
| ElectronMain.Toggled | electron/main.ts:525-537 | true creates a missing or destroyed window and otherwise shows it; false hides a live window and leaves anything else as it was |
| ElectronMain.ToggleIdempotent | electron/main.ts:525-537 | toggling twice with the same flag is the same as toggling once |
| ElectronMain.LyricWindowHost.constructor | electron/main.ts:64 | the `lyricWin` reference starts empty, before start-up creates the window |
| ElectronMain.LyricWindowHost.Ready | electron/main.ts:238-242 | once the app is ready the reference holds the created lyric window, live and shown |
| ElectronMain.LyricWindowHost.Activate | electron/main.ts:230-235 | `activate` with no window open recreates the lyric window; with any window open nothing changes |
| ElectronMain.LyricWindowHost.Toggle | electron/main.ts:525-537 | the global window reference becomes the toggled window |
| ElectronMain.LyricWindowHost.Forward | electron/main.ts:439-449 | `update-lyric` and `update-settings` reach the overlay iff the window is live |
| ElectronMain.LyricWindowHost.OnClosed | electron/main.ts:190-193 | the `closed` event drops the window reference |
| ElectronMain.LyricWindowHost.OnDestroyed | electron/main.ts:525-537 | a referenced window that is destroyed stays referenced but is no longer live |
| ElectronMain.LyricWindowHost.Resize | electron/main.ts:499-511 | a live window gets the resized bounds and is shown; otherwise nothing changes |
| ElectronMain.LyricWindowHost.Reset | electron/main.ts:513-523 | a live window becomes 1000 x 200, centred and shown, and the handler returns true; otherwise false and nothing changes |
| LyricApp.InitialLyricData | src/LyricApp.tsx:4-7 | the overlay starts with the placeholder text at progress 0 |
| LyricApp.Apply | src/LyricApp.tsx:26-37 | a reducer update: the previous state object kept, or replaced; `LyricApp.Reduce` is stated through it |
| LyricApp.Reduce | src/LyricApp.tsx:26-37 | a string becomes that text at progress 0, kept as the same state when it already is; an object is ignored iff the text is the same and the progress differs by less than 0.001, otherwise it replaces the state |
| LyricApp.ReduceTracksMessage | src/LyricApp.tsx:31-36 | after an object message the state has its text and a progress within 0.001 of it |
| LyricApp.ReduceIdempotent | src/LyricApp.tsx:26-37 | a repeated message leaves the state unchanged |
| LyricApp.InitialSettings | src/LyricApp.tsx:8-14 | the overlay starts with five style keys, font size 32 and a translucent background |
| LyricApp.MergeSettings | src/LyricApp.tsx:44 | `{...prev, ...incoming}`: incoming keys win, every other key keeps its value, and no key is lost |
| LyricApp.MergeSettingsIdempotent | src/LyricApp.tsx:44 | the same settings message twice is the same as once |
| LyricApp.TargetHeight | src/LyricApp.tsx:60 | `ceil(contentHeight + 24)` |
| LyricApp.ResizeRequest | src/LyricApp.tsx:60-67 | a resize to the target height is sent iff it differs from the last sent height by more than 3 |
| LyricApp.HeightTracker.constructor | src/LyricApp.tsx:17 | the last sent height starts at 0 |
| LyricApp.HeightTracker.UpdateWindowHeight | src/LyricApp.tsx:57-69 | the resize request as above, with the last height updated only when a resize is sent |
| LyricApp.ResizeSettles | src/LyricApp.tsx:60-67 | after one resize, the same content height sends nothing more |
| LyricApp.OverlayWords | src/LyricApp.tsx:84-109 | one group of characters per part of the whitespace split |
| LyricApp.CharsOf | src/LyricApp.tsx:109-158 | one group per word view, holding that view's characters |
| LyricApp.OverlayWordsChars | src/LyricApp.tsx:84-158 | the overlay's characters, read in order, have the same fill as the main window's rule over `text.length \|\| 1` |
| LyricApp.FlattenChars | src/LyricApp.tsx:109-158 | the grouped characters flatten to the word views' characters |
| LyricApp.RenderKaraokeLine | src/LyricApp.tsx:78-161 | the render returns the overlay words of the line |
| LyricApp.RenderWords | src/LyricApp.tsx:86-158 | the `charIndexOffset +=` loop produces each word's characters at its running offset |
| LyricApp.RenderWordChars | src/LyricApp.tsx:115-153 | the per-character loop gives the word's character fills at its offset |
| LyricApp.SubLineFontSize | src/LyricApp.tsx:88 | the first sub-line uses the full font size and every later one exactly 0.7 × it, which is smaller for a positive size |
| LyricApp.RenderOverlay | src/LyricApp.tsx:193-203 | one rendered sub-line per `\n`-separated line, all at the same progress, each with its font size and words |
| ElectronRss.FindChar | electron/main.ts:275 | the position of the next occurrence of a character, or the end of the text |
| ElectronRss.FindCharFirst | electron/main.ts:275 | no occurrence is skipped |
| ElectronRss.FindNoCase | electron/main.ts:275-283 | a case-insensitive match found from a position lies inside the text |
| ElectronRss.FindNoCaseSpec | electron/main.ts:275-283 | the search returns the leftmost case-insensitive match, and none only when there is no match at all |
| ElectronRss.ElementAt | electron/main.ts:275-283 | `<name[^>]*>([\s\S]*?)</name>` matched at a position: the body lies after the opening tag and the closing tag fits in the text |
| ElectronRss.ElementAtShape | electron/main.ts:275-283 | the match opens with `<name`, the opening tag ends at the first `>`, and the body ends at the first closing tag (lazy body) |
| ElectronRss.FirstElement | electron/main.ts:275-283 | the first element match from a position lies inside the text |
| ElectronRss.FirstElementLeftmost | electron/main.ts:275-283 | the element search returns the leftmost match, and none only when no position matches |
| ElectronRss.ElementText | electron/main.ts:283-286 | the body of the first `<name>…</name>` match, or none; `ElectronRss.FirstElementLeftmost` and `ElectronRss.ElementTextOf` state its properties |
| ElectronRss.ElementTextOf | electron/main.ts:283-286 | the body of `<name>body</name>`, whatever follows, is `body` when no closing tag starts inside it |
| ElectronRss.ItemMatches | electron/main.ts:275-278 | every `<item>` match of the `exec` loop lies inside the document |
| ElectronRss.ItemMatchesOrdered | electron/main.ts:275-278 | the item matches come in document order and do not overlap |
| ElectronRss.ItemMatchesChained | electron/main.ts:275-278 | each match starts its search where the previous one ended (`lastIndex`) |
| ElectronRss.CdataAt | electron/main.ts:285 | a `<![CDATA[...]]>` section found in a text lies inside it |
| ElectronRss.StripCdataPlain | electron/main.ts:285 | a text without `<` is left unchanged by CDATA stripping |
| ElectronRss.StripCdata | electron/main.ts:285 | every CDATA section replaced by its text; `ElectronRss.StripCdataPlain`, `ElectronRss.StripCdataWrapped` and `ElectronRss.StripCdataSection` state its behaviour |
| ElectronRss.StripCdataWrapped | electron/main.ts:285 | a CDATA wrapper around a single-line text without `]` is removed, leaving the text |
| ElectronRss.StripCdataSection | electron/main.ts:285 | the first section is replaced by its contents and the rest is stripped in turn |
| ElectronRss.FindQuote | electron/main.ts:307 | the position of the next `"` or `'`, or the end of the text |
| ElectronRss.UrlAt | electron/main.ts:307 | a captured `url="..."` value is non-empty and holds no quote |
| ElectronRss.TagUrlAt | electron/main.ts:307-314 | a URL is captured only from a tag that opens with the given name |
| ElectronRss.TagUrl | electron/main.ts:307-314 | a found URL is non-empty |
| ElectronRss.TagUrlLeftmost | electron/main.ts:307-314 | the leftmost match: nothing is found only when no position from `from` on opens the tag with a usable URL, and a found URL is the one at some position `k` before which no position yields one |
| ElectronRss.ParseItem | electron/main.ts:283-318 | the title, description, link, date and audio URL of one item body; `ElectronRss.ParseItemEnclosure` and `ElectronRss.ParseItemItunes` state it end to end |
| ElectronRss.ParseItemEnclosure | electron/main.ts:283-322 | for the item body `<title><![CDATA[x]]></title><enclosure url="u"/>`, the title is `x` trimmed, the audio URL is `u`, and the item is kept iff the trimmed title is non-empty |
| ElectronRss.ParseItemItunes | electron/main.ts:283-318 | for the item body `<title><![CDATA[x]]></title><itunes:enclosure url="v"/>`, which has no `<enclosure`, the title is `x` trimmed and the audio URL is `v` |
| ElectronRss.TitleOf | electron/main.ts:283-286 | a CDATA-wrapped title element at the start of an item gives its trimmed text |
| ElectronRss.TagUrlAfterTitle | electron/main.ts:307-317 | the `<enclosure>` or `<itunes:enclosure>` search passes over a CDATA title and captures the URL of the tag after it |
| ElectronRss.ItunesNoEnclosure | electron/main.ts:307-313 | an item whose only tags are the title and `<itunes:enclosure>` has no `<enclosure>` match |
| ElectronRss.TagUrlAtOf | electron/main.ts:307 | a tag `<name url="u"/>` at a position yields `u` when the search reaches it |
| ElectronRss.TagUrlSkip | electron/main.ts:307 | the tag search passes over every position where the tag cannot open |
| ElectronRss.LastUrl | electron/main.ts:307 | the URL of the last `url="…"` inside a tag that captures a non-empty value; `ElectronRss.LastUrlAt` characterises it |
| ElectronRss.LastUrlAt | electron/main.ts:307 | the greedy `[^>]*` settles on the last `url=` inside the tag that captures a value |
| ElectronRss.Parsed | electron/main.ts:278-280 | one parsed item per item match |
| ElectronRss.Keep | electron/main.ts:320-322 | the filter never adds items |
| ElectronRss.KeepExact | electron/main.ts:320-322 | an item is kept iff it has a non-empty title and an audio URL |
| ElectronRss.KeepAppend | electron/main.ts:320-322 | the filter keeps document order |
| ElectronRss.FeedFromMatches | electron/main.ts:271-326 | the scan yields the kept parsed items of the item matches, in document order |
| ElectronRss.FeedFromStep | electron/main.ts:278-322 | one loop turn pushes the parsed item if it is kept and continues after the match |
| ElectronRss.ScanStep | electron/main.ts:278-322 | one loop turn advances `lastIndex` and keeps the items still to come unchanged |
| ElectronRss.ScanItems | electron/main.ts:272-325 | the `while (exec)` loop returns exactly the feed's kept items |
| ElectronRss.FeedItems | electron/main.ts:271-326 | the kept parsed items of the item matches, in document order; `ElectronRss.FeedFromMatches` states this and `ElectronRss.ScanItems` is its loop form |
| ElectronRss.ParseRssFeed | electron/main.ts:271-326 | parseRSSFeed returns the feed's items, each with a title and an audio URL |
| Backend.WithStatus | backend/main.go:187-243 | `Update("transcription_status", s)` where `guid = ?`: the matching row gets the status and every other row is unchanged |
| Backend.WithLocalPath | backend/main.go:234-236 | the matching row gets the local audio path and every other row is unchanged |
| Backend.WithSubtitles | backend/main.go:248-251 | the matching row gets the subtitles and status completed, every other row is unchanged |
| Backend.Database.constructor | backend/main.go:179-180 | the database holds the given episode rows |
| Backend.Database.First | backend/main.go:179-180 | `First` by GUID finds the stored row, or reports that there is none |
| Backend.Database.SetStatus | backend/main.go:187-243 | the table becomes the status update of the old table |
| Backend.Database.SetLocalPath | backend/main.go:234-236 | the table becomes the path update of the old table |
| Backend.Database.SetSubtitles | backend/main.go:248-251 | the table becomes the subtitle update of the old table |
| Backend.Enqueued | backend/main.go:171-188 | the task list after `AddTask`: unchanged when refused, else with the task appended; `Backend.EnqueuedDistinct` and `Backend.EnqueuedQueued` state its properties |
| Backend.EnqueuedDistinct | backend/main.go:171-176 | queued GUIDs stay pairwise distinct |
| Backend.EnqueuedQueued | backend/main.go:171-188 | after AddTask the GUID is queued iff it already was or its episode has no subtitles, and the earlier tasks are kept in front |
| Backend.TranscriptionQueue.constructor | backend/main.go:154-158 | the queue starts empty |
| Backend.TranscriptionQueue.AddTask | backend/main.go:166-190 | a queued GUID or an episode with subtitles leaves queue and table alone; otherwise the episode is marked pending and the task appended at the tail; GUIDs stay distinct |
| Backend.TranscriptionQueue.GetNextTask | backend/main.go:193-204 | nil on an empty queue; otherwise the head task, removed and nothing else |
| Backend.QueueFifo | backend/main.go:188-202 | adding a task behind a different head keeps that head first, so tasks leave in the order they were added |
| Backend.Processed | backend/main.go:219-251 | the episode table after one task: processing, then failed or completed; `Backend.ProcessedSettles` and `Backend.ProcessedOthers` state the outcome |
| Backend.ProcessedSettles | backend/main.go:219-251 | a processed episode ends failed iff the download or the transcription failed (subtitles untouched), and completed with the transcribed subtitles otherwise |
| Backend.ProcessedOthers | backend/main.go:219-251 | processing one task changes no other episode |
| Backend.ProcessTask | backend/main.go:217-256 | one task of the worker: the table becomes the processed table |
| Backend.WorkerTurn | backend/main.go:210-257 | one loop turn: an empty queue changes nothing; otherwise the head task is taken, removed and processed |
| Backend.Ext | backend/main.go:279 | `filepath.Ext`: empty or a dot-led suffix without `/` |
| Backend.ExtBefore | backend/main.go:279 | the extension search from a position yields a dot-led, slash-free suffix of the text before it |
| Backend.ExtOf | backend/main.go:279 | the extension of `dir/stem.ext` is `.ext` |
| Backend.ExtBeforeTail | backend/main.go:279 | a text ending in `.ext` (no dot or slash in `ext`) has extension `.ext` |
| Backend.CacheFileName | backend/main.go:279-287 | the GUID plus the URL path's extension (`.mp3` by default) with `/`, `?` and `&` replaced by `_`; `Backend.CacheFileNameSafe` and `Backend.CacheFileNamePlain` state its properties |
| Backend.CacheFileNameSafe | backend/main.go:279-287 | the cache name contains no `/`, `?` or `&`, and is as long as the GUID plus the extension (`.mp3` when the URL path has none) |
| Backend.CacheFileNamePlain | backend/main.go:279-287 | for a GUID and extension without those characters the name is `guid.ext` |
| Backend.ReplaceAllKeepsAbsent | backend/main.go:285-287 | a later replacement does not bring back a character an earlier one removed |
| Backend.Collected | backend/main.go:653-667 | the listed files are at most the directory entries |
| Backend.CollectedComplete | backend/main.go:653-667 | every non-directory entry whose info could be read is listed |
| Backend.CollectedConcat | backend/main.go:653-667 | the scan keeps entry order: two runs of entries give their files run by run |
| Backend.CollectedAt | backend/main.go:653-667 | a kept entry's file comes after the files of the entries before it and before those of the entries after it |
| Backend.CollectedFrom | backend/main.go:653-667 | every listed file comes from a non-directory entry whose info could be read |
| Backend.CollectFiles | backend/main.go:645-667 | the scan loop lists exactly those files and sums their sizes |
| Backend.CleanupRemovesOldest | backend/main.go:676-692 | when every removal succeeds, the deleted files are the front of an oldest-first permutation of the collected files |
| Backend.Evict | backend/main.go:680-692 | the removed files are drawn from the list, no more of them than it holds |
| Backend.EvictAccounting | backend/main.go:684-686 | the remaining total is the starting total minus the sizes of exactly the files whose removal succeeded |
| Backend.EvictOnlyOverLimit | backend/main.go:680-683 | each file is removed only while the running total is still over the limit |
| Backend.EvictOldestPrefix | backend/main.go:676-692 | when every removal succeeds, the removed files are a prefix of the oldest-first list |
| Backend.EvictReachesLimit | backend/main.go:680-692 | when every removal succeeds, eviction stops within the limit or after removing every file |
| Backend.Cleanup | backend/main.go:639-693 | the files removed and the size left; `Backend.CleanupWithinLimit` and `Backend.CleanupRemovesOldest` state its properties and `Backend.CleanupMediaCache` is its loop form |
| Backend.CleanupWithinLimit | backend/main.go:669-671 | a cache within the limit loses nothing |
| Backend.CleanupMediaCache | backend/main.go:639-693 | the scan, the early return, the oldest-first sort and the removal loop compute the cleanup's removed files and remaining total |
| Backend.NeedsRefresh | backend/main.go:434-447 | the refresh decision as the source writes it; `Backend.NeedsRefreshIff` gives it as an iff |
| Backend.NeedsRefreshIff | backend/main.go:434-447 | a refresh happens iff it was requested, there are no episodes, or the channel was last updated more than one hour ago |
| Backend.ItemsToProcess | backend/main.go:461-465 | a prefix of the feed: all items on the first import or when the feed has at most 50, exactly the first 50 once the channel has episodes and the feed is longer |
| Backend.ChannelIdOf | backend/main.go:416-421 | the channel id is the fourth `/`-separated part of the path and contains no `/`; fewer parts are an error |
| Backend.ChannelIdRoundTrip | backend/main.go:415-421 | `/api/channels/{id}/episodes` yields `id` |
| Backend.TrimSlash | backend/main.go:886 | a trailing `/` is removed once; a base without one is unchanged |
| Backend.FirstNonEmpty | backend/main.go:852-871 | the first non-empty fallback, empty iff all are |
| Backend.BuildSummaryRequest | backend/main.go:851-886 | the key, endpoint, model and text of a summary request, or the missing-key error; `Backend.SummaryRequestFallbacks`, `Backend.SummaryTextBound` and `Backend.EndpointIgnoresTrailingSlash` state its properties |
| Backend.SummaryRequestFallbacks | backend/main.go:851-896 | key from the custom value then `OPENAI_API_KEY`, an error iff both are empty; base and model from custom, environment, then the built-in default; endpoint is the base without a trailing `/` plus `/chat/completions` |
| Backend.SummaryTextBound | backend/main.go:878-881 | the sent text is the first at most 8000 bytes of the content, all of it when shorter |
| Backend.EndpointIgnoresTrailingSlash | backend/main.go:886 | a base with or without one trailing `/` gives the same endpoint |
| Text.Trim | src/utils/lrcParser.ts:25 | `trim()`: a slice of the input with only whitespace cut off either end, starting and ending with a non-space, empty iff the input is all whitespace |
| Text.SplitOn | src/utils/lrcParser.ts:37 | `split(c)`: at least one part and no part contains the separator |
| Text.JoinSplitOn | src/utils/lrcParser.ts:37 | joining the parts with the separator gives back the text |
| Text.SplitOnCons | src/utils/lrcParser.ts:37 | splitting `x + c + y`, where `x` has no `c`, gives `x` and then the parts of `y` |
| Text.TrimUnchanged | src/utils/lrcParser.ts:37 | a text that neither starts nor ends with white space is its own trim |
| Text.FirstIndexOf | electron/main.ts:50 | the first occurrence of a character the text contains |
| Text.ReplaceAllRemovesChar | backend/main.go:285-287 | `strings.ReplaceAll(s, c, d)` with one-character strings leaves no `c` and keeps the length |
| Text.StartsAtNoCaseChars | electron/main.ts:275-283 | a case-insensitive match at a position means every character of the pattern equals the lower-cased text character there |
| Text.NatToString | src/components/Player/PlayerPanel.tsx:31 | the decimal form of a number is a non-empty string of digits |
| Text.NatToStringRoundTrip | src/components/Player/PlayerPanel.tsx:31 | reading the digits back gives the number |
| Text.IntToString | src/components/Player/PlayerPanel.tsx:31 | the decimal form of an integer starts with `-` iff it is negative |
| Text.PadStart2 | src/components/Player/PlayerPanel.tsx:31 | `padStart(2, "0")` yields at least two characters ending in the input |
| Numeric.Ceil | src/LyricApp.tsx:60 | `Math.ceil`: the least integer not below the value |
| Numeric.Round | src/components/SettingsDialog.tsx:260 | `Math.round`: the integer within half of the value, halves rounding up |

## Left out

- Files:
  - `dist-electron/main.js` is a stale compiled copy of `electron/main.ts`, and only the TypeScript source is modelled.
  - `backend/tools/migrate/main.go` is a one-off database copy, made entirely of ORM calls.
  - The RSS and colour-picker panels and the React bootstrap are presentation only.
- Effects outside the process are parameters or absent:
  - the HTTP handlers' request and response plumbing;
  - the ORM and SQL engines;
  - the Whisper and language-model HTTP calls;
  - `os` and `fs` file operations and `http.Get` downloads;
  - Electron windows and dialogs;
  - `axios`, `localStorage`;
  - the 500 ms debounced save of the window bounds;
  - console logging.
- Concurrency: the worker goroutine's endless loop, the queue's `sync.Mutex` and `time.Sleep` are not modelled. Queue operations and one worker turn are modelled as sequential calls.
- Frame scheduling (`requestAnimationFrame`, `setTimeout`, `ResizeObserver`) is not modelled. One tick is one method call, and its `again` result says whether another frame is requested.
- IEEE-754 arithmetic is not modelled: reals are exact, and rounding drift after repeated ±0.1 steps is absent. NaN appears only where the code tests for it (`formatTime`).
- UTF-16 code units and code points are not told apart. Strings are BMP-only, so `text.length` equals the code-point count that `Array.from` gives.
- The lyric offset is stored and edited but never applied by the sync tick, so the model does not apply it either.
- `App.SeekTime`: the seek is stated for a non-negative bar width. The browser never reports a negative one.
- `ElectronMain.ProtocolPath`: stops before `path.normalize`, whose path cleaning is not modelled.
- `ElectronMain.ProtocolRoundTrip`: the URL is registered as a standard scheme (electron/main.ts:36), so the browser canonicalises it before the handler sees it: `#` starts a fragment that is dropped, `\` becomes `/`, and `.` and `..` segments are resolved. Canonicalisation is not modelled, so the round trip is stated only for paths it leaves unchanged.
- `ElectronMain.FixedProtocolRoundTrip`: the corrected URL escapes `#` and `\` as well, but `.` and `..` segments would still be resolved by canonicalisation, which is not modelled. The round trip is stated for paths without them.
- `LrcParser.CleanText`: entity decoding is proved only for text without `&`. The replacements run one after another, so `&amp;lt;` decodes to `<`, and that case has no lemma.
- `ElectronMain.LyricWindowOptions`: the saved bounds file is modelled as a JSON object or not. JSON parsing is not modelled.
- `Sorting.SortBy`: stands for the engine's `Array.prototype.sort` (src/utils/lrcParser.ts:84), which the language requires to be stable, and for Go's `sort.Slice` (backend/main.go:676-678), which is not stable. Both are modelled as one stable insertion sort, so audio files with equal modification times may be removed in a different order than the program would remove them.
- `Backend.CleanupMediaCache`: the `local_audio_path LIKE` update of the database after each removal is not modelled. The size accounting uses unbounded integers, so `int64` overflow is not modelled.
- `Backend.ProcessTask`: a failed database save of the subtitles is only logged by the program. The model treats the save as successful.
- `Backend.ProcessTask`: `downloadAudio` is a parameter. Its cache file name is modelled separately by `Backend.CacheFileNameSafe`, and `url.Parse` and `filepath.Join` are not modelled.
- `Backend.SummaryRequestFallbacks`: the prompt text, the JSON payload and the HTTP call of `callLLMForSummary` are not modelled. Only the configuration and the truncation are.
- `Backend.ItemsToProcess`: the per-item upsert that follows in `channelEpisodesHandler` is database I/O and is not modelled.

## Findings

| source | as written | input that shows it | evidently intended | confidence | as-written member | corrected member |
|---|---|---|---|---|---|---|
| electron/main.ts:462 | `open-file` builds the URL by pasting the raw path after `local-file://media`. The protocol handler then cuts at the first `?` (line 50) and percent-decodes (line 51). | a file named `/a?b.mp3` is served as `/a`; a file named `/100%.mp3` makes `decodeURIComponent` throw, so the handler answers error -6 | every opened file plays back from its URL, so `%` and `?` (and `#` and `\`, which the browser rewrites) should be escaped when the URL is built | not executed | ElectronMain.QuestionMarkTruncates, ElectronMain.PercentFails | ElectronMain.FixedProtocolRoundTrip |
