/** The podcast backend: the transcription queue and its worker, the episode table
    they update, the audio cache (file names and size-bounded eviction), the channel
    refresh decision, and the configuration of a summary request. Database rows are a
    map from GUID to episode; file system, HTTP and clock results are parameters. */
module Backend {
  import opened Wrappers
  import opened Text
  import opened Sorting

  // ---------------------------------------------------------------------------
  // The episode table
  // ---------------------------------------------------------------------------

  /** The columns of an episode row the backend's rules read or write. */
  datatype Episode = Episode(guid: string, localAudioPath: string, srtContent: string,
                             transcriptionStatus: string)

  type Episodes = map<string, Episode>

  /** `Update("transcription_status", status)` on the row with this GUID: no row
      changes when there is none. */
  function WithStatus(eps: Episodes, guid: string, status: string): (r: Episodes)
    ensures r.Keys == eps.Keys
    ensures guid in eps ==> r[guid] == eps[guid].(transcriptionStatus := status)
    ensures forall g :: g in eps && g != guid ==> r[g] == eps[g]
  {
    if guid in eps then eps[guid := eps[guid].(transcriptionStatus := status)] else eps
  }

  /** `Updates({"local_audio_path": path})` on the row with this GUID. */
  function WithLocalPath(eps: Episodes, guid: string, path: string): (r: Episodes)
    ensures r.Keys == eps.Keys
    ensures guid in eps ==> r[guid] == eps[guid].(localAudioPath := path)
    ensures forall g :: g in eps && g != guid ==> r[g] == eps[g]
  {
    if guid in eps then eps[guid := eps[guid].(localAudioPath := path)] else eps
  }

  /** `Updates({"srt_content": srt, "transcription_status": "completed"})`. */
  function WithSubtitles(eps: Episodes, guid: string, srt: string): (r: Episodes)
    ensures r.Keys == eps.Keys
    ensures guid in eps ==> r[guid] == eps[guid].(srtContent := srt, transcriptionStatus := Completed)
    ensures forall g :: g in eps && g != guid ==> r[g] == eps[g]
  {
    if guid in eps then eps[guid := eps[guid].(srtContent := srt, transcriptionStatus := Completed)]
    else eps
  }

  const Pending := "pending"
  const Processing := "processing"
  const Failed := "failed"
  const Completed := "completed"

  /** The database handle: the episode rows, updated in place. */
  class Database {
    var episodes: Episodes

    constructor (eps: Episodes)
      ensures episodes == eps
    {
      episodes := eps;
    }

    /** `db.Where("guid = ?", guid).First(&episode)`: the row, or an error when
        there is none. */
    method First(guid: string) returns (r: Option<Episode>)
      ensures guid in episodes ==> r == Some(episodes[guid])
      ensures guid !in episodes ==> r == None
    {
      if guid in episodes {
        r := Some(episodes[guid]);
      } else {
        r := None;
      }
    }

    method SetStatus(guid: string, status: string)
      modifies this
      ensures episodes == WithStatus(old(episodes), guid, status)
    {
      episodes := WithStatus(episodes, guid, status);
    }

    method SetLocalPath(guid: string, path: string)
      modifies this
      ensures episodes == WithLocalPath(old(episodes), guid, path)
    {
      episodes := WithLocalPath(episodes, guid, path);
    }

    method SetSubtitles(guid: string, srt: string)
      modifies this
      ensures episodes == WithSubtitles(old(episodes), guid, srt)
    {
      episodes := WithSubtitles(episodes, guid, srt);
    }
  }

  // ---------------------------------------------------------------------------
  // The transcription queue
  // ---------------------------------------------------------------------------

  /** A queued transcription job. */
  datatype Task = Task(guid: string, audioUrl: string, localPath: string, title: string)

  predicate Queued(tasks: seq<Task>, guid: string) {
    exists i :: 0 <= i < |tasks| && tasks[i].guid == guid
  }

  predicate DistinctGuids(tasks: seq<Task>) {
    forall i, j :: 0 <= i < j < |tasks| ==> tasks[i].guid != tasks[j].guid
  }

  predicate HasSubtitles(eps: Episodes, guid: string) {
    guid in eps && eps[guid].srtContent != ""
  }

  /** `AddTask` is refused when the GUID is already queued or its episode already
      has subtitles. */
  predicate Refused(tasks: seq<Task>, eps: Episodes, guid: string) {
    Queued(tasks, guid) || HasSubtitles(eps, guid)
  }

  /** The queue after `AddTask`: unchanged when refused, otherwise the task at the tail. */
  function Enqueued(tasks: seq<Task>, eps: Episodes, task: Task): seq<Task> {
    if Refused(tasks, eps, task.guid) then tasks else tasks + [task]
  }

  /** Queued GUIDs stay pairwise distinct. */
  lemma EnqueuedDistinct(tasks: seq<Task>, eps: Episodes, task: Task)
    requires DistinctGuids(tasks)
    ensures DistinctGuids(Enqueued(tasks, eps, task))
  {
    if !Refused(tasks, eps, task.guid) {
      var r := tasks + [task];
      forall i, j | 0 <= i < j < |r| ensures r[i].guid != r[j].guid {
        if j == |tasks| {
          assert r[i] == tasks[i];
        }
      }
    }
  }

  /** After `AddTask` the GUID is queued exactly when it already was or its episode
      has no subtitles yet; the tasks queued before keep their places. */
  lemma EnqueuedQueued(tasks: seq<Task>, eps: Episodes, task: Task)
    ensures Queued(Enqueued(tasks, eps, task), task.guid) <==>
            Queued(tasks, task.guid) || !HasSubtitles(eps, task.guid)
    ensures Enqueued(tasks, eps, task)[..|tasks|] == tasks
  {
    var r := Enqueued(tasks, eps, task);
    if !Refused(tasks, eps, task.guid) {
      assert r[|tasks|].guid == task.guid;
    }
    if Queued(r, task.guid) && !Queued(tasks, task.guid) {
      var i :| 0 <= i < |r| && r[i].guid == task.guid;
      assert i == |tasks|;
    }
  }

  /** The queue, guarded by a mutex in the source; one call runs at a time here. */
  class TranscriptionQueue {
    var tasks: seq<Task>

    predicate Valid()
      reads this
    {
      DistinctGuids(tasks)
    }

    constructor ()
      ensures tasks == [] && Valid()
    {
      tasks := [];
    }

    /** `AddTask`: refuse a GUID already queued, then one whose episode has
        subtitles; otherwise mark the episode pending and append the task. */
    method AddTask(task: Task, db: Database)
      requires Valid()
      modifies this, db
      ensures Valid()
      ensures tasks == Enqueued(old(tasks), old(db.episodes), task)
      ensures db.episodes == if Refused(old(tasks), old(db.episodes), task.guid) then old(db.episodes)
                             else WithStatus(old(db.episodes), task.guid, Pending)
    {
      EnqueuedDistinct(tasks, db.episodes, task);
      var i := 0;
      while i < |tasks|
        invariant 0 <= i <= |tasks|
        invariant forall j :: 0 <= j < i ==> tasks[j].guid != task.guid
      {
        if tasks[i].guid == task.guid {
          return;
        }
        i := i + 1;
      }
      var episode := db.First(task.guid);
      if episode.Some? && episode.value.srtContent != "" {
        return;
      }
      db.SetStatus(task.guid, Pending);
      tasks := tasks + [task];
    }

    /** `GetNextTask`: nothing on an empty queue, otherwise the head, removed. */
    method GetNextTask() returns (t: Option<Task>)
      requires Valid()
      modifies this
      ensures Valid()
      ensures old(tasks) == [] ==> t == None && tasks == []
      ensures old(tasks) != [] ==> t == Some(old(tasks)[0]) && tasks == old(tasks)[1..]
    {
      if |tasks| == 0 {
        return None;
      }
      var task := tasks[0];
      tasks := tasks[1..];
      return Some(task);
    }
  }

  /** Tasks come out in the order they were accepted: adding a task with another
      GUID than the head's leaves the head in front, and taking the head first then
      adding gives the same queue as adding then taking the head. */
  lemma QueueFifo(tasks: seq<Task>, eps: Episodes, task: Task)
    requires |tasks| > 0 && tasks[0].guid != task.guid
    ensures Enqueued(tasks, eps, task)[0] == tasks[0]
    ensures Enqueued(tasks, eps, task)[1..] == Enqueued(tasks[1..], eps, task)
  {
    var r := Enqueued(tasks, eps, task);
    if Queued(tasks[1..], task.guid) {
      var i :| 0 <= i < |tasks[1..]| && tasks[1..][i].guid == task.guid;
      assert tasks[i + 1].guid == task.guid;
    }
    if !Refused(tasks, eps, task.guid) {
      assert r[1..] == tasks[1..] + [task];
    }
  }

  // ---------------------------------------------------------------------------
  // The transcription worker
  // ---------------------------------------------------------------------------

  /** The rows after transcribing from `path`: failed on an error, otherwise the
      subtitles stored and the status completed. */
  function Transcribed(eps: Episodes, guid: string, path: string,
                       transcribe: string -> Result<string, string>): Episodes
  {
    match transcribe(path)
    case Err(_) => WithStatus(eps, guid, Failed)
    case Ok(srt) => WithSubtitles(eps, guid, srt)
  }

  /** The rows after one task of `transcriptionWorker`: processing first; then the
      audio is downloaded when the task has no local path or the file is gone (a
      failed download marks the episode failed), then it is transcribed. */
  function Processed(eps: Episodes, task: Task, fileExists: string -> bool,
                     download: (string, string) -> Result<string, string>,
                     transcribe: string -> Result<string, string>): Episodes
  {
    var eps1 := WithStatus(eps, task.guid, Processing);
    if task.localPath == "" || !fileExists(task.localPath) then
      match download(task.audioUrl, task.guid)
      case Err(_) => WithStatus(eps1, task.guid, Failed)
      case Ok(p) => Transcribed(WithLocalPath(eps1, task.guid, p), task.guid, p, transcribe)
    else Transcribed(eps1, task.guid, task.localPath, transcribe)
  }

  /** The transcription a task ends with: the download result feeds the
      transcription when a download was needed. */
  function Outcome(task: Task, fileExists: string -> bool,
                   download: (string, string) -> Result<string, string>,
                   transcribe: string -> Result<string, string>): Result<string, string>
  {
    if task.localPath == "" || !fileExists(task.localPath) then
      match download(task.audioUrl, task.guid)
      case Err(e) => Err(e)
      case Ok(p) => transcribe(p)
    else transcribe(task.localPath)
  }

  /** A processed task never stays pending or processing: its episode ends failed
      exactly when the download or the transcription failed, and completed with the
      transcribed subtitles otherwise. No other row changes. */
  lemma ProcessedSettles(eps: Episodes, task: Task, fileExists: string -> bool,
                         download: (string, string) -> Result<string, string>,
                         transcribe: string -> Result<string, string>)
    requires task.guid in eps
    ensures var r := Processed(eps, task, fileExists, download, transcribe);
            var o := Outcome(task, fileExists, download, transcribe);
            r.Keys == eps.Keys &&
            (o.Err? ==> r[task.guid].transcriptionStatus == Failed &&
                        r[task.guid].srtContent == eps[task.guid].srtContent) &&
            (o.Ok? ==> r[task.guid].transcriptionStatus == Completed &&
                       r[task.guid].srtContent == o.value)
  {
  }

  lemma ProcessedOthers(eps: Episodes, task: Task, fileExists: string -> bool,
                        download: (string, string) -> Result<string, string>,
                        transcribe: string -> Result<string, string>, g: string)
    requires g in eps && g != task.guid
    ensures Processed(eps, task, fileExists, download, transcribe)[g] == eps[g]
  {
  }

  /** One task of `transcriptionWorker`, updating the rows as it goes. */
  method ProcessTask(task: Task, db: Database, fileExists: string -> bool,
                     download: (string, string) -> Result<string, string>,
                     transcribe: string -> Result<string, string>)
    modifies db
    ensures db.episodes == Processed(old(db.episodes), task, fileExists, download, transcribe)
  {
    db.SetStatus(task.guid, Processing);
    var localPath := task.localPath;
    if localPath == "" || !fileExists(localPath) {
      var downloaded := download(task.audioUrl, task.guid);
      if downloaded.Err? {
        db.SetStatus(task.guid, Failed);
        return;
      }
      localPath := downloaded.value;
      db.SetLocalPath(task.guid, localPath);
    }
    var srt := transcribe(localPath);
    if srt.Err? {
      db.SetStatus(task.guid, Failed);
      return;
    }
    db.SetSubtitles(task.guid, srt.value);
  }

  /** One turn of the worker loop: take the next task, if any, and process it; an
      empty queue changes nothing (the worker then sleeps). */
  method WorkerTurn(queue: TranscriptionQueue, db: Database, fileExists: string -> bool,
                    download: (string, string) -> Result<string, string>,
                    transcribe: string -> Result<string, string>)
    returns (taken: Option<Task>)
    requires queue.Valid()
    modifies queue, db
    ensures queue.Valid()
    ensures old(queue.tasks) == [] ==> taken == None && queue.tasks == [] && db.episodes == old(db.episodes)
    ensures old(queue.tasks) != [] ==>
              taken == Some(old(queue.tasks)[0]) && queue.tasks == old(queue.tasks)[1..] &&
              db.episodes == Processed(old(db.episodes), taken.value, fileExists, download, transcribe)
  {
    taken := queue.GetNextTask();
    if taken.Some? {
      ProcessTask(taken.value, db, fileExists, download, transcribe);
    }
  }

  // ---------------------------------------------------------------------------
  // Cache file names
  // ---------------------------------------------------------------------------

  /** `filepath.Ext` on a slash-separated path: from the last `.` of the last
      element to the end, or empty when that element has no dot. */
  function Ext(path: string): (ext: string)
    ensures ext == [] || ext[0] == '.'
    ensures |ext| <= |path| && ext == path[|path| - |ext|..]
    ensures '/' !in ext
  {
    ExtBefore(path, |path|)
  }

  function ExtBefore(path: string, i: nat): (ext: string)
    requires i <= |path|
    ensures ext == [] || ext[0] == '.'
    ensures |ext| <= i && ext == path[i - |ext|..i]
    ensures '/' !in ext
    decreases i
  {
    if i == 0 || path[i - 1] == '/' then []
    else if path[i - 1] == '.' then path[i - 1..i]
    else
      var e := ExtBefore(path, i - 1);
      if e == [] then [] else
        assert path[i - 1 - |e|..i] == e + [path[i - 1]];
        path[i - 1 - |e|..i]
  }

  /** A path ending in `/stem.ext`, with no dot in `ext`, has extension `.ext`. */
  lemma {:induction false} ExtOf(dir: string, stem: string, ext: string)
    requires '/' !in ext && '.' !in ext
    ensures Ext(dir + "/" + stem + "." + ext) == "." + ext
  {
    var path := dir + "/" + stem + "." + ext;
    ExtBeforeTail(path, |path|, ext);
  }

  lemma {:induction false} ExtBeforeTail(path: string, i: nat, ext: string)
    requires |ext| < i <= |path| && path[i - |ext| - 1..i] == "." + ext
    requires '/' !in ext && '.' !in ext
    ensures ExtBefore(path, i) == "." + ext
    decreases |ext|
  {
    if |ext| > 0 {
      TailShorter(path, i, ext);
      ExtBeforeTail(path, i - 1, ext[..|ext| - 1]);
      ExtBeforeStep(path, i);
    } else {
      assert path[i - 1..i] == "." + ext;
    }
  }

  /** One character more that is neither `/` nor `.` extends a found extension. */
  lemma ExtBeforeStep(path: string, i: nat)
    requires 0 < i <= |path| && path[i - 1] != '/' && path[i - 1] != '.'
    requires ExtBefore(path, i - 1) != []
    ensures ExtBefore(path, i) == path[i - 1 - |ExtBefore(path, i - 1)|..i]
  {
  }

  lemma TailShorter(path: string, i: nat, ext: string)
    requires 0 < |ext| < i <= |path| && path[i - |ext| - 1..i] == "." + ext
    requires '/' !in ext && '.' !in ext
    ensures path[i - 1] != '/' && path[i - 1] != '.'
    ensures path[i - 1 - |ext|..i - 1] == "." + ext[..|ext| - 1]
  {
    assert path[i - 1] == path[i - |ext| - 1..i][|ext|] == ext[|ext| - 1];
    assert path[i - |ext| - 1..i - 1] == path[i - |ext| - 1..i][..|ext|];
    assert ("." + ext)[..|ext|] == "." + ext[..|ext| - 1];
  }

  const DefaultExt := ".mp3"

  /** The name `downloadAudio` gives the cached file: the GUID plus the URL path's
      extension (".mp3" when it has none), with `/`, `?` and `&` each replaced by `_`. */
  function CacheFileName(guid: string, urlPath: string): string {
    var ext := if Ext(urlPath) == "" then DefaultExt else Ext(urlPath);
    ReplaceAll(ReplaceAll(ReplaceAll(guid + ext, "/", "_"), "?", "_"), "&", "_")
  }

  /** The name has none of the three replaced characters and as many characters as
      the GUID and the extension together. */
  lemma CacheFileNameSafe(guid: string, urlPath: string)
    ensures var name := CacheFileName(guid, urlPath);
            '/' !in name && '?' !in name && '&' !in name
    ensures |CacheFileName(guid, urlPath)| ==
            |guid| + |if Ext(urlPath) == "" then DefaultExt else Ext(urlPath)|
  {
    var ext := if Ext(urlPath) == "" then DefaultExt else Ext(urlPath);
    var s1 := ReplaceAll(guid + ext, "/", "_");
    var s2 := ReplaceAll(s1, "?", "_");
    ReplaceAllRemovesChar(guid + ext, '/', '_');
    ReplaceAllRemovesChar(s1, '?', '_');
    ReplaceAllRemovesChar(s2, '&', '_');
    ReplaceAllKeepsAbsent(s1, '?', '_', '/');
    ReplaceAllKeepsAbsent(s2, '&', '_', '/');
    ReplaceAllKeepsAbsent(s2, '&', '_', '?');
  }

  /** A plain GUID keeps its name: the file is the GUID followed by the extension. */
  lemma CacheFileNamePlain(guid: string, dir: string, stem: string, ext: string)
    requires '/' !in guid && '?' !in guid && '&' !in guid
    requires ext != [] && '/' !in ext && '.' !in ext && '?' !in ext && '&' !in ext
    ensures CacheFileName(guid, dir + "/" + stem + "." + ext) == guid + "." + ext
  {
    ExtOf(dir, stem, ext);
    var s := guid + ("." + ext);
    assert guid + "." + ext == s;
    forall c | c in "/?&" ensures c !in s {
      assert c != '.';
    }
    CharAbsent(s, '/');
    CharAbsent(s, '?');
    CharAbsent(s, '&');
    ReplaceAllAbsent(s, "/", "_");
    ReplaceAllAbsent(s, "?", "_");
    ReplaceAllAbsent(s, "&", "_");
  }

  lemma CharAbsent(s: string, c: char)
    requires c !in s
    ensures forall i :: 0 <= i <= |s| ==> !StartsAt(s, i, [c])
  {
    forall i | 0 <= i <= |s| ensures !StartsAt(s, i, [c]) {
      if i + 1 <= |s| {
        assert s[i..i + 1][0] == s[i];
      }
    }
  }

  /** Replacing `c` by `d` adds no character other than `d`. */
  lemma {:induction false} ReplaceAllKeepsAbsent(s: string, c: char, d: char, e: char)
    requires e != d && e !in s
    ensures e !in ReplaceAll(s, [c], [d])
    decreases |s|
  {
    if |s| > 0 {
      ReplaceAllKeepsAbsent(s[1..], c, d, e);
    }
  }

  // ---------------------------------------------------------------------------
  // Cache eviction
  // ---------------------------------------------------------------------------

  /** What `os.ReadDir` reports for an entry; `info` is None when `Info()` fails. */
  datatype DirEntry = DirEntry(name: string, isDir: bool, info: Option<FileInfo>)

  /** A cached file: its name, size in bytes and modification time. */
  datatype FileInfo = FileInfo(name: string, size: int, time: int)

  /** The files the scan keeps: not directories, and with readable information. */
  function Collected(entries: seq<DirEntry>): (fs: seq<FileInfo>)
    ensures |fs| <= |entries|
  {
    if |entries| == 0 then []
    else
      var e := entries[|entries| - 1];
      Collected(entries[..|entries| - 1]) + (if e.isDir || e.info.None? then [] else [e.info.value])
  }

  function SumSizes(fs: seq<FileInfo>): int {
    if |fs| == 0 then 0 else SumSizes(fs[..|fs| - 1]) + fs[|fs| - 1].size
  }

  /** A file the scan keeps comes from a non-directory entry with information. */
  lemma {:induction false} CollectedFrom(entries: seq<DirEntry>, f: FileInfo)
    requires f in Collected(entries)
    ensures exists e :: e in entries && !e.isDir && e.info == Some(f)
  {
    var init := entries[..|entries| - 1];
    var e := entries[|entries| - 1];
    if f in Collected(init) {
      CollectedFrom(init, f);
      var e' :| e' in init && !e'.isDir && e'.info == Some(f);
      assert e' in entries;
    } else {
      assert e in entries;
    }
  }

  /** The scan keeps entry order: the files of two runs of entries are listed run by run. */
  lemma {:induction false} CollectedConcat(a: seq<DirEntry>, b: seq<DirEntry>)
    ensures Collected(a + b) == Collected(a) + Collected(b)
    decreases |b|
  {
    if |b| == 0 {
      assert a + b == a;
    } else {
      var init := b[..|b| - 1];
      assert (a + b)[..|a + b| - 1] == a + init;
      assert (a + b)[|a + b| - 1] == b[|b| - 1];
      CollectedConcat(a, init);
    }
  }

  /** Each kept entry's file sits after the files of the entries before it and before
      those of the entries after it. */
  lemma CollectedAt(entries: seq<DirEntry>, i: nat)
    requires i < |entries| && !entries[i].isDir && entries[i].info.Some?
    ensures Collected(entries) ==
      Collected(entries[..i]) + [entries[i].info.value] + Collected(entries[i + 1..])
  {
    assert entries == entries[..i + 1] + entries[i + 1..];
    CollectedConcat(entries[..i + 1], entries[i + 1..]);
    CollectedSnoc(entries, i);
  }

  /** Every non-directory entry whose information could be read is listed. */
  lemma CollectedComplete(entries: seq<DirEntry>, i: nat)
    requires i < |entries| && !entries[i].isDir && entries[i].info.Some?
    ensures entries[i].info.value in Collected(entries)
  {
    CollectedAt(entries, i);
    var before := Collected(entries[..i]);
    assert Collected(entries)[|before|] == entries[i].info.value;
  }

  /** The scan loop of `cleanupMediaCache`. */
  method CollectFiles(entries: seq<DirEntry>) returns (fileList: seq<FileInfo>, totalSize: int)
    ensures fileList == Collected(entries)
    ensures totalSize == SumSizes(fileList)
  {
    fileList := [];
    totalSize := 0;
    for n := 0 to |entries|
      invariant fileList == Collected(entries[..n])
      invariant totalSize == SumSizes(fileList)
    {
      CollectedSnoc(entries, n);
      var f := entries[n];
      if f.isDir || f.info.None? {
        continue;
      }
      SumSizesSnoc(fileList, f.info.value);
      totalSize := totalSize + f.info.value.size;
      fileList := fileList + [f.info.value];
    }
    assert entries[..|entries|] == entries;
  }

  lemma CollectedSnoc(entries: seq<DirEntry>, n: nat)
    requires n < |entries|
    ensures Collected(entries[..n + 1]) == Collected(entries[..n]) +
      (if entries[n].isDir || entries[n].info.None? then [] else [entries[n].info.value])
  {
    assert entries[..n + 1][..n] == entries[..n];
  }

  lemma SumSizesSnoc(fs: seq<FileInfo>, f: FileInfo)
    ensures SumSizes(fs + [f]) == SumSizes(fs) + f.size
  {
    assert (fs + [f])[..|fs|] == fs;
  }

  /** The key of `sort.Slice(fileList, older)`: the modification time. */
  function AgeOf(f: FileInfo): int {
    f.time
  }

  predicate OldestFirst(fs: seq<FileInfo>) {
    SortedBy(fs, AgeOf)
  }

  /** The eviction loop: while the total is over the limit, try to remove the next
      file; the total drops by its size only when the removal succeeds. The result
      is the files removed and the final total. */
  function Evict(fs: seq<FileInfo>, total: int, maxSize: int, removed: string -> bool): (r: (seq<FileInfo>, int))
    ensures |r.0| <= |fs|
    ensures forall k :: 0 <= k < |r.0| ==> r.0[k] in fs
  {
    if |fs| == 0 || total <= maxSize then ([], total)
    else
      var rest := if removed(fs[0].name) then Evict(fs[1..], total - fs[0].size, maxSize, removed)
                  else Evict(fs[1..], total, maxSize, removed);
      if removed(fs[0].name) then ([fs[0]] + rest.0, rest.1) else rest
  }

  /** The final total is the starting total less the sizes of the files removed. */
  lemma {:induction false} EvictAccounting(fs: seq<FileInfo>, total: int, maxSize: int, removed: string -> bool)
    ensures Evict(fs, total, maxSize, removed).1 == total - SumFront(Evict(fs, total, maxSize, removed).0)
  {
    if |fs| > 0 && total > maxSize {
      if removed(fs[0].name) {
        var rest := Evict(fs[1..], total - fs[0].size, maxSize, removed);
        EvictAccounting(fs[1..], total - fs[0].size, maxSize, removed);
        assert ([fs[0]] + rest.0)[1..] == rest.0;
      } else {
        EvictAccounting(fs[1..], total, maxSize, removed);
      }
    }
  }

  /** Sizes added from the front (the order eviction takes them in). */
  function SumFront(fs: seq<FileInfo>): int {
    if |fs| == 0 then 0 else fs[0].size + SumFront(fs[1..])
  }

  /** Nothing is removed once the total is within the limit: before each removal,
      the running total was still over it. */
  lemma {:induction false} EvictOnlyOverLimit(fs: seq<FileInfo>, total: int, maxSize: int, removed: string -> bool, k: nat)
    requires k < |Evict(fs, total, maxSize, removed).0|
    ensures total - SumFront(Evict(fs, total, maxSize, removed).0[..k]) > maxSize
  {
    var r := Evict(fs, total, maxSize, removed);
    if removed(fs[0].name) {
      var rest := Evict(fs[1..], total - fs[0].size, maxSize, removed);
      if k > 0 {
        EvictOnlyOverLimit(fs[1..], total - fs[0].size, maxSize, removed, k - 1);
        assert r.0[..k][1..] == rest.0[..k - 1];
      } else {
        assert r.0[..0] == [];
      }
    } else {
      EvictOnlyOverLimit(fs[1..], total, maxSize, removed, k);
    }
  }

  /** When every removal succeeds, the oldest files go first: what is removed is a
      prefix of the sorted list. */
  lemma {:induction false} EvictOldestPrefix(fs: seq<FileInfo>, total: int, maxSize: int, removed: string -> bool)
    requires forall k :: 0 <= k < |fs| ==> removed(fs[k].name)
    ensures Evict(fs, total, maxSize, removed).0 == fs[..|Evict(fs, total, maxSize, removed).0|]
  {
    if |fs| > 0 && total > maxSize {
      var rest := Evict(fs[1..], total - fs[0].size, maxSize, removed);
      EvictOldestPrefix(fs[1..], total - fs[0].size, maxSize, removed);
      PrefixCons(fs, |rest.0|);
    } else {
      assert fs[..0] == [];
    }
  }

  lemma PrefixCons(fs: seq<FileInfo>, n: nat)
    requires n < |fs|
    ensures [fs[0]] + fs[1..][..n] == fs[..n + 1]
  {
  }

  /** When every removal succeeds, the loop ends within the limit unless it removed
      every file. */
  lemma {:induction false} EvictReachesLimit(fs: seq<FileInfo>, total: int, maxSize: int, removed: string -> bool)
    requires forall k :: 0 <= k < |fs| ==> removed(fs[k].name)
    ensures Evict(fs, total, maxSize, removed).1 <= maxSize ||
            |Evict(fs, total, maxSize, removed).0| == |fs|
  {
    if |fs| > 0 && total > maxSize {
      EvictReachesLimit(fs[1..], total - fs[0].size, maxSize, removed);
    }
  }

  /** `cleanupMediaCache` on the directory listing: the files removed (oldest first)
      and the total size that remains. */
  function Cleanup(entries: seq<DirEntry>, maxSize: int, removed: string -> bool): (seq<FileInfo>, int) {
    var fs := Collected(entries);
    if SumSizes(fs) <= maxSize then ([], SumSizes(fs))
    else Evict(SortBy(fs, AgeOf), SumSizes(fs), maxSize, removed)
  }

  /** A cache within the limit is left alone. */
  lemma CleanupWithinLimit(entries: seq<DirEntry>, maxSize: int, removed: string -> bool)
    requires SumSizes(Collected(entries)) <= maxSize
    ensures Cleanup(entries, maxSize, removed).0 == []
  {
  }

  /** When every removal succeeds, cleanup deletes the oldest files: what it deletes is
      the front of an oldest-first ordering of exactly the collected files. */
  lemma CleanupRemovesOldest(entries: seq<DirEntry>, maxSize: int, removed: string -> bool)
    requires forall f :: f in Collected(entries) ==> removed(f.name)
    ensures var sorted := SortBy(Collected(entries), AgeOf);
            var gone := Cleanup(entries, maxSize, removed).0;
            OldestFirst(sorted) && multiset(sorted) == multiset(Collected(entries)) &&
            gone == sorted[..|gone|]
  {
    var fs := Collected(entries);
    var sorted := SortBy(fs, AgeOf);
    SortByProps(fs, AgeOf);
    if SumSizes(fs) > maxSize {
      forall k | 0 <= k < |sorted| ensures removed(sorted[k].name) {
        assert sorted[k] in multiset(sorted);
      }
      EvictOldestPrefix(sorted, SumSizes(fs), maxSize, removed);
    } else {
      assert sorted[..0] == [];
    }
  }

  /** `cleanupMediaCache`: scan, stop when within the limit, sort oldest first, then
      remove files until the total is within the limit. */
  method CleanupMediaCache(entries: seq<DirEntry>, maxSize: int, removed: string -> bool)
    returns (deleted: seq<FileInfo>, totalSize: int)
    ensures (deleted, totalSize) == Cleanup(entries, maxSize, removed)
  {
    var fileList;
    fileList, totalSize := CollectFiles(entries);
    deleted := [];
    if totalSize <= maxSize {
      return;
    }
    fileList := SortBy(fileList, AgeOf);
    ghost var start := totalSize;
    var i := 0;
    assert fileList[0..] == fileList;
    assert [] + Evict(fileList, start, maxSize, removed).0 == Evict(fileList, start, maxSize, removed).0;
    while i < |fileList| && totalSize > maxSize
      invariant i <= |fileList|
      invariant Evict(fileList, start, maxSize, removed) ==
                (deleted + Evict(fileList[i..], totalSize, maxSize, removed).0,
                 Evict(fileList[i..], totalSize, maxSize, removed).1)
    {
      EvictStep(fileList, i, totalSize, maxSize, removed, deleted);
      if removed(fileList[i].name) {
        totalSize := totalSize - fileList[i].size;
        deleted := deleted + [fileList[i]];
      }
      i := i + 1;
    }
    EvictDone(fileList, i, totalSize, maxSize, removed);
    assert deleted + [] == deleted;
  }

  lemma EvictStep(fs: seq<FileInfo>, i: nat, total: int, maxSize: int, removed: string -> bool,
                  deleted: seq<FileInfo>)
    requires i < |fs| && total > maxSize
    ensures var here := Evict(fs[i..], total, maxSize, removed);
            var next := if removed(fs[i].name) then Evict(fs[i + 1..], total - fs[i].size, maxSize, removed)
                        else Evict(fs[i + 1..], total, maxSize, removed);
            (deleted + here.0, here.1) ==
            ((if removed(fs[i].name) then deleted + [fs[i]] else deleted) + next.0, next.1)
  {
    assert fs[i..][1..] == fs[i + 1..];
    assert fs[i..][0] == fs[i];
    if removed(fs[i].name) {
      var next := Evict(fs[i + 1..], total - fs[i].size, maxSize, removed);
      assert deleted + ([fs[i]] + next.0) == (deleted + [fs[i]]) + next.0;
    }
  }

  lemma EvictDone(fs: seq<FileInfo>, i: nat, total: int, maxSize: int, removed: string -> bool)
    requires i == |fs| || (i <= |fs| && total <= maxSize)
    ensures Evict(fs[i..], total, maxSize, removed) == ([], total)
  {
  }

  // ---------------------------------------------------------------------------
  // Channel refresh
  // ---------------------------------------------------------------------------

  /** One hour as a `time.Duration` (nanoseconds). */
  const Hour := 3_600_000_000_000

  /** The refresh decision of `channelEpisodesHandler`: an explicit request, an
      empty table, or a channel not updated for more than an hour. */
  function NeedsRefresh(refresh: bool, count: nat, sinceUpdate: int): bool {
    var needsRefresh := refresh || count == 0;
    if !needsRefresh then sinceUpdate > Hour else needsRefresh
  }

  lemma NeedsRefreshIff(refresh: bool, count: nat, sinceUpdate: int)
    ensures NeedsRefresh(refresh, count, sinceUpdate) <==> refresh || count == 0 || sinceUpdate > Hour
  {
  }

  const MaxItems := 50

  /** The feed items saved: all of them on the first import, at most the first 50
      once the channel has episodes. */
  function ItemsToProcess<T>(items: seq<T>, count: nat): (r: seq<T>)
    ensures count > 0 ==> |r| <= MaxItems
    ensures |r| <= |items| && r == items[..|r|]
    ensures count == 0 || |items| <= MaxItems ==> r == items
    ensures count > 0 && |items| > MaxItems ==> r == items[..MaxItems]
  {
    if count > 0 && |items| > MaxItems then items[..MaxItems] else items
  }

  /** `/api/channels/{id}/episodes`: the fourth `/`-separated part of the path, or
      an error when there are fewer than four. */
  function ChannelIdOf(path: string): (r: Option<string>)
    ensures r.Some? ==> '/' !in r.value
  {
    var parts := SplitOn(path, '/');
    if |parts| < 4 then None else Some(parts[3])
  }

  /** The episodes route gives back the channel id it was built with. */
  lemma ChannelIdRoundTrip(id: string)
    requires '/' !in id
    ensures ChannelIdOf("/api/channels/" + id + "/episodes") == Some(id)
  {
    assert "/api/channels/" + id + "/episodes" == "" + "/" + "api" + "/" + "channels" + "/" + id + "/" + "episodes";
    FourthPart("", "api", "channels", id, "episodes");
  }

  /** In `a/b/c/id/rest` with no slash in the first four, the fourth part is `id`. */
  lemma FourthPart(a: string, b: string, c: string, id: string, rest: string)
    requires '/' !in a && '/' !in b && '/' !in c && '/' !in id
    ensures ChannelIdOf(a + "/" + b + "/" + c + "/" + id + "/" + rest) == Some(id)
  {
    var t3 := id + "/" + rest;
    var t2 := c + "/" + t3;
    var t1 := b + "/" + t2;
    var t0 := a + "/" + t1;
    assert a + "/" + b + "/" + c + "/" + id + "/" + rest == t0;
    SplitOnCons(id, rest, '/');
    SplitOnShift(c, t3, 0, id);
    SplitOnShift(b, t2, 1, id);
    SplitOnShift(a, t1, 2, id);
  }

  /** A slash-free segment in front moves every part of the rest one place on. */
  lemma SplitOnShift(x: string, y: string, k: nat, part: string)
    requires '/' !in x && k < |SplitOn(y, '/')| && SplitOn(y, '/')[k] == part
    ensures k + 1 < |SplitOn(x + "/" + y, '/')| && SplitOn(x + "/" + y, '/')[k + 1] == part
  {
    SplitOnCons(x, y, '/');
  }

  // ---------------------------------------------------------------------------
  // Summary request configuration
  // ---------------------------------------------------------------------------

  /** `os.Getenv`: the empty string when the variable is unset. */
  function Getenv(env: map<string, string>, name: string): string {
    if name in env then env[name] else ""
  }

  const DefaultBase := "https://api.openai.com/v1"
  const DefaultModel := "gpt-3.5-turbo"
  const MaxSummaryBytes := 8000

  /** What a summary call sends: the key, the endpoint, the model and the (truncated)
      transcript bytes. */
  datatype SummaryRequest = SummaryRequest(apiKey: string, endpoint: string, model: string,
                                           text: seq<bv8>)

  /** `strings.TrimSuffix(s, "/")`: one trailing slash removed. */
  function TrimSlash(s: string): (r: string)
    ensures s == [] || s[|s| - 1] != '/' ==> r == s
    ensures s != [] && s[|s| - 1] == '/' ==> r + "/" == s
  {
    if |s| > 0 && s[|s| - 1] == '/' then s[..|s| - 1] else s
  }

  /** The configuration steps of `callLLMForSummary`: key, base and model from the
      custom value, else the environment, else (base and model only) a default; an
      error when no key is found; at most 8000 bytes of content. */
  function BuildSummaryRequest(content: seq<bv8>, customKey: string, customBase: string,
                               customModel: string, env: map<string, string>)
    : Result<SummaryRequest, string>
  {
    var apiKey := if customKey == "" then Getenv(env, "OPENAI_API_KEY") else customKey;
    var apiBase0 := if customBase == "" then Getenv(env, "OPENAI_API_BASE") else customBase;
    var apiBase := if apiBase0 == "" then DefaultBase else apiBase0;
    var model0 := if customModel == "" then Getenv(env, "OPENAI_MODEL") else customModel;
    var model := if model0 == "" then DefaultModel else model0;
    if apiKey == "" then Err("OPENAI_API_KEY not set")
    else
      var text := if |content| > MaxSummaryBytes then content[..MaxSummaryBytes] else content;
      Ok(SummaryRequest(apiKey, TrimSlash(apiBase) + "/chat/completions", model, text))
  }

  /** The first non-empty string of a list of fallbacks, or empty when all are. */
  function FirstNonEmpty(xs: seq<string>): (r: string)
    ensures r == "" <==> forall k :: 0 <= k < |xs| ==> xs[k] == ""
    ensures r != "" ==> exists k :: 0 <= k < |xs| && xs[k] == r && forall j :: 0 <= j < k ==> xs[j] == ""
  {
    if |xs| == 0 then ""
    else if xs[0] != "" then xs[0]
    else
      var r := FirstNonEmpty(xs[1..]);
      assert forall k :: 1 <= k < |xs| ==> xs[k] == xs[1..][k - 1];
      r
  }

  /** The request fails exactly when neither the custom key nor the environment
      gives one; otherwise each setting is the first non-empty of its fallbacks. */
  lemma SummaryRequestFallbacks(content: seq<bv8>, customKey: string, customBase: string,
                                customModel: string, env: map<string, string>)
    ensures var r := BuildSummaryRequest(content, customKey, customBase, customModel, env);
            var key := FirstNonEmpty([customKey, Getenv(env, "OPENAI_API_KEY")]);
            (r.Err? <==> key == "") &&
            (r.Ok? ==> r.value.apiKey == key &&
                       r.value.model == FirstNonEmpty([customModel, Getenv(env, "OPENAI_MODEL"), DefaultModel]) &&
                       r.value.endpoint == TrimSlash(FirstNonEmpty([customBase, Getenv(env, "OPENAI_API_BASE"), DefaultBase])) + "/chat/completions")
  {
    FirstNonEmptyTwo(customKey, Getenv(env, "OPENAI_API_KEY"));
    FirstNonEmptyThree(customModel, Getenv(env, "OPENAI_MODEL"), DefaultModel);
    FirstNonEmptyThree(customBase, Getenv(env, "OPENAI_API_BASE"), DefaultBase);
  }

  lemma FirstNonEmptyTwo(x: string, y: string)
    ensures FirstNonEmpty([x, y]) == if x != "" then x else y
  {
    assert [x, y][1..] == [y];
    assert [y][1..] == [];
  }

  lemma FirstNonEmptyThree(x: string, y: string, z: string)
    ensures FirstNonEmpty([x, y, z]) == if x != "" then x else if y != "" then y else z
  {
    assert [x, y, z][1..] == [y, z];
    FirstNonEmptyTwo(y, z);
  }

  /** The transcript sent is a prefix of the content, at most 8000 bytes, and all of
      it when it fits. */
  lemma SummaryTextBound(content: seq<bv8>, customKey: string, customBase: string,
                         customModel: string, env: map<string, string>)
    requires BuildSummaryRequest(content, customKey, customBase, customModel, env).Ok?
    ensures var t := BuildSummaryRequest(content, customKey, customBase, customModel, env).value.text;
            |t| <= MaxSummaryBytes && t == content[..|t|] &&
            (|content| <= MaxSummaryBytes ==> t == content)
  {
  }

  /** A base given with or without one trailing slash yields the same endpoint. */
  lemma EndpointIgnoresTrailingSlash(base: string)
    requires base == [] || base[|base| - 1] != '/'
    ensures TrimSlash(base + "/") == TrimSlash(base)
  {
    assert (base + "/")[..|base|] == base;
  }
}
