/** The player's global state container: one mutable record whose fields are
    overwritten by small setters. Times are integer milliseconds. */
module PlayerStore {
  import opened Wrappers
  import opened LrcParser

  /** Title information of what is playing. */
  datatype MusicInfo = MusicInfo(name: string, artist: string, guid: Option<string>,
                                 summary: Option<string>, srtContent: Option<string>)

  /** A snapshot of every field of the store. */
  datatype PlayerState = PlayerState(
    audioPath: Option<string>,
    musicInfo: MusicInfo,
    lyrics: seq<LyricLine>,
    isPlaying: bool,
    currentTime: int,
    duration: int,
    activeIndex: int,
    isTranscribing: bool,
    playbackRate: real)

  /** The state the store starts in. */
  function InitialState(): (s: PlayerState)
    ensures s.audioPath == None && s.lyrics == [] && !s.isPlaying && !s.isTranscribing
    ensures s.currentTime == 0 && s.duration == 0 && s.activeIndex == -1 && s.playbackRate == 1.0
  {
    PlayerState(None, MusicInfo("未选择歌曲", "未知艺术家", None, None, None), [], false, 0, 0, -1, false, 1.0)
  }

  class Store {
    var audioPath: Option<string>
    var musicInfo: MusicInfo
    var lyrics: seq<LyricLine>
    var isPlaying: bool
    var currentTime: int
    var duration: int
    var activeIndex: int
    var isTranscribing: bool
    var playbackRate: real

    function State(): PlayerState
      reads this
    {
      PlayerState(audioPath, musicInfo, lyrics, isPlaying, currentTime, duration, activeIndex,
                  isTranscribing, playbackRate)
    }

    constructor ()
      ensures State() == InitialState()
    {
      audioPath := None;
      musicInfo := MusicInfo("未选择歌曲", "未知艺术家", None, None, None);
      lyrics := [];
      isPlaying := false;
      currentTime := 0;
      duration := 0;
      activeIndex := -1;
      isTranscribing := false;
      playbackRate := 1.0;
    }

    /** Load a new track: it is not playing and starts at time 0; lyrics, active
        index and duration are left as they were. */
    method SetAudio(path: string, info: MusicInfo)
      modifies this
      ensures State() == old(State()).(audioPath := Some(path), musicInfo := info, isPlaying := false, currentTime := 0)
    {
      audioPath := Some(path);
      musicInfo := info;
      isPlaying := false;
      currentTime := 0;
    }

    /** Replace the lyrics only; the active index is not reset. */
    method SetLyrics(newLyrics: seq<LyricLine>)
      modifies this
      ensures State() == old(State()).(lyrics := newLyrics)
    {
      lyrics := newLyrics;
    }

    method SetPlaying(playing: bool)
      modifies this
      ensures State() == old(State()).(isPlaying := playing)
    {
      isPlaying := playing;
    }

    method SetCurrentTime(time: int)
      modifies this
      ensures State() == old(State()).(currentTime := time)
    {
      currentTime := time;
    }

    method SetDuration(d: int)
      modifies this
      ensures State() == old(State()).(duration := d)
    {
      duration := d;
    }

    method SetActiveIndex(index: int)
      modifies this
      ensures State() == old(State()).(activeIndex := index)
    {
      activeIndex := index;
    }

    method SetTranscribing(status: bool)
      modifies this
      ensures State() == old(State()).(isTranscribing := status)
    {
      isTranscribing := status;
    }

    method SetPlaybackRate(rate: real)
      modifies this
      ensures State() == old(State()).(playbackRate := rate)
    {
      playbackRate := rate;
    }
  }
}
