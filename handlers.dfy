/**
 * The MboxPlayer event handlers as transitions of the player state. Each
 * handler that may reach a playback backend also reports the backend call it
 * makes; the outcomes of the foreign calls (pygame, the `vlc` import, the
 * clock) come in as a Backend value.
 */
module Handlers {
  import opened Wrappers
  import opened PathNames
  import opened MediaKinds
  import opened Playlist
  import opened TrackIndex
  import opened Settings

  /** The status-bar message. */
  datatype Status =
    | Ready                      // "Ready"
    | Added(selected: nat)       // "Added <n> media files", n counting every selected path
    | NowPlaying(name: string)   // "Playing: <basename>"
    | VideoWithVlc               // "Video playback with VLC (not fully implemented)"
    | VideoNeedsVlc              // "Video playback requires VLC media player to be installed"
    | Paused                     // "Paused"
    | Resumed                    // "Playing"
    | Stopped                    // "Stopped"

  /** The backend call a handler makes. */
  datatype Call =
    | NoCall
    | MixerPlay(path: string)          // pygame load + play
    | VideoPlaceholder(path: string)   // the VLC probe; no video is rendered
    | MixerPause
    | MixerUnpause
    | MixerStop

  /**
   * Outcomes of the foreign calls during one event: whether pygame loads and
   * starts the file, whether `import vlc` succeeds, what `get_busy()` answers
   * and what `time.time()` reads.
   */
  datatype Backend = Backend(audioStarts: bool, vlcImports: bool, mixerBusy: bool, clock: real)

  datatype PlayerState = PlayerState(
    mediaList: seq<string>,      // media_list
    names: seq<string>,          // the rows of the Music listbox
    currentIndex: nat,           // current_index
    isPlaying: bool,             // is_playing
    currentMedia: Option<string>,// current_media
    nowPlaying: Option<string>,  // the "Now Playing" label (None: "No music selected")
    status: Status,              // the status bar
    progress: real,              // progress_var
    volume: real)                // volume_var

  datatype Step = Step(state: PlayerState, call: Call)

  /** The state __init__ builds before loading the settings: an empty, consistent, idle player at the default volume. */
  function Initial(): (s: PlayerState)
    ensures Consistent(s) && s.mediaList == [] && !s.isPlaying && s.nowPlaying == None
    ensures s.status == Ready && s.volume == DefaultVolume
  {
    PlayerState([], [], 0, false, None, None, Ready, 0.0, DefaultVolume)
  }

  /**
   * load_settings: a parsed file replaces the playlist and the volume and
   * appends every basename to the listbox; a missing or unreadable file
   * changes nothing. Nothing else ever changes.
   */
  function LoadSettings(s: PlayerState, file: SettingsFile): (r: PlayerState)
    requires file.Parsed? ==> Typed(file.doc)
    ensures !file.Parsed? ==> r == s
    ensures file.Parsed? ==> r.mediaList == LoadedMediaList(file.doc) && r.volume == LoadedVolume(file.doc)
    ensures file.Parsed? && s.names == [] ==> r.names == Basenames(r.mediaList)
    ensures r.(mediaList := s.mediaList, names := s.names, volume := s.volume) == s
  {
    match file
    case Missing => s
    case Unreadable => s
    case Parsed(doc) =>
      var l := LoadedMediaList(doc);
      s.(mediaList := l, volume := LoadedVolume(doc), names := s.names + Basenames(l))
  }

  /** __init__: a consistent, idle player at index 0, holding what a parsed file lists, or empty otherwise. */
  function Startup(file: SettingsFile): (r: PlayerState)
    requires file.Parsed? ==> Typed(file.doc)
    ensures Consistent(r) && r.currentIndex == 0 && !r.isPlaying && r.status == Ready
    ensures file.Parsed? ==> r.mediaList == LoadedMediaList(file.doc) && r.volume == LoadedVolume(file.doc)
    ensures !file.Parsed? ==> r == Initial()
  {
    LoadSettings(Initial(), file)
  }

  /** save_settings: the document written to the settings file; loading it gives back the playlist and the volume. */
  function SaveSettings(s: PlayerState): (doc: Document)
    ensures Typed(doc) && LoadedMediaList(doc) == s.mediaList && LoadedVolume(doc) == s.volume
  {
    SaveThenLoad(s.mediaList, s.volume);
    Save(s.mediaList, s.volume)
  }

  /**
   * add_media for the paths the file dialog returned: the playlist grows at its
   * end, holding afterwards exactly its old paths and the selected ones; the
   * listbox and the status change with it, nothing else does.
   */
  function AddMedia(s: PlayerState, files: seq<string>): (r: PlayerState)
    ensures s.mediaList <= r.mediaList
    ensures forall x :: x in r.mediaList <==> x in s.mediaList || x in files
    ensures r.status == Added(|files|)
    ensures r.(mediaList := s.mediaList, names := s.names, status := s.status) == s
  {
    AppendNewMembers(s.mediaList, files);
    var l := AppendNew(s.mediaList, files);
    s.(mediaList := l, names := s.names + Basenames(l[|s.mediaList|..]), status := Added(|files|))
  }

  /** Python's `time.time() % 100`. */
  function ClockPercent(t: real): (p: real)
    ensures 0.0 <= p < 100.0
  {
    t - 100.0 * ((t / 100.0).Floor as real)
  }

  /**
   * The first tick of update_progress: while playing and busy the bar moves to
   * a percentage in [0, 100); otherwise nothing changes. Only the bar changes.
   * The ticks it reschedules are not modelled.
   */
  function UpdateProgress(s: PlayerState, env: Backend): (r: PlayerState)
    ensures r.(progress := s.progress) == s
    ensures s.isPlaying && env.mixerBusy ==> 0.0 <= r.progress < 100.0
    ensures !(s.isPlaying && env.mixerBusy) ==> r == s
  {
    if s.isPlaying && env.mixerBusy then s.(progress := ClockPercent(env.clock)) else s
  }

  /**
   * play_audio: the mixer is asked to play the path; only when it starts does
   * the player count as playing and the bar move. Nothing else changes.
   */
  function PlayAudio(s: PlayerState, path: string, env: Backend): (r: Step)
    ensures r.call == MixerPlay(path)
    ensures r.state.isPlaying == (env.audioStarts || s.isPlaying)
    ensures !env.audioStarts ==> r.state == s
    ensures r.state.(isPlaying := s.isPlaying, progress := s.progress) == s
  {
    if env.audioStarts then Step(UpdateProgress(s.(isPlaying := true), env), MixerPlay(path))
    else Step(s, MixerPlay(path))
  }

  /** play_video: the VLC probe runs and the player counts as playing either way; only the flag and the status change. */
  function PlayVideo(s: PlayerState, path: string, env: Backend): (r: Step)
    ensures r.call == VideoPlaceholder(path) && r.state.isPlaying
    ensures r.state.(isPlaying := s.isPlaying, status := s.status) == s
  {
    Step(s.(isPlaying := true, status := if env.vlcImports then VideoWithVlc else VideoNeedsVlc),
         VideoPlaceholder(path))
  }

  /** The index play_media plays: the current one, or 0 when it is past the end. */
  function PlayedIndex(i: nat, n: nat): (r: nat)
    requires n > 0
    ensures r < n
    ensures i < n ==> r == i
    ensures i >= n ==> r == 0
  {
    if i >= n then 0 else i
  }

  /**
   * play_media: on a non-empty playlist an entry in range is chosen and named
   * in the "Now Playing" label. The playlist, the listbox, the paused media and
   * the volume never change.
   */
  function PlayMedia(s: PlayerState, env: Backend): (r: Step)
    ensures s.mediaList != [] ==>
      r.state.currentIndex < |s.mediaList| && r.state.nowPlaying == Some(Basename(s.mediaList[r.state.currentIndex]))
    ensures r.state.mediaList == s.mediaList && r.state.names == s.names
    ensures r.state.currentMedia == s.currentMedia && r.state.volume == s.volume
  {
    if s.mediaList == [] then Step(s, NoCall)
    else
      var i := PlayedIndex(s.currentIndex, |s.mediaList|);
      var path := s.mediaList[i];
      var name := Basename(path);
      var s1 := s.(currentIndex := i, nowPlaying := Some(name), status := NowPlaying(name));
      if Classify(path) == Audio then PlayAudio(s1, path, env) else PlayVideo(s1, path, env)
  }

  /** play_selected, given the listbox's `curselection()`: the first selected row is played. */
  function PlaySelected(s: PlayerState, selection: seq<nat>, env: Backend): (r: Step)
    ensures selection == [] ==> r == Step(s, NoCall)
    ensures selection != [] && selection[0] < |s.mediaList| ==>
      r.state.currentIndex == selection[0] && r.state.nowPlaying == Some(Basename(s.mediaList[selection[0]]))
    ensures r.state.mediaList == s.mediaList && r.state.names == s.names && r.state.volume == s.volume
  {
    if selection == [] then Step(s, NoCall)
    else PlayMedia(s.(currentIndex := selection[0]), env)
  }

  /** play_pause: while playing it pauses the mixer; the playlist, the listbox and the volume never change. */
  function PlayPause(s: PlayerState, env: Backend): (r: Step)
    ensures s.mediaList != [] && s.isPlaying ==>
      r.call == MixerPause && !r.state.isPlaying && r.state.status == Paused
    ensures r.state.mediaList == s.mediaList && r.state.names == s.names && r.state.volume == s.volume
  {
    if s.mediaList == [] then Step(s, NoCall)
    else if s.isPlaying then Step(s.(isPlaying := false, status := Paused), MixerPause)
    else if s.currentMedia == None then PlayMedia(s, env)
    else Step(s.(isPlaying := true, status := Resumed), MixerUnpause)
  }

  /** stop_media: the mixer stops, playback, the paused media and the bar are cleared; the playlist and the index stay. */
  function StopMedia(s: PlayerState): (r: Step)
    ensures r.call == MixerStop && r.state.status == Stopped
    ensures !r.state.isPlaying && r.state.currentMedia == None && r.state.progress == 0.0
    ensures r.state.mediaList == s.mediaList && r.state.names == s.names
    ensures r.state.currentIndex == s.currentIndex && r.state.volume == s.volume
  {
    Step(s.(isPlaying := false, currentMedia := None, progress := 0.0, status := Stopped), MixerStop)
  }

  /** previous_track: one entry back, from the first to the last; the playlist, the listbox and the volume stay. */
  function PreviousTrack(s: PlayerState, env: Backend): (r: Step)
    ensures s.mediaList != [] ==> r.state.currentIndex == PreviousIndex(s.currentIndex, |s.mediaList|)
    ensures r.state.mediaList == s.mediaList && r.state.names == s.names && r.state.volume == s.volume
  {
    if s.mediaList == [] then Step(s, NoCall)
    else PlayMedia(s.(currentIndex := PreviousIndex(s.currentIndex, |s.mediaList|)), env)
  }

  /** next_track: one entry on, from the last to the first; the playlist, the listbox and the volume stay. */
  function NextTrack(s: PlayerState, env: Backend): (r: Step)
    ensures s.mediaList != [] ==> r.state.currentIndex == NextIndex(s.currentIndex, |s.mediaList|)
    ensures r.state.mediaList == s.mediaList && r.state.names == s.names && r.state.volume == s.volume
  {
    if s.mediaList == [] then Step(s, NoCall)
    else PlayMedia(s.(currentIndex := NextIndex(s.currentIndex, |s.mediaList|)), env)
  }

  /**
   * What holds in every state the handlers can reach: the listbox shows the
   * basename of every playlist entry, in order; nothing is ever paused
   * (current_media stays None); the index is 0 on an empty playlist and in
   * range otherwise.
   */
  predicate Consistent(s: PlayerState)
  {
    s.names == Basenames(s.mediaList) &&
    s.currentMedia == None &&
    (s.mediaList == [] ==> s.currentIndex == 0) &&
    (s.mediaList != [] ==> s.currentIndex < |s.mediaList|)
  }

  // ---------------------------------------------------------------------------
  // Properties of the handlers

  /** On an empty playlist play, play/pause, next and previous change nothing and call no backend. */
  lemma EmptyPlaylistNoOps(s: PlayerState, env: Backend)
    requires s.mediaList == []
    ensures PlayMedia(s, env) == Step(s, NoCall)
    ensures PlayPause(s, env) == Step(s, NoCall)
    ensures NextTrack(s, env) == Step(s, NoCall)
    ensures PreviousTrack(s, env) == Step(s, NoCall)
  {
  }

  /**
   * play_media plays the current entry, or the first when the index is past
   * the end; the backend follows the classification; is_playing becomes true
   * unless an audio file fails to start, when it keeps its old value.
   */
  lemma PlayMediaPlaysInRange(s: PlayerState, env: Backend)
    requires s.mediaList != []
    ensures var r := PlayMedia(s, env); var i := r.state.currentIndex; var p := s.mediaList[i];
      i < |s.mediaList| &&
      (s.currentIndex < |s.mediaList| ==> i == s.currentIndex) &&
      (s.currentIndex >= |s.mediaList| ==> i == 0) &&
      r.call == (if Classify(p) == Audio then MixerPlay(p) else VideoPlaceholder(p)) &&
      r.state.nowPlaying == Some(Basename(p)) &&
      r.state.isPlaying == (Classify(p) == Video || env.audioStarts || s.isPlaying) &&
      r.state.mediaList == s.mediaList && r.state.names == s.names &&
      r.state.currentMedia == s.currentMedia && r.state.volume == s.volume
  {
  }

  /** A failed audio start leaves the playback flag and the progress bar as they were. */
  lemma AudioFailureKeepsPlayback(s: PlayerState, env: Backend)
    requires s.mediaList != [] && !env.audioStarts
    requires Classify(s.mediaList[PlayedIndex(s.currentIndex, |s.mediaList|)]) == Audio
    ensures PlayMedia(s, env).state.isPlaying == s.isPlaying
    ensures PlayMedia(s, env).state.progress == s.progress
  {
  }

  /** A video file is reported as playing whether or not VLC imports. */
  lemma VideoAlwaysPlays(s: PlayerState, env: Backend)
    requires s.mediaList != []
    requires Classify(s.mediaList[PlayedIndex(s.currentIndex, |s.mediaList|)]) == Video
    ensures PlayMedia(s, env).state.isPlaying
    ensures PlayMedia(s, env).state.status == if env.vlcImports then VideoWithVlc else VideoNeedsVlc
  {
  }

  /**
   * next_track moves to (i + 1) mod n and previous_track to (i - 1) mod n, and
   * each plays that entry on the backend its kind selects and names it.
   */
  lemma TrackStepsWrap(s: PlayerState, env: Backend)
    requires s.mediaList != []
    ensures var n := |s.mediaList|; var p := s.mediaList[NextIndex(s.currentIndex, n)];
      var r := NextTrack(s, env);
      r.state.currentIndex == NextIndex(s.currentIndex, n) &&
      r.call == (if Classify(p) == Audio then MixerPlay(p) else VideoPlaceholder(p)) &&
      r.state.nowPlaying == Some(Basename(p))
    ensures var n := |s.mediaList|; var p := s.mediaList[PreviousIndex(s.currentIndex, n)];
      var r := PreviousTrack(s, env);
      r.state.currentIndex == PreviousIndex(s.currentIndex, n) &&
      r.call == (if Classify(p) == Audio then MixerPlay(p) else VideoPlaceholder(p)) &&
      r.state.nowPlaying == Some(Basename(p))
  {
  }

  /** next_track followed by previous_track returns to the track the player was on. */
  lemma NextThenPrevious(s: PlayerState, env1: Backend, env2: Backend)
    requires Consistent(s) && s.mediaList != []
    ensures PreviousTrack(NextTrack(s, env1).state, env2).state.currentIndex == s.currentIndex
  {
    var n := |s.mediaList|;
    TrackStepsWrap(s, env1);
    TrackStepsWrap(NextTrack(s, env1).state, env2);
    NextPreviousInverse(s.currentIndex, n);
  }

  /**
   * play_pause pauses while playing; otherwise, because current_media is
   * never set, it always restarts through play_media and never unpauses.
   */
  lemma PlayPauseToggles(s: PlayerState, env: Backend)
    requires Consistent(s) && s.mediaList != []
    ensures s.isPlaying ==> PlayPause(s, env) == Step(s.(isPlaying := false, status := Paused), MixerPause)
    ensures !s.isPlaying ==> PlayPause(s, env) == PlayMedia(s, env)
    ensures PlayPause(s, env).call != MixerUnpause
  {
  }

  /**
   * add_media keeps the playlist and appends, in selection order, each
   * selected path not yet present (repeats within the selection once); each
   * appended path gets one listbox row, its basename.
   */
  lemma AddMediaAppendsNew(s: PlayerState, files: seq<string>)
    ensures var added := FirstNew(s.mediaList, files);
      AddMedia(s, files) ==
        s.(mediaList := s.mediaList + added, names := s.names + Basenames(added), status := Added(|files|))
  {
    AppendNewIsFirstNew(s.mediaList, files);
    var l := AppendNew(s.mediaList, files);
    assert l[|s.mediaList|..] == FirstNew(s.mediaList, files);
  }

  /** Adding the same selection again leaves the playlist and the listbox as they are. */
  lemma AddMediaTwice(s: PlayerState, files: seq<string>)
    ensures AddMedia(AddMedia(s, files), files).mediaList == AddMedia(s, files).mediaList
    ensures AddMedia(AddMedia(s, files), files).names == AddMedia(s, files).names
  {
    AppendNewIdempotent(s.mediaList, files);
    var l := AddMedia(s, files).mediaList;
    assert l[|l|..] == [];
  }

  // ---------------------------------------------------------------------------
  // Consistent is established at startup and kept by every handler

  lemma AddMediaConsistent(s: PlayerState, files: seq<string>)
    requires Consistent(s)
    ensures Consistent(AddMedia(s, files))
  {
    var l := AppendNew(s.mediaList, files);
    assert l == s.mediaList + l[|s.mediaList|..];
    BasenamesAppend(s.mediaList, l[|s.mediaList|..]);
  }

  lemma PlayMediaConsistent(s: PlayerState, env: Backend)
    requires Consistent(s)
    ensures Consistent(PlayMedia(s, env).state)
  {
  }

  lemma PlaySelectedConsistent(s: PlayerState, selection: seq<nat>, env: Backend)
    requires Consistent(s)
    requires selection != [] ==> selection[0] < |s.names|
    ensures Consistent(PlaySelected(s, selection, env).state)
  {
  }

  lemma PlayPauseConsistent(s: PlayerState, env: Backend)
    requires Consistent(s)
    ensures Consistent(PlayPause(s, env).state)
  {
  }

  lemma StopMediaConsistent(s: PlayerState)
    requires Consistent(s)
    ensures Consistent(StopMedia(s).state)
  {
  }

  lemma NextTrackConsistent(s: PlayerState, env: Backend)
    requires Consistent(s)
    ensures Consistent(NextTrack(s, env).state)
  {
    if s.mediaList != [] {
      PlayMediaConsistent(s.(currentIndex := NextIndex(s.currentIndex, |s.mediaList|)), env);
    }
  }

  lemma PreviousTrackConsistent(s: PlayerState, env: Backend)
    requires Consistent(s)
    ensures Consistent(PreviousTrack(s, env).state)
  {
    if s.mediaList != [] {
      PlayMediaConsistent(s.(currentIndex := PreviousIndex(s.currentIndex, |s.mediaList|)), env);
    }
  }

  // ---------------------------------------------------------------------------
  // Scenarios

  /** A saved session is restored by the next startup. */
  lemma SaveThenStartup(s: PlayerState)
    ensures var r := Startup(Parsed(SaveSettings(s)));
      r.mediaList == s.mediaList && r.volume == s.volume &&
      r.names == Basenames(s.mediaList) && r.currentIndex == 0 && !r.isPlaying
  {
    SaveThenLoad(s.mediaList, s.volume);
  }

  /** Classification of the two files of the scenario below. */
  lemma ScenarioAudio()
    ensures Classify("a.mp3") == Audio
  {
    ClassifyLiteral("a", -1, "mp3");
    assert "a" + [ExtSep] + "mp3" == "a.mp3";
    assert Lower([ExtSep] + "mp3") == AudioExtensions[0] by {
      assert [ExtSep] + "mp3" == ".mp3";
    }
  }

  lemma ScenarioVideo()
    ensures Classify("b.mp4") == Video
  {
    ClassifyLiteral("b", -1, "mp4");
    assert "b" + [ExtSep] + "mp4" == "b.mp4";
    assert Lower([ExtSep] + "mp4") == ".mp4" by {
      assert [ExtSep] + "mp4" == ".mp4";
    }
  }

  /** ["a.mp3", "b.mp4"] at index 0: next plays b.mp4 as video, next again wraps to a.mp3 as audio. */
  lemma NextTwiceScenario(env1: Backend, env2: Backend)
    ensures var s := Initial().(mediaList := ["a.mp3", "b.mp4"], names := ["a.mp3", "b.mp4"]);
      var r1 := NextTrack(s, env1);
      var r2 := NextTrack(r1.state, env2);
      r1.state.currentIndex == 1 && r1.call == VideoPlaceholder("b.mp4") && r1.state.isPlaying &&
      r2.state.currentIndex == 0 && r2.call == MixerPlay("a.mp3")
  {
    ScenarioAudio();
    ScenarioVideo();
    var s := Initial().(mediaList := ["a.mp3", "b.mp4"], names := ["a.mp3", "b.mp4"]);
    PlayMediaPlaysInRange(s.(currentIndex := 1), env1);
    var r1 := NextTrack(s, env1);
    assert r1.state.currentIndex == 1 && r1.state.mediaList == s.mediaList;
    PlayMediaPlaysInRange(r1.state.(currentIndex := 0), env2);
  }
}
