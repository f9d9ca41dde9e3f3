/**
 * The MboxPlayer object: its fields are updated in place by the event
 * handlers. Each method is proved to perform the transition the Handlers
 * module defines, and the button handlers keep Consistent.
 */
module Player {
  import opened Wrappers
  import opened PathNames
  import opened MediaKinds
  import opened Playlist
  import opened TrackIndex
  import opened Settings
  import opened Handlers

  class Session {
    var mediaList: seq<string>
    var names: seq<string>
    var currentIndex: nat
    var isPlaying: bool
    var currentMedia: Option<string>
    var nowPlaying: Option<string>
    var status: Status
    var progress: real
    var volume: real

    function State(): PlayerState
      reads this
    {
      PlayerState(mediaList, names, currentIndex, isPlaying, currentMedia, nowPlaying, status, progress, volume)
    }

    ghost predicate Valid()
      reads this
    {
      Consistent(State())
    }

    /** __init__: the GUI defaults, then load_settings. */
    constructor (file: SettingsFile)
      requires file.Parsed? ==> Typed(file.doc)
      ensures Valid()
      ensures State() == Startup(file)
    {
      mediaList, names, currentIndex := [], [], 0;
      isPlaying, currentMedia, nowPlaying := false, None, None;
      status, progress, volume := Ready, 0.0, DefaultVolume;
      new;
      LoadSettings(file);
    }

    method LoadSettings(file: SettingsFile)
      requires file.Parsed? ==> Typed(file.doc)
      modifies this
      ensures State() == Handlers.LoadSettings(old(State()), file)
    {
      if file.Parsed? {
        var list := LoadedMediaList(file.doc);
        var rows := names;
        var k := 0;
        while k < |list|
          modifies {}
          invariant k <= |list|
          invariant rows == names + Basenames(list[..k])
        {
          BasenamesPrefix(list, k);
          rows := rows + [Basename(list[k])];
          k := k + 1;
        }
        assert list[..k] == list;
        mediaList, volume, names := list, LoadedVolume(file.doc), rows;
      }
    }

    /** save_settings: the document it writes. */
    method SaveSettings() returns (doc: Document)
      ensures doc == Handlers.SaveSettings(State())
    {
      doc := Save(mediaList, volume);
    }

    /** add_media: append the new paths of the selection, save, report how many were selected. */
    method AddMedia(files: seq<string>) returns (saved: Document)
      requires Valid()
      modifies this
      ensures Valid()
      ensures State() == Handlers.AddMedia(old(State()), files)
      ensures saved == Handlers.SaveSettings(State())
    {
      AppendSelection(files);
      saved := SaveSettings();
      status := Added(|files|);
      AddMediaConsistent(old(State()), files);
    }

    /** The loop of add_media: each path not yet in the playlist is appended, and its basename to the listbox. */
    method AppendSelection(files: seq<string>)
      modifies this`mediaList, this`names
      ensures mediaList == AppendNew(old(mediaList), files)
      ensures names == old(names) + Basenames(mediaList[|old(mediaList)|..])
    {
      var list0, names0 := mediaList, names;
      var list, rows := list0, names0;
      var k := 0;
      while k < |files|
        invariant k <= |files|
        invariant list == AppendNew(list0, files[..k])
        invariant rows == names0 + Basenames(list[|list0|..])
      {
        var file := files[k];
        assert files[..k + 1] == files[..k] + [file];
        AppendNewSnoc(list0, files[..k], file);
        if file !in list {
          BasenamesFromSnoc(list, |list0|, file);
          list := list + [file];
          rows := rows + [Basename(file)];
        }
        k := k + 1;
      }
      assert files[..k] == files;
      mediaList, names := list, rows;
    }

    method PlayAudio(filePath: string, env: Backend) returns (call: Call)
      modifies this
      ensures Step(State(), call) == Handlers.PlayAudio(old(State()), filePath, env)
    {
      call := MixerPlay(filePath);
      if env.audioStarts {
        isPlaying := true;
        if isPlaying && env.mixerBusy {
          progress := ClockPercent(env.clock);
        }
      }
    }

    method PlayVideo(filePath: string, env: Backend) returns (call: Call)
      modifies this
      ensures Step(State(), call) == Handlers.PlayVideo(old(State()), filePath, env)
    {
      call := VideoPlaceholder(filePath);
      isPlaying := true;
      status := if env.vlcImports then VideoWithVlc else VideoNeedsVlc;
    }

    method PlayMedia(env: Backend) returns (call: Call)
      modifies this
      ensures Step(State(), call) == Handlers.PlayMedia(old(State()), env)
    {
      ghost var s0 := State();
      if mediaList == [] {
        return NoCall;
      }
      if currentIndex >= |mediaList| {
        currentIndex := 0;
      }
      assert currentIndex == PlayedIndex(s0.currentIndex, |s0.mediaList|);
      var filePath := mediaList[currentIndex];
      var filename := Basename(filePath);
      nowPlaying := Some(filename);
      status := NowPlaying(filename);
      ghost var s1 := State();
      assert s1 == s0.(currentIndex := currentIndex, nowPlaying := Some(filename), status := NowPlaying(filename));
      if Classify(filePath) == Audio {
        call := PlayAudio(filePath, env);
      } else {
        call := PlayVideo(filePath, env);
      }
    }

    /** play_selected; the listbox only reports indices of its own rows. */
    method PlaySelected(selection: seq<nat>, env: Backend) returns (call: Call)
      requires Valid()
      requires selection != [] ==> selection[0] < |names|
      modifies this
      ensures Valid()
      ensures Step(State(), call) == Handlers.PlaySelected(old(State()), selection, env)
    {
      ghost var s0 := State();
      PlaySelectedConsistent(s0, selection, env);
      if selection != [] {
        currentIndex := selection[0];
        ghost var moved := State();
        assert moved == s0.(currentIndex := selection[0]);
        call := PlayMedia(env);
        assert Step(State(), call) == Handlers.PlayMedia(moved, env);
      } else {
        call := NoCall;
      }
    }

    /** play_pause. Valid is not required here, so that the unpause branch, unreachable from valid states, is still checked. */
    method PlayPause(env: Backend) returns (call: Call)
      modifies this
      ensures old(Valid()) ==> Valid()
      ensures Step(State(), call) == Handlers.PlayPause(old(State()), env)
    {
      if Valid() {
        PlayPauseConsistent(State(), env);
      }
      if mediaList == [] {
        return NoCall;
      }
      if isPlaying {
        call := MixerPause;
        isPlaying := false;
        status := Paused;
      } else if currentMedia == None {
        call := PlayMedia(env);
      } else {
        call := MixerUnpause;
        isPlaying := true;
        status := Resumed;
      }
    }

    method StopMedia() returns (call: Call)
      requires Valid()
      modifies this
      ensures Valid()
      ensures Step(State(), call) == Handlers.StopMedia(old(State()))
    {
      call := MixerStop;
      isPlaying := false;
      currentMedia := None;
      progress := 0.0;
      status := Stopped;
    }

    method PreviousTrack(env: Backend) returns (call: Call)
      requires Valid()
      modifies this
      ensures Valid()
      ensures Step(State(), call) == Handlers.PreviousTrack(old(State()), env)
    {
      ghost var s0 := State();
      PreviousTrackConsistent(s0, env);
      if mediaList != [] {
        currentIndex := PreviousIndex(currentIndex, |mediaList|);
        ghost var moved := State();
        assert moved == s0.(currentIndex := PreviousIndex(s0.currentIndex, |s0.mediaList|));
        call := PlayMedia(env);
        assert Step(State(), call) == Handlers.PlayMedia(moved, env);
      } else {
        call := NoCall;
      }
    }

    method NextTrack(env: Backend) returns (call: Call)
      requires Valid()
      modifies this
      ensures Valid()
      ensures Step(State(), call) == Handlers.NextTrack(old(State()), env)
    {
      ghost var s0 := State();
      NextTrackConsistent(s0, env);
      if mediaList != [] {
        currentIndex := NextIndex(currentIndex, |mediaList|);
        ghost var moved := State();
        assert moved == s0.(currentIndex := NextIndex(s0.currentIndex, |s0.mediaList|));
        call := PlayMedia(env);
        assert Step(State(), call) == Handlers.PlayMedia(moved, env);
      } else {
        call := NoCall;
      }
    }
  }
}
