# Mbox Player: playlist and transport state machine

This project models the state kept by the `MboxPlayer` object of the Mbox
Player desktop media centre (`main.py`), without the Tk GUI and without the
playback libraries:

- the playlist `media_list`, an ordered list of file paths, and the rows of
  the Music listbox that show each path's basename;
- the transport state `current_index`, `is_playing` and `current_media`,
  plus the "Now Playing" label, the status bar, the progress value and the
  volume value that the handlers also write;
- the handlers `add_media`, `play_selected`, `play_media`, `play_audio`,
  `play_video`, `play_pause`, `stop_media`, `previous_track` and
  `next_track`, and `load_settings` / `save_settings` over an abstract
  key/value document;
- the backend choice: the extension `os.path.splitext(path)[1].lower()` is
  looked up among `.mp3 .wav .flac .m4a .ogg`. Every other path goes to the
  video stub, including a path with no extension.

Layout:

- `path_names.dfy` (module `PathNames`) models POSIX `os.path.basename`, `os.path.splitext` and ASCII `str.lower`.
- `media_kinds.dfy` (`MediaKinds`) holds the audio/video classification.
- `playlist.dfy` (`Playlist`) holds the de-duplicating append of `add_media` (`AppendNew`). It also holds an independent reference for it (`FirstNew`) and the listbox rows (`Basenames`).
- `track_index.dfy` (`TrackIndex`) holds the modular index steps of next and previous.
- `settings.dfy` (`Settings`) holds the settings document, its defaults and the saved keys.
- `handlers.dfy` (`Handlers`) writes every handler as a function from a `PlayerState` to a `Step`. A `Step` is the new state plus the backend call made. The file also holds the invariant `Consistent` and the properties of the handlers.
- `session.dfy` (`Player`) holds the class `Session`. Its fields are the fields of `MboxPlayer`, and its methods update them in place. Each method is proved to perform the transition that `Handlers` defines. The button handlers also keep `Valid()`.

The foreign calls are parameters. A `Backend` value says four things: whether pygame loads and starts the file, whether `import vlc` succeeds, what `get_busy()` answers, and what `time.time()` reads. The file dialog's result is a sequence of strings. The listbox's `curselection()` is a sequence of row indices. Reading the settings file gives `Missing`, `Unreadable` or `Parsed(doc)`.

Behaviour of `main.py` that the model keeps as written:

- `current_media` is never set to anything but `None`. So `play_pause` on a stopped or paused player always goes back through `play_media`. It reloads and restarts the track from the start and never unpauses (`Handlers.PlayPauseToggles`).
- `play_video` sets `is_playing` whether or not VLC imports. No video is rendered.
- `play_audio` leaves `is_playing` alone when pygame fails to load or start the file. `play_media` has already updated the label and the status bar by then.
- The status after `add_media` reports `len(files)`, the number of selected paths, not the number actually appended.
- `main.py` has no operation that clears the playlist, so the model has none.
- `play_media` resets an index past the end to 0. From any state the handlers reach, the index is already in range (`Handlers.Consistent`), so that reset never fires.

## Model

| member | source | states |
|---|---|---|
| PathNames.RFind | main.py:358 | the result is -1 or an index of the searched character, and no later index holds it (the `rfind` inside `basename`) |
| PathNames.Basename | main.py:358 | the basename is the suffix of the path after the last `/`, contains no `/`, and is the whole path or preceded by `/` |
| PathNames.SplitExt | main.py:364 | root and extension concatenate back to the path |
| PathNames.LowerChar | main.py:364 | `str.lower` on one character: an upper-case ASCII letter becomes the same letter in lower case, every other character is kept, and no upper-case letter comes out |
| PathNames.Lower | main.py:364 | `str.lower` on the extension keeps its length |
| PathNames.LowerSpec | main.py:364 | the lower-cased string has no upper-case letter, keeps every other character, and turns each upper-case letter into a lower-case one |
| PathNames.SplitExtShape | main.py:364 | an extension is empty or a dot followed by no dot and no `/`, it ends the basename, and a non-dot character of the basename precedes it |
| PathNames.SplitExtOfBasename | main.py:358-364 | the extension of a path equals the extension of its basename |
| PathNames.SplitExtJoin | main.py:364 | `root + "." + e` with `e` free of dots and separators, and a basename of `root` that has a non-dot character, splits into `root` and `"." + e` |
| PathNames.SplitExtLower | main.py:364 | lower-casing the path and taking the extension equals taking the extension and lower-casing it |
| MediaKinds.Classify | main.py:364-369 | a path goes to the audio backend only if it holds a dot and has at least five characters |
| MediaKinds.AudioExtensionShape | main.py:364-365 | a string that lower-cases to one of the five audio extensions is a dot followed by three or four characters |
| MediaKinds.ClassifyLower | main.py:364-369 | a path and its lower-cased form go to the same backend |
| MediaKinds.ClassifyCaseInsensitive | main.py:364-369 | two paths equal up to letter case go to the same backend |
| MediaKinds.ClassifyBasename | main.py:364-369 | only the final path component decides the backend |
| MediaKinds.NoDotIsVideo | main.py:364-369 | a path whose basename has no dot goes to the video backend |
| MediaKinds.DotFileIsVideo | main.py:364-369 | a hidden file such as `dir/.mp3` has no extension and goes to the video backend |
| MediaKinds.ClassifyJoin | main.py:364-369 | `root.e` goes to the audio backend iff the lower-cased `.e` is one of the five audio extensions |
| MediaKinds.ClassifyLiteral | main.py:358-369 | for a literal `root.e` whose basename starts with a non-dot character, the backend is audio iff the lower-cased `.e` is an audio extension |
| MediaKinds.AudioExample | main.py:364-367 | `/music/Song.FLAC` is audio |
| MediaKinds.VideoExample | main.py:364-369 | `/videos/Clip.MP4` is video |
| MediaKinds.BareNameExample | main.py:364-369 | `README` is video |
| MediaKinds.DotFileExample | main.py:364-369 | `/music/.ogg` is video |
| Playlist.AppendNew | main.py:333-335 | the playlist before `add_media` is a prefix of the playlist after it |
| Playlist.AppendNewAt | main.py:333-335 | one loop turn at position k appends `files[k]` exactly when it is not in the list yet |
| Playlist.AppendNewMembers | main.py:333-335 | after `add_media` the playlist holds exactly the old entries and the selected paths |
| Playlist.AppendNewIsFirstNew | main.py:333-335 | `add_media` keeps the old playlist and appends exactly the reference `FirstNew`: the selected paths not in the list, first occurrence only, in selection order |
| Playlist.FirstNewSpec | main.py:333-335 | the appended paths are exactly the selected paths missing from the list, each once |
| Playlist.AppendNewDistinct | main.py:333-335 | a playlist without repeats stays without repeats |
| Playlist.AppendNewPresent | main.py:333-334 | a selection of paths that are all present changes nothing |
| Playlist.AppendNewIdempotent | main.py:333-335 | adding the same selection twice has the effect of adding it once |
| Playlist.Basenames | main.py:336-337 | one listbox row per path |
| Playlist.BasenamesRows | main.py:336-337 | each row is the part of its path after the last `/`, and holds no `/` |
| Playlist.BasenamesPrefix | main.py:475-477 | one more turn of `load_settings`'s loop appends the basename of the next entry |
| Playlist.BasenamesFromSnoc | main.py:335-337 | appending a path appends one listbox row, its basename |
| TrackIndex.NextIndex | main.py:445 | the next index is in `[0, n)` |
| TrackIndex.PreviousIndex | main.py:439 | the previous index is in `[0, n)` |
| TrackIndex.StepsInside | main.py:439-445 | away from the ends, next adds one and previous subtracts one |
| TrackIndex.WrapsAtEnds | main.py:439-445 | previous from 0 gives n-1, and next from n-1 gives 0 |
| TrackIndex.NextPreviousInverse | main.py:439-445 | next and previous undo each other on every in-range index |
| Settings.Save | main.py:484-487 | the saved document has exactly the keys `media_list` and `volume`, with values of the expected types |
| Settings.SaveThenLoad | main.py:470-471 | loading a saved document gives back the playlist and the volume |
| Settings.Defaults | main.py:470-471 | a missing `media_list` loads as `[]` and a missing `volume` as 70 |
| Settings.UnknownKeysIgnored | main.py:470-471 | keys other than the two known ones do not affect loading |
| Handlers.Initial | main.py:35-39 | before the settings are loaded the player is empty, idle, consistent, shows "Ready" and holds volume 70 |
| Handlers.LoadSettings | main.py:464-479 | a parsed document replaces the playlist and the volume, and with an empty listbox the rows become the basenames of the playlist. A missing or unreadable file changes nothing, and nothing but those three values ever changes |
| Handlers.Startup | main.py:35-44 | after start-up the player is consistent, idle, at index 0, and holds what a parsed file lists. Without a parsed file it is the initial state |
| Handlers.SaveSettings | main.py:481-491 | the saved document loads back as the current playlist and volume |
| Handlers.AddMedia | main.py:319-340 | the old playlist is a prefix of the new one, which holds exactly the old and the selected paths. The status reports the selection size, and only the playlist, the rows and the status change |
| Handlers.UpdateProgress | main.py:453-462 | while playing and busy the progress moves into `[0, 100)`, otherwise nothing changes. Only the progress ever changes |
| Handlers.PlayAudio | main.py:371-380 | the mixer is asked to play the path, and `is_playing` becomes true only when it starts. A failed start changes nothing, and only `is_playing` and the progress ever change |
| Handlers.PlayVideo | main.py:382-406 | the VLC probe runs and `is_playing` becomes true either way. Only `is_playing` and the status change |
| Handlers.PlayMedia | main.py:349-369 | on a non-empty playlist the played index is in range and the label names that entry's basename. The playlist, the rows, `current_media` and the volume never change |
| Handlers.PlaySelected | main.py:342-347 | an empty selection does nothing. Otherwise the first selected row becomes the index and is named in the label, and the playlist, the rows and the volume stay |
| Handlers.PlayPause | main.py:408-425 | while playing, play_pause pauses the mixer and shows "Paused". The playlist, the rows and the volume never change |
| Handlers.StopMedia | main.py:427-434 | the mixer stops. `is_playing`, `current_media` and the progress are cleared and "Stopped" is shown. The playlist, the rows, the index and the volume stay |
| Handlers.PreviousTrack | main.py:436-440 | on a non-empty playlist the index moves to (i-1) mod n. The playlist, the rows and the volume stay |
| Handlers.NextTrack | main.py:442-446 | on a non-empty playlist the index moves to (i+1) mod n. The playlist, the rows and the volume stay |
| Handlers.ClockPercent | main.py:460 | the simulated progress `time.time() % 100` lies in `[0, 100)` |
| Handlers.PlayedIndex | main.py:354-355 | the played index is in range. It is the current index when that is in range, and 0 otherwise |
| Handlers.EmptyPlaylistNoOps | main.py:351-352 | on an empty playlist, play, play/pause, next and previous change nothing and call no backend (also lines 410-411, 438 and 444) |
| Handlers.PlayMediaPlaysInRange | main.py:349-369 | play_media plays the current entry, or entry 0 when the index is past the end. The call and backend follow the classification, the label shows the basename, and `is_playing` ends true unless an audio start fails. The playlist is unchanged |
| Handlers.AudioFailureKeepsPlayback | main.py:371-380 | when an audio file fails to load or start, `is_playing` and the progress keep their old values |
| Handlers.VideoAlwaysPlays | main.py:382-401 | a video path sets `is_playing` whether or not VLC imports. The status says which case happened |
| Handlers.TrackStepsWrap | main.py:436-446 | next_track moves to (i+1) mod n and previous_track to (i-1) mod n. Each plays that entry on the backend its classification selects and names it in the label |
| Handlers.NextThenPrevious | main.py:436-446 | next_track then previous_track returns to the original index |
| Handlers.PlayPauseToggles | main.py:408-425 | while playing, play_pause pauses. Otherwise it equals play_media, because `current_media` is always None, so it never unpauses (see also line 36) |
| Handlers.AddMediaAppendsNew | main.py:319-340 | add_media appends `FirstNew` to the playlist and its basenames to the listbox and reports the selection size. Nothing else in the state changes |
| Handlers.AddMediaTwice | main.py:333-337 | repeating a selection changes neither the playlist nor the listbox |
| Handlers.AddMediaConsistent | main.py:319-340 | add_media keeps `Consistent` |
| Handlers.PlayMediaConsistent | main.py:349-369 | play_media keeps `Consistent` |
| Handlers.PlaySelectedConsistent | main.py:342-347 | play_selected keeps `Consistent` when the selection is a listbox row |
| Handlers.PlayPauseConsistent | main.py:408-425 | play_pause keeps `Consistent` |
| Handlers.StopMediaConsistent | main.py:427-434 | stop_media keeps `Consistent` |
| Handlers.NextTrackConsistent | main.py:442-446 | next_track keeps `Consistent` |
| Handlers.PreviousTrackConsistent | main.py:436-440 | previous_track keeps `Consistent` |
| Handlers.SaveThenStartup | main.py:464-491 | starting from a saved document restores the playlist and the volume, with one listbox row per entry |
| Handlers.ScenarioAudio | main.py:364-367 | `a.mp3` is audio |
| Handlers.ScenarioVideo | main.py:364-369 | `b.mp4` is video |
| Handlers.NextTwiceScenario | main.py:442-446 | from `["a.mp3", "b.mp4"]` at index 0, next plays `b.mp4` on the video stub. The next call wraps to `a.mp3` on the mixer |
| Player.Session.constructor | main.py:18-44 | the new session is the start-up state loaded from the settings file, and it is valid |
| Player.Session.LoadSettings | main.py:464-479 | a parsed document replaces the playlist and the volume, and one basename row per entry is appended. A missing or unreadable file changes nothing |
| Player.Session.SaveSettings | main.py:481-491 | returns the document that save_settings writes |
| Player.Session.AddMedia | main.py:319-340 | performs `Handlers.AddMedia`, keeps `Valid`, and returns the saved document |
| Player.Session.AppendSelection | main.py:333-337 | the loop leaves the playlist equal to `AppendNew` of the old one, with the basenames of the appended paths added to the rows |
| Player.Session.PlayAudio | main.py:371-380 | performs `Handlers.PlayAudio` in place |
| Player.Session.PlayVideo | main.py:382-406 | performs `Handlers.PlayVideo` in place |
| Player.Session.PlayMedia | main.py:349-369 | performs `Handlers.PlayMedia` in place and returns its backend call |
| Player.Session.PlaySelected | main.py:342-347 | performs `Handlers.PlaySelected` and keeps `Valid` |
| Player.Session.PlayPause | main.py:408-425 | performs `Handlers.PlayPause`, unpause branch included, and keeps `Valid` |
| Player.Session.StopMedia | main.py:427-434 | performs `Handlers.StopMedia` and keeps `Valid` |
| Player.Session.PreviousTrack | main.py:436-440 | performs `Handlers.PreviousTrack` and keeps `Valid` |
| Player.Session.NextTrack | main.py:442-446 | performs `Handlers.NextTrack` and keeps `Valid` |

## Left out

- The Tk GUI is not modelled: window layout, colours, the category views (`select_category` and the `create_*_content` methods), `go_back` and the play button's label. The label always mirrors `is_playing`.
- Switching views destroys the Music listbox. Coming back creates an empty one and does not refill it. Adding media from another view writes to a destroyed widget. The model covers one Music view, created at start-up, for the whole session.
- The file dialog and the message boxes are not modelled. The dialog's result is the `files` argument, and dialogs have no effect on the state.
- pygame and the `vlc` probe are replaced by the `Backend` outcomes. The mixer's pause, unpause and stop calls are assumed not to raise.
- Handlers.UpdateProgress: only the first tick of `update_progress` is modelled. The ticks it reschedules every 100 ms with `root.after` are not modelled, and neither is the unused `get_pos()` reading. Floats are modelled as exact reals.
- Moving the volume slider is not modelled. The slider writes `volume_var` directly (main.py:157-165), and `save_settings` saves that value. In the model the volume changes only through `load_settings`. `set_volume`, which only forwards `value / 100` to pygame, is not modelled either.
- Reading and writing the JSON file is not modelled. `Session.SaveSettings` returns the document instead of writing it, and save errors, which are printed and swallowed, are not modelled.
- Player.Session.constructor: requires the two known keys to hold a list of strings and a number. The same restriction applies to `Session.LoadSettings`, `Handlers.LoadSettings` and `Handlers.Startup`. With another type under `media_list`, `main.py` stores the value unchecked, and that state cannot be expressed in the typed model.
- Player.Session.LoadSettings: a `volume` that Tk's scale variable refuses is not modelled. Such a value, for example a string, makes `volume_var.set` raise, and the `except` at main.py:478 catches it. By then `media_list` was already replaced (main.py:470) and the listbox was not filled, so the program is left with a partial load that breaks `Consistent`.
- Settings.SaveThenLoad: the volume round trip is stated for every number. In the program the volume sits in a Tk scale from 0 to 100, which pulls other numbers into that range and rounds to its resolution. So the round trip holds in the program only for values that the scale leaves unchanged. `Handlers.SaveSettings` and `Handlers.SaveThenStartup` carry the same simplification.
- Player.Session.PlaySelected: requires the selected index to be a row of the listbox, as Tk's `curselection()` guarantees.
- Player.Session.AppendSelection: builds the extended playlist in local variables and assigns it once at the end. Nothing else refers to the list, so the result is the same as appending in place.
- `Lower` lower-cases ASCII letters only. No other character lower-cases to a letter of the five audio extensions, so classification is unaffected.
- `basename` and `splitext` follow POSIX `posixpath`. The Windows `ntpath` rules (backslashes and drive letters) are not modelled.
- `current_category`, `run_mbox.py` (dependency probing and pip installation), `config.py` (unused constants) and `test_mbox.py` (a smoke test) are not modelled. The unused imports `cv2`, `PIL`, `mutagen` and `threading` are left out too.
