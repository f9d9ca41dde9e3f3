/**
 * The settings file as an abstract key/value document: load_settings reads the
 * keys `media_list` and `volume` with defaults, save_settings writes both.
 */
module Settings {
  const MediaListKey: string := "media_list"
  const VolumeKey: string := "volume"
  const DefaultVolume: real := 70.0

  datatype Value = PathList(paths: seq<string>) | Number(number: real)

  type Document = map<string, Value>

  /** What reading the settings file yields: no file, a file that cannot be read or parsed, or a document. */
  datatype SettingsFile = Missing | Unreadable | Parsed(doc: Document)

  /** The two known keys hold values of the types the player writes. */
  predicate Typed(doc: Document)
  {
    (MediaListKey in doc ==> doc[MediaListKey].PathList?) &&
    (VolumeKey in doc ==> doc[VolumeKey].Number?)
  }

  function LoadedMediaList(doc: Document): seq<string>
    requires Typed(doc)
  {
    if MediaListKey in doc then doc[MediaListKey].paths else []
  }

  function LoadedVolume(doc: Document): real
    requires Typed(doc)
  {
    if VolumeKey in doc then doc[VolumeKey].number else DefaultVolume
  }

  function Save(mediaList: seq<string>, volume: real): (doc: Document)
    ensures doc.Keys == {MediaListKey, VolumeKey}
    ensures Typed(doc)
  {
    map[MediaListKey := PathList(mediaList), VolumeKey := Number(volume)]
  }

  /** Loading what was saved gives back the playlist and the volume. */
  lemma SaveThenLoad(mediaList: seq<string>, volume: real)
    ensures LoadedMediaList(Save(mediaList, volume)) == mediaList
    ensures LoadedVolume(Save(mediaList, volume)) == volume
  {
  }

  /** Missing keys fall back to an empty playlist and volume 70. */
  lemma Defaults(doc: Document)
    requires Typed(doc)
    ensures MediaListKey !in doc ==> LoadedMediaList(doc) == []
    ensures VolumeKey !in doc ==> LoadedVolume(doc) == 70.0
  {
  }

  /** Keys other than the two known ones are ignored. */
  lemma UnknownKeysIgnored(doc: Document, key: string, v: Value)
    requires Typed(doc) && key != MediaListKey && key != VolumeKey
    ensures Typed(doc[key := v])
    ensures LoadedMediaList(doc[key := v]) == LoadedMediaList(doc)
    ensures LoadedVolume(doc[key := v]) == LoadedVolume(doc)
  {
  }
}
