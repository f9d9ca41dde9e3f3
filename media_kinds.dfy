/**
 * How play_media chooses a backend: the lower-cased extension of the path is
 * looked up among five audio extensions; every other path, extension-less ones
 * included, is treated as video.
 */
module MediaKinds {
  import opened PathNames

  datatype Kind = Audio | Video

  const AudioExtensions: seq<string> := [".mp3", ".wav", ".flac", ".m4a", ".ogg"]

  /**
   * The kind play_media gives a path. An audio path holds a dot, and has at
   * least five characters: some non-dot character, then the dot and three or
   * four more.
   */
  function Classify(path: string): (k: Kind)
    ensures k == Audio ==> ExtSep in path && 5 <= |path|
  {
    var e := SplitExt(path).1;
    if Lower(e) in AudioExtensions then
      AudioExtensionShape(e);
      SplitExtShape(path);
      assert path == SplitExt(path).0 + e;
      Audio
    else Video
  }

  /** Every audio extension is a dot and three or four letters; so is any string that lower-cases to one. */
  lemma AudioExtensionShape(e: string)
    requires Lower(e) in AudioExtensions
    ensures 4 <= |e| <= 5 && e[0] == ExtSep
  {
    var i :| 0 <= i < |AudioExtensions| && Lower(e) == AudioExtensions[i];
    assert AudioExtensions[i][0] == ExtSep;
    LowerSpec(e);
  }

  /** Classification ignores letter case. */
  lemma ClassifyLower(path: string)
    ensures Classify(Lower(path)) == Classify(path)
  {
    SplitExtLower(path);
    LowerIdempotent(SplitExt(path).1);
  }

  lemma ClassifyCaseInsensitive(p: string, q: string)
    requires Lower(p) == Lower(q)
    ensures Classify(p) == Classify(q)
  {
    ClassifyLower(p);
    ClassifyLower(q);
  }

  /** Only the final component decides the kind: directories named like audio files do not count. */
  lemma ClassifyBasename(path: string)
    ensures Classify(Basename(path)) == Classify(path)
  {
    SplitExtOfBasename(path);
  }

  /** A basename without a dot has no extension, so the path goes to the video backend. */
  lemma NoDotIsVideo(path: string)
    requires ExtSep !in Basename(path)
    ensures Classify(path) == Video
  {
    SplitExtShape(path);
  }

  /** A dot-file such as `dir/.mp3` has no extension either: a leading dot does not start one. */
  lemma DotFileIsVideo(dir: string, e: string)
    requires Sep !in e && ExtSep !in e
    ensures Classify(dir + [Sep, ExtSep] + e) == Video
  {
    var p := dir + [Sep, ExtSep] + e;
    forall k | |dir| + 1 < k < |p| ensures p[k] != ExtSep && p[k] != Sep {
      assert p[k] == e[k - |dir| - 2];
    }
    RFindUnique(p, ExtSep, |dir| + 1);
    RFindUnique(p, Sep, |dir|);
    assert SplitExt(p).1 == [];
  }

  /** For `root.e` with a proper extension, the kind is decided by the lower-cased `.e` alone. */
  lemma ClassifyJoin(root: string, e: string)
    requires Sep !in e && ExtSep !in e
    requires HasNonDot(Basename(root), 0, |Basename(root)|)
    ensures Classify(root + [ExtSep] + e) == Audio <==> Lower([ExtSep] + e) in AudioExtensions
  {
    SplitExtJoin(root, e);
  }

  /**
   * A literal `root.e` whose basename starts, after the separator at `t`,
   * with a non-dot: its kind is decided by the lower-cased `.e`.
   */
  lemma ClassifyLiteral(root: string, t: int, e: string)
    requires -1 <= t < |root| - 1 && (t >= 0 ==> root[t] == Sep) && root[t + 1] != ExtSep
    requires forall k :: t < k < |root| ==> root[k] != Sep
    requires Sep !in e && ExtSep !in e
    ensures Classify(root + [ExtSep] + e) == Audio <==> Lower([ExtSep] + e) in AudioExtensions
  {
    RFindUnique(root, Sep, t);
    assert Basename(root)[0] == root[t + 1];
    ClassifyJoin(root, e);
  }

  /** Concrete cases: upper-case audio extensions are audio; upper-case video extensions, extension-less names and hidden files are video. */
  lemma AudioExample()
    ensures Classify("/music/Song.FLAC") == Audio
  {
    ClassifyLiteral("/music/Song", 6, "FLAC");
    assert "/music/Song" + [ExtSep] + "FLAC" == "/music/Song.FLAC";
    assert Lower([ExtSep] + "FLAC") == AudioExtensions[2] by {
      assert [ExtSep] + "FLAC" == ".FLAC";
    }
  }

  lemma VideoExample()
    ensures Classify("/videos/Clip.MP4") == Video
  {
    ClassifyLiteral("/videos/Clip", 7, "MP4");
    assert "/videos/Clip" + [ExtSep] + "MP4" == "/videos/Clip.MP4";
    assert Lower([ExtSep] + "MP4") == ".mp4" by {
      assert [ExtSep] + "MP4" == ".MP4";
    }
  }

  lemma BareNameExample()
    ensures Classify("README") == Video
  {
    RFindUnique("README", Sep, -1);
    NoDotIsVideo("README");
  }

  lemma DotFileExample()
    ensures Classify("/music/.ogg") == Video
  {
    DotFileIsVideo("/music", "ogg");
    assert "/music" + [Sep, ExtSep] + "ogg" == "/music/.ogg";
  }
}
