/**
 * The playlist (`media_list`) and its display names: add_media walks the
 * selection in order and appends each path the list does not hold yet.
 */
module Playlist {
  import opened PathNames

  predicate Distinct(s: seq<string>)
  {
    forall i, j :: 0 <= i < j < |s| ==> s[i] != s[j]
  }

  /** The loop of add_media: each selected path, in turn, is appended unless the list already holds it. */
  function AppendNew(list: seq<string>, files: seq<string>): (r: seq<string>)
    ensures list <= r
    decreases |files|
  {
    if files == [] then list
    else AppendNew(if files[0] in list then list else list + [files[0]], files[1..])
  }

  /**
   * Reference for what add_media appends: the selected paths that are not in
   * `list` and not selected earlier in the same selection, in selection order.
   */
  function FirstNew(list: seq<string>, files: seq<string>): seq<string>
    decreases |files|
  {
    if files == [] then []
    else
      var earlier := files[..|files| - 1];
      var f := files[|files| - 1];
      FirstNew(list, earlier) + (if f in list || f in earlier then [] else [f])
  }

  /** The listbox rows for a list of paths: one per path, in order (BasenamesRows). */
  function Basenames(paths: seq<string>): (r: seq<string>)
    ensures |r| == |paths|
  {
    seq(|paths|, i requires 0 <= i < |paths| => Basename(paths[i]))
  }

  /** Each row is a separator-free tail of its path. */
  lemma BasenamesRows(paths: seq<string>, i: nat)
    requires i < |paths|
    ensures var row := Basenames(paths)[i];
      Sep !in row && |row| <= |paths[i]| && row == paths[i][|paths[i]| - |row|..]
  {
  }

  lemma BasenamesAppend(a: seq<string>, b: seq<string>)
    ensures Basenames(a + b) == Basenames(a) + Basenames(b)
  {
  }

  /** One turn of add_media's loop, at position k of the selection. */
  lemma AppendNewAt(list: seq<string>, files: seq<string>, k: nat)
    requires k < |files|
    ensures AppendNew(list, files[k..]) ==
      AppendNew(if files[k] in list then list else list + [files[k]], files[k + 1..])
  {
    assert files[k..][0] == files[k];
    assert files[k..][1..] == files[k + 1..];
  }

  /** The listbox rows for a prefix one entry longer. */
  lemma BasenamesPrefix(list: seq<string>, k: nat)
    requires k < |list|
    ensures Basenames(list[..k + 1]) == Basenames(list[..k]) + [Basename(list[k])]
  {
    assert list[..k + 1] == list[..k] + [list[k]];
    BasenamesAppend(list[..k], [list[k]]);
  }

  /** The listbox rows for the entries from position `from` on, after one more entry is appended. */
  lemma BasenamesFromSnoc(list: seq<string>, from: nat, f: string)
    requires from <= |list|
    ensures Basenames((list + [f])[from..]) == Basenames(list[from..]) + [Basename(f)]
  {
    assert (list + [f])[from..] == list[from..] + [f];
    BasenamesAppend(list[from..], [f]);
  }

  /** Nothing but the list and the selection ends up in the result, and all of both do. */
  lemma {:induction false} AppendNewMembers(list: seq<string>, files: seq<string>)
    ensures forall x :: x in AppendNew(list, files) <==> x in list || x in files
    decreases |files|
  {
    if files != [] {
      var next := if files[0] in list then list else list + [files[0]];
      AppendNewMembers(next, files[1..]);
      assert files == [files[0]] + files[1..];
    }
  }

  /** Adding one more selected path at the end appends it exactly when it is not there yet. */
  lemma {:induction false} AppendNewSnoc(list: seq<string>, files: seq<string>, f: string)
    ensures AppendNew(list, files + [f]) ==
      var r := AppendNew(list, files); if f in r then r else r + [f]
    decreases |files|
  {
    if files == [] {
      assert [f][1..] == [];
    } else {
      var next := if files[0] in list then list else list + [files[0]];
      assert (files + [f])[0] == files[0];
      assert (files + [f])[1..] == files[1..] + [f];
      AppendNewSnoc(next, files[1..], f);
    }
  }

  /** add_media keeps the existing entries and appends exactly FirstNew. */
  lemma {:induction false} AppendNewIsFirstNew(list: seq<string>, files: seq<string>)
    ensures AppendNew(list, files) == list + FirstNew(list, files)
    decreases |files|
  {
    if files != [] {
      var earlier, f := files[..|files| - 1], files[|files| - 1];
      assert files == earlier + [f];
      AppendNewIsFirstNew(list, earlier);
      AppendNewSnoc(list, earlier, f);
      assert f in AppendNew(list, earlier) <==> f in list || f in earlier by {
        AppendNewMembers(list, earlier);
      }
    }
  }

  /** FirstNew holds each selected path missing from the list once, and nothing else. */
  lemma {:induction false} FirstNewSpec(list: seq<string>, files: seq<string>)
    ensures forall x :: x in FirstNew(list, files) <==> x in files && x !in list
    ensures Distinct(FirstNew(list, files))
    decreases |files|
  {
    if files != [] {
      var earlier, f := files[..|files| - 1], files[|files| - 1];
      assert files == earlier + [f];
      FirstNewSpec(list, earlier);
    }
  }

  /** A list without repeats stays without repeats. */
  lemma AppendNewDistinct(list: seq<string>, files: seq<string>)
    requires Distinct(list)
    ensures Distinct(AppendNew(list, files))
  {
    AppendNewIsFirstNew(list, files);
    FirstNewSpec(list, files);
    var r, n := AppendNew(list, files), FirstNew(list, files);
    forall i, j | 0 <= i < j < |r| ensures r[i] != r[j] {
      if j >= |list| {
        assert r[j] == n[j - |list|];
        if i >= |list| { assert r[i] == n[i - |list|]; }
        else { assert r[i] in list; }
      }
    }
  }

  /** Selecting only paths already in the list changes nothing. */
  lemma {:induction false} AppendNewPresent(list: seq<string>, files: seq<string>)
    requires forall x :: x in files ==> x in list
    ensures AppendNew(list, files) == list
    decreases |files|
  {
    if files != [] {
      AppendNewPresent(list, files[1..]);
    }
  }

  /** Adding the same selection twice has the effect of adding it once. */
  lemma AppendNewIdempotent(list: seq<string>, files: seq<string>)
    ensures AppendNew(AppendNew(list, files), files) == AppendNew(list, files)
  {
    AppendNewMembers(list, files);
    AppendNewPresent(AppendNew(list, files), files);
  }
}
