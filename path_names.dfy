/**
 * The parts of Python's `os.path` (POSIX flavour) that the player uses:
 * `basename`, `splitext` and `str.lower` on the extension.
 */
module PathNames {
  const Sep: char := '/'
  const ExtSep: char := '.'

  /** Python's `str.rfind` for one character: the last index of `c` in `s`, or -1. */
  function RFind(s: string, c: char): (r: int)
    ensures -1 <= r < |s|
    ensures r >= 0 ==> s[r] == c
    ensures forall k :: r < k < |s| ==> s[k] != c
  {
    LastBefore(s, c, |s|)
  }

  /** The last index below `n` that holds `c`, or -1. */
  function LastBefore(s: string, c: char, n: nat): (r: int)
    requires n <= |s|
    ensures -1 <= r < n
    ensures r >= 0 ==> s[r] == c
    ensures forall k :: r < k < n ==> s[k] != c
  {
    if n == 0 then -1
    else if s[n - 1] == c then n - 1
    else LastBefore(s, c, n - 1)
  }

  /** The three properties of RFind determine it. */
  lemma RFindUnique(s: string, c: char, r: int)
    requires -1 <= r < |s|
    requires r >= 0 ==> s[r] == c
    requires forall k :: r < k < |s| ==> s[k] != c
    ensures RFind(s, c) == r
  {
  }

  /** Searching a suffix `s[j..]` finds the same occurrence, shifted, when it lies in the suffix. */
  lemma RFindSuffix(s: string, j: nat, c: char)
    requires j <= |s|
    ensures RFind(s[j..], c) == if RFind(s, c) >= j then RFind(s, c) - j else -1
  {
    var a, b := RFind(s[j..], c), RFind(s, c);
    if a >= 0 { assert s[j + a] == s[j..][a]; }
    if b >= j { assert s[j..][b - j] == s[b]; }
  }

  /** `posixpath.basename`: everything after the last separator. */
  function Basename(p: string): (b: string)
    ensures |b| <= |p| && b == p[|p| - |b|..]
    ensures Sep !in b
    ensures |b| == |p| || p[|p| - |b| - 1] == Sep
  {
    p[RFind(p, Sep) + 1..]
  }

  /** Some character of `p[lo..hi]` is not a dot. */
  predicate HasNonDot(p: string, lo: int, hi: int)
    requires 0 <= lo && hi <= |p|
  {
    exists k :: lo <= k < hi && p[k] != ExtSep
  }

  /**
   * `posixpath.splitext`: the extension runs from the last dot to the end, provided
   * that dot comes after the last separator and is preceded, within the final
   * component, by some character other than a dot (leading dots do not start an
   * extension). Otherwise the extension is empty.
   */
  function SplitExt(p: string): (r: (string, string))
    ensures r.0 + r.1 == p
  {
    var sepIndex := RFind(p, Sep);
    var dotIndex := RFind(p, ExtSep);
    if dotIndex > sepIndex && HasNonDot(p, sepIndex + 1, dotIndex) then
      (p[..dotIndex], p[dotIndex..])
    else
      (p, "")
  }

  /** `str.lower` on ASCII letters. */
  function LowerChar(c: char): (r: char)
    ensures !('A' <= r <= 'Z')
    ensures 'A' <= c <= 'Z' ==> 'a' <= r <= 'z' && r as int - 'a' as int == c as int - 'A' as int
    ensures !('A' <= c <= 'Z') ==> r == c
  {
    if 'A' <= c <= 'Z' then (c as int - 'A' as int + 'a' as int) as char else c
  }

  /** `str.lower` on a string, character by character; LowerSpec states what it leaves. */
  function Lower(s: string): (r: string)
    ensures |r| == |s|
  {
    seq(|s|, i requires 0 <= i < |s| => LowerChar(s[i]))
  }

  /** No upper-case letter remains, upper-case letters become lower-case ones, every other character stays. */
  lemma LowerSpec(s: string)
    ensures forall i :: 0 <= i < |s| ==> !('A' <= Lower(s)[i] <= 'Z')
    ensures forall i :: 0 <= i < |s| && !('A' <= s[i] <= 'Z') ==> Lower(s)[i] == s[i]
    ensures forall i :: 0 <= i < |s| && 'A' <= s[i] <= 'Z' ==> 'a' <= Lower(s)[i] <= 'z'
  {
  }

  /** The extension, when present, is the tail of the path from its last dot, after the last separator. */
  lemma ExtensionTail(p: string)
    requires SplitExt(p).1 != []
    ensures var s, d := RFind(p, Sep), RFind(p, ExtSep);
      s < d && HasNonDot(p, s + 1, d) && SplitExt(p).1 == p[d..]
  {
  }

  /** The tail from the last occurrence of `c` holds `c` only at its start. */
  lemma TailFromLast(s: string, c: char, d: int)
    requires 0 <= d && d == RFind(s, c)
    ensures c !in s[d..][1..]
  {
    forall k | 0 <= k < |s| - d - 1 ensures s[d..][1..][k] != c {
      assert s[d..][1..][k] == s[d + 1 + k];
    }
  }

  /** A tail that starts after the last separator holds no separator. */
  lemma TailPastSep(s: string, d: int)
    requires RFind(s, Sep) < d <= |s|
    ensures Sep !in s[d..]
  {
    forall k | 0 <= k < |s| - d ensures s[d..][k] != Sep {
      assert s[d..][k] == s[d + k];
    }
  }

  /** An extension is empty, or a dot followed by no further dot and no separator, and it ends the basename after some non-dot character. */
  lemma SplitExtShape(p: string)
    ensures var e, b := SplitExt(p).1, Basename(p);
      e == [] ||
      (e[0] == ExtSep && ExtSep !in e[1..] && Sep !in e &&
       |e| < |b| && e == b[|b| - |e|..] && HasNonDot(b, 0, |b| - |e|))
  {
    var e := SplitExt(p).1;
    if e != [] {
      var s, d := RFind(p, Sep), RFind(p, ExtSep);
      ExtensionTail(p);
      TailFromLast(p, ExtSep, d);
      TailPastSep(p, d);
      var b := p[s + 1..];
      assert Basename(p) == b;
      assert e == b[d - s - 1..];
      HasNonDotSuffix(p, s + 1, 0, d - s - 1);
    }
  }

  /** Dropping a prefix of `j` characters shifts the window HasNonDot looks at. */
  lemma HasNonDotSuffix(p: string, j: nat, lo: nat, hi: int)
    requires lo <= hi && j + hi <= |p|
    ensures HasNonDot(p[j..], lo, hi) <==> HasNonDot(p, j + lo, j + hi)
  {
    if HasNonDot(p[j..], lo, hi) {
      var k :| lo <= k < hi && p[j..][k] != ExtSep;
      assert p[j + k] == p[j..][k];
    }
    if HasNonDot(p, j + lo, j + hi) {
      var k :| j + lo <= k < j + hi && p[k] != ExtSep;
      assert p[j..][k - j] == p[k];
    }
  }

  /** SplitExt's extension in terms of the last separator and the last dot. */
  lemma ExtensionBy(p: string, s: int, d: int)
    requires s == RFind(p, Sep) && d == RFind(p, ExtSep)
    ensures SplitExt(p).1 == if d > s && HasNonDot(p, s + 1, d) then p[d..] else []
  {
  }

  /** Searching the basename: no separator, and the path's last dot, shifted, if it lies in the basename. */
  lemma BasenameSearch(p: string)
    ensures var s, d := RFind(p, Sep), RFind(p, ExtSep);
      Basename(p) == p[s + 1..] &&
      RFind(Basename(p), Sep) == -1 &&
      RFind(Basename(p), ExtSep) == if d > s then d - s - 1 else -1
  {
    var s := RFind(p, Sep);
    RFindSuffix(p, s + 1, Sep);
    RFindSuffix(p, s + 1, ExtSep);
  }

  /** The extension of a path is the extension of its basename. */
  lemma SplitExtOfBasename(p: string)
    ensures SplitExt(Basename(p)).1 == SplitExt(p).1
  {
    var s, d := RFind(p, Sep), RFind(p, ExtSep);
    var b := Basename(p);
    BasenameSearch(p);
    ExtensionBy(p, s, d);
    ExtensionBy(b, -1, if d > s then d - s - 1 else -1);
    if d > s {
      HasNonDotSuffix(p, s + 1, 0, d - s - 1);
      assert b[d - s - 1..] == p[d..];
    }
  }

  /** In `root + "." + e`, with `e` free of dots, the last dot is the joining one. */
  lemma RFindJoinDot(root: string, e: string)
    requires ExtSep !in e
    ensures RFind(root + [ExtSep] + e, ExtSep) == |root|
  {
    var p := root + [ExtSep] + e;
    forall k | |root| < k < |p| ensures p[k] != ExtSep {
      assert p[k] == e[k - |root| - 1];
    }
    RFindUnique(p, ExtSep, |root|);
  }

  /** In `root + "." + e`, with `e` free of separators, the last separator is root's. */
  lemma RFindJoinSep(root: string, e: string)
    requires Sep !in e
    ensures RFind(root + [ExtSep] + e, Sep) == RFind(root, Sep)
  {
    var p := root + [ExtSep] + e;
    var t := RFind(root, Sep);
    forall k | |root| < k < |p| ensures p[k] != Sep {
      assert p[k] == e[k - |root| - 1];
    }
    forall k | t < k < |root| ensures p[k] != Sep {
      assert p[k] == root[k];
    }
    assert t >= 0 ==> p[t] == root[t];
    RFindUnique(p, Sep, t);
  }

  /** Joining a root whose basename has a non-dot character with `.` and a dot-free, separator-free `e` splits back into the two. */
  lemma SplitExtJoin(root: string, e: string)
    requires Sep !in e && ExtSep !in e
    requires HasNonDot(Basename(root), 0, |Basename(root)|)
    ensures SplitExt(root + [ExtSep] + e) == (root, [ExtSep] + e)
  {
    var p := root + [ExtSep] + e;
    var t := RFind(root, Sep);
    RFindJoinDot(root, e);
    RFindJoinSep(root, e);
    assert Basename(root) == root[t + 1..];
    HasNonDotSuffix(root, t + 1, 0, |root| - t - 1);
    assert p[..|root|] == root;
    HasNonDotPrefix(p, |root|, t + 1, |root|);
    assert HasNonDot(p, t + 1, |root|);
    assert p[|root|..] == [ExtSep] + e;
  }

  /** HasNonDot only looks inside its window. */
  lemma HasNonDotPrefix(p: string, j: nat, lo: nat, hi: int)
    requires lo <= hi <= j <= |p|
    ensures HasNonDot(p[..j], lo, hi) <==> HasNonDot(p, lo, hi)
  {
    if HasNonDot(p, lo, hi) {
      var k :| lo <= k < hi && p[k] != ExtSep;
      assert p[..j][k] == p[k];
    }
  }

  /** Lower-casing moves no dot and no separator. */
  lemma RFindLower(s: string, c: char)
    requires c == Sep || c == ExtSep
    ensures RFind(Lower(s), c) == RFind(s, c)
  {
    var r := RFind(s, c);
    assert r >= 0 ==> Lower(s)[r] == c;
    forall k | r < k < |s| ensures Lower(s)[k] != c {
      assert s[k] != c;
    }
    RFindUnique(Lower(s), c, r);
  }

  /** The extension of the lower-cased path is the lower-cased extension. */
  lemma SplitExtLower(p: string)
    ensures SplitExt(Lower(p)).1 == Lower(SplitExt(p).1)
  {
    RFindLower(p, Sep);
    RFindLower(p, ExtSep);
    var s, d := RFind(p, Sep), RFind(p, ExtSep);
    var q := Lower(p);
    if d > s {
      assert HasNonDot(q, s + 1, d) <==> HasNonDot(p, s + 1, d) by {
        if HasNonDot(q, s + 1, d) {
          var k :| s + 1 <= k < d && q[k] != ExtSep;
          assert p[k] != ExtSep;
        }
        if HasNonDot(p, s + 1, d) {
          var k :| s + 1 <= k < d && p[k] != ExtSep;
          assert q[k] != ExtSep;
        }
      }
      assert q[d..] == Lower(p[d..]);
    }
  }

  lemma LowerIdempotent(s: string)
    ensures Lower(Lower(s)) == Lower(s)
  {
  }
}
