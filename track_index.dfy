/**
 * The index arithmetic of next_track and previous_track. Python's `%` floors;
 * for a positive modulus that agrees with Dafny's Euclidean `%`.
 */
module TrackIndex {
  function NextIndex(i: int, n: nat): (r: nat)
    requires n > 0
    ensures r < n
  {
    (i + 1) % n
  }

  function PreviousIndex(i: int, n: nat): (r: nat)
    requires n > 0
    ensures r < n
  {
    (i - 1) % n
  }

  /** Inside the list the index moves by one. */
  lemma StepsInside(i: int, n: nat)
    requires n > 0
    ensures 0 <= i < n - 1 ==> NextIndex(i, n) == i + 1
    ensures 0 < i < n ==> PreviousIndex(i, n) == i - 1
  {
  }

  /** Previous from the first track wraps to the last; next from the last wraps to the first. */
  lemma WrapsAtEnds(n: nat)
    requires n > 0
    ensures PreviousIndex(0, n) == n - 1
    ensures NextIndex(n - 1, n) == 0
  {
  }

  /** Next and previous undo each other on every in-range index. */
  lemma NextPreviousInverse(i: int, n: nat)
    requires 0 <= i < n
    ensures PreviousIndex(NextIndex(i, n), n) == i
    ensures NextIndex(PreviousIndex(i, n), n) == i
  {
    StepsInside(i, n);
    WrapsAtEnds(n);
    if i < n - 1 { StepsInside(i + 1, n); }
    if i > 0 { StepsInside(i - 1, n); }
  }
}
