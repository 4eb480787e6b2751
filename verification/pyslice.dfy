/** Python's slicing of a sequence with step 1, `a[start:stop]`. */
module PySlice {

  /** Python's normalisation of one slice bound against a length `n`: a
      negative bound counts from the end, and the result is clamped to [0, n]. */
  function Bound(i: int, n: nat): (k: nat)
    ensures k <= n
    ensures 0 <= i <= n ==> k == i
    ensures i < 0 && 0 <= n + i ==> k == n + i
    ensures i > n ==> k == n
    ensures n + i < 0 ==> k == 0
  {
    if i < 0 then (if n + i < 0 then 0 else n + i)
    else if i > n then n
    else i
  }

  /** `a[start:stop]`: the elements from the normalised start up to the
      normalised stop, or nothing when the stop is not past the start. */
  function Slice<T>(a: seq<T>, start: int, stop: int): (r: seq<T>)
    ensures |r| == if Bound(start, |a|) < Bound(stop, |a|)
                   then Bound(stop, |a|) - Bound(start, |a|) else 0
    ensures forall k :: 0 <= k < |r| ==> r[k] == a[Bound(start, |a|) + k]
  {
    var lo := Bound(start, |a|);
    var hi := Bound(stop, |a|);
    if lo < hi then a[lo..hi] else []
  }

  /** `a[p:-p]` for a non-negative `p`: drops `p` elements from each end.
      Because `-0 == 0`, `a[0:-0]` is `a[0:0]` and is always empty. */
  function StripBoth<T>(a: seq<T>, p: nat): (r: seq<T>)
    ensures p == 0 ==> r == []
    ensures 0 < p && 2 * p <= |a| ==> r == a[p..|a| - p]
    ensures 0 < p && 2 * p > |a| ==> r == []
    ensures |r| == if 0 < p && 2 * p <= |a| then |a| - 2 * p else 0
  {
    Slice(a, p, -(p as int))
  }

  /** Stripping `p` elements from each end of a sequence that was framed by
      two blocks of exactly `p` elements gives back what was framed. */
  lemma StripFramed<T>(pre: seq<T>, x: seq<T>, post: seq<T>)
    requires 0 < |pre| == |post|
    ensures StripBoth(pre + x + post, |pre|) == x
  {
    var a := pre + x + post;
    assert a[|pre|..|a| - |pre|] == x;
  }
}
