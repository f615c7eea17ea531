/** Python's slice `s[i:j]`: negative bounds count from the end, and bounds
    outside the sequence are clipped, so a slice never fails. */
module Slicing {

  /** Where bound `i` lands in a sequence of length `n`. */
  function Bound(i: int, n: nat): (b: nat)
    ensures b <= n
    ensures 0 <= i <= n ==> b == i
    ensures i > n ==> b == n
    ensures i < 0 ==> b == (if n + i < 0 then 0 else n + i)
  {
    if i < 0 then (if n + i < 0 then 0 else n + i)
    else if i > n then n
    else i
  }

  /** `s[i:j]` */
  function Slice<T>(s: seq<T>, i: int, j: int): (r: seq<T>)
    ensures Bound(i, |s|) <= Bound(j, |s|) ==> r == s[Bound(i, |s|)..Bound(j, |s|)]
    ensures Bound(j, |s|) < Bound(i, |s|) ==> r == []
  {
    var a, b := Bound(i, |s|), Bound(j, |s|);
    if a <= b then s[a..b] else []
  }

  /** `s[i:]` */
  function From<T>(s: seq<T>, i: int): seq<T> {
    Slice(s, i, |s|)
  }

  /** `s[:j]` */
  function Upto<T>(s: seq<T>, j: int): seq<T> {
    Slice(s, 0, j)
  }

  /** A slice within bounds is the plain subsequence. */
  lemma SliceInside<T>(s: seq<T>, i: int, j: int)
    requires 0 <= i <= j <= |s|
    ensures Slice(s, i, j) == s[i..j]
  {
  }

  /** A slice from 0 to at least the length is the whole sequence. */
  lemma SliceWhole<T>(s: seq<T>, n: int)
    requires |s| <= n
    ensures Slice(s, 0, n) == s
  {
    assert s[0..|s|] == s;
  }

  /** A negative bound in range names the same place as its non-negative
      counterpart `i + n`. */
  lemma NegativeBound(i: int, n: nat)
    requires 0 <= i + n && i < 0
    ensures Bound(i, n) == Bound(i + n, n)
  {
  }

  /** `s[-k:]` is the last `k` elements, for `0 < k <= |s|`. */
  lemma SliceFromEnd<T>(s: seq<T>, k: int)
    requires 0 < k <= |s|
    ensures From(s, -k) == s[|s| - k..]
    ensures |From(s, -k)| == k
  {
  }

  /** Adjacent slices join: `s[i:j] + s[j:k] == s[i:k]` for ordered
      non-negative bounds, clipped or not. */
  lemma SliceSplit<T>(s: seq<T>, i: int, j: int, k: int)
    requires 0 <= i <= j <= k
    ensures Slice(s, i, j) + Slice(s, j, k) == Slice(s, i, k)
  {
    var a, b, c := Bound(i, |s|), Bound(j, |s|), Bound(k, |s|);
    assert a <= b <= c;
    assert s[a..b] + s[b..c] == s[a..c];
  }

  /** `s[1:]` drops the first element, and `s[:-1]` the last. */
  lemma DropOne<T>(s: seq<T>)
    ensures |s| > 0 ==> From(s, 1) == s[1..] && Upto(s, -1) == s[..|s| - 1]
    ensures |s| == 0 ==> From(s, 1) == [] && Upto(s, -1) == []
  {
  }
}
