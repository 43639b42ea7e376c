/** Python's slice-bound normalisation, used wherever the source slices with computed bounds. */
module PySlice {
  /**
   * The position a slice bound `i` denotes in a sequence of length `len`:
   * negative bounds count from the end, and both ends are clamped.
   */
  function Bound(len: nat, i: int): (r: nat)
    ensures r <= len
    ensures 0 <= i ==> r == (if i <= len then i else len)
    ensures i < 0 ==> r == (if -i <= len then len + i else 0)
  {
    if i < 0 then (if len + i < 0 then 0 else len + i)
    else if i > len then len
    else i
  }

  /**
   * A negative bound and its non-negative counterpart denote the same
   * position, except that `-0` is `0`, the start, not the end.
   */
  lemma NegativeCountsFromEnd(len: nat, j: nat)
    requires j < len
    ensures Bound(len, j - len) == j
    ensures Bound(len, len - len) == 0
  {
  }

  /** `s[start:]`. */
  function From<T>(s: seq<T>, start: int): (r: seq<T>)
    ensures |r| <= |s| && r == s[|s| - |r|..]
    ensures 0 <= start <= |s| ==> |r| == |s| - start
    ensures start < 0 ==> |r| == (if -start <= |s| then -start else |s|)
  {
    s[Bound(|s|, start)..]
  }

  /** `s[start:stop]`; empty when the bounds cross. */
  function Slice<T>(s: seq<T>, start: int, stop: int): (r: seq<T>)
    ensures Bound(|s|, start) + |r| <= |s|
    ensures Bound(|s|, start) <= Bound(|s|, stop) ==> |r| == Bound(|s|, stop) - Bound(|s|, start)
    ensures forall k :: 0 <= k < |r| ==> r[k] == s[Bound(|s|, start) + k]
  {
    var a := Bound(|s|, start);
    var b := Bound(|s|, stop);
    if a <= b then s[a..b] else []
  }

  /** `s[-n:]` keeps the last `n` items for positive `n`, but everything for `n == 0`. */
  lemma LastItems<T>(s: seq<T>, n: int)
    ensures n > 0 ==> From(s, -n) == s[|s| - (if n <= |s| then n else |s|)..]
    ensures n == 0 ==> From(s, -n) == s
    ensures n < 0 ==> From(s, -n) == s[(if -n <= |s| then -n else |s|)..]
  {
  }
}
