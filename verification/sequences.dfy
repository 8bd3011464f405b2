/** Order-preserving subsequences, used to say that a stage only deletes elements. */
module Sequences {

  /** `xs` can be obtained from `ys` by deleting elements, keeping the order of the rest. */
  ghost predicate IsSubsequence<T>(xs: seq<T>, ys: seq<T>)
    decreases |ys|
  {
    xs == []
    || (ys != []
        && ((xs[0] == ys[0] && IsSubsequence(xs[1..], ys[1..]))
            || IsSubsequence(xs, ys[1..])))
  }

  /** A subsequence is never longer than the sequence it is taken from. */
  lemma {:induction false} SubsequenceLength<T>(xs: seq<T>, ys: seq<T>)
    requires IsSubsequence(xs, ys)
    ensures |xs| <= |ys|
    decreases |ys|
  {
    if xs != [] {
      if xs[0] == ys[0] && IsSubsequence(xs[1..], ys[1..]) {
        SubsequenceLength(xs[1..], ys[1..]);
      } else {
        SubsequenceLength(xs, ys[1..]);
      }
    }
  }

  /** Every element of a subsequence occurs in the sequence it is taken from. */
  lemma {:induction false} SubsequenceMembers<T>(xs: seq<T>, ys: seq<T>, x: T)
    requires IsSubsequence(xs, ys)
    requires x in xs
    ensures x in ys
    decreases |ys|
  {
    if xs[0] == ys[0] && IsSubsequence(xs[1..], ys[1..]) {
      if x != xs[0] {
        SubsequenceMembers(xs[1..], ys[1..], x);
      }
    } else {
      SubsequenceMembers(xs, ys[1..], x);
    }
  }

  /** A prefix of a subsequence is again a subsequence. */
  lemma {:induction false} PrefixOfSubsequence<T>(xs: seq<T>, ys: seq<T>, n: nat)
    requires IsSubsequence(xs, ys)
    requires n <= |xs|
    ensures IsSubsequence(xs[..n], ys)
    decreases |ys|
  {
    if n > 0 {
      if xs[0] == ys[0] && IsSubsequence(xs[1..], ys[1..]) {
        PrefixOfSubsequence(xs[1..], ys[1..], n - 1);
        assert xs[..n][1..] == xs[1..][..n - 1];
      } else {
        PrefixOfSubsequence(xs, ys[1..], n);
      }
    }
  }

  /** `slice(from, to)` of JavaScript strings and arrays, for non-negative indices:
      both are clamped to the length, and the result is empty when `from` is not
      below `to`. */
  function Slice<T>(s: seq<T>, from: nat, to: nat): (r: seq<T>)
    ensures |r| == if from < to && from < |s| then (if to < |s| then to else |s|) - from else 0
    ensures forall k :: 0 <= k < |r| ==> r[k] == s[from + k]
  {
    var lo := if from < |s| then from else |s|;
    var hi := if to < |s| then to else |s|;
    if lo < hi then s[lo..hi] else []
  }

  /** Slices over adjacent ranges join into the slice over their union. */
  lemma SliceAdjacent<T>(s: seq<T>, a: nat, b: nat, c: nat)
    requires a <= b <= c
    ensures Slice(s, a, b) + Slice(s, b, c) == Slice(s, a, c)
  {
    var x, y, z := Slice(s, a, b), Slice(s, b, c), Slice(s, a, c);
    assert |x + y| == |z|;
    forall k | 0 <= k < |z| ensures (x + y)[k] == z[k] {
      if k >= |x| {
        assert (x + y)[k] == y[k - |x|] == s[b + (k - |x|)];
      }
    }
  }
}
