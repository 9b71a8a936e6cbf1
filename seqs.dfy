/**
  * Small facts about sequences, each stated once, so that the proofs that
  * use them do not re-derive them among many unrelated facts.
  */
module Seqs {

  /** Concatenation is associative. */
  lemma ConcatAssoc<T>(x: seq<T>, y: seq<T>, z: seq<T>)
    ensures x + (y + z) == (x + y) + z
  {
  }

  /** Cutting `a + b` inside `a` cuts `a`. */
  lemma AppendSlices<T>(a: seq<T>, b: seq<T>, n: nat)
    requires n <= |a|
    ensures (a + b)[..n] == a[..n] && (a + b)[n..] == a[n..] + b
  {
  }

  /** Appending `x` keeps every element of `xs` in place and puts `x` last. */
  lemma AppendIndex<T>(xs: seq<T>, x: T)
    ensures |xs + [x]| == |xs| + 1 && (xs + [x])[|xs|] == x
    ensures forall k :: 0 <= k < |xs| ==> (xs + [x])[k] == xs[k]
  {
  }

  /** Putting `h` in front shifts every element of `r` up by one. */
  lemma PrependShifts<T>(h: T, r: seq<T>)
    ensures |[h] + r| == |r| + 1 && ([h] + r)[0] == h
    ensures forall k :: 0 <= k < |r| ==> ([h] + r)[k + 1] == r[k]
  {
  }

  /** The first `i + 1` elements are the first `i` and then element `i`. */
  lemma TakeOneMore<T>(s: seq<T>, i: nat)
    requires i < |s|
    ensures s[..i + 1] == s[..i] + [s[i]]
  {
  }

  /** Taking all the elements gives the sequence back. */
  lemma TakeAll<T>(s: seq<T>)
    ensures s[..|s|] == s
  {
  }

  /** A sequence of one element is that element's display. */
  lemma OneElement<T>(r: seq<T>)
    requires |r| == 1
    ensures r == [r[0]]
  {
  }

  /** A sequence of two elements is the display of those two. */
  lemma TwoElements<T>(r: seq<T>)
    requires |r| == 2
    ensures r == [r[0], r[1]]
  {
  }

  /** Putting `h` in front of a two-element display gives a three-element display. */
  lemma ConsPair<T>(h: T, a: T, b: T)
    ensures [h] + [a, b] == [h, a, b]
  {
  }
}
