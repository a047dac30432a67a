/** Sequences: the last elements, regrouping, and subsequences. */
module Sequences {

  /** The last n elements, or all if there are fewer. */
  function LastN<T>(s: seq<T>, n: nat): seq<T> {
    if |s| <= n then s else s[|s| - n..]
  }

  /** A suffix of at most n elements, and all of them if it is shorter. */
  lemma LastNIs<T>(s: seq<T>, n: nat)
    ensures var r := LastN(s, n); |r| <= n && |r| <= |s| && s[|s| - |r|..] == r && (|r| < n ==> r == s)
  {}

  lemma Regroup<T>(x: seq<T>, y: seq<T>, z: seq<T>)
    ensures x + y + z == x + (y + z)
  {}

  /** `xs` with some elements of `ys` left out. */
  ghost predicate Subsequence<T(!new)>(xs: seq<T>, ys: seq<T>) {
    xs == [] || (ys != [] && (
      || (xs[|xs| - 1] == ys[|ys| - 1] && Subsequence(xs[..|xs| - 1], ys[..|ys| - 1]))
      || Subsequence(xs, ys[..|ys| - 1])))
  }

  lemma {:induction false} SubsequencePrefix<T(!new)>(xs: seq<T>, ys: seq<T>, n: nat)
    requires Subsequence(xs, ys) && n <= |xs|
    ensures Subsequence(xs[..n], ys)
    decreases |ys|
  {
    if xs != [] && n != 0 {
      if n == |xs| {
        assert xs[..n] == xs;
      } else if Subsequence(xs, ys[..|ys| - 1]) {
        SubsequencePrefix(xs, ys[..|ys| - 1], n);
      } else {
        var front := xs[..|xs| - 1];
        SubsequencePrefix(front, ys[..|ys| - 1], n);
        assert front[..n] == xs[..n];
      }
    }
  }
}
