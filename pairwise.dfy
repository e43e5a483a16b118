/** Consecutive pairs of a sequence, as `itertools.pairwise` yields them. */
module Pairs {

  /** Walks the input once, carrying the previous element in `a`; an empty
      or one-element input yields nothing. */
  method Pairwise<T>(s: seq<T>) returns (pairs: seq<(T, T)>)
    ensures |pairs| == if |s| == 0 then 0 else |s| - 1
    ensures forall i :: 0 <= i < |pairs| ==> pairs[i] == (s[i], s[i + 1])
  {
    pairs := [];
    if |s| == 0 {
      return;
    }
    var a := s[0];
    for k := 1 to |s|
      invariant a == s[k - 1]
      invariant |pairs| == k - 1
      invariant forall i :: 0 <= i < |pairs| ==> pairs[i] == (s[i], s[i + 1])
    {
      var b := s[k];
      pairs := pairs + [(a, b)];
      a := b;
    }
  }
}
