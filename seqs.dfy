/**
 * Order-preserving selection over sequences: the shape of every Python
 * `for ...: if ...: append` loop and every pandas boolean mask in the model.
 */
module Seqs {

  /** `a` is an order-preserving (not necessarily contiguous) subsequence of `b`. */
  predicate IsSubseq<T(==)>(a: seq<T>, b: seq<T>)
    decreases |b|
  {
    if a == [] then true
    else if b == [] then false
    else (a[|a| - 1] == b[|b| - 1] && IsSubseq(a[..|a| - 1], b[..|b| - 1]))
         || IsSubseq(a, b[..|b| - 1])
  }

  /**
   * The elements of `s` that satisfy `p`, in their original order. The
   * lemmas below characterise the result completely: an order-preserving
   * subsequence of `s` (FilterIsSubseq) holding every element that passes
   * `p`, each as often as in `s`, and nothing else (FilterCounts).
   */
  function Filter<T>(s: seq<T>, p: T -> bool): (r: seq<T>)
    ensures |r| <= |s|
    ensures forall i | 0 <= i < |r| :: p(r[i])
    decreases |s|
  {
    if s == [] then []
    else
      var r0 := Filter(s[..|s| - 1], p);
      if p(s[|s| - 1]) then r0 + [s[|s| - 1]] else r0
  }

  lemma {:induction false} FilterCounts<T(!new)>(s: seq<T>, p: T -> bool)
    ensures forall x :: multiset(Filter(s, p))[x] == if p(x) then multiset(s)[x] else 0
    decreases |s|
  {
    if s != [] {
      var init, last := s[..|s| - 1], s[|s| - 1];
      FilterCounts(init, p);
      assert s == init + [last];
    }
  }

  lemma {:induction false} FilterIsSubseq<T>(s: seq<T>, p: T -> bool)
    ensures IsSubseq(Filter(s, p), s)
    decreases |s|
  {
    if s != [] {
      var init, last := s[..|s| - 1], s[|s| - 1];
      FilterIsSubseq(init, p);
      var r0 := Filter(init, p);
      if p(last) {
        assert (r0 + [last])[..|r0|] == r0;
      }
    }
  }

  /** Two successive masks select what their conjunction `both` selects. */
  lemma {:induction false} FilterFilter<T>(s: seq<T>, p: T -> bool, q: T -> bool, both: T -> bool)
    requires forall i | 0 <= i < |s| :: both(s[i]) == (p(s[i]) && q(s[i]))
    ensures Filter(Filter(s, p), q) == Filter(s, both)
    decreases |s|
  {
    if s != [] {
      var init, last := s[..|s| - 1], s[|s| - 1];
      FilterFilter(init, p, q, both);
      var r0 := Filter(init, p);
      if p(last) {
        assert (r0 + [last])[..|r0|] == r0;
      }
    }
  }

  /** Applying `f` elementwise, in order. */
  function Map<T, U>(s: seq<T>, f: T -> U): (r: seq<U>)
    ensures |r| == |s|
    ensures forall i | 0 <= i < |s| :: r[i] == f(s[i])
    decreases |s|
  {
    if s == [] then [] else Map(s[..|s| - 1], f) + [f(s[|s| - 1])]
  }

  /** Masking commutes with a map that does not change what the mask looks at. */
  lemma {:induction false} FilterMap<T, U>(s: seq<T>, f: T -> U, p: T -> bool, q: U -> bool)
    requires forall x | x in s :: q(f(x)) == p(x)
    ensures Filter(Map(s, f), q) == Map(Filter(s, p), f)
    decreases |s|
  {
    if s != [] {
      var init, last := s[..|s| - 1], s[|s| - 1];
      assert forall x | x in init :: x in s;
      FilterMap(init, f, p, q);
      var m := Map(s, f);
      assert m[..|m| - 1] == Map(init, f);
      var r0 := Filter(init, p);
      if p(last) {
        assert (r0 + [last])[..|r0|] == r0;
      }
    }
  }
}
