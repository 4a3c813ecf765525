/** Order-preserving subsequences: what a filtering loop or comprehension returns. */
module Seqs {
  /** `k` is `s` with some elements left out and the rest in their original order. */
  predicate IsSubseq<T(==)>(k: seq<T>, s: seq<T>)
    decreases |s|
  {
    if s == [] then k == []
    else
      (k != [] && k[|k| - 1] == s[|s| - 1] && IsSubseq(k[..|k| - 1], s[..|s| - 1]))
      || IsSubseq(k, s[..|s| - 1])
  }

  lemma SubseqEmpty<T>(s: seq<T>)
    ensures IsSubseq([], s)
    decreases |s|
  {
    if s != [] { SubseqEmpty(s[..|s| - 1]); }
  }

  /** Skipping the next element keeps a subsequence. */
  lemma SubseqSkip<T>(k: seq<T>, s: seq<T>, x: T)
    requires IsSubseq(k, s)
    ensures IsSubseq(k, s + [x])
  {
    assert (s + [x])[..|s|] == s;
  }

  /** Taking the next element keeps a subsequence. */
  lemma SubseqTake<T>(k: seq<T>, s: seq<T>, x: T)
    requires IsSubseq(k, s)
    ensures IsSubseq(k + [x], s + [x])
  {
    assert (s + [x])[..|s|] == s;
    assert (k + [x])[..|k|] == k;
  }

  /** A subsequence is no longer than the sequence and holds only its elements. */
  lemma {:induction false} SubseqElements<T>(k: seq<T>, s: seq<T>)
    requires IsSubseq(k, s)
    ensures |k| <= |s|
    ensures forall x :: x in k ==> x in s
    decreases |s|
  {
    if s != [] {
      var init := s[..|s| - 1];
      if k != [] && k[|k| - 1] == s[|s| - 1] && IsSubseq(k[..|k| - 1], init) {
        SubseqElements(k[..|k| - 1], init);
        assert k == k[..|k| - 1] + [k[|k| - 1]];
        assert s == init + [s[|s| - 1]];
      } else {
        SubseqElements(k, init);
        assert s == init + [s[|s| - 1]];
      }
    }
  }

  /** No element occurs twice. */
  ghost predicate Distinct<T>(s: seq<T>) {
    forall i, j :: 0 <= i < j < |s| ==> s[i] != s[j]
  }

  lemma {:induction false} DistinctOnce<T>(s: seq<T>, x: T)
    requires Distinct(s)
    ensures multiset(s)[x] <= 1
    decreases |s|
  {
    if s != [] {
      var init := s[..|s| - 1];
      var last := s[|s| - 1];
      assert s == init + [last];
      assert Distinct(init);
      DistinctOnce(init, x);
      forall k | 0 <= k < |init| ensures init[k] != last {
        assert s[k] == init[k];
      }
      assert x == last ==> x !in init;
    }
  }

  lemma TwoPositions<T>(s: seq<T>, i: int, j: int)
    requires 0 <= i < j < |s|
    ensures s[i] == s[j] ==> multiset(s)[s[i]] >= 2
  {
    if s[i] == s[j] {
      assert s == s[..i] + [s[i]] + s[i + 1..j] + [s[j]] + s[j + 1..];
    }
  }

  /** A permutation of a sequence without repeats has no repeats. */
  lemma PermutationDistinct<T>(vs: seq<T>, s: seq<T>)
    requires Distinct(vs) && multiset(s) == multiset(vs)
    ensures Distinct(s)
  {
    forall i, j | 0 <= i < j < |s| ensures s[i] != s[j] {
      TwoPositions(s, i, j);
      DistinctOnce(vs, s[i]);
    }
  }
}
