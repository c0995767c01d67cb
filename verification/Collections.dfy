/** Small facts about sets and permutations that several modules use. */
module Collections {

  lemma {:induction false} SubsetCounts<T>(a: set<T>, b: set<T>)
    requires a <= b
    ensures |a| <= |b|
  {
    assert b == a + (b - a);
  }

  lemma SameMembers<T>(xs: seq<T>, ys: seq<T>)
    requires multiset(xs) == multiset(ys)
    ensures |xs| == |ys| && forall i :: 0 <= i < |xs| ==> xs[i] in ys
  {
    assert |xs| == |multiset(xs)| == |multiset(ys)| == |ys|;
    forall i | 0 <= i < |xs|
      ensures xs[i] in ys
    {
      assert xs[i] in multiset(xs);
    }
  }

  /** Taking the same element out of both keeps a permutation one. */
  lemma RemoveOne<T>(front: seq<T>, x: T, pre: seq<T>, post: seq<T>)
    requires multiset(front + [x]) == multiset(pre + [x] + post)
    ensures multiset(front) == multiset(pre + post)
  {
    var m, n := multiset(front), multiset(pre + post);
    assert multiset(front + [x]) == m + multiset{x};
    assert multiset(pre + [x] + post) == n + multiset{x} by {
      assert multiset(pre + post) == multiset(pre) + multiset(post);
    }
    assert m == (m + multiset{x}) - multiset{x} && n == (n + multiset{x}) - multiset{x};
  }
}
