/**
  Python's sorted() over text keys: stable, in either direction.
*/
module TextSort {

  datatype Keyed<T> = Keyed(key: string, item: T)

  /** Strict text order. */
  predicate Before(a: string, b: string) {
    if |b| == 0 then false
    else if |a| == 0 then true
    else a[0] < b[0] || (a[0] == b[0] && Before(a[1..], b[1..]))
  }

  /** A text comes before another exactly when it is a proper prefix, or has the smaller character where they first differ. */
  lemma {:induction false} BeforeIff(a: string, b: string)
    ensures Before(a, b) <==> exists k :: DiffersAt(a, b, k) && k < |b| && (k == |a| || a[k] < b[k])
    decreases |a|
  {
    if |a| > 0 && |b| > 0 && a[0] == b[0] {
      BeforeIff(a[1..], b[1..]);
      forall k: nat | 0 < k
        ensures DiffersAt(a, b, k) <==> DiffersAt(a[1..], b[1..], k - 1)
      {
        if k <= |a| && k <= |b| {
          assert a[..k] == [a[0]] + a[1..][..k - 1] && b[..k] == [b[0]] + b[1..][..k - 1];
        }
      }
      if Before(a[1..], b[1..]) {
        var k :| DiffersAt(a[1..], b[1..], k) && k < |b| - 1 && (k == |a| - 1 || a[1..][k] < b[1..][k]);
        assert DiffersAt(a, b, k + 1);
      }
    } else {
      assert DiffersAt(a, b, 0);
      assert forall k :: DiffersAt(a, b, k) ==> k == 0;
    }
  }

  /** The texts agree up to `k`, and not one character further. */
  ghost predicate DiffersAt(a: string, b: string, k: int) {
    0 <= k <= |a| && k <= |b| && a[..k] == b[..k] && (k < |a| && k < |b| ==> a[k] != b[k])
  }

  lemma {:induction false} BeforeAsymmetric(a: string, b: string)
    requires Before(a, b)
    ensures !Before(b, a)
    decreases |a|
  {
    if |a| > 0 && a[0] == b[0] {
      BeforeAsymmetric(a[1..], b[1..]);
    }
  }

  lemma {:induction false} NotBeforeTransitive(a: string, b: string, c: string)
    requires !Before(b, a) && !Before(c, b)
    ensures !Before(c, a)
    decreases |a|
  {
    if |a| > 0 && |b| > 0 && |c| > 0 && a[0] == b[0] == c[0] {
      NotBeforeTransitive(a[1..], b[1..], c[1..]);
    }
  }

  lemma {:induction false} BeforeTotal(a: string, b: string)
    ensures a == b || Before(a, b) || Before(b, a)
    decreases |a|
  {
    if |a| > 0 && |b| > 0 && a[0] == b[0] {
      BeforeTotal(a[1..], b[1..]);
      assert a == [a[0]] + a[1..] && b == [b[0]] + b[1..];
    }
  }

  /** `a` has to come before `b`; `reverse` is sorted()'s argument of that name. */
  predicate Precedes(a: string, b: string, reverse: bool) {
    if reverse then Before(b, a) else Before(a, b)
  }

  lemma {:induction false} PrecedesIsWeakOrder(a: string, b: string, c: string, reverse: bool)
    ensures !(Precedes(a, b, reverse) && Precedes(b, a, reverse))
    ensures !Precedes(b, a, reverse) && !Precedes(c, b, reverse) ==> !Precedes(c, a, reverse)
  {
    hide Before;
    if Before(a, b) {
      BeforeAsymmetric(a, b);
    }
    if !Before(b, a) && !Before(c, b) {
      NotBeforeTransitive(a, b, c);
    }
    if !Before(a, b) && !Before(b, c) {
      NotBeforeTransitive(c, b, a);
    }
  }

  function Insert<T>(xs: seq<Keyed<T>>, x: Keyed<T>, reverse: bool): seq<Keyed<T>> {
    if |xs| == 0 || !Precedes(x.key, xs[|xs| - 1].key, reverse) then xs + [x]
    else Insert(xs[..|xs| - 1], x, reverse) + [xs[|xs| - 1]]
  }

  /** sorted(xs, key=..., reverse=reverse). */
  function Sorted<T>(xs: seq<Keyed<T>>, reverse: bool): seq<Keyed<T>> {
    if |xs| == 0 then [] else Insert(Sorted(xs[..|xs| - 1], reverse), xs[|xs| - 1], reverse)
  }

  ghost predicate Ordered<T>(xs: seq<Keyed<T>>, reverse: bool) {
    forall i, j :: 0 <= i < j < |xs| ==> !Precedes(xs[j].key, xs[i].key, reverse)
  }

  lemma OrderedFront<T>(xs: seq<Keyed<T>>, reverse: bool)
    requires |xs| > 0 && Ordered(xs, reverse)
    ensures Ordered(xs[..|xs| - 1], reverse)
  {
    hide Precedes;
  }

  /** A larger last element keeps a list ordered. */
  lemma OrderedExtend<T>(xs: seq<Keyed<T>>, x: Keyed<T>, reverse: bool)
    requires Ordered(xs, reverse)
    requires forall y :: y in multiset(xs) ==> !Precedes(x.key, y.key, reverse)
    ensures Ordered(xs + [x], reverse)
  {
    hide Precedes;
    forall i | 0 <= i < |xs|
      ensures !Precedes(x.key, xs[i].key, reverse)
    {
      assert xs[i] in multiset(xs);
    }
  }

  lemma LastIsGreatest<T>(xs: seq<Keyed<T>>, x: Keyed<T>, reverse: bool)
    requires Ordered(xs, reverse) && |xs| > 0 && !Precedes(x.key, xs[|xs| - 1].key, reverse)
    ensures forall y :: y in multiset(xs) ==> !Precedes(x.key, y.key, reverse)
  {
    hide Precedes;
    var last := xs[|xs| - 1];
    forall y | y in multiset(xs)
      ensures !Precedes(x.key, y.key, reverse)
    {
      var i :| 0 <= i < |xs| && xs[i] == y;
      if i < |xs| - 1 {
        PrecedesIsWeakOrder(y.key, last.key, x.key, reverse);
      }
    }
  }

  lemma {:induction false} InsertOrdered<T>(xs: seq<Keyed<T>>, x: Keyed<T>, reverse: bool)
    requires Ordered(xs, reverse)
    ensures Ordered(Insert(xs, x, reverse), reverse)
    ensures multiset(Insert(xs, x, reverse)) == multiset(xs) + multiset{x}
    decreases |xs|
  {
    hide Precedes, Ordered;
    if |xs| > 0 {
      var front, last := xs[..|xs| - 1], xs[|xs| - 1];
      assert xs == front + [last];
      if Precedes(x.key, last.key, reverse) {
        OrderedFront(xs, reverse);
        InsertOrdered(front, x, reverse);
        LastAfterAll(xs, x, reverse);
        OrderedExtend(Insert(front, x, reverse), last, reverse);
      } else {
        LastIsGreatest(xs, x, reverse);
        OrderedExtend(xs, x, reverse);
      }
    } else {
      OrderedExtend(xs, x, reverse);
    }
  }

  lemma LastAfterAll<T>(xs: seq<Keyed<T>>, x: Keyed<T>, reverse: bool)
    requires |xs| > 0 && Ordered(xs, reverse) && Precedes(x.key, xs[|xs| - 1].key, reverse)
    ensures forall y :: y in multiset(xs[..|xs| - 1]) + multiset{x} ==> !Precedes(xs[|xs| - 1].key, y.key, reverse)
  {
    hide Precedes;
    var front, last := xs[..|xs| - 1], xs[|xs| - 1];
    PrecedesIsWeakOrder(x.key, last.key, last.key, reverse);
    forall y | y in multiset(front) + multiset{x}
      ensures !Precedes(last.key, y.key, reverse)
    {
      if y in multiset(front) {
        var i :| 0 <= i < |front| && front[i] == y;
        assert xs[i] == y;
      }
    }
  }

  /** The items whose key is `key`, in order. */
  ghost function WithKey<T>(xs: seq<Keyed<T>>, key: string): seq<Keyed<T>> {
    if |xs| == 0 then []
    else WithKey(xs[..|xs| - 1], key) + if xs[|xs| - 1].key == key then [xs[|xs| - 1]] else []
  }

  lemma WithKeyExtend<T>(xs: seq<Keyed<T>>, x: Keyed<T>, key: string)
    ensures WithKey(xs + [x], key) == WithKey(xs, key) + if x.key == key then [x] else []
  {
    assert (xs + [x])[..|xs|] == xs;
  }

  lemma {:induction false} InsertStable<T>(xs: seq<Keyed<T>>, x: Keyed<T>, reverse: bool, key: string)
    ensures WithKey(Insert(xs, x, reverse), key) == WithKey(xs + [x], key)
    decreases |xs|
  {
    hide Precedes, WithKey;
    WithKeyExtend(xs, x, key);
    if |xs| > 0 && Precedes(x.key, xs[|xs| - 1].key, reverse) {
      var front, last := xs[..|xs| - 1], xs[|xs| - 1];
      InsertStable(front, x, reverse, key);
      WithKeyExtend(Insert(front, x, reverse), last, key);
      WithKeyExtend(front, x, key);
      WithKeyExtend(front, last, key);
      assert front + [last] == xs;
      PrecedesIsWeakOrder(x.key, last.key, x.key, reverse);
      assert x.key != last.key;
    }
  }

  /** sorted() returns the same items, in key order, equal keys in their original order. */
  lemma {:induction false} SortedIsStableOrderedPermutation<T>(xs: seq<Keyed<T>>, reverse: bool)
    ensures Ordered(Sorted(xs, reverse), reverse)
    ensures multiset(Sorted(xs, reverse)) == multiset(xs)
    ensures forall key :: WithKey(Sorted(xs, reverse), key) == WithKey(xs, key)
    decreases |xs|
  {
    hide Precedes, Insert, Ordered, WithKey;
    if |xs| > 0 {
      var front, last := xs[..|xs| - 1], xs[|xs| - 1];
      SortedIsStableOrderedPermutation(front, reverse);
      InsertOrdered(Sorted(front, reverse), last, reverse);
      assert xs == front + [last];
      forall key
        ensures WithKey(Sorted(xs, reverse), key) == WithKey(xs, key)
      {
        InsertStable(Sorted(front, reverse), last, reverse, key);
        WithKeyExtend(Sorted(front, reverse), last, key);
        WithKeyExtend(front, last, key);
      }
    } else {
      assert Ordered<T>([], reverse) by { OrderedNothing<T>(reverse); }
    }
  }

  lemma OrderedNothing<T>(reverse: bool)
    ensures Ordered<T>([], reverse)
  {
  }

  lemma InsertLast<T>(xs: seq<Keyed<T>>, x: Keyed<T>, reverse: bool)
    requires Ordered(xs + [x], reverse)
    ensures Insert(xs, x, reverse) == xs + [x]
  {
    hide Precedes;
    if |xs| > 0 {
      assert (xs + [x])[|xs| - 1] == xs[|xs| - 1] && (xs + [x])[|xs|] == x;
    }
  }

  /** Sorting an ordered list changes nothing. */
  lemma {:induction false} SortOfOrdered<T>(xs: seq<Keyed<T>>, reverse: bool)
    requires Ordered(xs, reverse)
    ensures Sorted(xs, reverse) == xs
    decreases |xs|
  {
    hide Precedes, Insert, Ordered;
    if |xs| > 0 {
      var front, last := xs[..|xs| - 1], xs[|xs| - 1];
      OrderedFront(xs, reverse);
      SortOfOrdered(front, reverse);
      assert xs == front + [last];
      InsertLast(front, last, reverse);
    }
  }

  // ---- Order and groups of equal keys determine a list ----

  lemma PrecedesTotal(a: string, b: string, reverse: bool)
    ensures a == b || Precedes(a, b, reverse) || Precedes(b, a, reverse)
  {
    hide Before;
    BeforeTotal(a, b);
  }

  lemma {:induction false} KeyOccurs<T>(xs: seq<Keyed<T>>, key: string)
    requires WithKey(xs, key) != []
    ensures exists i :: 0 <= i < |xs| && xs[i].key == key
    decreases |xs|
  {
    if xs[|xs| - 1].key != key {
      KeyOccurs(xs[..|xs| - 1], key);
      var i :| 0 <= i < |xs| - 1 && xs[..|xs| - 1][i].key == key;
      assert xs[i].key == key;
    }
  }

  /** The last keys of two ordered lists with the same groups agree. */
  lemma {:induction false} LastKeysAgree<T>(a: seq<Keyed<T>>, b: seq<Keyed<T>>, reverse: bool)
    requires Ordered(a, reverse) && Ordered(b, reverse) && |a| > 0 && |b| > 0
    requires forall key :: WithKey(a, key) == WithKey(b, key)
    ensures a[|a| - 1].key == b[|b| - 1].key
  {
    var x, y := a[|a| - 1].key, b[|b| - 1].key;
    assert WithKey(a, x) != [] && WithKey(b, y) != [];
    hide Precedes, WithKey;
    KeyOccurs(b, x);
    KeyOccurs(a, y);
    var j :| 0 <= j < |b| && b[j].key == x;
    var i :| 0 <= i < |a| && a[i].key == y;
    PrecedesTotal(x, y, reverse);
  }

  lemma LastIsInGroup<T>(xs: seq<Keyed<T>>)
    requires |xs| > 0
    ensures WithKey(xs, xs[|xs| - 1].key) != []
  {
  }

  lemma EmptyTogether<T>(a: seq<Keyed<T>>, b: seq<Keyed<T>>)
    requires forall key :: WithKey(a, key) == WithKey(b, key)
    ensures |a| == 0 <==> |b| == 0
  {
    hide WithKey;
    if |a| > 0 {
      LastIsInGroup(a);
      KeyOccurs(b, a[|a| - 1].key);
    }
    if |b| > 0 {
      LastIsInGroup(b);
      KeyOccurs(a, b[|b| - 1].key);
    }
  }

  lemma {:induction false} OrderedIsDetermined<T>(a: seq<Keyed<T>>, b: seq<Keyed<T>>, reverse: bool)
    requires Ordered(a, reverse) && Ordered(b, reverse)
    requires forall key :: WithKey(a, key) == WithKey(b, key)
    ensures a == b
    decreases |a|
  {
    hide Ordered, Precedes, WithKey;
    EmptyTogether(a, b);
    if |a| > 0 {
      LastKeysAgree(a, b, reverse);
      var x, y := a[|a| - 1], b[|b| - 1];
      var frontA, frontB := a[..|a| - 1], b[..|b| - 1];
      assert frontA + [x] == a && frontB + [y] == b;
      forall key
        ensures WithKey(frontA, key) == WithKey(frontB, key)
        ensures key == x.key ==> x == y
      {
        FrontGroups(frontA, x, frontB, y, key);
      }
      assert WithKey(frontA, x.key) == WithKey(frontB, x.key) && x == y;
      OrderedFront(a, reverse);
      OrderedFront(b, reverse);
      OrderedIsDetermined(frontA, frontB, reverse);
    }
  }

  lemma FrontGroups<T>(a: seq<Keyed<T>>, x: Keyed<T>, b: seq<Keyed<T>>, y: Keyed<T>, key: string)
    requires x.key == y.key && WithKey(a + [x], key) == WithKey(b + [y], key)
    ensures WithKey(a, key) == WithKey(b, key) && (key == x.key ==> x == y)
  {
    hide WithKey;
    WithKeyExtend(a, x, key);
    WithKeyExtend(b, y, key);
    SameEnds(WithKey(a, key), x, WithKey(b, key), y);
    assert WithKey(a, key) + [] == WithKey(a, key) && WithKey(b, key) + [] == WithKey(b, key);
  }

  lemma SameEnds<T>(a: seq<T>, x: T, b: seq<T>, y: T)
    ensures a + [x] == b + [y] ==> a == b && x == y
  {
    if a + [x] == b + [y] {
      assert |a + [x]| == |b + [y]|;
      assert a == (a + [x])[..|a|] && b == (b + [y])[..|b|];
      assert (a + [x])[|a|] == x && (b + [y])[|b|] == y;
    }
  }

  lemma NoGroup<T>(key: string)
    ensures WithKey<T>([], key) == []
  {
  }

  lemma {:induction false} WithKeyConcat<T>(a: seq<Keyed<T>>, b: seq<Keyed<T>>, key: string)
    ensures WithKey(a + b, key) == WithKey(a, key) + WithKey(b, key)
    decreases |b|
  {
    hide WithKey;
    if |b| == 0 {
      NoGroup<T>(key);
      assert a + b == a && b == [] && WithKey(a, key) + [] == WithKey(a, key);
    } else {
      var front, last := b[..|b| - 1], b[|b| - 1];
      WithKeyConcat(a, front, key);
      WithKeyExtend(a + front, last, key);
      WithKeyExtend(front, last, key);
      assert (a + front) + [last] == a + b && front + [last] == b;
    }
  }
}
