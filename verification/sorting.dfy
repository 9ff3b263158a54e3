/** Ordering rows by a real-valued key, as `DataFrame.sort_values` does with
    its default (quicksort, not stable) kind. Only the facts that hold for
    every such sort are promised: the result is a permutation of the input,
    in non-decreasing key order. The order among equal keys is left open;
    `SortedPermutationsShareKeys` shows that it cannot affect the key column. */
module Sorting {

  predicate SortedBy<T>(s: seq<T>, key: T -> real) {
    forall i, j :: 0 <= i < j < |s| ==> key(s[i]) <= key(s[j])
  }

  /** The first element of a sorted sequence has the smallest key. */
  lemma HeadIsLeast<T>(s: seq<T>, key: T -> real, y: T)
    requires SortedBy(s, key) && y in s
    ensures key(s[0]) <= key(y)
  {
  }

  /** `x` placed into the sorted sequence `s` before the first element whose
      key is not smaller. */
  function InsertBy<T>(x: T, s: seq<T>, key: T -> real): (r: seq<T>)
    requires SortedBy(s, key)
    ensures |r| == |s| + 1
    ensures multiset(r) == multiset(s) + multiset{x}
    ensures SortedBy(r, key)
  {
    if |s| == 0 then [x]
    else if key(x) <= key(s[0]) then [x] + s
    else
      var rest := InsertBy(x, s[1..], key);
      HeadBelowInserted(x, s, rest, key);
      assert s == [s[0]] + s[1..];
      [s[0]] + rest
  }

  /** Every element of `rest`, which holds `x` and elements of the sorted `s`,
      has a key no smaller than the head of `s` when `x` has; so the head can
      be put in front of a sorted `rest`. */
  lemma HeadBelowInserted<T>(x: T, s: seq<T>, rest: seq<T>, key: T -> real)
    requires |s| > 0 && SortedBy(s, key) && key(s[0]) <= key(x)
    requires multiset(rest) == multiset(s[1..]) + multiset{x}
    requires SortedBy(rest, key)
    ensures SortedBy([s[0]] + rest, key)
  {
    forall j | 0 <= j < |rest|
      ensures key(s[0]) <= key(rest[j])
    {
      assert rest[j] in multiset(rest);
      if rest[j] != x {
        assert rest[j] in s[1..];
        HeadIsLeast(s, key, rest[j]);
      }
    }
    var r := [s[0]] + rest;
    forall i, j | 0 <= i < j < |r|
      ensures key(r[i]) <= key(r[j])
    {
      assert r[j] == rest[j - 1];
      if i > 0 {
        assert r[i] == rest[i - 1];
      }
    }
  }

  /** A sorted permutation of `s` (insertion sort). */
  function SortBy<T>(s: seq<T>, key: T -> real): (r: seq<T>)
    ensures |r| == |s|
    ensures multiset(r) == multiset(s)
    ensures SortedBy(r, key)
  {
    if |s| == 0 then []
    else
      assert s == [s[0]] + s[1..];
      InsertBy(s[0], SortBy(s[1..], key), key)
  }

  /** In a sorted sequence, nothing after position `m` has a smaller key
      than anything before it. */
  lemma PrefixBelowSuffix<T>(sorted: seq<T>, m: nat, key: T -> real)
    requires SortedBy(sorted, key) && m <= |sorted|
    ensures forall x, y :: x in sorted[..m] && y in sorted[m..] ==> key(x) <= key(y)
  {
  }

  /** `s.sort_values(key).head(n)`: the first `min(n, |s|)` elements of a
      sorted permutation of `s`. They are taken from `s`, and no element
      left behind has a smaller key than one selected. */
  function SmallestBy<T>(s: seq<T>, key: T -> real, n: nat): (top: seq<T>)
    ensures |top| == if n <= |s| then n else |s|
    ensures multiset(top) <= multiset(s)
    ensures SortedBy(top, key)
    ensures forall x, y :: x in top && y in multiset(s) - multiset(top) ==> key(x) <= key(y)
  {
    var sorted := SortBy(s, key);
    var m := if n <= |s| then n else |s|;
    PrefixBelowRest(sorted, s, m, key);
    sorted[..m]
  }

  /** The prefix of a sorted permutation of `s` is part of `s`, and what
      `s` holds beyond it has no smaller key. */
  lemma PrefixBelowRest<T>(sorted: seq<T>, s: seq<T>, m: nat, key: T -> real)
    requires multiset(sorted) == multiset(s) && SortedBy(sorted, key) && m <= |sorted|
    ensures multiset(sorted[..m]) <= multiset(s)
    ensures SortedBy(sorted[..m], key)
    ensures forall x, y :: x in sorted[..m] && y in multiset(s) - multiset(sorted[..m]) ==> key(x) <= key(y)
  {
    assert sorted == sorted[..m] + sorted[m..];
    assert multiset(s) - multiset(sorted[..m]) == multiset(sorted[m..]);
    PrefixBelowSuffix(sorted, m, key);
  }

  /** Selecting from an already sorted sequence keeps its leading keys:
      ties may be reordered, but the key column of the selection is the
      key column of the first `|top|` elements. */
  lemma SmallestOfSortedKeys<T>(s: seq<T>, key: T -> real, n: nat)
    requires SortedBy(s, key)
    ensures var top := SmallestBy(s, key, n);
      forall i :: 0 <= i < |top| ==> key(top[i]) == key(s[i])
  {
    var sorted := SortBy(s, key);
    SortedPermutationsShareKeys(sorted, s, key);
    var top := SmallestBy(s, key, n);
    assert top == sorted[..|top|];
  }

  /** `s` without its element at position `k`. */
  function RemoveAt<T>(s: seq<T>, k: nat): (r: seq<T>)
    requires k < |s|
    ensures |r| == |s| - 1
    ensures multiset(r) == multiset(s) - multiset{s[k]}
    ensures forall i :: 0 <= i < k ==> r[i] == s[i]
    ensures forall i :: k <= i < |r| ==> r[i] == s[i + 1]
  {
    assert s == s[..k] + [s[k]] + s[k + 1..];
    s[..k] + s[k + 1..]
  }

  /** Removing an element keeps a sequence sorted. */
  lemma RemoveAtSorted<T>(s: seq<T>, k: nat, key: T -> real)
    requires k < |s| && SortedBy(s, key)
    ensures SortedBy(RemoveAt(s, k), key)
  {
  }

  /** Removing, from a sorted sequence, an element whose key equals the
      first key shifts the key column by one place and changes nothing else. */
  lemma RemoveEqualKeyShift<T>(b: seq<T>, k: nat, key: T -> real)
    requires SortedBy(b, key) && k < |b| && key(b[k]) == key(b[0])
    ensures forall i :: 0 < i < |b| ==> key(b[i]) == key(RemoveAt(b, k)[i - 1])
  {
  }

  /** Two sorted permutations of the same rows agree on the key at every
      position, whatever order they give to rows with equal keys. */
  lemma {:induction false} SortedPermutationsShareKeys<T>(a: seq<T>, b: seq<T>, key: T -> real)
    requires multiset(a) == multiset(b)
    requires SortedBy(a, key) && SortedBy(b, key)
    ensures |a| == |b|
    ensures forall i :: 0 <= i < |a| ==> key(a[i]) == key(b[i])
    decreases |a|
  {
    assert |a| == |multiset(a)| == |multiset(b)| == |b|;
    if |a| > 0 {
      var k := HeadKeysAgree(a, b, key);
      var c := RemoveAt(b, k);
      TailMatchesRemoval(a, b, k);
      RemoveAtSorted(b, k, key);
      SortedPermutationsShareKeys(a[1..], c, key);
      RemoveEqualKeyShift(b, k, key);
      forall i | 0 < i < |a|
        ensures key(a[i]) == key(b[i])
      {
        assert a[1..][i - 1] == a[i];
      }
    }
  }

  /** The head of `a` sits at some position `k` of `b`, and, both being
      sorted, the key there is the first key of `b`. */
  lemma HeadKeysAgree<T>(a: seq<T>, b: seq<T>, key: T -> real) returns (k: nat)
    requires multiset(a) == multiset(b) && |a| > 0
    requires SortedBy(a, key) && SortedBy(b, key)
    ensures k < |b| && b[k] == a[0] && key(b[k]) == key(b[0])
  {
    assert a[0] in multiset(b);
    k :| 0 <= k < |b| && b[k] == a[0];
    assert b[0] in multiset(a);
    var m :| 0 <= m < |a| && a[m] == b[0];
    assert key(a[0]) <= key(a[m]);
    assert key(b[0]) <= key(b[k]);
  }

  /** Removing the head of `a` from its place in `b` leaves the tail of `a`,
      as a multiset. */
  lemma TailMatchesRemoval<T>(a: seq<T>, b: seq<T>, k: nat)
    requires multiset(a) == multiset(b) && |a| > 0 && k < |b| && b[k] == a[0]
    ensures multiset(a[1..]) == multiset(RemoveAt(b, k))
  {
    assert a == [a[0]] + a[1..];
  }

  /** In any sorted permutation, an element whose key is strictly below
      every other element's comes first. */
  lemma StrictMinimumFirst<T>(s: seq<T>, r: seq<T>, key: T -> real, x: T)
    requires multiset(r) == multiset(s) && SortedBy(r, key)
    requires x in s
    requires forall y :: y in s && y != x ==> key(x) < key(y)
    ensures |r| > 0 && r[0] == x
  {
    assert x in multiset(r);
    var k :| 0 <= k < |r| && r[k] == x;
    assert r[0] in multiset(s);
  }

  /** An element no other position repeats occurs once. */
  lemma OccursOnce<T>(s: seq<T>, k: nat)
    requires k < |s|
    requires forall j :: 0 <= j < |s| && j != k ==> s[j] != s[k]
    ensures multiset(s)[s[k]] == 1
  {
    assert s == s[..k] + [s[k]] + s[k + 1..];
    assert s[k] !in s[..k];
    assert s[k] !in s[k + 1..] by {
      forall j | k + 1 <= j < |s| ensures s[j] != s[k] { }
    }
  }

  /** An element that occurs at most once cannot sit at two positions. */
  lemma OnceMeansOnePosition<T>(u: seq<T>, x: T, a: nat, b: nat)
    requires multiset(u)[x] <= 1
    requires a < b < |u| && u[a] == x
    ensures u[b] != x
  {
    assert u == u[..b] + u[b..];
    assert x in u[..b];
    assert multiset(u)[x] == multiset(u[..b])[x] + multiset(u[b..])[x];
  }
}
