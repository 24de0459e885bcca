/** Stable sorting by a key, as the library's stable sort promises it. */
module StableSort {
  import opened Common

  /** Puts x behind every element whose key is not larger. */
  function Insert(s: seq<nat>, x: nat, key: nat -> real): seq<nat> {
    if s == [] || key(s[|s| - 1]) <= key(x) then s + [x]
    else Insert(s[..|s| - 1], x, key) + [s[|s| - 1]]
  }

  function Sort(s: seq<nat>, key: nat -> real): seq<nat> {
    if s == [] then [] else Insert(Sort(s[..|s| - 1], key), s[|s| - 1], key)
  }

  ghost predicate Sorted(s: seq<nat>, key: nat -> real) {
    forall i, j :: 0 <= i < j < |s| ==> key(s[i]) <= key(s[j])
  }

  /** The elements with one key, in order. */
  ghost function WithKey(s: seq<nat>, key: nat -> real, k: real): seq<nat> {
    if s == [] then []
    else WithKey(s[..|s| - 1], key, k) + (if key(s[|s| - 1]) == k then [s[|s| - 1]] else [])
  }

  lemma WithKeyAppend(s: seq<nat>, x: nat, key: nat -> real, k: real)
    ensures WithKey(s + [x], key, k) == if key(x) == k then WithKey(s, key, k) + [x] else WithKey(s, key, k)
  {
  }

  lemma SplitLast(s: seq<nat>)
    requires s != []
    ensures s == s[..|s| - 1] + [s[|s| - 1]]
  {
  }

  lemma {:induction false} InsertKeepsElements(s: seq<nat>, x: nat, key: nat -> real)
    ensures multiset(Insert(s, x, key)) == multiset(s) + multiset{x}
  {
    if s != [] && key(s[|s| - 1]) > key(x) {
      InsertKeepsElements(s[..|s| - 1], x, key);
      SplitLast(s);
    }
  }

  lemma {:induction false} InsertSorts(s: seq<nat>, x: nat, key: nat -> real)
    requires Sorted(s, key)
    ensures Sorted(Insert(s, x, key), key)
    ensures forall i :: 0 <= i < |Insert(s, x, key)| ==> Insert(s, x, key)[i] == x || Insert(s, x, key)[i] in s
  {
    if s != [] && key(s[|s| - 1]) > key(x) {
      InsertSorts(s[..|s| - 1], x, key);
    }
  }

  lemma {:induction false} NoneWithKey(s: seq<nat>, key: nat -> real, k: real)
    requires forall i :: 0 <= i < |s| ==> key(s[i]) != k
    ensures WithKey(s, key, k) == []
  {
    if s != [] {
      NoneWithKey(s[..|s| - 1], key, k);
    }
  }

  lemma {:induction false} InsertIsStable(s: seq<nat>, x: nat, key: nat -> real, k: real)
    requires Sorted(s, key)
    ensures WithKey(Insert(s, x, key), key, k) == WithKey(s + [x], key, k)
  {
    if s != [] && key(s[|s| - 1]) > key(x) {
      var front, last := s[..|s| - 1], s[|s| - 1];
      InsertIsStable(front, x, key, k);
      WithKeyAppend(Insert(front, x, key), last, key, k);
      WithKeyAppend(s, x, key, k);
      WithKeyAppend(front, x, key, k);
      SplitLast(s);
      WithKeyAppend(front, last, key, k);
    }
  }

  /** Sorted by key, the same elements, and equal keys in their original order. */
  lemma {:induction false} SortFacts(s: seq<nat>, key: nat -> real)
    ensures Sorted(Sort(s, key), key) && multiset(Sort(s, key)) == multiset(s)
  {
    if s != [] {
      SortFacts(s[..|s| - 1], key);
      InsertSorts(Sort(s[..|s| - 1], key), s[|s| - 1], key);
      InsertKeepsElements(Sort(s[..|s| - 1], key), s[|s| - 1], key);
      SplitLast(s);
    }
  }

  lemma {:induction false} SortIsStable(s: seq<nat>, key: nat -> real, k: real)
    ensures WithKey(Sort(s, key), key, k) == WithKey(s, key, k)
  {
    if s != [] {
      var front, last := s[..|s| - 1], s[|s| - 1];
      SortIsStable(front, key, k);
      SortFacts(front, key);
      InsertIsStable(Sort(front, key), last, key, k);
      WithKeyAppend(Sort(front, key), last, key, k);
      SplitLast(s);
      WithKeyAppend(front, last, key, k);
    }
  }

  // ---------------------------------------------------------------- permutations of an initial segment

  ghost predicate IsPermutationOf(s: seq<nat>, n: nat) {
    |s| == n && Distinct(s) && (forall i :: 0 <= i < |s| ==> s[i] < n) && (forall x: nat :: x < n ==> x in s)
  }

  lemma {:induction false} MultisetOfDistinct(s: seq<nat>, x: nat)
    requires Distinct(s)
    ensures multiset(s)[x] == if x in s then 1 else 0
  {
    if s != [] {
      SplitLast(s);
      MultisetOfDistinct(s[..|s| - 1], x);
    }
  }

  lemma DistinctByMultiset(a: seq<nat>, b: seq<nat>)
    requires multiset(a) == multiset(b) && Distinct(b)
    ensures Distinct(a) && |a| == |b| && forall x :: x in a <==> x in b
  {
    assert |multiset(a)| == |multiset(b)|;
    forall x ensures x in a <==> x in b {
      assert x in multiset(a) <==> x in a;
      assert x in multiset(b) <==> x in b;
    }
    forall i, j | 0 <= i < j < |a| ensures a[i] != a[j] {
      MultisetOfDistinct(b, a[i]);
      CountedTwice(a, i, j);
    }
  }

  lemma CountedTwice(a: seq<nat>, i: nat, j: nat)
    requires i < j < |a|
    ensures a[i] == a[j] ==> multiset(a)[a[i]] >= 2
  {
    assert a == a[..j] + [a[j]] + a[j + 1..];
    assert a[i] == a[..j][i];
  }

  /** Sorting keeps distinct elements distinct and drops or adds none. */
  lemma SortDistinct(s: seq<nat>, key: nat -> real)
    requires Distinct(s)
    ensures var r := Sort(s, key); Distinct(r) && |r| == |s| && (forall x :: x in r <==> x in s) && Sorted(r, key)
  {
    SortFacts(s, key);
    DistinctByMultiset(Sort(s, key), s);
  }

  lemma SortUpTo(n: nat, key: nat -> real)
    ensures IsPermutationOf(Sort(UpTo(n), key), n) && Sorted(Sort(UpTo(n), key), key)
  {
    SortDistinct(UpTo(n), key);
    forall x: nat | x < n ensures x in UpTo(n) {
      assert UpTo(n)[x] == x;
    }
    var r := Sort(UpTo(n), key);
    forall i | 0 <= i < |r| ensures r[i] < n {
      assert r[i] in UpTo(n);
    }
  }

  // ---------------------------------------------------------------- sorting numbers that increase

  /** By key, and by number where the keys agree. */
  ghost predicate InOrder(s: seq<nat>, key: nat -> real) {
    forall i, j :: 0 <= i < j < |s| ==> key(s[i]) < key(s[j]) || (key(s[i]) == key(s[j]) && s[i] < s[j])
  }

  ghost predicate AllBelow(s: seq<nat>, x: nat) {
    forall i :: 0 <= i < |s| ==> s[i] < x
  }

  lemma {:induction false} InsertLarger(s: seq<nat>, x: nat, key: nat -> real)
    requires InOrder(s, key) && AllBelow(s, x)
    ensures InOrder(Insert(s, x, key), key)
    ensures forall i :: 0 <= i < |Insert(s, x, key)| ==> Insert(s, x, key)[i] == x || Insert(s, x, key)[i] in s
  {
    if s != [] && key(s[|s| - 1]) > key(x) {
      InsertLarger(s[..|s| - 1], x, key);
    }
  }

  /** Increasing numbers come out by key, and by number where the keys agree. */
  lemma {:induction false} SortInOrder(s: seq<nat>, key: nat -> real)
    requires forall i, j :: 0 <= i < j < |s| ==> s[i] < s[j]
    ensures InOrder(Sort(s, key), key) && forall i :: 0 <= i < |Sort(s, key)| ==> Sort(s, key)[i] in s
  {
    if s != [] {
      var n := |s| - 1;
      SortInOrder(s[..n], key);
      var r := Sort(s[..n], key);
      forall i | 0 <= i < |r| ensures r[i] < s[n] {
        assert r[i] in s[..n];
      }
      InsertLarger(r, s[n], key);
    }
  }
}
