/** Small vocabulary shared by the models: options, duplicate-free sequences and their element sets. */
module Common {

  datatype Option<+T> = None | Some(value: T)

  const MAX_UINT32: nat := 0xFFFF_FFFF

  /** The numbers below n, in order. */
  function UpTo(n: nat): (s: seq<nat>)
    ensures |s| == n && forall i :: 0 <= i < n ==> s[i] == i
  {
    seq(n, i requires 0 <= i < n => i)
  }

  ghost predicate Distinct<T>(s: seq<T>) {
    forall i, j :: 0 <= i < j < |s| ==> s[i] != s[j]
  }

  function Elems<T>(s: seq<T>): set<T> {
    set x | x in s
  }

  lemma {:induction false} DistinctCardinality<T>(s: seq<T>)
    requires Distinct(s)
    ensures |Elems(s)| == |s|
  {
    if s == [] {
    } else {
      var last := s[|s| - 1];
      var init := s[..|s| - 1];
      DistinctCardinality(init);
      assert Elems(s) == Elems(init) + {last};
      assert last !in Elems(init);
    }
  }

  lemma AppendDistinct<T>(s: seq<T>, x: T)
    requires Distinct(s) && x !in Elems(s)
    ensures Distinct(s + [x])
  {
  }

  lemma ElemsAppend<T>(s: seq<T>, x: T)
    ensures Elems(s + [x]) == Elems(s) + {x}
  {
  }

  lemma TakeNext<T>(s: seq<T>, i: nat)
    requires i < |s|
    ensures s[..i + 1] == s[..i] + [s[i]]
    ensures s[..i + 1][..i] == s[..i]
  {
  }

  lemma TakeAll<T>(s: seq<T>)
    ensures s[..|s|] == s && s[..0] == []
  {
  }

  /** The front of a concatenation with a non-empty second part. */
  lemma FrontOfConcat<T>(a: seq<T>, b: seq<T>)
    requires b != []
    ensures (a + b)[..|a + b| - 1] == a + b[..|b| - 1]
    ensures (a + b)[|a + b| - 1] == b[|b| - 1]
  {
  }

  lemma EmptyConcat<T>(a: seq<T>)
    ensures a + [] == a && [] + a == a
  {
  }

  lemma Associative<T>(a: seq<T>, b: seq<T>, c: seq<T>)
    ensures (a + b) + c == a + (b + c)
  {
  }

  /** The elements of a sequence that belong to a set, in order. */
  function KeepIn<T>(s: seq<T>, within: set<T>): seq<T> {
    if s == [] then []
    else
      var n := |s| - 1;
      KeepIn(s[..n], within) + (if s[n] in within then [s[n]] else [])
  }

  lemma {:induction false} KeepInFacts<T>(s: seq<T>, within: set<T>)
    requires Distinct(s)
    ensures Elems(KeepIn(s, within)) == Elems(s) * within
    ensures Distinct(KeepIn(s, within))
  {
    if s != [] {
      var n := |s| - 1;
      KeepInFacts(s[..n], within);
      assert s == s[..n] + [s[n]];
      ElemsAppend(s[..n], s[n]);
      ElemsAppend(KeepIn(s[..n], within), s[n]);
      if s[n] in within {
        assert s[n] !in Elems(s[..n]);
        AppendDistinct(KeepIn(s[..n], within), s[n]);
      } else {
        assert KeepIn(s, within) == KeepIn(s[..n], within);
      }
    }
  }

  /** A subset of a finite set that has as many elements is the whole set. */
  lemma SubsetOfSameSize<T>(a: set<T>, b: set<T>)
    requires a <= b && |a| == |b|
    ensures a == b
  {
    assert b == a + (b - a);
  }

  lemma SubsetSize<T>(a: set<T>, b: set<T>)
    requires a <= b
    ensures |a| <= |b|
  {
    assert b == a + (b - a);
  }
}
