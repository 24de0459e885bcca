/** Sums over sequences of integers and reals, and over finite sets. */
module Sums {

  function Sum(s: seq<int>): int {
    if s == [] then 0 else Sum(s[..|s| - 1]) + s[|s| - 1]
  }

  lemma {:induction false} SumUpdate(s: seq<int>, i: nat, x: int)
    requires i < |s|
    ensures Sum(s[i := x]) == Sum(s) - s[i] + x
  {
    var n := |s| - 1;
    if i == n {
      assert s[i := x][..n] == s[..n];
    } else {
      assert s[i := x][..n] == s[..n][i := x];
      SumUpdate(s[..n], i, x);
    }
  }

  lemma {:induction false} SumIsNatural(s: seq<int>)
    requires forall i :: 0 <= i < |s| ==> s[i] >= 0
    ensures Sum(s) >= 0
  {
    if s != [] {
      SumIsNatural(s[..|s| - 1]);
    }
  }

  lemma {:induction false} SumOfZeros(s: seq<int>)
    requires forall i :: 0 <= i < |s| ==> s[i] == 0
    ensures Sum(s) == 0
  {
    if s != [] {
      SumOfZeros(s[..|s| - 1]);
    }
  }

  function SumR(s: seq<real>): real {
    if s == [] then 0.0 else SumR(s[..|s| - 1]) + s[|s| - 1]
  }

  function RowOf(a: array2<real>, l: nat): (r: seq<real>)
    requires l < a.Length0
    reads a
    ensures |r| == a.Length1 && forall e: nat :: e < a.Length1 ==> r[e] == a[l, e]
  {
    seq(a.Length1, e requires 0 <= e < a.Length1 reads a => a[l, e])
  }

  lemma SumRAppend(s: seq<real>, x: real)
    ensures SumR(s + [x]) == SumR(s) + x
  {
  }

  lemma {:induction false} SumRUpdate(s: seq<real>, i: nat, x: real)
    requires i < |s|
    ensures SumR(s[i := x]) == SumR(s) - s[i] + x
  {
    var n := |s| - 1;
    if i == n {
      assert s[i := x][..n] == s[..n];
    } else {
      assert s[i := x][..n] == s[..n][i := x];
      SumRUpdate(s[..n], i, x);
    }
  }

  lemma {:induction false} SumRConstant(s: seq<real>, x: real)
    requires forall i :: 0 <= i < |s| ==> s[i] == x
    ensures SumR(s) == |s| as real * x
  {
    if s != [] {
      SumRConstant(s[..|s| - 1], x);
    }
  }

  /** Adding two sequences element by element adds their sums. */
  lemma {:induction false} SumRPointwise(a: seq<real>, b: seq<real>, c: seq<real>)
    requires |a| == |b| == |c| && forall i :: 0 <= i < |a| ==> c[i] == a[i] + b[i]
    ensures SumR(c) == SumR(a) + SumR(b)
  {
    if a != [] {
      SumRPointwise(a[..|a| - 1], b[..|b| - 1], c[..|c| - 1]);
    }
  }

  lemma {:induction false} SumRZeros(s: seq<real>)
    requires forall i :: 0 <= i < |s| ==> s[i] == 0.0
    ensures SumR(s) == 0.0
  {
    if s != [] {
      SumRZeros(s[..|s| - 1]);
    }
  }
}
