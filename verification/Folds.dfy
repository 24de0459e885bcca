/** Folding a sequence with steps that commute does not depend on its order. */
module Folds {
  import opened Common

  function Fold<S, R>(step: (S, R) -> S, s: S, rs: seq<R>): S {
    if rs == [] then s else step(Fold(step, s, rs[..|rs| - 1]), rs[|rs| - 1])
  }

  ghost predicate Commutes<S(!new), R(!new)>(step: (S, R) -> S) {
    forall s, a, b :: step(step(s, a), b) == step(step(s, b), a)
  }

  lemma FoldAppend<S, R>(step: (S, R) -> S, s: S, rs: seq<R>, r: R)
    ensures Fold(step, s, rs + [r]) == step(Fold(step, s, rs), r)
  {
  }

  /** An element can be moved behind everything that follows it. */
  lemma {:induction false} MoveToEnd<S(!new), R(!new)>(step: (S, R) -> S, s: S, before: seq<R>, r: R, after: seq<R>)
    requires Commutes(step)
    ensures Fold(step, s, before + [r] + after) == step(Fold(step, s, before + after), r)
  {
    if after == [] {
      EmptyConcat(before + [r]);
      EmptyConcat(before);
      FoldAppend(step, s, before, r);
    } else {
      var n := |after| - 1;
      MoveToEnd(step, s, before, r, after[..n]);
      assert before + [r] + after == (before + [r] + after[..n]) + [after[n]];
      FoldAppend(step, s, before + [r] + after[..n], after[n]);
      assert before + after == (before + after[..n]) + [after[n]];
      FoldAppend(step, s, before + after[..n], after[n]);
      var x := Fold(step, s, before + after[..n]);
      assert step(step(x, r), after[n]) == step(step(x, after[n]), r);
    }
  }

  lemma SplitAt<R>(b: seq<R>, j: nat)
    requires j < |b|
    ensures b == b[..j] + [b[j]] + b[j + 1..]
    ensures multiset(b) == multiset(b[..j] + b[j + 1..]) + multiset{b[j]}
  {
  }

  lemma WithoutLast<R>(a: seq<R>)
    requires a != []
    ensures multiset(a) == multiset(a[..|a| - 1]) + multiset{a[|a| - 1]}
  {
    assert a == a[..|a| - 1] + [a[|a| - 1]];
  }

  lemma Occurs<R>(a: seq<R>, b: seq<R>)
    requires a != [] && multiset(a) == multiset(b)
    ensures exists j :: 0 <= j < |b| && b[j] == a[|a| - 1]
  {
    var r := a[|a| - 1];
    assert r in multiset(a);
    assert r in multiset(b);
  }

  lemma SameWithout<R>(x: multiset<R>, y: multiset<R>, r: R)
    requires x + multiset{r} == y + multiset{r}
    ensures x == y
  {
    assert x == (x + multiset{r}) - multiset{r};
    assert y == (y + multiset{r}) - multiset{r};
  }

  lemma {:induction false} FoldOfPermutation<S(!new), R(!new)>(step: (S, R) -> S, s: S, a: seq<R>, b: seq<R>)
    requires Commutes(step) && multiset(a) == multiset(b)
    ensures Fold(step, s, a) == Fold(step, s, b)
    decreases |a|
  {
    if a == [] {
      assert |multiset(b)| == 0;
    } else {
      var n := |a| - 1;
      var r := a[n];
      Occurs(a, b);
      var j: nat :| j < |b| && b[j] == r;
      var before, after := b[..j], b[j + 1..];
      SplitAt(b, j);
      WithoutLast(a);
      SameWithout(multiset(a[..n]), multiset(before + after), r);
      MoveToEnd(step, s, before, r, after);
      FoldOfPermutation(step, s, a[..n], before + after);
    }
  }
}
