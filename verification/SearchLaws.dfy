/**
 The course of the local search (pkg/simulator/moe.go): which moves it makes, one after the other, and when it stops.
 */
module SearchLaws {
  import opened Common
  import opened LocalSearch
  import opened Placement
  import opened Routing

  /** The GPU that takes longest, the first of several. */
  ghost predicate FirstSlowest(c: Costs, s: State, slow: nat)
    requires Sane(c) && |s.held| == |s.loads|
  {
    && slow < |s.held|
    && (forall g :: 0 <= g < |s.held| ==> Cost(c, s, g) <= Cost(c, s, slow))
    && (forall g :: 0 <= g < slow ==> Cost(c, s, g) < Cost(c, s, slow))
  }

  lemma {:induction false} SlowestIsFirst(costs: seq<real>, n: nat)
    requires 1 <= n <= |costs|
    ensures var slow := Slowest(costs, n);
            && (forall g :: 0 <= g < n ==> costs[g] <= costs[slow])
            && (forall g :: 0 <= g < slow ==> costs[g] < costs[slow])
  {
    if n > 1 {
      SlowestIsFirst(costs, n - 1);
    }
  }

  function MoveAt(order: seq<nat>, placement: Ranks, k: nat, i: nat): Move
    requires k < |order| && order[k] < |placement| && i < |placement[order[k]]|
  {
    Move(order[k], placement[order[k]][i])
  }

  /** The slowest GPU has tokens of the k-th expert that its i-th GPU could take. */
  predicate Open(x: Search, slow: nat, order: seq<nat>, placement: Ranks, k: int, i: int) {
    && 0 <= k < |order| && order[k] < |placement| && 0 <= i < |placement[order[k]]|
    && Candidate(x, slow, MoveAt(order, placement, k, i))
  }

  function GainAt(c: Costs, x: Search, slow: nat, base: real, order: seq<nat>, placement: Ranks, k: int, i: int): real
    requires Sane(c) && Open(x, slow, order, placement, k, i)
  {
    Gain(c, x, slow, base, MoveAt(order, placement, k, i))
  }

  predicate Sooner(k: int, i: int, k': int, i': int) {
    k < k' || (k == k' && i < i')
  }

  // ---------------------------------------------------------------- the first best move

  /** No move among the first n experts gains more, and none tried sooner as much. */
  ghost predicate FirstBest(c: Costs, x: Search, slow: nat, base: real, order: seq<nat>, placement: Ranks, n: int,
                            k: int, i: int)
    requires Sane(c)
  {
    && k < n && Open(x, slow, order, placement, k, i)
    && forall k', i' :: k' < n && Open(x, slow, order, placement, k', i') ==>
         NoBetter(c, x, slow, base, order, placement, k, i, k', i')
  }

  predicate NoBetter(c: Costs, x: Search, slow: nat, base: real, order: seq<nat>, placement: Ranks, k: int, i: int,
                     k': int, i': int)
    requires Sane(c) && Open(x, slow, order, placement, k, i) && Open(x, slow, order, placement, k', i')
  {
    var gain, gain' := GainAt(c, x, slow, base, order, placement, k, i),
                       GainAt(c, x, slow, base, order, placement, k', i');
    gain' <= gain && (Sooner(k', i', k, i) ==> gain' < gain)
  }

  /** What was tried of the expert after the choice before it: the choice stands, or the first best of its moves. */
  lemma {:induction false} TryExpertFirst(c: Costs, x: Search, slow: nat, base: real, order: seq<nat>,
                                          placement: Ranks, k: nat, n: nat, ch: Choice) returns (i: int)
    requires Sane(c) && k < |order| && order[k] < |placement| && n <= |placement[order[k]]|
    ensures var r := TryExpert(c, x, slow, base, order[k], placement[order[k]], n, ch);
            && (i < 0 ==>
                  && r == ch
                  && forall j :: 0 <= j < n && Open(x, slow, order, placement, k, j) ==>
                       GainAt(c, x, slow, base, order, placement, k, j) <= ch.gain)
            && (i >= 0 ==>
                  && i < n && Open(x, slow, order, placement, k, i)
                  && r == Choice(GainAt(c, x, slow, base, order, placement, k, i), Some(MoveAt(order, placement, k, i)))
                  && r.gain > ch.gain
                  && forall j :: 0 <= j < n && Open(x, slow, order, placement, k, j) ==>
                       NoBetter(c, x, slow, base, order, placement, k, i, k, j))
  {
    if n == 0 {
      i := -1;
    } else {
      i := TryExpertFirst(c, x, slow, base, order, placement, k, n - 1, ch);
      var before := TryExpert(c, x, slow, base, order[k], placement[order[k]], n - 1, ch);
      if Open(x, slow, order, placement, k, n - 1) &&
         GainAt(c, x, slow, base, order, placement, k, n - 1) > before.gain {
        i := n - 1;
      }
    }
  }

  lemma {:induction false} TryAllFirst(c: Costs, x: Search, slow: nat, base: real, order: seq<nat>, placement: Ranks,
                                       n: nat) returns (k: int, i: int)
    requires Sane(c) && n <= |order| && forall j :: 0 <= j < |order| ==> order[j] < |placement|
    ensures var r := TryAll(c, x, slow, base, order, placement, n);
            && (k < 0 ==>
                  && r == Choice(MIN_GAIN, None)
                  && forall k', i' :: k' < n && Open(x, slow, order, placement, k', i') ==>
                       GainAt(c, x, slow, base, order, placement, k', i') <= MIN_GAIN)
            && (k >= 0 ==>
                  && FirstBest(c, x, slow, base, order, placement, n, k, i)
                  && r == Choice(GainAt(c, x, slow, base, order, placement, k, i), Some(MoveAt(order, placement, k, i)))
                  && r.gain > MIN_GAIN)
  {
    if n == 0 {
      k, i := -1, -1;
    } else {
      k, i := TryAllFirst(c, x, slow, base, order, placement, n - 1);
      var ch, e := TryAll(c, x, slow, base, order, placement, n - 1), order[n - 1];
      var j := TryExpertFirst(c, x, slow, base, order, placement, n - 1, |placement[e]|, ch);
      if j >= 0 {
        k, i := n - 1, j;
      }
    }
  }

  // ---------------------------------------------------------------- the course of the search

  function After(c: Costs, x: Search, slow: nat, m: Move): real
    requires Sane(c) && CanMove(x, slow, m)
  {
    Makespan(c, Moved(x, slow, m).state)
  }

  /** The move at (k, i) leads to the smallest makespan of all, and none tried sooner to as small a one. */
  ghost predicate LeadsLowest(c: Costs, x: Search, slow: nat, order: seq<nat>, placement: Ranks, k: int, i: int)
    requires Sane(c) && Open(x, slow, order, placement, k, i)
  {
    forall k', i' :: Open(x, slow, order, placement, k', i') ==> NoLower(c, x, slow, order, placement, k, i, k', i')
  }

  predicate NoLower(c: Costs, x: Search, slow: nat, order: seq<nat>, placement: Ranks, k: int, i: int, k': int,
                    i': int)
    requires Sane(c) && Open(x, slow, order, placement, k, i) && Open(x, slow, order, placement, k', i')
  {
    var after, after' := After(c, x, slow, MoveAt(order, placement, k, i)),
                         After(c, x, slow, MoveAt(order, placement, k', i'));
    after <= after' && (Sooner(k', i', k, i) ==> after < after')
  }

  /** One round: the first of the moves off the slowest GPU that lower the makespan most, and by more than MIN_GAIN. */
  ghost predicate Round(c: Costs, x: Search, order: seq<nat>, placement: Ranks, x': Search)
    requires Sane(c) && |x.state.held| == |x.state.loads|
  {
    exists slow: nat, k, i :: RoundBy(c, x, order, placement, x', slow, k, i)
  }

  ghost predicate RoundBy(c: Costs, x: Search, order: seq<nat>, placement: Ranks, x': Search, slow: nat, k: int,
                          i: int)
    requires Sane(c) && |x.state.held| == |x.state.loads|
  {
    && FirstSlowest(c, x.state, slow) && Open(x, slow, order, placement, k, i)
    && x' == Moved(x, slow, MoveAt(order, placement, k, i))
    && Cost(c, x.state, slow) - After(c, x, slow, MoveAt(order, placement, k, i)) > MIN_GAIN
    && LeadsLowest(c, x, slow, order, placement, k, i)
  }

  /** No move off the slowest GPU lowers the makespan by more than MIN_GAIN. */
  ghost predicate Settled(c: Costs, x: Search, order: seq<nat>, placement: Ranks)
    requires Sane(c) && |x.state.held| == |x.state.loads|
  {
    exists slow: nat :: FirstSlowest(c, x.state, slow) && NothingToGain(c, x, order, placement, slow)
  }

  ghost predicate NothingToGain(c: Costs, x: Search, order: seq<nat>, placement: Ranks, slow: nat)
    requires Sane(c) && |x.state.held| == |x.state.loads| && slow < |x.state.held|
  {
    forall k, i :: Open(x, slow, order, placement, k, i) ==>
      Cost(c, x.state, slow) - After(c, x, slow, MoveAt(order, placement, k, i)) <= MIN_GAIN
  }

  /** The search went through these states, round by round, until it was settled or had done all its rounds. */
  ghost predicate Searched(c: Costs, xs: seq<Search>, order: seq<nat>, placement: Ranks, rounds: nat)
    requires Sane(c)
  {
    && 1 <= |xs| <= rounds + 1 && (forall j :: 0 <= j < |xs| ==> |xs[j].state.held| == |xs[j].state.loads|)
    && (forall j :: 0 <= j < |xs| - 1 ==> Round(c, xs[j], order, placement, xs[j + 1]))
    && (|xs| == rounds + 1 || Settled(c, xs[|xs| - 1], order, placement))
  }

  lemma RoundIsRound(c: Costs, x: Search, order: seq<nat>, placement: Ranks)
    requires Sane(c) && Agree(x) && Searchable(x, order, placement)
    ensures var r := Improve(c, x, order, placement);
            if r == None then Settled(c, x, order, placement) else Round(c, x, order, placement, r.value)
  {
    var slow := SlowGpu(c, x);
    var base := Cost(c, x.state, slow);
    SlowestIsFirst(CostSeq(c, x.state), |x.state.held|);
    var costs := CostSeq(c, x.state);
    assert FirstSlowest(c, x.state, slow) by {
      assert forall g :: 0 <= g < |costs| ==> costs[g] == Cost(c, x.state, g);
    }
    var k, i := TryAllFirst(c, x, slow, base, order, placement, |order|);
    forall k', i' | Open(x, slow, order, placement, k', i')
      ensures GainAt(c, x, slow, base, order, placement, k', i') ==
              base - After(c, x, slow, MoveAt(order, placement, k', i'))
    {
      PredictionIsExact(c, x, slow, MoveAt(order, placement, k', i'));
    }
    if k >= 0 {
      forall k', i' | Open(x, slow, order, placement, k', i')
        ensures NoLower(c, x, slow, order, placement, k, i, k', i')
      {
        assert NoBetter(c, x, slow, base, order, placement, k, i, k', i');
      }
      assert RoundBy(c, x, order, placement, Moved(x, slow, MoveAt(order, placement, k, i)), slow, k, i);
    } else {
      assert NothingToGain(c, x, order, placement, slow);
    }
  }

  ghost predicate Alike(xs: seq<Search>, order: seq<nat>, placement: Ranks) {
    forall j :: 0 <= j < |xs| ==> Agree(xs[j]) && Searchable(xs[j], order, placement)
  }

  lemma ImprovedAgrees(c: Costs, x: Search, order: seq<nat>, placement: Ranks)
    requires Sane(c) && Agree(x) && Searchable(x, order, placement)
    ensures Agree(NextRound(c, x, order, placement))
  {
    var slow := SlowGpu(c, x);
    TryAllFacts(c, x, slow, Cost(c, x.state, slow), order, placement, |order|);
    var ch := LocalSearch.Best(c, x, order, placement);
    if ch.move.Some? {
      MoveKeepsAgreement(x, slow, ch.move.value);
    }
  }

  lemma LongerCourse(c: Costs, xs: seq<Search>, x: Search, order: seq<nat>, placement: Ranks)
    requires Sane(c) && xs != [] && Alike(xs, order, placement) && Agree(x) && Searchable(x, order, placement)
    requires forall j :: 0 <= j < |xs| - 1 ==> Round(c, xs[j], order, placement, xs[j + 1])
    requires Round(c, xs[|xs| - 1], order, placement, x)
    ensures var xs' := xs + [x];
            && Alike(xs', order, placement)
            && forall j :: 0 <= j < |xs'| - 1 ==> Round(c, xs'[j], order, placement, xs'[j + 1])
  {
    var xs' := xs + [x];
    forall j | 0 <= j < |xs'| - 1 ensures Round(c, xs'[j], order, placement, xs'[j + 1]) {
      if j < |xs| - 1 {
        assert xs'[j] == xs[j] && xs'[j + 1] == xs[j + 1];
      } else {
        assert xs'[j] == xs[|xs| - 1] && xs'[j + 1] == x;
      }
    }
  }

  lemma OneMoreRound(c: Costs, xs: seq<Search>, order: seq<nat>, placement: Ranks, rounds: nat)
    returns (xs': seq<Search>)
    requires Sane(c) && Alike(xs, order, placement) && Searched(c, xs, order, placement, rounds)
    requires |xs| == rounds + 1 || Improve(c, xs[|xs| - 1], order, placement) == None
    ensures Alike(xs', order, placement) && Searched(c, xs', order, placement, rounds + 1) && xs'[0] == xs[0]
    ensures |xs'| == rounds + 2 || Improve(c, xs'[|xs'| - 1], order, placement) == None
    ensures xs'[|xs'| - 1] == NextRound(c, xs[|xs| - 1], order, placement)
  {
    var last := xs[|xs| - 1];
    RoundIsRound(c, last, order, placement);
    ImprovedAgrees(c, last, order, placement);
    var r := Improve(c, last, order, placement);
    if r == None {
      xs' := xs;
    } else {
      xs' := xs + [r.value];
      LongerCourse(c, xs, r.value, order, placement);
    }
  }

  lemma NoRounds(c: Costs, x: Search, order: seq<nat>, placement: Ranks)
    requires Sane(c) && Agree(x) && Searchable(x, order, placement)
    ensures Alike([x], order, placement) && Searched(c, [x], order, placement, 0)
  {
  }

  /** The search goes from its start through best moves to its result, and ends there for one of the two reasons. */
  lemma {:induction false} SearchIsSearched(c: Costs, x: Search, order: seq<nat>, placement: Ranks, rounds: nat)
    returns (xs: seq<Search>)
    requires Sane(c) && Agree(x) && Searchable(x, order, placement)
    ensures Alike(xs, order, placement) && Searched(c, xs, order, placement, rounds)
    ensures xs[0] == x && xs[|xs| - 1] == Improved(c, x, order, placement, rounds)
    ensures |xs| == rounds + 1 || Improve(c, xs[|xs| - 1], order, placement) == None
    decreases rounds
  {
    if rounds == 0 {
      xs := [x];
      NoRounds(c, x, order, placement);
    } else {
      var before := SearchIsSearched(c, x, order, placement, rounds - 1);
      xs := OneMoreRound(c, before, order, placement, rounds - 1);
    }
  }
}
