/**
 Where the replicas of the experts live (pkg/simulator/moe.go, pkg/simulator/moe_trace_fidelity.go): how many
 replicas each expert gets, which ranks hold them, and the initial and the fixed placement.
 */
module Placement {
  import opened Arithmetic
  import opened Common
  import opened Sums
  import opened StableSort

  /** For every expert the ranks that hold a copy of it. */
  type Ranks = seq<seq<nat>>

  // ---------------------------------------------------------------- D'Hondt apportionment

  function Score(load: real, replicas: nat): real {
    load / (replicas + 1) as real
  }

  /** The expert below the cap whose next replica scores highest; the first one among equals. */
  function Best(load: seq<real>, replicas: seq<nat>, cap: nat, n: nat): Option<nat>
    requires n <= |load| == |replicas|
    ensures Best(load, replicas, cap, n).Some? ==> Best(load, replicas, cap, n).value < n
  {
    if n == 0 then None
    else
      var best := Best(load, replicas, cap, n - 1);
      if replicas[n - 1] >= cap then best
      else if best == None || Score(load[n - 1], replicas[n - 1]) > Score(load[best.value], replicas[best.value])
      then Some(n - 1) else best
  }

  predicate BeatsAt(load: seq<real>, replicas: seq<nat>, cap: nat, best: Option<nat>, j: nat)
    requires |load| == |replicas| && j < |load| && (best.Some? ==> best.value < |load|)
  {
    if best == None then replicas[j] >= cap
    else
      var b := best.value;
      && replicas[b] < cap
      && (replicas[j] < cap ==> Score(load[j], replicas[j]) <= Score(load[b], replicas[b]))
      && (replicas[j] < cap && j < b ==> Score(load[j], replicas[j]) < Score(load[b], replicas[b]))
  }

  lemma {:induction false} BestIsBest(load: seq<real>, replicas: seq<nat>, cap: nat, n: nat, j: nat)
    requires j < n <= |load| == |replicas|
    ensures BeatsAt(load, replicas, cap, Best(load, replicas, cap, n), j)
    decreases n
  {
    if j < n - 1 {
      BestIsBest(load, replicas, cap, n - 1, j);
    }
    if n >= 2 {
      BestIsBest(load, replicas, cap, n - 1, n - 2);
      var best := Best(load, replicas, cap, n - 1);
      if best.Some? {
        BestIsBest(load, replicas, cap, n - 1, best.value);
      }
    }
  }

  function Grow(load: seq<real>, replicas: seq<nat>, cap: nat): Option<seq<nat>>
    requires |load| == |replicas|
  {
    var best := Best(load, replicas, cap, |load|);
    if best == None then None else Some(replicas[best.value := replicas[best.value] + 1])
  }

  /** The replicas after n rounds; None when no expert could take another one. */
  function Apportion(load: seq<real>, cap: nat, n: nat): (r: Option<seq<nat>>)
    ensures r.Some? ==> |r.value| == |load|
  {
    if n == 0 then Some(seq(|load|, _ => 1))
    else
      var r := Apportion(load, cap, n - 1);
      if r == None then None else Grow(load, r.value, cap)
  }

  lemma {:induction false} SumAtLeastFull(replicas: seq<nat>, cap: nat)
    requires forall j :: 0 <= j < |replicas| ==> replicas[j] >= cap
    ensures Sum(replicas) >= |replicas| * cap
  {
    if replicas != [] {
      SumAtLeastFull(replicas[..|replicas| - 1], cap);
      assert |replicas| * cap == (|replicas| - 1) * cap + cap;
    }
  }

  lemma {:induction false} SumOfOnes(n: nat)
    ensures Sum(seq(n, _ => 1)) == n
  {
    if n > 0 {
      var s: seq<int> := seq(n, _ => 1);
      var t: seq<int> := seq(n - 1, _ => 1);
      assert s[..n - 1] == t;
      SumOfOnes(n - 1);
    }
  }

  predicate Apportioned(replicas: seq<nat>, cap: nat, total: nat) {
    Sum(replicas) == total && forall i :: 0 <= i < |replicas| ==> 1 <= replicas[i] <= cap
  }

  lemma GrowFacts(load: seq<real>, replicas: seq<nat>, cap: nat, total: nat)
    requires |load| == |replicas| && Apportioned(replicas, cap, total) && total < |load| * cap
    ensures Grow(load, replicas, cap).Some? && Apportioned(Grow(load, replicas, cap).value, cap, total + 1)
  {
    var best := Best(load, replicas, cap, |load|);
    if best == None {
      forall j | 0 <= j < |load| ensures replicas[j] >= cap {
        BestIsBest(load, replicas, cap, |load|, j);
      }
      SumAtLeastFull(replicas, cap);
    } else {
      BestIsBest(load, replicas, cap, |load|, best.value);
      SumUpdate(replicas, best.value, replicas[best.value] + 1);
    }
  }

  /** Every slot finds an expert, whatever the loads. */
  lemma {:induction false} ApportionFacts(load: seq<real>, cap: nat, n: nat)
    requires |load| + n <= |load| * cap
    ensures Apportion(load, cap, n).Some? && Apportioned(Apportion(load, cap, n).value, cap, |load| + n)
  {
    if n == 0 {
      SumOfOnes(|load|);
    } else {
      ApportionFacts(load, cap, n - 1);
      GrowFacts(load, Apportion(load, cap, n - 1).value, cap, |load| + n - 1);
    }
  }

  lemma ScoreFalls(load: real, replicas: nat)
    requires load >= 0.0
    ensures Score(load, replicas) >= Score(load, replicas + 1)
  {
  }

  /** The last replica of i was worth at least what one more replica of j would be, and more than that if j is lower. */
  predicate ExchangeAt(load: seq<real>, replicas: seq<nat>, cap: nat, i: nat, j: nat)
    requires |load| == |replicas| && i < |load| && j < |load|
  {
    replicas[i] > 1 && replicas[j] < cap ==>
      && Score(load[i], replicas[i] - 1) >= Score(load[j], replicas[j])
      && (j < i ==> Score(load[i], replicas[i] - 1) > Score(load[j], replicas[j]))
  }

  ghost predicate ExchangeOptimal(load: seq<real>, replicas: seq<nat>, cap: nat)
    requires |load| == |replicas|
  {
    forall i, j :: 0 <= i < |load| && 0 <= j < |load| ==> ExchangeAt(load, replicas, cap, i, j)
  }

  lemma GrowKeepsExchange(load: seq<real>, replicas: seq<nat>, cap: nat, b: nat, i: nat, j: nat)
    requires |load| == |replicas| && i < |load| && j < |load|
    requires Best(load, replicas, cap, |load|) == Some(b) && replicas[b] >= 1 && load[b] >= 0.0
    requires ExchangeAt(load, replicas, cap, i, j) && ExchangeAt(load, replicas, cap, i, b)
    ensures ExchangeAt(load, replicas[b := replicas[b] + 1], cap, i, j)
  {
    BestIsBest(load, replicas, cap, |load|, j);
    ScoreFalls(load[b], replicas[b]);
  }

  /** D'Hondt is exchange-optimal: no replica would score higher with another expert. */
  lemma {:induction false} ApportionIsExchangeOptimal(load: seq<real>, cap: nat, n: nat)
    requires forall i :: 0 <= i < |load| ==> load[i] >= 0.0
    requires |load| + n <= |load| * cap
    ensures Apportion(load, cap, n).Some? && ExchangeOptimal(load, Apportion(load, cap, n).value, cap)
  {
    ApportionFacts(load, cap, n);
    if n > 0 {
      ApportionFacts(load, cap, n - 1);
      ApportionIsExchangeOptimal(load, cap, n - 1);
      var replicas := Apportion(load, cap, n - 1).value;
      var b := Best(load, replicas, cap, |load|).value;
      forall i, j | 0 <= i < |load| && 0 <= j < |load|
        ensures ExchangeAt(load, Apportion(load, cap, n).value, cap, i, j)
      {
        assert ExchangeAt(load, replicas, cap, i, j) && ExchangeAt(load, replicas, cap, i, b);
        GrowKeepsExchange(load, replicas, cap, b, i, j);
      }
    }
  }

  lemma {:induction false} SumPointwise(a: seq<nat>, b: seq<nat>)
    requires |a| == |b| && forall i :: 0 <= i < |a| ==> a[i] <= b[i]
    ensures Sum(a) <= Sum(b) && (Sum(a) == Sum(b) ==> a == b)
  {
    if a != [] {
      SumPointwise(a[..|a| - 1], b[..|b| - 1]);
      assert a == a[..|a| - 1] + [a[|a| - 1]];
      assert b == b[..|b| - 1] + [b[|b| - 1]];
    }
  }

  lemma ScoreFallsTo(load: real, few: nat, many: nat)
    requires load >= 0.0 && few <= many
    ensures Score(load, few) >= Score(load, many)
  {
  }

  /**
   An exchange-optimal apportionment maximises the score of the least valuable extra replica: every other one with as
   many replicas has an extra replica worth no more than any extra replica of this one.
   */
  lemma ExchangeOptimalIsMaximin(load: seq<real>, replicas: seq<nat>, other: seq<nat>, cap: nat, total: nat)
    requires |load| == |replicas| == |other|
    requires forall i :: 0 <= i < |load| ==> load[i] >= 0.0
    requires Apportioned(replicas, cap, total) && Apportioned(other, cap, total) && other != replicas
    requires ExchangeOptimal(load, replicas, cap)
    ensures exists k :: 0 <= k < |load| && other[k] > 1 &&
              forall i :: 0 <= i < |load| && replicas[i] > 1 ==>
                  Score(load[k], other[k] - 1) <= Score(load[i], replicas[i] - 1)
  {
    if forall k :: 0 <= k < |load| ==> other[k] <= replicas[k] {
      SumPointwise(other, replicas);
    }
    var k :| 0 <= k < |load| && other[k] > replicas[k];
    forall i | 0 <= i < |load| && replicas[i] > 1
      ensures Score(load[k], other[k] - 1) <= Score(load[i], replicas[i] - 1)
    {
      assert ExchangeAt(load, replicas, cap, i, k);
      ScoreFallsTo(load[k], replicas[k], other[k] - 1);
    }
  }

  lemma SomewhereMore(a: seq<nat>, b: seq<nat>)
    requires |a| == |b| && Sum(a) == Sum(b) && a != b
    ensures exists k :: 0 <= k < |a| && a[k] > b[k]
  {
    if forall k :: 0 <= k < |a| ==> a[k] <= b[k] {
      SumPointwise(a, b);
    }
  }

  /** With these loads there is only one exchange-optimal apportionment, since ties go to the lower expert. */
  lemma ExchangeOptimalIsUnique(load: seq<real>, replicas: seq<nat>, other: seq<nat>, cap: nat, total: nat)
    requires |load| == |replicas| == |other|
    requires forall i :: 0 <= i < |load| ==> load[i] >= 0.0
    requires Apportioned(replicas, cap, total) && Apportioned(other, cap, total)
    requires ExchangeOptimal(load, replicas, cap) && ExchangeOptimal(load, other, cap)
    ensures replicas == other
  {
    if replicas != other {
      SomewhereMore(replicas, other);
      SomewhereMore(other, replicas);
      var i :| 0 <= i < |load| && replicas[i] > other[i];
      var k :| 0 <= k < |load| && other[k] > replicas[k];
      assert ExchangeAt(load, replicas, cap, i, k) && ExchangeAt(load, other, cap, k, i);
      ScoreFallsTo(load[k], replicas[k], other[k] - 1);
      ScoreFallsTo(load[i], other[i], replicas[i] - 1);
    }
  }

  // ---------------------------------------------------------------- ranks for the replicas

  function Occupancy(slots: seq<nat>): nat -> real {
    (rank: nat) => if rank < |slots| then slots[rank] as real else 0.0
  }

  /** Experts with many replicas come first. */
  function ByReplicas(replicas: seq<nat>): nat -> real {
    (expert: nat) => if expert < |replicas| then -(replicas[expert] as real) else 0.0
  }

  /** The ranks for one expert: the least filled ones, lower ranks first among equals. */
  function Chosen(slots: seq<nat>, count: nat): (c: seq<nat>)
    requires count <= |slots|
    ensures |c| == count && forall i :: 0 <= i < |c| ==> c[i] < |slots|
  {
    SortUpTo(|slots|, Occupancy(slots));
    Sort(UpTo(|slots|), Occupancy(slots))[..count]
  }

  function Bump(slots: seq<nat>, ranks: seq<nat>): (r: seq<nat>)
    requires forall i :: 0 <= i < |ranks| ==> ranks[i] < |slots|
    ensures |r| == |slots|
  {
    if ranks == [] then slots
    else
      var s := Bump(slots, ranks[..|ranks| - 1]);
      s[ranks[|ranks| - 1] := s[ranks[|ranks| - 1]] + 1]
  }

  /** The first rank is less filled, or as filled and lower. */
  predicate Prefers(slots: seq<nat>, a: nat, b: nat)
    requires a < |slots| && b < |slots|
  {
    slots[a] < slots[b] || (slots[a] == slots[b] && a < b)
  }

  /** The preferred ranks in turn: every earlier one before every later one, all before those left out. */
  ghost predicate Greedy(slots: seq<nat>, ranks: seq<nat>) {
    && (forall i :: 0 <= i < |ranks| ==> ranks[i] < |slots|)
    && (forall i, j :: 0 <= i < j < |ranks| ==> Prefers(slots, ranks[i], ranks[j]))
    && (forall i, b :: 0 <= i < |ranks| && 0 <= b < |slots| && b !in ranks ==> Prefers(slots, ranks[i], b))
  }

  lemma ChosenIsGreedy(slots: seq<nat>, count: nat)
    requires count <= |slots|
    ensures Greedy(slots, Chosen(slots, count))
  {
    var key := Occupancy(slots);
    SortUpTo(|slots|, key);
    SortInOrder(UpTo(|slots|), key);
    var all := Sort(UpTo(|slots|), key);
    var c := Chosen(slots, count);
    forall i, j | 0 <= i < j < |all| ensures Prefers(slots, all[i], all[j]) {
      assert key(all[i]) < key(all[j]) || (key(all[i]) == key(all[j]) && all[i] < all[j]);
    }
    forall i, b | 0 <= i < |c| && 0 <= b < |slots| && b !in c ensures Prefers(slots, c[i], b) {
      assert b in all;
      var j :| 0 <= j < |all| && all[j] == b;
      assert forall k :: 0 <= k < count ==> c[k] == all[k] && c[k] in c;
    }
  }

  lemma ChosenFacts(slots: seq<nat>, count: nat)
    requires count <= |slots|
    ensures var c := Chosen(slots, count);
            && |c| == count && Distinct(c)
            && (forall i :: 0 <= i < |c| ==> c[i] < |slots|)
            && (forall a: nat, b: nat :: a in c && b < |slots| && b !in c ==> slots[a] <= slots[b])
  {
    SortUpTo(|slots|, Occupancy(slots));
    var all := Sort(UpTo(|slots|), Occupancy(slots));
    var c := Chosen(slots, count);
    forall a: nat, b: nat | a in c && b < |slots| && b !in c ensures slots[a] <= slots[b] {
      var i :| 0 <= i < |c| && c[i] == a;
      assert b in all;
      var j :| 0 <= j < |all| && all[j] == b;
      assert all[i] == a && forall k :: 0 <= k < count ==> c[k] == all[k];
      assert Occupancy(slots)(all[i]) <= Occupancy(slots)(all[j]);
    }
  }

  lemma {:induction false} BumpFacts(slots: seq<nat>, ranks: seq<nat>)
    requires Distinct(ranks) && forall i :: 0 <= i < |ranks| ==> ranks[i] < |slots|
    ensures Sum(Bump(slots, ranks)) == Sum(slots) + |ranks|
    ensures forall a :: 0 <= a < |slots| ==> Bump(slots, ranks)[a] == slots[a] + (if a in ranks then 1 else 0)
  {
    if ranks != [] {
      var n := |ranks| - 1;
      BumpFacts(slots, ranks[..n]);
      var s := Bump(slots, ranks[..n]);
      SumUpdate(s, ranks[n], s[ranks[n]] + 1);
      assert ranks == ranks[..n] + [ranks[n]];
    }
  }

  /** No two ranks differ by more than one slot. */
  ghost predicate Balanced(slots: seq<nat>) {
    forall a, b :: 0 <= a < |slots| && 0 <= b < |slots| ==> slots[a] <= slots[b] + 1
  }

  lemma BumpKeepsBalance(slots: seq<nat>, count: nat)
    requires Balanced(slots) && count <= |slots|
    ensures Balanced(Bump(slots, Chosen(slots, count)))
  {
    ChosenFacts(slots, count);
    BumpFacts(slots, Chosen(slots, count));
  }

  datatype Layout = Layout(ranks: Ranks, slots: seq<nat>)

  predicate Placeable(order: seq<nat>, replicas: seq<nat>, gpus: nat) {
    forall i :: 0 <= i < |order| ==> order[i] < |replicas| && replicas[order[i]] <= gpus
  }

  /** Gives each expert of the order in turn its least-filled ranks. */
  function Place(order: seq<nat>, replicas: seq<nat>, gpus: nat): (l: Layout)
    requires Placeable(order, replicas, gpus)
    ensures |l.ranks| == |replicas| && |l.slots| == gpus
  {
    if order == [] then Layout(seq(|replicas|, _ => []), seq(gpus, _ => 0))
    else
      var l := Place(order[..|order| - 1], replicas, gpus);
      var e := order[|order| - 1];
      var c := Chosen(l.slots, replicas[e]);
      Layout(l.ranks[e := l.ranks[e] + c], Bump(l.slots, c))
  }

  predicate GoodRanks(ranks: seq<nat>, gpus: nat) {
    (forall i, j :: 0 <= i < j < |ranks| ==> ranks[i] != ranks[j]) && forall i :: 0 <= i < |ranks| ==> ranks[i] < gpus
  }

  lemma {:induction false} PlacedAt(order: seq<nat>, replicas: seq<nat>, gpus: nat, e: nat)
    requires Placeable(order, replicas, gpus) && Distinct(order) && e < |replicas|
    ensures var r := Place(order, replicas, gpus).ranks[e];
            if e in order then |r| == replicas[e] && GoodRanks(r, gpus) else r == []
  {
    if order != [] {
      var n := |order| - 1;
      PlacedAt(order[..n], replicas, gpus, e);
      assert order == order[..n] + [order[n]];
      var l := Place(order[..n], replicas, gpus);
      ChosenFacts(l.slots, replicas[order[n]]);
      EmptyConcat(Chosen(l.slots, replicas[order[n]]));
    }
  }

  lemma {:induction false} PlacedBalanced(order: seq<nat>, replicas: seq<nat>, gpus: nat)
    requires Placeable(order, replicas, gpus)
    ensures Balanced(Place(order, replicas, gpus).slots)
  {
    if order != [] {
      var n := |order| - 1;
      PlacedBalanced(order[..n], replicas, gpus);
      BumpKeepsBalance(Place(order[..n], replicas, gpus).slots, replicas[order[n]]);
    }
  }

  function Lengths(ranks: Ranks): seq<int> {
    seq(|ranks|, e requires 0 <= e < |ranks| => |ranks[e]|)
  }

  function Indicator(ranks: Ranks, rank: nat): seq<nat> {
    seq(|ranks|, e requires 0 <= e < |ranks| => if rank in ranks[e] then 1 else 0)
  }

  /** How many experts a rank holds. */
  function Held(ranks: Ranks, rank: nat): nat {
    SumIsNatural(Indicator(ranks, rank));
    Sum(Indicator(ranks, rank))
  }

  lemma {:induction false} PlacedTotals(order: seq<nat>, replicas: seq<nat>, gpus: nat)
    requires Placeable(order, replicas, gpus) && Distinct(order)
    ensures var l := Place(order, replicas, gpus); Sum(l.slots) == Sum(Lengths(l.ranks))
  {
    if order == [] {
      SumOfZeros(Place(order, replicas, gpus).slots);
      SumOfZeros(Lengths(Place(order, replicas, gpus).ranks));
    } else {
      var n := |order| - 1;
      PlacedTotals(order[..n], replicas, gpus);
      var l, e := Place(order[..n], replicas, gpus), order[n];
      var c := Chosen(l.slots, replicas[e]);
      ChosenFacts(l.slots, replicas[e]);
      BumpFacts(l.slots, c);
      var ranks' := l.ranks[e := l.ranks[e] + c];
      assert Lengths(ranks') == Lengths(l.ranks)[e := |ranks'[e]|];
      SumUpdate(Lengths(l.ranks), e, |ranks'[e]|);
    }
  }

  lemma HeldGrows(ranks: Ranks, e: nat, c: seq<nat>, rank: nat)
    requires e < |ranks| && ranks[e] == []
    ensures Held(ranks[e := c], rank) == Held(ranks, rank) + (if rank in c then 1 else 0)
  {
    var one := if rank in c then 1 else 0;
    assert Indicator(ranks[e := c], rank) == Indicator(ranks, rank)[e := one];
    SumUpdate(Indicator(ranks, rank), e, one);
  }

  lemma HeldStep(l: Layout, e: nat, count: nat, rank: nat)
    requires e < |l.ranks| && l.ranks[e] == [] && rank < |l.slots| && count <= |l.slots|
    requires l.slots[rank] == Held(l.ranks, rank)
    ensures var c := Chosen(l.slots, count);
            |Bump(l.slots, c)| == |l.slots| && Bump(l.slots, c)[rank] == Held(l.ranks[e := l.ranks[e] + c], rank)
  {
    var c := Chosen(l.slots, count);
    ChosenFacts(l.slots, count);
    BumpFacts(l.slots, c);
    EmptyConcat(c);
    HeldGrows(l.ranks, e, c, rank);
  }

  lemma {:induction false} PlacedHeld(order: seq<nat>, replicas: seq<nat>, gpus: nat, rank: nat)
    requires Placeable(order, replicas, gpus) && Distinct(order) && rank < gpus
    ensures var l := Place(order, replicas, gpus); l.slots[rank] == Held(l.ranks, rank)
  {
    if order == [] {
      SumOfZeros(Indicator(Place(order, replicas, gpus).ranks, rank));
    } else {
      var n := |order| - 1;
      PlacedHeld(order[..n], replicas, gpus, rank);
      var l, e := Place(order[..n], replicas, gpus), order[n];
      assert e !in order[..n];
      PlacedAt(order[..n], replicas, gpus, e);
      HeldStep(l, e, replicas[e], rank);
    }
  }

  lemma {:induction false} SumBounds(s: seq<nat>, q: nat)
    ensures (forall i :: 0 <= i < |s| ==> s[i] <= q) ==>
              Sum(s) <= |s| * q && (Sum(s) == |s| * q ==> forall i :: 0 <= i < |s| ==> s[i] == q)
    ensures (forall i :: 0 <= i < |s| ==> s[i] >= q) ==>
              Sum(s) >= |s| * q && (Sum(s) == |s| * q ==> forall i :: 0 <= i < |s| ==> s[i] == q)
  {
    if s != [] {
      var n := |s| - 1;
      SumBounds(s[..n], q);
      assert |s| * q == n * q + q;
      assert forall i :: 0 <= i < n ==> s[i] == s[..n][i];
    }
  }

  /** Ranks that differ by at most one and together hold gpus * q slots hold q each. */
  lemma BalancedIsEqual(slots: seq<nat>, q: nat)
    requires Balanced(slots) && Sum(slots) == |slots| * q
    ensures forall a :: 0 <= a < |slots| ==> slots[a] == q
  {
    assert (forall b :: 0 <= b < |slots| ==> slots[b] <= q) || (forall b :: 0 <= b < |slots| ==> slots[b] >= q) by {
      if a :| 0 <= a < |slots| && slots[a] < q {
        assert forall b :: 0 <= b < |slots| ==> slots[b] <= slots[a] + 1;
      }
    }
    SumBounds(slots, q);
  }

  // ---------------------------------------------------------------- the whole placement of a layer

  datatype Placed = Placed(ranks: Ranks, replicas: seq<nat>)

  predicate ValidDimensions(experts: nat, slots: nat, gpus: nat) {
    gpus >= 1 && experts <= slots <= experts * gpus && slots % gpus == 0
  }

  /** Every expert is somewhere, and nowhere twice. */
  predicate ValidRanks(ranks: Ranks, experts: nat, gpus: nat) {
    |ranks| == experts && forall e :: 0 <= e < experts ==> ranks[e] != [] && GoodRanks(ranks[e], gpus)
  }

  function Order(replicas: seq<nat>): seq<nat> {
    Sort(UpTo(|replicas|), ByReplicas(replicas))
  }

  /** The expert is placed earlier: it has more replicas, or as many and a lower number. */
  predicate Earlier(replicas: seq<nat>, x: nat, e: nat)
    requires x < |replicas| && e < |replicas|
  {
    replicas[x] > replicas[e] || (replicas[x] == replicas[e] && x < e)
  }

  /** The experts before a position of the order are exactly those with more replicas, or as many and a lower number. */
  lemma EarlierIff(replicas: seq<nat>, n: nat, x: nat)
    requires n < |Order(replicas)| && x < |replicas|
    ensures var e := Order(replicas)[n];
            e < |replicas| && (x in Order(replicas)[..n] <==> Earlier(replicas, x, e))
  {
    var order, key := Order(replicas), ByReplicas(replicas);
    SortUpTo(|replicas|, key);
    SortInOrder(UpTo(|replicas|), key);
    assert x in order;
    var k :| 0 <= k < |order| && order[k] == x;
    if k < n {
      assert order[..n][k] == x;
      assert key(order[k]) < key(order[n]) || (key(order[k]) == key(order[n]) && order[k] < order[n]);
    } else {
      assert x !in order[..n];
      if k > n {
        assert key(order[n]) < key(order[k]) || (key(order[n]) == key(order[k]) && order[n] < order[k]);
      }
    }
  }

  lemma OrderFacts(replicas: seq<nat>, gpus: nat)
    requires forall e :: 0 <= e < |replicas| ==> replicas[e] <= gpus
    ensures Placeable(Order(replicas), replicas, gpus) && IsPermutationOf(Order(replicas), |replicas|)
  {
    SortUpTo(|replicas|, ByReplicas(replicas));
  }

  /** The replicas on their ranks; None when some rank does not end up with its share. */
  function PlaceReplicas(replicas: seq<nat>, perRank: nat, gpus: nat): Option<Placed>
    requires forall e :: 0 <= e < |replicas| ==> replicas[e] <= gpus
  {
    OrderFacts(replicas, gpus);
    var l := Place(Order(replicas), replicas, gpus);
    if exists r :: 0 <= r < |l.slots| && l.slots[r] != perRank then None else Some(Placed(l.ranks, replicas))
  }

  function DhondtWith(load: seq<real>, extra: nat, perRank: nat, gpus: nat): Option<Placed>
    requires |load| + extra <= |load| * gpus
  {
    var replicas := Apportion(load, gpus, extra);
    if replicas == None then None
    else
      ApportionFacts(load, gpus, extra);
      PlaceReplicas(replicas.value, perRank, gpus)
  }

  /** The D'Hondt placement of a layer; None wherever the program panics. */
  function Dhondt(load: seq<real>, slots: nat, gpus: nat): Option<Placed> {
    if gpus == 0 || slots < |load| || slots % gpus != 0 || slots > |load| * gpus then None
    else DhondtWith(load, slots - |load|, slots / gpus, gpus)
  }

  lemma LengthsAre(ranks: Ranks, replicas: seq<nat>)
    requires |ranks| == |replicas| && forall e :: 0 <= e < |ranks| ==> |ranks[e]| == replicas[e]
    ensures Lengths(ranks) == replicas
  {
  }

  lemma PlacedLengths(order: seq<nat>, replicas: seq<nat>, gpus: nat)
    requires IsPermutationOf(order, |replicas|) && Placeable(order, replicas, gpus)
    requires forall e :: 0 <= e < |replicas| ==> replicas[e] >= 1
    ensures var l := Place(order, replicas, gpus);
            ValidRanks(l.ranks, |replicas|, gpus) && forall e :: 0 <= e < |replicas| ==> |l.ranks[e]| == replicas[e]
  {
    var l := Place(order, replicas, gpus);
    forall e | 0 <= e < |replicas| ensures |l.ranks[e]| == replicas[e] && GoodRanks(l.ranks[e], gpus) {
      PlacedAt(order, replicas, gpus, e);
    }
  }

  lemma PlacedEqually(order: seq<nat>, replicas: seq<nat>, gpus: nat, q: nat)
    requires IsPermutationOf(order, |replicas|) && Placeable(order, replicas, gpus)
    requires forall e :: 0 <= e < |replicas| ==> replicas[e] >= 1
    requires Sum(replicas) == gpus * q
    ensures var l := Place(order, replicas, gpus);
            forall r :: 0 <= r < gpus ==> l.slots[r] == q == Held(l.ranks, r)
  {
    var l := Place(order, replicas, gpus);
    PlacedLengths(order, replicas, gpus);
    LengthsAre(l.ranks, replicas);
    PlacedTotals(order, replicas, gpus);
    PlacedBalanced(order, replicas, gpus);
    BalancedIsEqual(l.slots, q);
    forall r | 0 <= r < gpus ensures l.slots[r] == Held(l.ranks, r) {
      PlacedHeld(order, replicas, gpus, r);
    }
  }

  ghost predicate PlacedWell(l: Layout, replicas: seq<nat>, gpus: nat, q: nat) {
    && |l.slots| == gpus && ValidRanks(l.ranks, |replicas|, gpus)
    && (forall e :: 0 <= e < |replicas| ==> |l.ranks[e]| == replicas[e])
    && (forall r :: 0 <= r < gpus ==> l.slots[r] == q == Held(l.ranks, r))
  }

  lemma PlaceFacts(replicas: seq<nat>, slots: nat, gpus: nat, q: nat)
    requires Apportioned(replicas, gpus, slots) && slots == gpus * q
    ensures Placeable(Order(replicas), replicas, gpus)
    ensures PlacedWell(Place(Order(replicas), replicas, gpus), replicas, gpus, q)
  {
    OrderFacts(replicas, gpus);
    PlacedLengths(Order(replicas), replicas, gpus);
    PlacedEqually(Order(replicas), replicas, gpus, q);
  }

  // ---------------------------------------------------------------- which ranks an expert gets

  lemma {:induction false} PlacedStays(order: seq<nat>, replicas: seq<nat>, gpus: nat, n: nat, e: nat)
    requires Placeable(order, replicas, gpus) && Distinct(order) && n <= |order| && e < |replicas|
    requires e in order[..n] || e !in order
    ensures Place(order, replicas, gpus).ranks[e] == Place(order[..n], replicas, gpus).ranks[e]
  {
    if n == |order| {
      assert order[..n] == order;
    } else {
      var m := |order| - 1;
      assert order[..m][..n] == order[..n];
      assert order == order[..m] + [order[m]];
      PlacedStays(order[..m], replicas, gpus, n, e);
    }
  }

  lemma PlacedAtItsTurn(order: seq<nat>, replicas: seq<nat>, gpus: nat, n: nat)
    requires Placeable(order, replicas, gpus) && Distinct(order) && n < |order|
    ensures Place(order, replicas, gpus).ranks[order[n]] ==
            Chosen(Place(order[..n], replicas, gpus).slots, replicas[order[n]])
  {
    var l, e := Place(order[..n], replicas, gpus), order[n];
    TakeNext(order, n);
    assert order[..n + 1][n] == e;
    PlacedStays(order, replicas, gpus, n + 1, e);
    assert e !in order[..n];
    PlacedAt(order[..n], replicas, gpus, e);
    EmptyConcat(Chosen(l.slots, replicas[e]));
  }

  /** The ranks of the experts that are placed earlier; the others do not have any yet. */
  function EarlierRanks(ranks: Ranks, replicas: seq<nat>, e: nat): (r: Ranks)
    requires |ranks| == |replicas| && e < |ranks|
    ensures |r| == |ranks|
  {
    seq(|ranks|, x requires 0 <= x < |ranks| => if Earlier(replicas, x, e) then ranks[x] else [])
  }

  /** How many of the experts placed earlier each rank holds. */
  function FilledBefore(ranks: Ranks, replicas: seq<nat>, gpus: nat, e: nat): (f: seq<nat>)
    requires |ranks| == |replicas| && e < |ranks|
    ensures |f| == gpus && forall r :: 0 <= r < gpus ==> f[r] == Held(EarlierRanks(ranks, replicas, e), r)
  {
    seq(gpus, r requires 0 <= r < gpus => Held(EarlierRanks(ranks, replicas, e), r))
  }

  /** Every expert in its turn takes the least filled ranks, the lower one of two equally filled. */
  ghost predicate PlacedInTurn(ranks: Ranks, replicas: seq<nat>, gpus: nat) {
    && |ranks| == |replicas|
    && forall e :: 0 <= e < |ranks| ==> Greedy(FilledBefore(ranks, replicas, gpus, e), ranks[e])
  }

  lemma PrefixIsEarlier(replicas: seq<nat>, gpus: nat, n: nat)
    requires forall e :: 0 <= e < |replicas| ==> replicas[e] <= gpus
    requires n < |Order(replicas)| && Placeable(Order(replicas), replicas, gpus)
    ensures var order := Order(replicas);
            && order[n] < |replicas|
            && Place(order[..n], replicas, gpus).slots ==
               FilledBefore(Place(order, replicas, gpus).ranks, replicas, gpus, order[n])
  {
    var order := Order(replicas);
    OrderFacts(replicas, gpus);
    var all, l, e := Place(order, replicas, gpus).ranks, Place(order[..n], replicas, gpus), order[n];
    forall x | 0 <= x < |replicas| ensures l.ranks[x] == if Earlier(replicas, x, e) then all[x] else [] {
      EarlierIff(replicas, n, x);
      if x in order[..n] {
        PlacedStays(order, replicas, gpus, n, x);
      } else {
        PlacedAt(order[..n], replicas, gpus, x);
      }
    }
    assert l.ranks == EarlierRanks(all, replicas, e);
    forall r | 0 <= r < gpus ensures l.slots[r] == Held(l.ranks, r) {
      PlacedHeld(order[..n], replicas, gpus, r);
    }
  }

  lemma PlacesInTurn(replicas: seq<nat>, gpus: nat)
    requires forall e :: 0 <= e < |replicas| ==> replicas[e] <= gpus
    ensures Placeable(Order(replicas), replicas, gpus)
    ensures PlacedInTurn(Place(Order(replicas), replicas, gpus).ranks, replicas, gpus)
  {
    var order := Order(replicas);
    OrderFacts(replicas, gpus);
    var ranks := Place(order, replicas, gpus).ranks;
    forall e: nat | e < |ranks| ensures Greedy(FilledBefore(ranks, replicas, gpus, e), ranks[e]) {
      assert e in order;
      var n :| 0 <= n < |order| && order[n] == e;
      PrefixIsEarlier(replicas, gpus, n);
      PlacedAtItsTurn(order, replicas, gpus, n);
      ChosenIsGreedy(Place(order[..n], replicas, gpus).slots, replicas[e]);
    }
  }

  ghost predicate DhondtWell(p: Placed, experts: nat, slots: nat, gpus: nat, q: nat) {
    && Apportioned(p.replicas, gpus, slots) && |p.replicas| == experts
    && ValidRanks(p.ranks, experts, gpus)
    && (forall e :: 0 <= e < experts ==> |p.ranks[e]| == p.replicas[e])
    && (forall r :: 0 <= r < gpus ==> Held(p.ranks, r) == q)
  }

  lemma PlaceReplicasFacts(replicas: seq<nat>, slots: nat, gpus: nat, q: nat)
    requires Apportioned(replicas, gpus, slots) && slots == gpus * q
    ensures PlaceReplicas(replicas, q, gpus).Some? &&
            DhondtWell(PlaceReplicas(replicas, q, gpus).value, |replicas|, slots, gpus, q)
  {
    PlaceFacts(replicas, slots, gpus, q);
  }

  lemma DhondtWithFacts(load: seq<real>, extra: nat, q: nat, gpus: nat)
    requires |load| + extra <= |load| * gpus && |load| + extra == gpus * q
    ensures DhondtWith(load, extra, q, gpus).Some? &&
            DhondtWell(DhondtWith(load, extra, q, gpus).value, |load|, |load| + extra, gpus, q)
  {
    ApportionFacts(load, gpus, extra);
    PlaceReplicasFacts(Apportion(load, gpus, extra).value, |load| + extra, gpus, q);
  }

  /** D'Hondt placement never panics on valid dimensions, and fills every rank equally, whatever the loads. */
  lemma DhondtFillsRanksEqually(load: seq<real>, slots: nat, gpus: nat)
    ensures Dhondt(load, slots, gpus).Some? <==> ValidDimensions(|load|, slots, gpus)
    ensures ValidDimensions(|load|, slots, gpus) ==>
            DhondtWell(Dhondt(load, slots, gpus).value, |load|, slots, gpus, slots / gpus)
  {
    if ValidDimensions(|load|, slots, gpus) {
      ExactDivision(slots, gpus);
      DhondtWithFacts(load, slots - |load|, slots / gpus, gpus);
    }
  }

  ghost predicate NonNegative(load: seq<real>) {
    forall i :: 0 <= i < |load| ==> load[i] >= 0.0
  }

  /**
   What the copies of a layer owe to its load: the apportionment, and the ranks that each expert takes in its turn.
   */
  ghost predicate FollowsLoad(load: seq<real>, p: Placed, gpus: nat) {
    && |p.replicas| == |load| && PlacedInTurn(p.ranks, p.replicas, gpus)
    && (NonNegative(load) ==> ExchangeOptimal(load, p.replicas, gpus))
  }

  lemma DhondtWithFollowsLoad(load: seq<real>, extra: nat, q: nat, gpus: nat)
    requires |load| + extra <= |load| * gpus && |load| + extra == gpus * q
    ensures DhondtWith(load, extra, q, gpus).Some? && FollowsLoad(load, DhondtWith(load, extra, q, gpus).value, gpus)
  {
    DhondtWithFacts(load, extra, q, gpus);
    ApportionFacts(load, gpus, extra);
    PlacesInTurn(Apportion(load, gpus, extra).value, gpus);
    if NonNegative(load) {
      ApportionIsExchangeOptimal(load, gpus, extra);
    }
  }

  /** The placement follows the loads: its replicas are exchange-optimal for them and placed in turn. */
  lemma DhondtFollowsLoad(load: seq<real>, slots: nat, gpus: nat)
    requires ValidDimensions(|load|, slots, gpus)
    ensures Dhondt(load, slots, gpus).Some? && FollowsLoad(load, Dhondt(load, slots, gpus).value, gpus)
  {
    ExactDivision(slots, gpus);
    DhondtWithFollowsLoad(load, slots - |load|, slots / gpus, gpus);
  }

  predicate SharesAt(load: seq<real>, ranks: Ranks, gpus: nat, i: nat, j: nat)
    requires |load| == |ranks| && i < |load| && j < |load|
  {
    |ranks[i]| > 1 && |ranks[j]| < gpus ==>
      && load[i] / |ranks[i]| as real >= load[j] / (|ranks[j]| + 1) as real
      && (j < i ==> load[i] / |ranks[i]| as real > load[j] / (|ranks[j]| + 1) as real)
  }

  /**
   No copy of an expert serves less load than a further copy of another one would, nor as much as one of a lower one.
   */
  ghost predicate SharesByLoad(load: seq<real>, ranks: Ranks, gpus: nat) {
    |load| == |ranks| && forall i, j :: 0 <= i < |load| && 0 <= j < |load| ==> SharesAt(load, ranks, gpus, i, j)
  }

  lemma DhondtSharesByLoad(load: seq<real>, slots: nat, gpus: nat)
    requires ValidDimensions(|load|, slots, gpus) && NonNegative(load)
    ensures Dhondt(load, slots, gpus).Some? && SharesByLoad(load, Dhondt(load, slots, gpus).value.ranks, gpus)
  {
    DhondtFillsRanksEqually(load, slots, gpus);
    DhondtFollowsLoad(load, slots, gpus);
    var p := Dhondt(load, slots, gpus).value;
    forall i, j | 0 <= i < |load| && 0 <= j < |load| ensures SharesAt(load, p.ranks, gpus, i, j) {
      assert ExchangeAt(load, p.replicas, gpus, i, j);
    }
  }

  /** The replicas of the placement are the only exchange-optimal ones that fill the slots. */
  lemma DhondtReplicasIff(load: seq<real>, slots: nat, gpus: nat, replicas: seq<nat>)
    requires ValidDimensions(|load|, slots, gpus) && NonNegative(load) && |replicas| == |load|
    ensures Dhondt(load, slots, gpus).Some?
    ensures replicas == Dhondt(load, slots, gpus).value.replicas <==>
            Apportioned(replicas, gpus, slots) && ExchangeOptimal(load, replicas, gpus)
  {
    DhondtFillsRanksEqually(load, slots, gpus);
    DhondtFollowsLoad(load, slots, gpus);
    if Apportioned(replicas, gpus, slots) && ExchangeOptimal(load, replicas, gpus) {
      ExchangeOptimalIsUnique(load, replicas, Dhondt(load, slots, gpus).value.replicas, gpus, slots);
    }
  }
}
