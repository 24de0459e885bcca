/**
 What the routers promise about every single expert (pkg/simulator/moe.go and pkg/simulator/moe_trace_fidelity.go): the
 parts of its demand, and the GPUs that get them, given what the experts routed before it left there.
 */
module RouterLaws {
  import opened Common
  import opened Placement
  import opened Routing
  import opened StableSort
  import opened Sums

  // ---------------------------------------------------------------- what one expert gets

  /** The GPUs hold these tokens of the expert, and no other GPU holds any. */
  ghost predicate Gets(s: State, e: nat, gpus: seq<nat>, parts: seq<real>) {
    && |gpus| == |parts|
    && (forall i :: 0 <= i < |gpus| ==> gpus[i] < |s.held| && At(s.held[gpus[i]], e) == parts[i])
    && (forall g :: 0 <= g < |s.held| && g !in gpus ==> e !in s.held[g])
  }

  /** Sorted by cost, equal costs as they were. */
  ghost predicate StablySorted(sorted: seq<nat>, ranks: seq<nat>, key: nat -> real) {
    && multiset(sorted) == multiset(ranks) && Sorted(sorted, key)
    && forall k: real :: WithKey(sorted, key, k) == WithKey(ranks, key, k)
  }

  /** The available number nearest to how often the time to read the weights fits into the computing time. */
  ghost predicate NearestCount(c: Costs, tokens: real, available: nat, r: nat)
    requires Sane(c)
  {
    var x := (tokens * c.flopsPerToken / c.flops) / (c.weightBytes / c.bandwidth);
    && 1 <= r <= available
    && forall q: nat :: 1 <= q <= available ==> NoFarther(x, r, q)
  }

  predicate NoFarther(x: real, r: nat, q: nat) {
    && Distance(x, r as real) <= Distance(x, q as real)
    && (Distance(x, r as real) == Distance(x, q as real) && q != r ==> r % 2 == 0)
  }

  ghost predicate SplitOver(form: Form, s: State, tokens: real, ranks: seq<nat>, e: nat) {
    exists parts :: EvenParts(form, tokens, parts) && Gets(s, e, ranks, parts)
  }

  /** One GPU gets everything: the first of those where it costs least. */
  ghost predicate OnCheapest(c: Costs, before: State, s: State, tokens: real, ranks: seq<nat>, e: nat, k: nat)
    requires Sane(c) && |before.held| == |before.loads| && k < |ranks|
    requires forall i :: 0 <= i < |ranks| ==> ranks[i] < |before.held|
  {
    && Gets(s, e, [ranks[k]], [tokens])
    && (forall i :: 0 <= i < |ranks| ==>
          CostWith(c, before, ranks[k], e, tokens) <= CostWith(c, before, ranks[i], e, tokens))
    && (forall i :: 0 <= i < k ==>
          CostWith(c, before, ranks[k], e, tokens) < CostWith(c, before, ranks[i], e, tokens))
  }

  /** The least loaded GPUs get even parts, as many as suit the computing time. */
  ghost predicate SplitOverCheapest(form: Form, c: Costs, before: State, s: State, tokens: real, ranks: seq<nat>,
                                    e: nat)
    requires Sane(c) && |before.held| == |before.loads|
  {
    exists r: nat, sorted: seq<nat>, parts: seq<real> ::
      && NearestCount(c, tokens, |ranks|, r) && r <= |sorted|
      && StablySorted(sorted, ranks, CostKey(c, before))
      && EvenParts(form, tokens, parts) && Gets(s, e, sorted[..r], parts)
  }

  ghost predicate ServedAt(router: Router, form: Form, c: Costs, before: State, s: State, tokens: real,
                           ranks: seq<nat>, e: nat)
    requires Sane(c) && |before.held| == |before.loads| && forall i :: 0 <= i < |ranks| ==> ranks[i] < |before.held|
  {
    match router
    case Split => SplitOver(form, s, tokens, ranks, e)
    case Concentrate => exists k: nat :: k < |ranks| && OnCheapest(c, before, s, tokens, ranks, e, k)
    case Heuristic => SplitOverCheapest(form, c, before, s, tokens, ranks, e)
  }

  // ---------------------------------------------------------------- the choice for one expert

  lemma {:induction false} AddAllAt(s: State, e: nat, p: Picks, n: nat, g: nat)
    requires |s.held| == |s.loads| && n <= |p.gpus| == |p.shares| && Distinct(p.gpus) && g < |s.held|
    requires forall i :: 0 <= i < |p.gpus| ==> p.gpus[i] < |s.held| && p.shares[i] >= 0.0
    requires e !in s.held[g]
    ensures var m := AddAll(s, e, p, n).held[g];
            && (forall i :: 0 <= i < n && p.gpus[i] == g ==> At(m, e) == p.shares[i])
            && (g !in p.gpus[..n] ==> e !in m)
  {
    if n > 0 {
      AddAllAt(s, e, p, n - 1, g);
      TakeNext(p.gpus, n - 1);
      if p.gpus[n - 1] == g {
        assert g !in p.gpus[..n - 1];
      }
    }
  }

  lemma {:induction false} AddAllElsewhere(s: State, e: nat, p: Picks, n: nat, g: nat, k: nat)
    requires |s.held| == |s.loads| && n <= |p.gpus| == |p.shares| && g < |s.held| && k != e
    requires forall i :: 0 <= i < |p.gpus| ==> p.gpus[i] < |s.held|
    ensures var m := AddAll(s, e, p, n).held[g];
            (k in m <==> k in s.held[g]) && (k in m ==> m[k] == s.held[g][k])
  {
    if n > 0 {
      AddAllElsewhere(s, e, p, n - 1, g, k);
    }
  }

  lemma AddAllGets(s: State, e: nat, p: Picks)
    requires |s.held| == |s.loads| && |p.gpus| == |p.shares| && Distinct(p.gpus)
    requires forall i :: 0 <= i < |p.gpus| ==> p.gpus[i] < |s.held| && p.shares[i] >= 0.0
    requires forall g :: 0 <= g < |s.held| ==> e !in s.held[g]
    ensures Gets(AddAll(s, e, p, |p.gpus|), e, p.gpus, p.shares)
  {
    var s' := AddAll(s, e, p, |p.gpus|);
    TakeAll(p.gpus);
    forall g | 0 <= g < |s.held|
      ensures (forall i :: 0 <= i < |p.gpus| && p.gpus[i] == g ==> At(s'.held[g], e) == p.shares[i])
      ensures g !in p.gpus ==> e !in s'.held[g]
    {
      AddAllAt(s, e, p, |p.gpus|, g);
    }
  }

  /** Where the cheapest GPU stands among the expert's own. */
  lemma {:induction false} CheapestAt(c: Costs, s: State, ranks: seq<nat>, e: nat, tokens: real, n: nat)
    returns (k: nat)
    requires Sane(c) && 1 <= n <= |ranks| && |s.held| == |s.loads|
    requires forall i :: 0 <= i < |ranks| ==> ranks[i] < |s.held|
    ensures k < n && Cheapest(c, s, ranks, e, tokens, n) == Some(ranks[k])
    ensures forall i :: 0 <= i < n ==> CostWith(c, s, ranks[k], e, tokens) <= CostWith(c, s, ranks[i], e, tokens)
    ensures forall i :: 0 <= i < k ==> CostWith(c, s, ranks[k], e, tokens) < CostWith(c, s, ranks[i], e, tokens)
    decreases n
  {
    if n == 1 {
      k := 0;
    } else {
      k := CheapestAt(c, s, ranks, e, tokens, n - 1);
      if CostWith(c, s, ranks[n - 1], e, tokens) < CostWith(c, s, ranks[k], e, tokens) {
        k := n - 1;
      }
    }
  }

  lemma CountIsNearest(c: Costs, tokens: real, available: nat)
    requires Sane(c) && available >= 1
    ensures NearestCount(c, tokens, available, ReplicaCount(c, tokens, available))
  {
    forall q: nat | 1 <= q <= available
      ensures NoFarther(WeightRatio(c, tokens), ReplicaCount(c, tokens, available), q)
    {
      ReplicaCountIsNearest(c, tokens, available, q);
    }
  }

  lemma SortIsStablySorted(ranks: seq<nat>, key: nat -> real)
    ensures StablySorted(Sort(ranks, key), ranks, key)
  {
    SortFacts(ranks, key);
    forall k: real ensures WithKey(Sort(ranks, key), key, k) == WithKey(ranks, key, k) {
      SortIsStable(ranks, key, k);
    }
  }

  lemma SplitServes(form: Form, s: State, s': State, tokens: real, ranks: seq<nat>, e: nat)
    requires tokens > 0.0 && ranks != [] && |s.held| == |s.loads| && GoodRanks(ranks, |s.held|)
    requires s' == AddAll(s, e, Picks(ranks, Shares(form, tokens, |ranks|)), |ranks|)
    requires forall g :: 0 <= g < |s.held| ==> e !in s.held[g]
    ensures SplitOver(form, s', tokens, ranks, e)
  {
    var parts := Shares(form, tokens, |ranks|);
    SharesAreEven(form, tokens, |ranks|);
    forall i | 0 <= i < |ranks| ensures parts[i] >= 0.0 {
      SharesAreNatural(form, tokens, |ranks|, i);
    }
    AddAllGets(s, e, Picks(ranks, parts));
    assert EvenParts(form, tokens, parts) && Gets(s', e, ranks, parts);
  }

  lemma ConcentrateServes(c: Costs, s: State, s': State, tokens: real, ranks: seq<nat>, e: nat) returns (k: nat)
    requires Sane(c) && tokens > 0.0 && ranks != [] && |s.held| == |s.loads| && GoodRanks(ranks, |s.held|)
    requires s' == AddAll(s, e, Picks([Cheapest(c, s, ranks, e, tokens, |ranks|).value], [tokens]), 1)
    requires forall g :: 0 <= g < |s.held| ==> e !in s.held[g]
    ensures k < |ranks| && OnCheapest(c, s, s', tokens, ranks, e, k)
  {
    k := CheapestAt(c, s, ranks, e, tokens, |ranks|);
    AddAllGets(s, e, Picks([ranks[k]], [tokens]));
  }

  lemma HeuristicServes(form: Form, c: Costs, s: State, s': State, tokens: real, ranks: seq<nat>, e: nat, r: nat,
                        sorted: seq<nat>)
    requires Sane(c) && tokens > 0.0 && ranks != [] && |s.held| == |s.loads| && GoodRanks(ranks, |s.held|)
    requires r == ReplicaCount(c, tokens, |ranks|) && sorted == Sort(ranks, CostKey(c, s)) && r <= |sorted|
    requires GoodRanks(sorted[..r], |s.held|)
    requires s' == AddAll(s, e, Picks(sorted[..r], Shares(form, tokens, r)), r)
    requires forall g :: 0 <= g < |s.held| ==> e !in s.held[g]
    ensures SplitOverCheapest(form, c, s, s', tokens, ranks, e)
  {
    var parts := Shares(form, tokens, r);
    SharesAreEven(form, tokens, r);
    forall i | 0 <= i < r ensures parts[i] >= 0.0 {
      SharesAreNatural(form, tokens, r, i);
    }
    AddAllGets(s, e, Picks(sorted[..r], parts));
    CountIsNearest(c, tokens, |ranks|);
    SortIsStablySorted(ranks, CostKey(c, s));
  }

  /** The choice of every router serves the expert as it promises. */
  lemma PickServes(router: Router, form: Form, c: Costs, s: State, counts: seq<real>, placement: Ranks, e: nat)
    requires Sane(c) && Routable(s, counts, placement) && e < |counts| && counts[e] > 0.0
    requires forall g :: 0 <= g < |s.held| ==> e !in s.held[g]
    ensures var p := Pick(router, form, c, s, counts, placement, e);
            && GoodRanks(placement[e], |s.held|)
            && ServedAt(router, form, c, s, AddAll(s, e, p, |p.gpus|), counts[e], placement[e], e)
  {
    var p, ranks := Pick(router, form, c, s, counts, placement, e), placement[e];
    var s' := AddAll(s, e, p, |p.gpus|);
    assert ranks != [] && GoodRanks(ranks, |s.held|);
    match router
    case Split =>
      SplitServes(form, s, s', counts[e], ranks, e);
    case Concentrate =>
      var k := ConcentrateServes(c, s, s', counts[e], ranks, e);
    case Heuristic =>
      var r := ReplicaCount(c, counts[e], |ranks|);
      CandidatesFacts(ranks, |s.held|, CostKey(c, s));
      HeuristicServes(form, c, s, s', counts[e], ranks, e, r, Sort(ranks, CostKey(c, s)));
  }

  // ---------------------------------------------------------------- the experts in their order

  function Only(m: map<nat, real>, done: seq<nat>): map<nat, real> {
    map e | e in m && e in done :: m[e]
  }

  /** The part of a routing that belongs to some of the experts. */
  function Part(s: State, done: seq<nat>, experts: nat): (p: State)
    ensures |p.held| == |p.loads| == |s.held|
  {
    State(seq(|s.held|, g requires 0 <= g < |s.held| => Only(s.held[g], done)),
          seq(|s.held|, g requires 0 <= g < |s.held| => GpuTotal(Only(s.held[g], done), experts)))
  }

  /** Every expert with demand is served as its router promises, given the experts before it in the order. */
  ghost predicate ServedInOrder(router: Router, form: Form, c: Costs, counts: seq<real>, placement: Ranks, s: State,
                                order: seq<nat>)
    requires Sane(c) && ValidRanks(placement, |counts|, |s.held|)
    requires forall i :: 0 <= i < |order| ==> order[i] < |counts|
  {
    forall n :: 0 <= n < |order| && counts[order[n]] > 0.0 ==>
      ServedInTurn(router, form, c, counts, placement, s, order, n)
  }

  ghost predicate ServedInTurn(router: Router, form: Form, c: Costs, counts: seq<real>, placement: Ranks, s: State,
                               order: seq<nat>, n: nat)
    requires Sane(c) && ValidRanks(placement, |counts|, |s.held|) && n < |order| && order[n] < |counts|
  {
    var e := order[n];
    assert GoodRanks(placement[e], |s.held|);
    ServedAt(router, form, c, Part(s, order[..n], |counts|), s, counts[e], placement[e], e)
  }

  /** The later experts leave alone what the earlier ones got. */
  lemma {:induction false} LaterLeaveAlone(router: Router, form: Form, c: Costs, counts: seq<real>, placement: Ranks,
                                           gpus: nat, order: seq<nat>, n: nat, g: nat, k: nat)
    requires Sane(c) && ValidRanks(placement, |counts|, gpus) && Distinct(order) && n <= |order| && g < gpus
    requires forall i :: 0 <= i < |order| ==> order[i] < |counts|
    requires k !in order[n..]
    ensures var m, m' := RouteAll(router, form, c, counts, placement, gpus, order[..n]).held[g],
                         RouteAll(router, form, c, counts, placement, gpus, order).held[g];
            (k in m <==> k in m') && (k in m ==> m[k] == m'[k])
  {
    if n == |order| {
      assert order[..n] == order;
    } else {
      RestSplits(order, n, k);
      LaterLeaveAlone(router, form, c, counts, placement, gpus, order[..|order| - 1], n, g, k);
      TurnLeavesAlone(router, form, c, counts, placement, gpus, order, g, k);
    }
  }

  lemma RestSplits(order: seq<nat>, n: nat, k: nat)
    requires n < |order| && k !in order[n..]
    ensures var front := order[..|order| - 1];
            k != order[|order| - 1] && k !in front[n..] && front[..n] == order[..n]
  {
    var front := order[..|order| - 1];
    assert order[|order| - 1] == order[n..][|order| - 1 - n];
    forall i | 0 <= i < |front[n..]| ensures front[n..][i] != k {
      assert front[n..][i] == order[n..][i];
    }
  }

  lemma TurnLeavesAlone(router: Router, form: Form, c: Costs, counts: seq<real>, placement: Ranks, gpus: nat,
                        order: seq<nat>, g: nat, k: nat)
    requires Sane(c) && ValidRanks(placement, |counts|, gpus) && g < gpus
    requires forall i :: 0 <= i < |order| ==> order[i] < |counts|
    requires order != [] && k != order[|order| - 1]
    ensures var m, m' := RouteAll(router, form, c, counts, placement, gpus, order[..|order| - 1]).held[g],
                         RouteAll(router, form, c, counts, placement, gpus, order).held[g];
            (k in m <==> k in m') && (k in m ==> m[k] == m'[k])
  {
    var e := order[|order| - 1];
    var s := RouteAll(router, form, c, counts, placement, gpus, order[..|order| - 1]);
    if counts[e] > 0.0 {
      var p := Pick(router, form, c, s, counts, placement, e);
      AddAllElsewhere(s, e, p, |p.gpus|, g, k);
    }
  }

  lemma NotYetRouted(router: Router, form: Form, c: Costs, counts: seq<real>, placement: Ranks, gpus: nat,
                     order: seq<nat>, e: nat, g: nat)
    requires Sane(c) && ValidRanks(placement, |counts|, gpus) && Distinct(order) && g < gpus && e !in order
    requires forall i :: 0 <= i < |order| ==> order[i] < |counts|
    ensures e !in RouteAll(router, form, c, counts, placement, gpus, order).held[g]
  {
    assert order[0..] == order && order[..0] == [];
    LaterLeaveAlone(router, form, c, counts, placement, gpus, order, 0, g, e);
  }

  lemma NotLater(order: seq<nat>, n: nat, e: nat)
    requires Distinct(order) && n <= |order| && e in order[..n]
    ensures e !in order[n..]
  {
    var i :| 0 <= i < n && order[..n][i] == e;
    assert order[i] == e;
  }

  lemma PrefixHolds(router: Router, form: Form, c: Costs, counts: seq<real>, placement: Ranks, gpus: nat,
                    order: seq<nat>, n: nat, g: nat)
    requires Sane(c) && ValidRanks(placement, |counts|, gpus) && Distinct(order) && n <= |order| && g < gpus
    requires forall i :: 0 <= i < |order| ==> order[i] < |counts|
    ensures RouteAll(router, form, c, counts, placement, gpus, order[..n]).held[g] ==
            Only(RouteAll(router, form, c, counts, placement, gpus, order).held[g], order[..n])
  {
    var m, m' := RouteAll(router, form, c, counts, placement, gpus, order[..n]).held[g],
                 RouteAll(router, form, c, counts, placement, gpus, order).held[g];
    forall k: nat ensures (k in m <==> k in m' && k in order[..n]) && (k in m ==> m[k] == m'[k]) {
      if k in order[..n] {
        NotLater(order, n, k);
        LaterLeaveAlone(router, form, c, counts, placement, gpus, order, n, g, k);
      } else {
        NotYetRouted(router, form, c, counts, placement, gpus, order[..n], k, g);
      }
    }
  }

  /** What the router saw when an expert's turn came is the part of the result that belongs to the experts before it. */
  lemma PrefixIsPart(router: Router, form: Form, c: Costs, counts: seq<real>, placement: Ranks, gpus: nat,
                     order: seq<nat>, n: nat)
    requires Sane(c) && ValidRanks(placement, |counts|, gpus) && Distinct(order) && n <= |order|
    requires forall i :: 0 <= i < |order| ==> order[i] < |counts|
    ensures RouteAll(router, form, c, counts, placement, gpus, order[..n]) ==
            Part(RouteAll(router, form, c, counts, placement, gpus, order), order[..n], |counts|)
  {
    var s, s' := RouteAll(router, form, c, counts, placement, gpus, order[..n]),
                 RouteAll(router, form, c, counts, placement, gpus, order);
    RouteAllRoutes(router, form, c, counts, placement, gpus, order[..n]);
    forall g | 0 <= g < gpus
      ensures s.held[g] == Only(s'.held[g], order[..n]) && s.loads[g] == GpuTotal(s.held[g], |counts|)
    {
      PrefixHolds(router, form, c, counts, placement, gpus, order, n, g);
      assert ConsistentGpu(s.held[g], s.loads[g], |counts|);
    }
    SamePart(s, s', order[..n], |counts|);
  }

  lemma SamePart(s: State, s': State, done: seq<nat>, experts: nat)
    requires |s.held| == |s.loads| == |s'.held|
    requires forall g :: 0 <= g < |s.held| ==>
               s.held[g] == Only(s'.held[g], done) && s.loads[g] == GpuTotal(s.held[g], experts)
    ensures s == Part(s', done, experts)
  {
    var p := Part(s', done, experts);
    assert s.held == p.held;
    assert s.loads == p.loads;
  }

  ghost predicate SameOf(s: State, s': State, e: nat) {
    && |s.held| == |s'.held|
    && forall g :: 0 <= g < |s.held| ==>
         (e in s.held[g] <==> e in s'.held[g]) && (e in s.held[g] ==> s.held[g][e] == s'.held[g][e])
  }

  lemma GetsSame(s: State, s': State, e: nat, gpus: seq<nat>, parts: seq<real>)
    requires SameOf(s, s', e) && Gets(s, e, gpus, parts)
    ensures Gets(s', e, gpus, parts)
  {
  }

  lemma ServedSame(router: Router, form: Form, c: Costs, before: State, s: State, s': State, tokens: real,
                   ranks: seq<nat>, e: nat)
    requires Sane(c) && |before.held| == |before.loads| && forall i :: 0 <= i < |ranks| ==> ranks[i] < |before.held|
    requires SameOf(s, s', e) && ServedAt(router, form, c, before, s, tokens, ranks, e)
    ensures ServedAt(router, form, c, before, s', tokens, ranks, e)
  {
    match router
    case Split =>
      var parts :| EvenParts(form, tokens, parts) && Gets(s, e, ranks, parts);
      GetsSame(s, s', e, ranks, parts);
    case Concentrate =>
      var k: nat :| k < |ranks| && OnCheapest(c, before, s, tokens, ranks, e, k);
      GetsSame(s, s', e, [ranks[k]], [tokens]);
      assert OnCheapest(c, before, s', tokens, ranks, e, k);
    case Heuristic =>
      SplitOverSame(form, c, before, s, s', tokens, ranks, e);
  }

  lemma SplitOverSame(form: Form, c: Costs, before: State, s: State, s': State, tokens: real, ranks: seq<nat>, e: nat)
    requires Sane(c) && |before.held| == |before.loads|
    requires SameOf(s, s', e) && SplitOverCheapest(form, c, before, s, tokens, ranks, e)
    ensures SplitOverCheapest(form, c, before, s', tokens, ranks, e)
  {
    var r: nat, sorted: seq<nat>, parts: seq<real> :|
      && NearestCount(c, tokens, |ranks|, r) && r <= |sorted|
      && StablySorted(sorted, ranks, CostKey(c, before))
      && EvenParts(form, tokens, parts) && Gets(s, e, sorted[..r], parts);
    GetsSame(s, s', e, sorted[..r], parts);
  }

  lemma TurnServes(router: Router, form: Form, c: Costs, counts: seq<real>, placement: Ranks, gpus: nat,
                   order: seq<nat>, n: nat, before: State, s: State)
    requires Sane(c) && ValidRanks(placement, |counts|, gpus) && Distinct(order) && n < |order|
    requires forall i :: 0 <= i < |order| ==> order[i] < |counts|
    requires counts[order[n]] > 0.0
    requires before == RouteAll(router, form, c, counts, placement, gpus, order[..n])
    requires s == RouteAll(router, form, c, counts, placement, gpus, order)
    ensures GoodRanks(placement[order[n]], gpus)
    ensures ServedAt(router, form, c, before, s, counts[order[n]], placement[order[n]], order[n])
  {
    var e := order[n];
    assert e !in order[..n];
    forall g | 0 <= g < gpus ensures e !in before.held[g] {
      NotYetRouted(router, form, c, counts, placement, gpus, order[..n], e, g);
    }
    PickServes(router, form, c, before, counts, placement, e);
    TakeNext(order, n);
    var s1 := RouteAll(router, form, c, counts, placement, gpus, order[..n + 1]);
    assert order[..n + 1][n] == e;
    NotLater(order, n + 1, e);
    forall g | 0 <= g < gpus
      ensures (e in s1.held[g] <==> e in s.held[g]) && (e in s1.held[g] ==> s1.held[g][e] == s.held[g][e])
    {
      LaterLeaveAlone(router, form, c, counts, placement, gpus, order, n + 1, g, e);
    }
    ServedSame(router, form, c, before, s1, s, counts[e], placement[e], e);
  }

  /** Every router serves every expert as it promises, one after the other. */
  lemma RouteAllServes(router: Router, form: Form, c: Costs, counts: seq<real>, placement: Ranks, gpus: nat,
                       order: seq<nat>)
    requires Sane(c) && ValidRanks(placement, |counts|, gpus) && Distinct(order)
    requires forall i :: 0 <= i < |order| ==> order[i] < |counts|
    ensures ServedInOrder(router, form, c, counts, placement,
                          RouteAll(router, form, c, counts, placement, gpus, order), order)
  {
    var s := RouteAll(router, form, c, counts, placement, gpus, order);
    forall n | 0 <= n < |order| && counts[order[n]] > 0.0
      ensures ServedInTurn(router, form, c, counts, placement, s, order, n)
    {
      PrefixIsPart(router, form, c, counts, placement, gpus, order, n);
      TurnServes(router, form, c, counts, placement, gpus, order, n, Part(s, order[..n], |counts|), s);
    }
  }

  /** Split in synthetic form: every GPU of an expert holds the same part of its demand. */
  lemma SplitIsEqual(s: State, tokens: real, ranks: seq<nat>, e: nat, i: nat)
    requires SplitOver(Synthetic, s, tokens, ranks, e) && i < |ranks|
    ensures ranks[i] < |s.held| && At(s.held[ranks[i]], e) == tokens / |ranks| as real
  {
    var parts :| EvenParts(Synthetic, tokens, parts) && Gets(s, e, ranks, parts);
    SumRConstant(parts, parts[i]);
    EqualPart(tokens, |ranks|, parts[i]);
  }

  lemma EqualPart(tokens: real, n: nat, part: real)
    requires n >= 1 && tokens == n as real * part
    ensures part == tokens / n as real
  {
  }
}
