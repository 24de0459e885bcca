/**
 Routing one layer's expert demand onto the GPUs that hold the experts (pkg/simulator/moe.go and its trace form in
 pkg/simulator/moe_trace_fidelity.go): the split and the concentrate router, and the initial split of the heuristic one.
 */
module Routing {
  import opened Common
  import opened Placement
  import opened StableSort
  import opened Sums

  /** `Synthetic` divides demand exactly, `Trace` into whole tokens when it is whole. */
  datatype Form = Synthetic | Trace

  /** What the model and the hardware contribute to the cost of a GPU. */
  datatype Costs = Costs(weightBytes: real, activationBytes: real, bandwidth: real, flopsPerToken: real, flops: real)

  predicate Sane(c: Costs) {
    c.weightBytes > 0.0 && c.activationBytes >= 0.0 && c.bandwidth > 0.0 && c.flopsPerToken > 0.0 && c.flops > 0.0
  }

  function MaxR(a: real, b: real): real {
    if a < b then b else a
  }

  /** The slower of moving the weights and activations and computing them. */
  function GpuCost(c: Costs, active: int, load: real): real
    requires Sane(c)
  {
    MaxR((active as real * c.weightBytes + load * c.activationBytes) / c.bandwidth, load * c.flopsPerToken / c.flops)
  }

  /** The cost is the larger of the time to move weights and activations and the time to compute. */
  lemma GpuCostIsSlower(c: Costs, active: int, load: real)
    requires Sane(c)
    ensures var memory, compute := (active as real * c.weightBytes + load * c.activationBytes) / c.bandwidth,
                                   load * c.flopsPerToken / c.flops;
            && GpuCost(c, active, load) >= memory && GpuCost(c, active, load) >= compute
            && (GpuCost(c, active, load) == memory || GpuCost(c, active, load) == compute)
  {
  }

  lemma Scaled(a: real, b: real, k: real)
    requires a <= b && k >= 0.0
    ensures a * k <= b * k
  {
  }

  lemma Divided(a: real, b: real, k: real)
    requires a <= b && k > 0.0
    ensures a / k <= b / k
  {
  }

  lemma WorkGrows(a: real, a': real, x: real, b: real, b': real, y: real, k: real)
    requires a <= a' && b <= b' && x >= 0.0 && y >= 0.0 && k > 0.0
    ensures (a * x + b * y) / k <= (a' * x + b' * y) / k
  {
    Scaled(a, a', x);
    Scaled(b, b', y);
    Divided(a * x + b * y, a' * x + b' * y, k);
  }

  lemma ProductGrows(b: real, b': real, y: real, k: real)
    requires b <= b' && y >= 0.0 && k > 0.0
    ensures b * y / k <= b' * y / k
  {
    Scaled(b, b', y);
    Divided(b * y, b' * y, k);
  }

  /** More experts to read or more tokens to compute never cost less. */
  lemma GpuCostGrows(c: Costs, active: int, load: real, active': int, load': real)
    requires Sane(c) && active <= active' && load <= load'
    ensures GpuCost(c, active, load) <= GpuCost(c, active', load')
  {
    WorkGrows(active as real, active' as real, c.weightBytes, load, load', c.activationBytes, c.bandwidth);
    ProductGrows(load, load', c.flopsPerToken, c.flops);
  }

  // ---------------------------------------------------------------- the routing state

  /** Per GPU the tokens of each active expert, and their total. */
  datatype State = State(held: seq<map<nat, real>>, loads: seq<real>)

  function At(m: map<nat, real>, e: nat): real {
    if e in m then m[e] else 0.0
  }

  function Empty(gpus: nat): State {
    State(seq(gpus, _ => map[]), seq(gpus, _ => 0.0))
  }

  function Add(s: State, gpu: nat, e: nat, tokens: real): State
    requires gpu < |s.held| == |s.loads|
  {
    if tokens <= 0.0 then s
    else
      var m: map<nat, real> := s.held[gpu][e := At(s.held[gpu], e) + tokens];
      State(s.held[gpu := m], s.loads[gpu := s.loads[gpu] + tokens])
  }

  function Cost(c: Costs, s: State, gpu: nat): real
    requires Sane(c) && gpu < |s.held| == |s.loads|
  {
    GpuCost(c, |s.held[gpu]|, s.loads[gpu])
  }

  /** The tokens of the experts below n on one GPU. */
  function GpuTotal(m: map<nat, real>, n: nat): real {
    if n == 0 then 0.0 else GpuTotal(m, n - 1) + At(m, n - 1)
  }

  /** The tokens of one expert over all GPUs. */
  function ExpertTotal(held: seq<map<nat, real>>, e: nat): real {
    if held == [] then 0.0 else ExpertTotal(held[..|held| - 1], e) + At(held[|held| - 1], e)
  }

  lemma {:induction false} GpuTotalUpdate(m: map<nat, real>, m': map<nat, real>, e: nat, n: nat)
    requires forall k: nat :: k != e ==> At(m', k) == At(m, k)
    ensures GpuTotal(m', n) == GpuTotal(m, n) + (if e < n then At(m', e) - At(m, e) else 0.0)
  {
    if n > 0 {
      GpuTotalUpdate(m, m', e, n - 1);
    }
  }

  lemma {:induction false} ExpertTotalUpdate(held: seq<map<nat, real>>, gpu: nat, m: map<nat, real>, e: nat)
    requires gpu < |held|
    ensures ExpertTotal(held[gpu := m], e) == ExpertTotal(held, e) - At(held[gpu], e) + At(m, e)
  {
    var n := |held| - 1;
    if gpu == n {
      assert held[gpu := m][..n] == held[..n];
    } else {
      assert held[gpu := m][..n] == held[..n][gpu := m];
      ExpertTotalUpdate(held[..n], gpu, m, e);
    }
  }

  /** The loads are the totals of what the GPUs hold, and nothing is held in a quantity of zero. */
  ghost predicate Consistent(s: State, gpus: nat, experts: nat) {
    && |s.held| == |s.loads| == gpus
    && forall g :: 0 <= g < gpus ==> ConsistentGpu(s.held[g], s.loads[g], experts)
  }

  ghost predicate ConsistentGpu(m: map<nat, real>, load: real, experts: nat) {
    && (forall e :: e in m ==> e < experts && m[e] > 0.0)
    && load == GpuTotal(m, experts)
  }

  lemma AddIsConsistent(s: State, gpus: nat, experts: nat, gpu: nat, e: nat, tokens: real)
    requires Consistent(s, gpus, experts) && gpu < gpus && e < experts
    ensures Consistent(Add(s, gpu, e, tokens), gpus, experts)
  {
    if tokens > 0.0 {
      var m := s.held[gpu];
      GpuTotalUpdate(m, m[e := At(m, e) + tokens], e, experts);
    }
  }

  lemma AddCounts(s: State, gpu: nat, e: nat, tokens: real, other: nat)
    requires gpu < |s.held| == |s.loads|
    ensures ExpertTotal(Add(s, gpu, e, tokens).held, other) ==
            ExpertTotal(s.held, other) + (if other == e && tokens > 0.0 then tokens else 0.0)
  {
    if tokens > 0.0 {
      var m := s.held[gpu];
      ExpertTotalUpdate(s.held, gpu, m[e := At(m, e) + tokens], other);
    }
  }

  lemma {:induction false} EmptyCounts(gpus: nat, e: nat)
    ensures ExpertTotal(Empty(gpus).held, e) == 0.0
  {
    if gpus > 0 {
      assert Empty(gpus).held[..gpus - 1] == Empty(gpus - 1).held;
      EmptyCounts(gpus - 1, e);
    }
  }

  lemma {:induction false} NothingHeld(n: nat)
    ensures GpuTotal(map[], n) == 0.0
  {
    if n > 0 {
      NothingHeld(n - 1);
    }
  }

  lemma EmptyIsConsistent(gpus: nat, experts: nat)
    ensures Consistent(Empty(gpus), gpus, experts)
  {
    NothingHeld(experts);
  }

  // ---------------------------------------------------------------- sums over experts and over GPUs agree

  lemma {:induction false} TotalsAgree(held: seq<map<nat, real>>, loads: seq<real>, demand: seq<real>)
    requires |held| == |loads|
    requires forall g :: 0 <= g < |held| ==> loads[g] == GpuTotal(held[g], |demand|)
    requires forall e :: 0 <= e < |demand| ==> demand[e] == ExpertTotal(held, e)
    ensures SumR(loads) == SumR(demand)
  {
    if held == [] {
      SumRZeros(demand);
    } else {
      var n := |held| - 1;
      var front := held[..n];
      var demand' := seq(|demand|, e requires 0 <= e < |demand| => ExpertTotal(front, e));
      TotalsAgree(front, loads[..n], demand');
      var last := seq(|demand|, e requires 0 <= e < |demand| => At(held[n], e));
      GpuTotalIsSum(held[n], last);
      SumRPointwise(demand', last, demand);
    }
  }

  lemma {:induction false} GpuTotalIsSum(m: map<nat, real>, s: seq<real>)
    requires forall e :: 0 <= e < |s| ==> s[e] == At(m, e)
    ensures GpuTotal(m, |s|) == SumR(s)
  {
    if s != [] {
      GpuTotalIsSum(m, s[..|s| - 1]);
    }
  }

  // ---------------------------------------------------------------- dividing one expert's demand

  const EPSILON: real := 0.000000001

  /** The nearest whole number, halves up: the arguments are positive. */
  function Round(x: real): int {
    (x + 0.5).Floor
  }

  predicate NearWhole(tokens: real) {
    var d := tokens - Round(tokens) as real;
    -EPSILON < d < EPSILON
  }

  /** Nearly whole demand is divided into whole tokens, the first replicas taking one more; other demand equally. */
  function Distribute(tokens: real, replicas: nat): (r: seq<real>)
    ensures |r| == replicas
  {
    if replicas == 0 || tokens <= 0.0 then seq(replicas, _ => 0.0)
    else if NearWhole(tokens) then WholeShares(Round(tokens), replicas, replicas)
    else seq(replicas, _ => tokens / replicas as real)
  }

  function WholeShares(n: nat, replicas: nat, upTo: nat): (r: seq<real>)
    requires replicas >= 1 && upTo <= replicas
    ensures |r| == upTo
  {
    seq(upTo, i requires 0 <= i < upTo => (n / replicas + if i < n % replicas then 1 else 0) as real)
  }

  /** What is left of a demand after dividing it. */
  function Kept(form: Form, tokens: real): real {
    if form == Trace && NearWhole(tokens) then Round(tokens) as real else tokens
  }

  function Shares(form: Form, tokens: real, replicas: nat): (r: seq<real>)
    requires replicas >= 1
    ensures |r| == replicas
  {
    if form == Trace then Distribute(tokens, replicas) else seq(replicas, _ => tokens / replicas as real)
  }

  lemma {:induction false} WholeSharesSum(n: nat, replicas: nat, upTo: nat)
    requires replicas >= 1 && upTo <= replicas
    ensures SumR(WholeShares(n, replicas, upTo)) ==
            (upTo * (n / replicas) + (if upTo < n % replicas then upTo else n % replicas)) as real
  {
    if upTo > 0 {
      WholeSharesSum(n, replicas, upTo - 1);
      assert WholeShares(n, replicas, upTo)[..upTo - 1] == WholeShares(n, replicas, upTo - 1);
      assert upTo * (n / replicas) == (upTo - 1) * (n / replicas) + n / replicas;
    }
  }

  lemma EqualShares(tokens: real, replicas: nat)
    requires replicas >= 1
    ensures SumR(seq(replicas, _ => tokens / replicas as real)) == tokens
  {
    SumRConstant(seq(replicas, _ => tokens / replicas as real), tokens / replicas as real);
  }

  /** Rounding keeps whole demand and changes other demand by less than a billionth of a token. */
  lemma KeptIsClose(form: Form, tokens: real)
    ensures -EPSILON < Kept(form, tokens) - tokens < EPSILON
    ensures tokens.Floor as real == tokens ==> Kept(form, tokens) == tokens
  {
    if tokens.Floor as real == tokens {
      RoundOfWhole(tokens.Floor);
    }
  }

  lemma RoundOfWhole(n: int)
    ensures Round(n as real) == n
  {
    var f := (n as real + 0.5).Floor;
    assert f as real <= n as real + 0.5 < f as real + 1.0;
  }

  lemma WholeSharesTotal(n: nat, replicas: nat)
    requires replicas >= 1
    ensures SumR(WholeShares(n, replicas, replicas)) == n as real
  {
    WholeSharesSum(n, replicas, replicas);
    assert replicas * (n / replicas) + n % replicas == n;
  }

  /** The shares add up to the demand, up to the rounding of nearly whole demand. */
  lemma SharesAddUp(form: Form, tokens: real, replicas: nat)
    requires replicas >= 1 && tokens > 0.0
    ensures SumR(Shares(form, tokens, replicas)) == Kept(form, tokens)
  {
    if form == Trace && NearWhole(tokens) {
      WholeSharesTotal(Round(tokens), replicas);
    } else {
      EqualShares(tokens, replicas);
    }
  }

  lemma SharesAreNatural(form: Form, tokens: real, replicas: nat, i: nat)
    requires tokens > 0.0 && i < replicas
    ensures Shares(form, tokens, replicas)[i] >= 0.0
  {
    assert tokens / replicas as real >= 0.0;
  }

  predicate IsWhole(x: real) {
    x == x.Floor as real
  }

  predicate Near(x: real, n: int) {
    -EPSILON < x - n as real < EPSILON
  }

  /** There is a whole number less than a billionth away. */
  ghost predicate IsNearWhole(tokens: real) {
    exists n: int :: Near(tokens, n)
  }

  lemma NearWholeIff(tokens: real)
    ensures NearWhole(tokens) <==> IsNearWhole(tokens)
  {
    if NearWhole(tokens) {
      assert Near(tokens, Round(tokens));
    }
    if IsNearWhole(tokens) {
      var n: int :| Near(tokens, n);
      var f := (tokens + 0.5).Floor;
      assert f as real <= tokens + 0.5 < f as real + 1.0;
      assert f == n;
    }
  }

  /**
   An even division of a demand: equal parts that add up to it, or, for nearly whole demand in trace form, whole parts
   of which the first ones may be larger by one, which add up to the whole number.
   */
  ghost predicate EvenParts(form: Form, tokens: real, parts: seq<real>) {
    if form == Trace && IsNearWhole(tokens) then
      && (forall i :: 0 <= i < |parts| ==> IsWhole(parts[i]))
      && (forall i, j :: 0 <= i < j < |parts| ==> parts[j] <= parts[i] <= parts[j] + 1.0)
      && IsWhole(SumR(parts)) && -EPSILON < SumR(parts) - tokens < EPSILON
    else
      && (forall i, j :: 0 <= i < j < |parts| ==> parts[i] == parts[j])
      && SumR(parts) == tokens
  }

  lemma WholeSharesAreEven(n: nat, replicas: nat)
    requires replicas >= 1
    ensures var parts := WholeShares(n, replicas, replicas);
            && (forall i :: 0 <= i < |parts| ==> IsWhole(parts[i]))
            && (forall i, j :: 0 <= i < j < |parts| ==> parts[j] <= parts[i] <= parts[j] + 1.0)
  {
  }

  lemma SharesAreEven(form: Form, tokens: real, replicas: nat)
    requires replicas >= 1 && tokens > 0.0
    ensures EvenParts(form, tokens, Shares(form, tokens, replicas))
  {
    NearWholeIff(tokens);
    SharesAddUp(form, tokens, replicas);
    KeptIsClose(form, tokens);
    if form == Trace && NearWhole(tokens) {
      WholeSharesAreEven(Round(tokens), replicas);
    }
  }

  // ---------------------------------------------------------------- the routers

  datatype Router = Split | Concentrate | Heuristic

  /** The GPUs that get a part of one expert's demand, and their parts. */
  datatype Picks = Picks(gpus: seq<nat>, shares: seq<real>)

  /** The GPU on which the whole demand costs least; the first in placement order among equals. */
  function Cheapest(c: Costs, s: State, ranks: seq<nat>, e: nat, tokens: real, n: nat): (g: Option<nat>)
    requires Sane(c) && n <= |ranks| && |s.held| == |s.loads| && forall i :: 0 <= i < |ranks| ==> ranks[i] < |s.held|
    ensures g.Some? <==> n > 0
    ensures g.Some? ==> g.value in ranks[..n]
  {
    if n == 0 then None
    else
      var best := Cheapest(c, s, ranks, e, tokens, n - 1);
      var g := ranks[n - 1];
      assert ranks[..n][n - 1] == g && ranks[..n - 1] <= ranks[..n];
      if best == None || CostWith(c, s, g, e, tokens) < CostWith(c, s, best.value, e, tokens) then Some(g) else best
  }

  function CostWith(c: Costs, s: State, g: nat, e: nat, tokens: real): real
    requires Sane(c) && g < |s.held| == |s.loads|
  {
    GpuCost(c, |s.held[g]| + (if e in s.held[g] then 0 else 1), s.loads[g] + tokens)
  }

  function RoundToEven(x: real): int {
    var f := x.Floor;
    var d := x - f as real;
    if d < 0.5 then f else if d > 0.5 then f + 1 else if f % 2 == 0 then f else f + 1
  }

  /** As many replicas as the computing time outweighs the time to read the weights. */
  function ReplicaCount(c: Costs, tokens: real, available: nat): (r: nat)
    requires Sane(c) && available >= 1
    ensures 1 <= r <= available
  {
    var weight := c.weightBytes / c.bandwidth;
    var compute := tokens * c.flopsPerToken / c.flops;
    if compute <= weight then 1
    else
      var r := RoundToEven(compute / weight);
      if r < 1 then 1 else if r > available then available else r
  }

  /** How many times the time to read the weights fits into the computing time. */
  function WeightRatio(c: Costs, tokens: real): real
    requires Sane(c)
  {
    (tokens * c.flopsPerToken / c.flops) / (c.weightBytes / c.bandwidth)
  }

  function Distance(a: real, b: real): real {
    if a < b then b - a else a - b
  }

  lemma RoundIsNearest(x: real, q: int)
    ensures Distance(x, RoundToEven(x) as real) <= Distance(x, q as real)
    ensures Distance(x, RoundToEven(x) as real) == Distance(x, q as real) && q != RoundToEven(x) ==>
            RoundToEven(x) % 2 == 0
  {
  }

  lemma RatioAboveOne(compute: real, weight: real)
    requires weight > 0.0
    ensures compute / weight > 1.0 <==> compute > weight
  {
    var r := compute / weight;
    assert r * weight == compute;
    if r > 1.0 {
      assert (r - 1.0) * weight > 0.0;
    } else {
      assert (1.0 - r) * weight >= 0.0;
    }
  }

  lemma ClampedIsNearest(x: real, r: int, available: nat, q: nat)
    requires 1 <= q <= available
    requires r == if x <= 1.0 then 1 else if RoundToEven(x) < 1 then 1 else if RoundToEven(x) > available then available
             else RoundToEven(x)
    ensures Distance(x, r as real) <= Distance(x, q as real)
    ensures Distance(x, r as real) == Distance(x, q as real) && q != r ==> r % 2 == 0
  {
    RoundIsNearest(x, q);
  }

  lemma ReplicasByRatio(c: Costs, tokens: real, available: nat)
    requires Sane(c) && available >= 1
    ensures var x := WeightRatio(c, tokens);
            ReplicaCount(c, tokens, available) ==
            if x <= 1.0 then 1 else if RoundToEven(x) < 1 then 1 else if RoundToEven(x) > available then available
                else RoundToEven(x)
  {
    var weight, compute := c.weightBytes / c.bandwidth, tokens * c.flopsPerToken / c.flops;
    RatioAboveOne(compute, weight);
    var x := compute / weight;
    assert WeightRatio(c, tokens) == x;
    assert x > 1.0 <==> compute > weight;
    var r := RoundToEven(x);
    assert compute > weight ==> ReplicaCount(c, tokens, available) == if r < 1 then 1
           else if r > available then available else r;
  }

  /**
   The number of replicas is the available one nearest to the ratio of the two times, the even one of two equally near.
   */
  lemma ReplicaCountIsNearest(c: Costs, tokens: real, available: nat, q: nat)
    requires Sane(c) && 1 <= q <= available
    ensures var r, x := ReplicaCount(c, tokens, available), WeightRatio(c, tokens);
            && Distance(x, r as real) <= Distance(x, q as real)
            && (Distance(x, r as real) == Distance(x, q as real) && q != r ==> r % 2 == 0)
  {
    ReplicasByRatio(c, tokens, available);
    ClampedIsNearest(WeightRatio(c, tokens), ReplicaCount(c, tokens, available), available, q);
  }

  function CostKey(c: Costs, s: State): nat -> real
    requires Sane(c) && |s.held| == |s.loads|
  {
    (g: nat) => if g < |s.held| then Cost(c, s, g) else 0.0
  }

  predicate Routable(s: State, counts: seq<real>, placement: Ranks) {
    |s.held| == |s.loads| && ValidRanks(placement, |counts|, |s.held|)
  }

  lemma CandidatesFacts(ranks: seq<nat>, gpus: nat, key: nat -> real)
    requires GoodRanks(ranks, gpus)
    ensures |Sort(ranks, key)| == |ranks| && GoodRanks(Sort(ranks, key), gpus)
    ensures forall i :: 0 <= i < |ranks| ==> Sort(ranks, key)[i] in ranks
  {
    SortDistinct(ranks, key);
    var r := Sort(ranks, key);
    forall i | 0 <= i < |r| ensures r[i] in ranks && r[i] < gpus {
      assert r[i] in ranks;
    }
  }

  function Pick(router: Router, form: Form, c: Costs, s: State, counts: seq<real>, placement: Ranks, e: nat): (p: Picks)
    requires Sane(c) && Routable(s, counts, placement) && e < |counts|
    ensures |p.gpus| == |p.shares| && forall i :: 0 <= i < |p.gpus| ==> p.gpus[i] < |s.held|
  {
    assert placement[e] != [] && GoodRanks(placement[e], |s.held|);
    match router
    case Split => Picks(placement[e], Shares(form, counts[e], |placement[e]|))
    case Concentrate => Picks([Cheapest(c, s, placement[e], e, counts[e], |placement[e]|).value], [counts[e]])
    case Heuristic =>
      var r := ReplicaCount(c, counts[e], |placement[e]|);
      CandidatesFacts(placement[e], |s.held|, CostKey(c, s));
      Picks(Sort(placement[e], CostKey(c, s))[..r], Shares(form, counts[e], r))
  }

  /** The heuristic router gives its parts to the cheapest of the expert's GPUs. */
  lemma HeuristicPicksCheapest(form: Form, c: Costs, s: State, counts: seq<real>, placement: Ranks, e: nat, a: nat,
                               b: nat)
    requires Sane(c) && Routable(s, counts, placement) && e < |counts| && b in placement[e]
    requires var picked := Pick(Heuristic, form, c, s, counts, placement, e).gpus; a in picked && b !in picked
    ensures a < |s.held| && b < |s.held| && Cost(c, s, a) <= Cost(c, s, b)
  {
    var ranks := placement[e];
    assert GoodRanks(ranks, |s.held|);
    var r := ReplicaCount(c, counts[e], |ranks|);
    CandidatesFacts(ranks, |s.held|, CostKey(c, s));
    SortDistinct(ranks, CostKey(c, s));
    var sorted := Sort(ranks, CostKey(c, s));
    var i :| 0 <= i < r && sorted[..r][i] == a;
    assert b in sorted;
    var j :| 0 <= j < |sorted| && sorted[j] == b;
    assert j >= r;
    assert CostKey(c, s)(sorted[i]) <= CostKey(c, s)(sorted[j]);
  }

  function AddAll(s: State, e: nat, p: Picks, n: nat): (s': State)
    requires |s.held| == |s.loads| && n <= |p.gpus| == |p.shares| && forall i :: 0 <= i < |p.gpus| ==>
             p.gpus[i] < |s.held|
    ensures |s'.held| == |s'.loads| == |s.held|
  {
    if n == 0 then s else Add(AddAll(s, e, p, n - 1), p.gpus[n - 1], e, p.shares[n - 1])
  }

  /** Routes the experts in order; those without demand are skipped. */
  function RouteAll(router: Router, form: Form, c: Costs, counts: seq<real>, placement: Ranks, gpus: nat,
                    order: seq<nat>): (s: State)
    requires Sane(c) && ValidRanks(placement, |counts|, gpus) && forall i :: 0 <= i < |order| ==> order[i] < |counts|
    ensures |s.held| == |s.loads| == gpus
  {
    if order == [] then Empty(gpus)
    else
      var s := RouteAll(router, form, c, counts, placement, gpus, order[..|order| - 1]);
      var e := order[|order| - 1];
      if counts[e] <= 0.0 then s
      else
        var p := Pick(router, form, c, s, counts, placement, e);
        AddAll(s, e, p, |p.gpus|)
  }

  // ---------------------------------------------------------------- what every router keeps

  /** The demand of the experts routed so far is on their own GPUs and nowhere else. */
  ghost predicate Routed(s: State, gpus: nat, kept: seq<real>, placement: Ranks, done: seq<nat>)
    requires |placement| == |kept|
  {
    && Consistent(s, gpus, |kept|)
    && (forall e :: 0 <= e < |kept| ==> ExpertTotal(s.held, e) == if e in done then kept[e] else 0.0)
    && (forall g, e :: 0 <= g < gpus && 0 <= e < |kept| && e in s.held[g] ==> g in placement[e])
  }

  lemma {:induction false} AddAllCounts(s: State, e: nat, p: Picks, n: nat, other: nat)
    requires |s.held| == |s.loads| && n <= |p.gpus| == |p.shares|
    requires forall i :: 0 <= i < |p.gpus| ==> p.gpus[i] < |s.held| && p.shares[i] >= 0.0
    ensures ExpertTotal(AddAll(s, e, p, n).held, other) ==
            ExpertTotal(s.held, other) + if other == e then SumR(p.shares[..n]) else 0.0
  {
    if n > 0 {
      AddAllCounts(s, e, p, n - 1, other);
      AddCounts(AddAll(s, e, p, n - 1), p.gpus[n - 1], e, p.shares[n - 1], other);
      TakeNext(p.shares, n - 1);
      SumRAppend(p.shares[..n - 1], p.shares[n - 1]);
    }
  }

  lemma {:induction false} AddAllIsConsistent(s: State, gpus: nat, experts: nat, e: nat, p: Picks, n: nat)
    requires Consistent(s, gpus, experts) && e < experts && n <= |p.gpus| == |p.shares|
    requires forall i :: 0 <= i < |p.gpus| ==> p.gpus[i] < gpus
    ensures Consistent(AddAll(s, e, p, n), gpus, experts)
  {
    if n > 0 {
      AddAllIsConsistent(s, gpus, experts, e, p, n - 1);
      AddIsConsistent(AddAll(s, e, p, n - 1), gpus, experts, p.gpus[n - 1], e, p.shares[n - 1]);
    }
  }

  lemma {:induction false} AddAllHolds(s: State, e: nat, p: Picks, n: nat, g: nat, other: nat)
    requires |s.held| == |s.loads| && n <= |p.gpus| == |p.shares| && g < |s.held|
    requires forall i :: 0 <= i < |p.gpus| ==> p.gpus[i] < |s.held|
    requires other in AddAll(s, e, p, n).held[g]
    ensures other in s.held[g] || (other == e && g in p.gpus)
  {
    if n > 0 && other in AddAll(s, e, p, n - 1).held[g] {
      AddAllHolds(s, e, p, n - 1, g, other);
    }
  }

  ghost predicate PicksOf(p: Picks, ranks: seq<nat>, gpus: nat, kept: real) {
    && |p.gpus| == |p.shares|
    && (forall i :: 0 <= i < |p.gpus| ==> p.gpus[i] < gpus && p.gpus[i] in ranks && p.shares[i] >= 0.0)
    && SumR(p.shares) == kept
  }

  lemma AddAllRoutes(s: State, gpus: nat, kept: seq<real>, placement: Ranks, done: seq<nat>, e: nat, p: Picks)
    requires |placement| == |kept| && Routed(s, gpus, kept, placement, done) && e < |kept| && e !in done
    requires PicksOf(p, placement[e], gpus, kept[e])
    ensures Routed(AddAll(s, e, p, |p.gpus|), gpus, kept, placement, done + [e])
  {
    var s' := AddAll(s, e, p, |p.gpus|);
    AddAllIsConsistent(s, gpus, |kept|, e, p, |p.gpus|);
    TakeAll(p.shares);
    forall o | 0 <= o < |kept| ensures ExpertTotal(s'.held, o) == if o in done + [e] then kept[o] else 0.0 {
      AddAllCounts(s, e, p, |p.gpus|, o);
    }
    forall g, o | 0 <= g < gpus && 0 <= o < |kept| && o in s'.held[g] ensures g in placement[o] {
      AddAllHolds(s, e, p, |p.gpus|, g, o);
    }
  }

  /** What a router does with an expert's demand: the concentrate router never divides it. */
  function KeptBy(router: Router, form: Form, tokens: real): real {
    if tokens <= 0.0 then 0.0 else if router == Concentrate then tokens else Kept(form, tokens)
  }

  function KeptOf(router: Router, form: Form, counts: seq<real>): (k: seq<real>)
    ensures |k| == |counts| && forall e :: 0 <= e < |counts| ==> k[e] == KeptBy(router, form, counts[e])
  {
    seq(|counts|, e requires 0 <= e < |counts| => KeptBy(router, form, counts[e]))
  }

  lemma SharesArePicks(form: Form, tokens: real, gpus: seq<nat>, ranks: seq<nat>, n: nat)
    requires tokens > 0.0 && |gpus| >= 1 && forall i :: 0 <= i < |gpus| ==> gpus[i] < n && gpus[i] in ranks
    ensures PicksOf(Picks(gpus, Shares(form, tokens, |gpus|)), ranks, n, Kept(form, tokens))
  {
    SharesAddUp(form, tokens, |gpus|);
    var shares := Shares(form, tokens, |gpus|);
    forall i | 0 <= i < |gpus| ensures shares[i] >= 0.0 {
      SharesAreNatural(form, tokens, |gpus|, i);
    }
  }

  lemma OneIsPicks(tokens: real, gpu: nat, ranks: seq<nat>, n: nat)
    requires tokens > 0.0 && gpu < n && gpu in ranks
    ensures PicksOf(Picks([gpu], [tokens]), ranks, n, tokens)
  {
    assert [tokens] == [] + [tokens];
    SumRAppend([], tokens);
  }

  lemma PickIsPicks(router: Router, form: Form, c: Costs, s: State, counts: seq<real>, placement: Ranks, e: nat)
    requires Sane(c) && Routable(s, counts, placement) && e < |counts| && counts[e] > 0.0
    ensures PicksOf(Pick(router, form, c, s, counts, placement, e), placement[e], |s.held|,
                    KeptBy(router, form, counts[e]))
  {
    var ranks, n := placement[e], |s.held|;
    assert ranks != [] && GoodRanks(ranks, n);
    match router
    case Split =>
      SharesArePicks(form, counts[e], ranks, ranks, n);
    case Concentrate =>
      TakeAll(ranks);
      OneIsPicks(counts[e], Cheapest(c, s, ranks, e, counts[e], |ranks|).value, ranks, n);
    case Heuristic =>
      var r := ReplicaCount(c, counts[e], |ranks|);
      CandidatesFacts(ranks, n, CostKey(c, s));
      SharesArePicks(form, counts[e], Sort(ranks, CostKey(c, s))[..r], ranks, n);
  }

  lemma {:induction false} RouteAllRoutes(
    router: Router, form: Form, c: Costs, counts: seq<real>, placement: Ranks, gpus: nat, order: seq<nat>)
    requires Sane(c) && ValidRanks(placement, |counts|, gpus) && Distinct(order)
    requires forall i :: 0 <= i < |order| ==> order[i] < |counts|
    ensures Routed(RouteAll(router, form, c, counts, placement, gpus, order), gpus, KeptOf(router, form, counts),
                   placement, order)
  {
    var kept := KeptOf(router, form, counts);
    if order == [] {
      EmptyIsConsistent(gpus, |counts|);
      forall e | 0 <= e < |counts| ensures ExpertTotal(Empty(gpus).held, e) == 0.0 {
        EmptyCounts(gpus, e);
      }
    } else {
      var n := |order| - 1;
      var e := order[n];
      RouteAllRoutes(router, form, c, counts, placement, gpus, order[..n]);
      assert order == order[..n] + [e] && e !in order[..n];
      var s := RouteAll(router, form, c, counts, placement, gpus, order[..n]);
      if counts[e] > 0.0 {
        PickIsPicks(router, form, c, s, counts, placement, e);
        AddAllRoutes(s, gpus, kept, placement, order[..n], e, Pick(router, form, c, s, counts, placement, e));
      }
    }
  }
}