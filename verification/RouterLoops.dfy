/** The routers as the program runs them: loops over experts, replicas, GPUs and rounds. */
module RouterLoops {
  import opened Common
  import opened LocalSearch
  import opened Placement
  import opened RouterLaws
  import opened Routing
  import opened SearchLaws
  import opened StableSort
  import opened Sums

  method DistributeReplicaTokens(tokens: real, replicas: nat) returns (r: seq<real>)
    ensures r == Distribute(tokens, replicas)
  {
    if replicas == 0 || tokens <= 0.0 {
      return seq(replicas, _ => 0.0);
    }
    var rounded := (tokens + 0.5).Floor;
    var d := tokens - rounded as real;
    r := [];
    if -EPSILON < d < EPSILON {
      var base, remainder := rounded / replicas, rounded % replicas;
      for replica := 0 to replicas
        invariant r == WholeShares(rounded, replicas, replica)
      {
        var share := base as real;
        if replica < remainder {
          share := share + 1.0;
        }
        r := r + [share];
      }
    } else {
      var share := tokens / replicas as real;
      for replica := 0 to replicas
        invariant r == seq(replica, _ => share)
      {
        r := r + [share];
      }
    }
  }

  method DivideDemand(form: Form, tokens: real, replicas: nat) returns (r: seq<real>)
    requires replicas >= 1
    ensures r == Shares(form, tokens, replicas)
  {
    if form == Trace {
      r := DistributeReplicaTokens(tokens, replicas);
    } else {
      r := seq(replicas, _ => tokens / replicas as real);
    }
  }

  method CheapestGpu(c: Costs, s: State, ranks: seq<nat>, e: nat, tokens: real) returns (best: nat)
    requires Sane(c) && ranks != [] && |s.held| == |s.loads| && forall i :: 0 <= i < |ranks| ==> ranks[i] < |s.held|
    ensures Cheapest(c, s, ranks, e, tokens, |ranks|) == Some(best)
  {
    var found: Option<nat> := None;
    var bestCost := 0.0;
    for i := 0 to |ranks|
      invariant found == Cheapest(c, s, ranks, e, tokens, i)
      invariant found.Some? ==> found.value < |s.held| && bestCost == CostWith(c, s, found.value, e, tokens)
    {
      var g := ranks[i];
      var active := |s.held[g]|;
      if e !in s.held[g] {
        active := active + 1;
      }
      var cost := GpuCost(c, active, s.loads[g] + tokens);
      if found == None || cost < bestCost {
        found, bestCost := Some(g), cost;
      }
    }
    best := found.value;
  }

  /** No cheaper GPU exists among the expert's own. */
  lemma {:induction false} CheapestIsCheapest(c: Costs, s: State, ranks: seq<nat>, e: nat, tokens: real, n: nat, i: nat)
    requires Sane(c) && i < n <= |ranks| && |s.held| == |s.loads| && forall i :: 0 <= i < |ranks| ==>
             ranks[i] < |s.held|
    ensures var best := Cheapest(c, s, ranks, e, tokens, n).value;
            CostWith(c, s, best, e, tokens) <= CostWith(c, s, ranks[i], e, tokens)
  {
    if i < n - 1 {
      CheapestIsCheapest(c, s, ranks, e, tokens, n - 1, i);
    }
  }

  // ---------------------------------------------------------------- placing the demand of one expert

  function Entered(x: Search, e: nat): Search {
    var chunks: map<nat, map<nat, real>> := x.chunks[e := map[]];
    x.(chunks := chunks)
  }

  function Put(x: Search, e: nat, g: nat, tokens: real): Search
    requires e in x.chunks && g < |x.state.held| == |x.state.loads|
  {
    if tokens <= 0.0 then x
    else
      var chunk: map<nat, real> := x.chunks[e][g := At(x.chunks[e], g) + tokens];
      var chunks: map<nat, map<nat, real>> := x.chunks[e := chunk];
      Search(chunks, Add(x.state, g, e, tokens))
  }

  lemma PutKeepsAgreement(x: Search, e: nat, g: nat, tokens: real)
    requires Agree(x) && e in x.chunks && g < |x.state.held|
    ensures Agree(Put(x, e, g, tokens))
  {
    forall e': nat, g': nat ensures AgreeAt(Put(x, e, g, tokens), e', g') {
      assert AgreeAt(x, e', g') && AgreeAt(x, e, g);
      PutKeepsAgreementAt(x, e, g, tokens, e', g');
    }
  }

  lemma PutKeepsAgreementAt(x: Search, e: nat, g: nat, tokens: real, e': nat, g': nat)
    requires e in x.chunks && g < |x.state.held| == |x.state.loads| && AgreeAt(x, e', g') && AgreeAt(x, e, g)
    ensures AgreeAt(Put(x, e, g, tokens), e', g')
  {
  }

  lemma EnteredAgrees(x: Search, e: nat)
    requires Agree(x) && e !in x.chunks
    ensures Agree(Entered(x, e))
  {
    forall e': nat, g': nat ensures AgreeAt(Entered(x, e), e', g') {
      assert AgreeAt(x, e', g');
    }
  }

  /** Adds the parts of one expert's demand to the chunks and to the state. */
  method PutShares(x: Search, e: nat, p: Picks) returns (x': Search)
    requires Agree(x) && e !in x.chunks && |p.gpus| == |p.shares|
    requires forall i :: 0 <= i < |p.gpus| ==> p.gpus[i] < |x.state.held|
    ensures Agree(x') && x'.chunks.Keys == x.chunks.Keys + {e}
    ensures x'.state == AddAll(x.state, e, p, |p.gpus|)
  {
    EnteredAgrees(x, e);
    x' := Entered(x, e);
    for i := 0 to |p.gpus|
      invariant Agree(x') && x'.chunks.Keys == x.chunks.Keys + {e}
      invariant |x'.state.held| == |x.state.held| && x'.state == AddAll(x.state, e, p, i)
    {
      PutKeepsAgreement(x', e, p.gpus[i], p.shares[i]);
      x' := Put(x', e, p.gpus[i], p.shares[i]);
    }
  }

  method PickGpus(router: Router, form: Form, c: Costs, s: State, counts: seq<real>, placement: Ranks, e: nat)
    returns (p: Picks)
    requires Sane(c) && Routable(s, counts, placement) && e < |counts|
    ensures p == Pick(router, form, c, s, counts, placement, e)
  {
    assert placement[e] != [] && GoodRanks(placement[e], |s.held|);
    match router {
      case Split =>
        var shares := DivideDemand(form, counts[e], |placement[e]|);
        p := Picks(placement[e], shares);
      case Concentrate =>
        var best := CheapestGpu(c, s, placement[e], e, counts[e]);
        p := Picks([best], [counts[e]]);
      case Heuristic =>
        var r := ReplicaCount(c, counts[e], |placement[e]|);
        CandidatesFacts(placement[e], |s.held|, CostKey(c, s));
        var candidates := Sort(placement[e], CostKey(c, s));
        var shares := DivideDemand(form, counts[e], r);
        p := Picks(candidates[..r], shares);
    }
  }

  /** The loop of every router over the experts in its order. */
  method RouteInOrder(router: Router, form: Form, c: Costs, counts: seq<real>, placement: Ranks, gpus: nat,
                      order: seq<nat>)
    returns (x: Search)
    requires Sane(c) && ValidRanks(placement, |counts|, gpus) && Distinct(order)
    requires forall i :: 0 <= i < |order| ==> order[i] < |counts|
    ensures x.state == RouteAll(router, form, c, counts, placement, gpus, order) && Agree(x)
  {
    x := Search(map[], Empty(gpus));
    forall e: nat, g: nat ensures AgreeAt(x, e, g) {
    }
    TakeAll(order);
    for i := 0 to |order|
      invariant x.state == RouteAll(router, form, c, counts, placement, gpus, order[..i]) && Agree(x)
      invariant forall e :: e in x.chunks ==> e in order[..i]
    {
      TakeNext(order, i);
      var e := order[i];
      assert e !in order[..i];
      if counts[e] > 0.0 {
        var p := PickGpus(router, form, c, x.state, counts, placement, e);
        x := PutShares(x, e, p);
      }
    }
  }

  // ---------------------------------------------------------------- the local search

  method FindSlowest(c: Costs, s: State) returns (slow: nat, base: real)
    requires Sane(c) && 1 <= |s.held| == |s.loads|
    ensures slow == Slowest(CostSeq(c, s), |s.held|) && slow < |s.held| && base == Cost(c, s, slow)
  {
    slow, base := 0, GpuCost(c, |s.held[0]|, s.loads[0]);
    for gpu := 1 to |s.held|
      invariant slow == Slowest(CostSeq(c, s), gpu) && base == Cost(c, s, slow)
    {
      var cost := GpuCost(c, |s.held[gpu]|, s.loads[gpu]);
      if cost > base {
        slow, base := gpu, cost;
      }
    }
  }

  method OtherCost(c: Costs, s: State, a: nat, b: nat) returns (other: real)
    requires Sane(c) && |s.held| == |s.loads|
    ensures other == MaxWithout(CostSeq(c, s), |s.held|, a, b)
  {
    other := 0.0;
    for gpu := 0 to |s.held|
      invariant other == MaxWithout(CostSeq(c, s), gpu, a, b)
    {
      if gpu != a && gpu != b {
        var cost := GpuCost(c, |s.held[gpu]|, s.loads[gpu]);
        if cost > other {
          other := cost;
        }
      }
    }
  }

  method PredictMove(c: Costs, x: Search, slow: nat, m: Move) returns (after: real)
    requires Sane(c) && CanMove(x, slow, m)
    ensures after == Predicted(c, x, slow, m)
  {
    var tokens := x.chunks[m.expert][slow];
    var sourceCost := GpuCost(c, |x.state.held[slow]| - 1, x.state.loads[slow] - tokens);
    var active := |x.state.held[m.destination]|;
    if m.destination !in x.chunks[m.expert] {
      active := active + 1;
    }
    var destinationCost := GpuCost(c, active, x.state.loads[m.destination] + tokens);
    var other := OtherCost(c, x.state, slow, m.destination);
    after := MaxR(sourceCost, MaxR(destinationCost, other));
  }

  method TryDestinations(c: Costs, x: Search, slow: nat, base: real, e: nat, ranks: seq<nat>, ch0: Choice)
    returns (ch: Choice)
    requires Sane(c) && Agree(x) && slow < |x.state.held| && forall i :: 0 <= i < |ranks| ==> ranks[i] < |x.state.held|
    ensures ch == TryExpert(c, x, slow, base, e, ranks, |ranks|, ch0)
  {
    ch := ch0;
    assert AgreeAt(x, e, slow);
    if e in x.chunks && slow in x.chunks[e] && x.chunks[e][slow] > 0.0 {
      for i := 0 to |ranks|
        invariant ch == TryExpert(c, x, slow, base, e, ranks, i, ch0)
      {
        var m := Move(e, ranks[i]);
        if ranks[i] != slow {
          var after := PredictMove(c, x, slow, m);
          if base - after > ch.gain {
            ch := Choice(base - after, Some(m));
          }
        }
      }
    } else {
      NoCandidates(c, x, slow, base, e, ranks, |ranks|, ch0);
    }
  }

  lemma {:induction false} NoCandidates(c: Costs, x: Search, slow: nat, base: real, e: nat, ranks: seq<nat>, n: nat,
                                        ch: Choice)
    requires Sane(c) && n <= |ranks|
    requires !(e in x.chunks && slow in x.chunks[e] && x.chunks[e][slow] > 0.0)
    ensures TryExpert(c, x, slow, base, e, ranks, n, ch) == ch
  {
    if n > 0 {
      NoCandidates(c, x, slow, base, e, ranks, n - 1, ch);
    }
  }

  method BestMove(c: Costs, x: Search, slow: nat, base: real, order: seq<nat>, placement: Ranks) returns (ch: Choice)
    requires Sane(c) && Agree(x) && slow < |x.state.held| && ValidRanks(placement, |placement|, |x.state.held|)
    requires forall i :: 0 <= i < |order| ==> order[i] < |placement|
    ensures ch == TryAll(c, x, slow, base, order, placement, |order|)
  {
    ch := Choice(MIN_GAIN, None);
    for i := 0 to |order|
      invariant ch == TryAll(c, x, slow, base, order, placement, i)
    {
      assert GoodRanks(placement[order[i]], |x.state.held|);
      ch := TryDestinations(c, x, slow, base, order[i], placement[order[i]], ch);
    }
  }

  method SearchRound(c: Costs, x: Search, order: seq<nat>, placement: Ranks) returns (x': Search, over: bool)
    requires Sane(c) && Agree(x) && Searchable(x, order, placement) &&
             ValidRanks(placement, |placement|, |x.state.held|)
    ensures x' == NextRound(c, x, order, placement) && Agree(x') && |x'.state.held| == |x.state.held|
    ensures over ==> x' == x
  {
    var slow, base := FindSlowest(c, x.state);
    var ch := BestMove(c, x, slow, base, order, placement);
    TryAllFacts(c, x, slow, base, order, placement, |order|);
    if ch.move == None {
      return x, true;
    }
    MoveKeepsAgreement(x, slow, ch.move.value);
    return Moved(x, slow, ch.move.value), false;
  }

  method SearchLocally(c: Costs, x0: Search, order: seq<nat>, placement: Ranks) returns (x: Search)
    requires Sane(c) && Agree(x0) && Searchable(x0, order, placement) &&
             ValidRanks(placement, |placement|, |x0.state.held|)
    ensures x == Improved(c, x0, order, placement, ROUNDS)
  {
    x := x0;
    for round := 0 to ROUNDS
      invariant x == Improved(c, x0, order, placement, round) && Agree(x) && |x.state.held| == |x0.state.held|
    {
      var x', over := SearchRound(c, x, order, placement);
      if over {
        RepeatIsOver(Rounds(c, order, placement), x0, round, ROUNDS);
        return;
      }
      x := x';
    }
  }

  // ---------------------------------------------------------------- the central router

  function Positive(counts: seq<real>, n: nat): (r: seq<nat>)
    requires n <= |counts|
    ensures forall i :: 0 <= i < |r| ==> r[i] < n && counts[r[i]] > 0.0
    ensures forall i, j :: 0 <= i < j < |r| ==> r[i] < r[j]
    ensures forall e: nat :: e < n && counts[e] > 0.0 ==> e in r
  {
    if n == 0 then [] else if counts[n - 1] > 0.0 then Positive(counts, n - 1) + [n - 1] else Positive(counts, n - 1)
  }

  function Falling(counts: seq<real>): nat -> real {
    (e: nat) => if e < |counts| then -counts[e] else 0.0
  }

  function FallingSolo(c: Costs, counts: seq<real>): nat -> real
    requires Sane(c)
  {
    (e: nat) => if e < |counts| then -GpuCost(c, 1, counts[e]) else 0.0
  }

  /** The order in which a router takes the experts. */
  function OrderOf(router: Router, c: Costs, counts: seq<real>): seq<nat>
    requires Sane(c)
  {
    match router
    case Split => UpTo(|counts|)
    case Concentrate => Sort(UpTo(|counts|), Falling(counts))
    case Heuristic => Sort(Positive(counts, |counts|), FallingSolo(c, counts))
  }

  lemma OrderOfFacts(router: Router, c: Costs, counts: seq<real>)
    requires Sane(c)
    ensures var order := OrderOf(router, c, counts);
            && Distinct(order)
            && (forall i :: 0 <= i < |order| ==> order[i] < |counts|)
            && (forall e: nat :: e < |counts| && counts[e] > 0.0 ==> e in order)
  {
    var order := OrderOf(router, c, counts);
    match router
    case Split =>
      forall e: nat | e < |counts| ensures e in order {
        assert order[e] == e;
      }
    case Concentrate =>
      SortUpTo(|counts|, Falling(counts));
    case Heuristic =>
      var p := Positive(counts, |counts|);
      SortDistinct(p, FallingSolo(c, counts));
      forall i | 0 <= i < |order| ensures order[i] < |counts| {
        assert order[i] in p;
      }
  }

  /**
   The concentrate router takes the largest demand first, the heuristic router the costliest expert; ties by number.
   */
  lemma OrderFalls(router: Router, c: Costs, counts: seq<real>, i: nat, j: nat)
    requires Sane(c) && router != Split && i < j < |OrderOf(router, c, counts)|
    ensures var a, b := OrderOf(router, c, counts)[i], OrderOf(router, c, counts)[j];
            && a < |counts| && b < |counts|
            && (var x, y := Solo(router, c, counts[a]), Solo(router, c, counts[b]); x > y || (x == y && a < b))
  {
    OrderOfFacts(router, c, counts);
    match router
    case Concentrate => SortInOrder(UpTo(|counts|), Falling(counts));
    case Heuristic => SortInOrder(Positive(counts, |counts|), FallingSolo(c, counts));
  }

  /** What an expert is ordered by: its demand, or what its demand costs alone on a GPU. */
  function Solo(router: Router, c: Costs, tokens: real): real
    requires Sane(c)
  {
    if router == Concentrate then tokens else GpuCost(c, 1, tokens)
  }

  /** A routing of the whole demand: every expert's kept tokens, all on its own GPUs, and loads that add them up. */
  ghost predicate RoutesAll(s: State, gpus: nat, kept: seq<real>, placement: Ranks)
    requires |placement| == |kept|
  {
    && Consistent(s, gpus, |kept|)
    && (forall e :: 0 <= e < |kept| ==> ExpertTotal(s.held, e) == kept[e])
    && (forall g, e :: 0 <= g < gpus && 0 <= e < |kept| && e in s.held[g] ==> g in placement[e])
  }

  lemma RoutedIsAll(s: State, gpus: nat, router: Router, form: Form, counts: seq<real>, placement: Ranks,
                    order: seq<nat>)
    requires |placement| == |counts| && Routed(s, gpus, KeptOf(router, form, counts), placement, order)
    requires forall e: nat :: e < |counts| && counts[e] > 0.0 ==> e in order
    ensures RoutesAll(s, gpus, KeptOf(router, form, counts), placement)
  {
  }

  ghost predicate SearchedFrom(form: Form, c: Costs, counts: seq<real>, placement: Ranks, gpus: nat, s: State,
                               order: seq<nat>, xs: seq<Search>)
    requires Sane(c) && ValidRanks(placement, |counts|, gpus)
    requires forall i :: 0 <= i < |order| ==> order[i] < |counts|
  {
    && xs != [] && Agree(xs[0]) && xs[|xs| - 1].state == s && |s.held| == |s.loads|
    && xs[0].state == RouteAll(Heuristic, form, c, counts, placement, gpus, order)
    && Makespan(c, s) <= Makespan(c, xs[0].state)
    && ServedInOrder(Heuristic, form, c, counts, placement, xs[0].state, order)
    && Searched(c, xs, order, placement, 20)
  }

  /**
   What a router promises of a whole routing: every expert is served in its turn. For the heuristic router that holds of
   the routing from which the local search started.
   */
  ghost predicate RoutedBy(router: Router, form: Form, c: Costs, counts: seq<real>, placement: Ranks, gpus: nat,
                           s: State)
    requires Sane(c) && ValidRanks(placement, |counts|, gpus)
  {
    var order := OrderOf(router, c, counts);
    OrderOfFacts(router, c, counts);
    if router == Heuristic then exists xs :: SearchedFrom(form, c, counts, placement, gpus, s, order, xs)
    else
      && s == RouteAll(router, form, c, counts, placement, gpus, order)
      && ServedInOrder(router, form, c, counts, placement, s, order)
  }

  lemma HeuristicallyRouted(form: Form, c: Costs, counts: seq<real>, placement: Ranks, gpus: nat, x: Search, s: State)
    requires Sane(c) && gpus >= 1 && ValidRanks(placement, |counts|, gpus) && Agree(x)
    requires SearchInv(x, gpus, KeptOf(Heuristic, form, counts), placement)
    requires var order := OrderOf(Heuristic, c, counts);
             && (forall i :: 0 <= i < |order| ==> order[i] < |counts|)
             && x.state == RouteAll(Heuristic, form, c, counts, placement, gpus, order)
             && ServedInOrder(Heuristic, form, c, counts, placement, x.state, order)
             && s == Improved(c, x, order, placement, ROUNDS).state
    ensures RoutedBy(Heuristic, form, c, counts, placement, gpus, s)
  {
    var order := OrderOf(Heuristic, c, counts);
    var xs := SearchIsSearched(c, x, order, placement, ROUNDS);
    SearchNeverWorsens(c, x, order, placement, gpus, KeptOf(Heuristic, form, counts), ROUNDS);
    assert SearchedFrom(form, c, counts, placement, gpus, s, order, xs);
  }

  lemma SplitEqually(c: Costs, counts: seq<real>, placement: Ranks, gpus: nat, s: State)
    requires Sane(c) && ValidRanks(placement, |counts|, gpus) && |s.held| == gpus
    requires RoutedBy(Split, Synthetic, c, counts, placement, gpus, s)
    ensures forall e, i :: 0 <= e < |counts| && counts[e] > 0.0 && 0 <= i < |placement[e]| ==>
              placement[e][i] < gpus && At(s.held[placement[e][i]], e) == counts[e] / |placement[e]| as real
  {
    var order := OrderOf(Split, c, counts);
    OrderOfFacts(Split, c, counts);
    forall e, i | 0 <= e < |counts| && counts[e] > 0.0 && 0 <= i < |placement[e]|
      ensures placement[e][i] < gpus && At(s.held[placement[e][i]], e) == counts[e] / |placement[e]| as real
    {
      assert order[e] == e;
      assert ServedInTurn(Split, Synthetic, c, counts, placement, s, order, e);
      SplitIsEqual(s, counts[e], placement[e], e, i);
    }
  }

  /** The routing of all experts in the router's order, as every router begins. */
  method RouteExperts(router: Router, form: Form, c: Costs, counts: seq<real>, placement: Ranks, gpus: nat,
                      order: seq<nat>)
    returns (x: Search)
    requires Sane(c) && ValidRanks(placement, |counts|, gpus) && order == OrderOf(router, c, counts)
    ensures forall i :: 0 <= i < |order| ==> order[i] < |counts|
    ensures Agree(x) && x.state == RouteAll(router, form, c, counts, placement, gpus, order)
    ensures RoutesAll(x.state, gpus, KeptOf(router, form, counts), placement)
    ensures ServedInOrder(router, form, c, counts, placement, x.state, order)
  {
    OrderOfFacts(router, c, counts);
    x := RouteInOrder(router, form, c, counts, placement, gpus, order);
    RouteAllRoutes(router, form, c, counts, placement, gpus, order);
    RoutedIsAll(x.state, gpus, router, form, counts, placement, order);
    RouteAllServes(router, form, c, counts, placement, gpus, order);
  }

  method RouteHeuristic(form: Form, c: Costs, counts: seq<real>, placement: Ranks, gpus: nat) returns (s: State)
    requires Sane(c) && gpus >= 1 && ValidRanks(placement, |counts|, gpus)
    ensures RoutesAll(s, gpus, KeptOf(Heuristic, form, counts), placement)
    ensures RoutedBy(Heuristic, form, c, counts, placement, gpus, s)
  {
    var order := OrderOf(Heuristic, c, counts);
    var x := RouteExperts(Heuristic, form, c, counts, placement, gpus, order);
    var y := SearchLocally(c, x, order, placement);
    SearchNeverWorsens(c, x, order, placement, gpus, KeptOf(Heuristic, form, counts), ROUNDS);
    s := y.state;
    HeuristicallyRouted(form, c, counts, placement, gpus, x, s);
  }

  /**
   The central router in either form conserves every expert's demand on its own GPUs and serves the experts in turn as
   the router promises.
   */
  method RouteCentral(router: Router, form: Form, c: Costs, counts: seq<real>, placement: Ranks, gpus: nat)
    returns (s: State)
    requires Sane(c) && gpus >= 1 && ValidRanks(placement, |counts|, gpus)
    ensures RoutesAll(s, gpus, KeptOf(router, form, counts), placement)
    ensures RoutedBy(router, form, c, counts, placement, gpus, s)
    ensures router == Split && form == Synthetic ==>
              forall e, i :: 0 <= e < |counts| && counts[e] > 0.0 && 0 <= i < |placement[e]| ==>
                At(s.held[placement[e][i]], e) == counts[e] / |placement[e]| as real
  {
    if router == Heuristic {
      s := RouteHeuristic(form, c, counts, placement, gpus);
    } else {
      var x := RouteExperts(router, form, c, counts, placement, gpus, OrderOf(router, c, counts));
      s := x.state;
    }
    if router == Split && form == Synthetic {
      SplitEqually(c, counts, placement, gpus, s);
    }
  }

  /** The loads of a routing add up to its kept demand. */
  lemma LoadsAddUp(s: State, gpus: nat, kept: seq<real>, placement: Ranks)
    requires |placement| == |kept| && RoutesAll(s, gpus, kept, placement)
    ensures SumR(s.loads) == SumR(kept)
  {
    TotalsAgree(s.held, s.loads, kept);
  }
}
