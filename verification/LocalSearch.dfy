/**
 The local search of the heuristic router, shared by its synthetic and its trace form: up to twenty times the slowest
 GPU gives one expert's whole chunk to another of the expert's GPUs, whichever move lowers the makespan most.
 */
module LocalSearch {
  import opened Common
  import opened Placement
  import opened Routing

  /** The chunks of each expert by GPU, kept beside the routing state. */
  datatype Search = Search(chunks: map<nat, map<nat, real>>, state: State)

  datatype Move = Move(expert: nat, destination: nat)

  const MIN_GAIN: real := 0.000000000001

  predicate InChunks(x: Search, e: nat, g: nat) {
    e in x.chunks && g in x.chunks[e]
  }

  predicate InState(x: Search, e: nat, g: nat) {
    g < |x.state.held| && e in x.state.held[g]
  }

  /** The chunks and the routing state say the same about one expert and GPU. */
  predicate AgreeAt(x: Search, e: nat, g: nat) {
    && (InChunks(x, e, g) <==> InState(x, e, g))
    && (InChunks(x, e, g) ==> x.chunks[e][g] == x.state.held[g][e])
  }

  ghost predicate Agree(x: Search) {
    && |x.state.held| == |x.state.loads|
    && forall e: nat, g: nat :: AgreeAt(x, e, g)
  }

  predicate CanMove(x: Search, slow: nat, m: Move) {
    && slow < |x.state.held| == |x.state.loads| && m.destination < |x.state.held| && m.destination != slow
    && m.expert in x.chunks && slow in x.chunks[m.expert] && m.expert in x.state.held[slow]
  }

  function Moved(x: Search, slow: nat, m: Move): (x': Search)
    requires CanMove(x, slow, m)
    ensures |x'.state.held| == |x'.state.loads| == |x.state.held|
  {
    var e, dest := m.expert, m.destination;
    var tokens := x.chunks[e][slow];
    var chunk: map<nat, real> := (x.chunks[e] - {slow})[dest := At(x.chunks[e], dest) + tokens];
    var from: map<nat, real> := x.state.held[slow] - {e};
    var to: map<nat, real> := x.state.held[dest][e := At(x.state.held[dest], e) + tokens];
    var chunks: map<nat, map<nat, real>> := x.chunks[e := chunk];
    Search(chunks,
           State(x.state.held[slow := from][dest := to],
                 x.state.loads[slow := x.state.loads[slow] - tokens][dest := x.state.loads[dest] + tokens]))
  }

  // ---------------------------------------------------------------- the makespan

  function CostSeq(c: Costs, s: State): (r: seq<real>)
    requires Sane(c) && |s.held| == |s.loads|
    ensures |r| == |s.held| && forall g :: 0 <= g < |r| ==> r[g] == Cost(c, s, g)
  {
    seq(|s.held|, g requires 0 <= g < |s.held| => Cost(c, s, g))
  }

  /** The largest of the first n costs, at least zero. */
  function MaxOf(costs: seq<real>, n: nat): real
    requires n <= |costs|
  {
    if n == 0 then 0.0 else MaxR(MaxOf(costs, n - 1), costs[n - 1])
  }

  function Makespan(c: Costs, s: State): real
    requires Sane(c) && |s.held| == |s.loads|
  {
    MaxOf(CostSeq(c, s), |s.held|)
  }

  /** The same without two of the GPUs. */
  function MaxWithout(costs: seq<real>, n: nat, a: nat, b: nat): real
    requires n <= |costs|
  {
    if n == 0 then 0.0
    else if n - 1 == a || n - 1 == b then MaxWithout(costs, n - 1, a, b)
    else MaxR(MaxWithout(costs, n - 1, a, b), costs[n - 1])
  }

  lemma {:induction false} MaxInParts(costs: seq<real>, costs': seq<real>, n: nat, a: nat, b: nat)
    requires n <= |costs| == |costs'| && a != b
    requires forall g :: 0 <= g < n && g != a && g != b ==> costs'[g] == costs[g]
    ensures MaxOf(costs', n) ==
            MaxR(MaxWithout(costs, n, a, b), MaxR(if a < n then costs'[a] else 0.0, if b < n then costs'[b] else 0.0))
    decreases n
  {
    if n > 0 {
      MaxInParts(costs, costs', n - 1, a, b);
      FloorIsZero(costs, n, a, b);
      FloorIsZero(costs, n - 1, a, b);
    }
  }

  lemma {:induction false} FloorIsZero(costs: seq<real>, n: nat, a: nat, b: nat)
    requires n <= |costs|
    ensures MaxWithout(costs, n, a, b) >= 0.0 && MaxOf(costs, n) >= 0.0
  {
    if n > 0 {
      FloorIsZero(costs, n - 1, a, b);
    }
  }

  lemma {:induction false} MaxIsLargest(costs: seq<real>, n: nat, g: nat)
    requires g < n <= |costs|
    ensures costs[g] <= MaxOf(costs, n)
  {
    if g < n - 1 {
      MaxIsLargest(costs, n - 1, g);
    }
  }

  /** The first GPU with the largest cost among the first n. */
  function Slowest(costs: seq<real>, n: nat): (g: nat)
    requires 1 <= n <= |costs|
    ensures g < n
  {
    if n == 1 then 0
    else
      var g := Slowest(costs, n - 1);
      if costs[n - 1] > costs[g] then n - 1 else g
  }

  lemma {:induction false} SlowestIsMax(costs: seq<real>, n: nat)
    requires 1 <= n <= |costs|
    ensures MaxOf(costs, n) == MaxR(0.0, costs[Slowest(costs, n)])
  {
    if n > 1 {
      SlowestIsMax(costs, n - 1);
    }
  }

  // ---------------------------------------------------------------- predicting a move

  function SourceCost(c: Costs, x: Search, slow: nat, m: Move): real
    requires Sane(c) && CanMove(x, slow, m)
  {
    GpuCost(c, |x.state.held[slow]| - 1, x.state.loads[slow] - x.chunks[m.expert][slow])
  }

  function DestinationCost(c: Costs, x: Search, slow: nat, m: Move): real
    requires Sane(c) && CanMove(x, slow, m)
  {
    var had := m.destination in x.chunks[m.expert];
    GpuCost(c, |x.state.held[m.destination]| + (if had then 0 else 1),
            x.state.loads[m.destination] + x.chunks[m.expert][slow])
  }

  function Predicted(c: Costs, x: Search, slow: nat, m: Move): real
    requires Sane(c) && CanMove(x, slow, m)
  {
    MaxR(SourceCost(c, x, slow, m),
         MaxR(DestinationCost(c, x, slow, m), MaxWithout(CostSeq(c, x.state), |x.state.held|, slow, m.destination)))
  }

  lemma RemovedSize(m: map<nat, real>, e: nat)
    requires e in m
    ensures |m - {e}| == |m| - 1
  {
    assert (m - {e}).Keys == m.Keys - {e};
    assert |m.Keys| == |m| && |(m - {e}).Keys| == |m - {e}|;
  }

  lemma AddedSize(m: map<nat, real>, e: nat, t: real)
    ensures |m[e := t]| == |m| + if e in m then 0 else 1
  {
    assert m[e := t].Keys == m.Keys + {e};
    assert |m[e := t].Keys| == |m[e := t]|;
  }

  lemma MovedSource(c: Costs, x: Search, slow: nat, m: Move)
    requires Sane(c) && CanMove(x, slow, m)
    ensures Cost(c, Moved(x, slow, m).state, slow) == SourceCost(c, x, slow, m)
  {
    RemovedSize(x.state.held[slow], m.expert);
  }

  lemma MovedDestination(c: Costs, x: Search, slow: nat, m: Move)
    requires Sane(c) && CanMove(x, slow, m)
    requires m.destination in x.chunks[m.expert] <==> m.expert in x.state.held[m.destination]
    ensures Cost(c, Moved(x, slow, m).state, m.destination) == DestinationCost(c, x, slow, m)
  {
    var to := x.state.held[m.destination];
    AddedSize(to, m.expert, At(to, m.expert) + x.chunks[m.expert][slow]);
  }

  lemma MovedElsewhere(c: Costs, x: Search, slow: nat, m: Move, g: nat)
    requires Sane(c) && CanMove(x, slow, m) && g < |x.state.held| && g != slow && g != m.destination
    ensures Cost(c, Moved(x, slow, m).state, g) == Cost(c, x.state, g)
  {
  }

  /** The makespan that the search predicts for a move is the makespan after the move. */
  lemma PredictionIsExact(c: Costs, x: Search, slow: nat, m: Move)
    requires Sane(c) && Agree(x) && CanMove(x, slow, m)
    ensures Predicted(c, x, slow, m) == Makespan(c, Moved(x, slow, m).state)
  {
    var s' := Moved(x, slow, m).state;
    var costs, costs' := CostSeq(c, x.state), CostSeq(c, s');
    assert AgreeAt(x, m.expert, m.destination);
    MovedSource(c, x, slow, m);
    MovedDestination(c, x, slow, m);
    forall g | 0 <= g < |costs| && g != slow && g != m.destination ensures costs'[g] == costs[g] {
      MovedElsewhere(c, x, slow, m, g);
    }
    assert costs'[slow] == SourceCost(c, x, slow, m) && costs'[m.destination] == DestinationCost(c, x, slow, m);
    MaxInParts(costs, costs', |costs|, slow, m.destination);
  }

  // ---------------------------------------------------------------- what a move keeps

  lemma MoveKeepsAgreementAt(x: Search, slow: nat, m: Move, e: nat, g: nat)
    requires CanMove(x, slow, m) && AgreeAt(x, e, g) && AgreeAt(x, m.expert, m.destination) &&
             AgreeAt(x, m.expert, slow)
    ensures AgreeAt(Moved(x, slow, m), e, g)
  {
    if e == m.expert && g == m.destination {
      assert At(x.chunks[e], g) == At(x.state.held[g], e);
    }
  }

  lemma MoveKeepsAgreement(x: Search, slow: nat, m: Move)
    requires Agree(x) && CanMove(x, slow, m)
    ensures Agree(Moved(x, slow, m))
  {
    forall e: nat, g: nat ensures AgreeAt(Moved(x, slow, m), e, g) {
      assert AgreeAt(x, e, g) && AgreeAt(x, m.expert, m.destination) && AgreeAt(x, m.expert, slow);
      MoveKeepsAgreementAt(x, slow, m, e, g);
    }
  }

  /** A move gives the whole chunk away and changes nothing else. */
  lemma MoveIsWhole(x: Search, slow: nat, m: Move, e: nat, g: nat)
    requires Agree(x) && CanMove(x, slow, m) && g < |x.state.held|
    ensures var held, held' := x.state.held, Moved(x, slow, m).state.held;
            && (e == m.expert && g == slow ==> e !in held'[g])
            && (e == m.expert && g == m.destination ==> At(held'[g], e) == At(held[g], e) + At(held[slow], e))
            && (e != m.expert || (g != slow && g != m.destination) ==>
                  (e in held'[g] <==> e in held[g]) && At(held'[g], e) == At(held[g], e))
  {
    assert AgreeAt(x, m.expert, slow);
  }

  lemma MoveKeepsConsistency(x: Search, slow: nat, m: Move, gpus: nat, experts: nat)
    requires Agree(x) && CanMove(x, slow, m) && Consistent(x.state, gpus, experts)
    ensures Consistent(Moved(x, slow, m).state, gpus, experts)
  {
    var s, s' := x.state, Moved(x, slow, m).state;
    assert AgreeAt(x, m.expert, slow);
    GpuTotalUpdate(s.held[slow], s'.held[slow], m.expert, experts);
    GpuTotalUpdate(s.held[m.destination], s'.held[m.destination], m.expert, experts);
  }

  /** A move keeps the tokens of every expert. */
  lemma MoveKeepsTokens(x: Search, slow: nat, m: Move, e: nat)
    requires Agree(x) && CanMove(x, slow, m)
    ensures ExpertTotal(Moved(x, slow, m).state.held, e) == ExpertTotal(x.state.held, e)
  {
    var held := x.state.held;
    var held' := Moved(x, slow, m).state.held;
    assert AgreeAt(x, m.expert, slow);
    ExpertTotalUpdate(held, slow, held'[slow], e);
    ExpertTotalUpdate(held[slow := held'[slow]], m.destination, held'[m.destination], e);
  }

  // ---------------------------------------------------------------- choosing a move

  datatype Choice = Choice(gain: real, move: Option<Move>)

  predicate Candidate(x: Search, slow: nat, m: Move) {
    CanMove(x, slow, m) && x.chunks[m.expert][slow] > 0.0
  }

  function Gain(c: Costs, x: Search, slow: nat, base: real, m: Move): real
    requires Sane(c) && CanMove(x, slow, m)
  {
    base - Predicted(c, x, slow, m)
  }

  /** Tries the first n destinations of one expert; only a strictly larger gain replaces the choice. */
  function TryExpert(c: Costs, x: Search, slow: nat, base: real, e: nat, ranks: seq<nat>, n: nat, ch: Choice): Choice
    requires Sane(c) && n <= |ranks|
  {
    if n == 0 then ch
    else
      var ch' := TryExpert(c, x, slow, base, e, ranks, n - 1, ch);
      var m := Move(e, ranks[n - 1]);
      if Candidate(x, slow, m) && Gain(c, x, slow, base, m) > ch'.gain then Choice(Gain(c, x, slow, base, m), Some(m))
          else ch'
  }

  function TryAll(c: Costs, x: Search, slow: nat, base: real, order: seq<nat>, placement: Ranks, n: nat): Choice
    requires Sane(c) && n <= |order| && forall i :: 0 <= i < |order| ==> order[i] < |placement|
  {
    if n == 0 then Choice(MIN_GAIN, None)
    else
      var e := order[n - 1];
      TryExpert(c, x, slow, base, e, placement[e], |placement[e]|, TryAll(c, x, slow, base, order, placement, n - 1))
  }

  predicate ChoiceOk(c: Costs, x: Search, slow: nat, base: real, placement: Ranks, ch: Choice)
    requires Sane(c)
  {
    if ch.move == None then ch.gain == MIN_GAIN
    else
      var m := ch.move.value;
      && Candidate(x, slow, m)
      && m.expert < |placement| && m.destination in placement[m.expert]
      && ch.gain == Gain(c, x, slow, base, m) > MIN_GAIN
  }

  lemma {:induction false} TryExpertFacts(
    c: Costs, x: Search, slow: nat, base: real, e: nat, placement: Ranks, n: nat, ch: Choice)
    requires Sane(c) && e < |placement| && n <= |placement[e]| && ChoiceOk(c, x, slow, base, placement, ch)
    ensures var r := TryExpert(c, x, slow, base, e, placement[e], n, ch);
            ChoiceOk(c, x, slow, base, placement, r) && r.gain >= ch.gain >= MIN_GAIN
  {
    if n > 0 {
      TryExpertFacts(c, x, slow, base, e, placement, n - 1, ch);
    }
  }

  lemma {:induction false} TryExpertIsBest(
    c: Costs, x: Search, slow: nat, base: real, e: nat, placement: Ranks, n: nat, ch: Choice, i: nat)
    requires Sane(c) && e < |placement| && i < n <= |placement[e]| && ChoiceOk(c, x, slow, base, placement, ch)
    requires Candidate(x, slow, Move(e, placement[e][i]))
    ensures Gain(c, x, slow, base, Move(e, placement[e][i])) <= TryExpert(c, x, slow, base, e, placement[e], n, ch).gain
  {
    TryExpertFacts(c, x, slow, base, e, placement, n, ch);
    if i < n - 1 {
      TryExpertIsBest(c, x, slow, base, e, placement, n - 1, ch, i);
    }
  }

  lemma {:induction false} TryAllFacts(c: Costs, x: Search, slow: nat, base: real, order: seq<nat>, placement: Ranks,
                                       n: nat)
    requires Sane(c) && n <= |order| && forall i :: 0 <= i < |order| ==> order[i] < |placement|
    ensures ChoiceOk(c, x, slow, base, placement, TryAll(c, x, slow, base, order, placement, n))
  {
    if n > 0 {
      TryAllFacts(c, x, slow, base, order, placement, n - 1);
      var e := order[n - 1];
      TryExpertFacts(c, x, slow, base, e, placement, |placement[e]|, TryAll(c, x, slow, base, order, placement, n - 1));
    }
  }

  /** No candidate gains more than the choice. */
  lemma {:induction false} TryAllIsBest(
    c: Costs, x: Search, slow: nat, base: real, order: seq<nat>, placement: Ranks, n: nat, k: nat, i: nat)
    requires Sane(c) && k < n <= |order| && forall i :: 0 <= i < |order| ==> order[i] < |placement|
    requires i < |placement[order[k]]| && Candidate(x, slow, Move(order[k], placement[order[k]][i]))
    ensures Gain(c, x, slow, base, Move(order[k], placement[order[k]][i])) <=
            TryAll(c, x, slow, base, order, placement, n).gain
  {
    TryAllFacts(c, x, slow, base, order, placement, n - 1);
    var e := order[n - 1];
    var ch := TryAll(c, x, slow, base, order, placement, n - 1);
    TryExpertFacts(c, x, slow, base, e, placement, |placement[e]|, ch);
    if k < n - 1 {
      TryAllIsBest(c, x, slow, base, order, placement, n - 1, k, i);
    } else {
      TryExpertIsBest(c, x, slow, base, e, placement, |placement[e]|, ch, i);
    }
  }

  // ---------------------------------------------------------------- rounds

  predicate Searchable(x: Search, order: seq<nat>, placement: Ranks) {
    1 <= |x.state.held| == |x.state.loads| && forall i :: 0 <= i < |order| ==> order[i] < |placement|
  }

  function SlowGpu(c: Costs, x: Search): nat
    requires Sane(c) && 1 <= |x.state.held| == |x.state.loads|
  {
    Slowest(CostSeq(c, x.state), |x.state.held|)
  }

  function Best(c: Costs, x: Search, order: seq<nat>, placement: Ranks): Choice
    requires Sane(c) && Searchable(x, order, placement)
  {
    var slow := SlowGpu(c, x);
    TryAll(c, x, slow, Cost(c, x.state, slow), order, placement, |order|)
  }

  /** One round: the best move off the slowest GPU, or nothing when none gains enough. */
  function Improve(c: Costs, x: Search, order: seq<nat>, placement: Ranks): (r: Option<Search>)
    requires Sane(c) && Searchable(x, order, placement)
    ensures r.Some? ==> Searchable(r.value, order, placement)
  {
    var slow := SlowGpu(c, x);
    var ch := Best(c, x, order, placement);
    TryAllFacts(c, x, slow, Cost(c, x.state, slow), order, placement, |order|);
    if ch.move == None then None else Some(Moved(x, slow, ch.move.value))
  }

  function NextRound(c: Costs, x: Search, order: seq<nat>, placement: Ranks): (r: Search)
    requires Sane(c) && Searchable(x, order, placement)
    ensures Searchable(r, order, placement)
  {
    var r := Improve(c, x, order, placement);
    if r == None then x else r.value
  }

  function Repeat<T>(f: T -> T, x: T, n: nat): T {
    if n == 0 then x else f(Repeat(f, x, n - 1))
  }

  /** A round as a total function. */
  function Rounds(c: Costs, order: seq<nat>, placement: Ranks): Search -> Search
    requires Sane(c)
  {
    (x: Search) => if Searchable(x, order, placement) then NextRound(c, x, order, placement) else x
  }

  /** The state after so many rounds; a round that finds nothing ends the search. */
  function Improved(c: Costs, x: Search, order: seq<nat>, placement: Ranks, rounds: nat): Search
    requires Sane(c)
  {
    Repeat(Rounds(c, order, placement), x, rounds)
  }

  const ROUNDS: nat := 20

  /** Everything the search must not lose. */
  ghost predicate SearchInv(x: Search, gpus: nat, kept: seq<real>, placement: Ranks)
    requires |placement| == |kept|
  {
    && Agree(x) && Consistent(x.state, gpus, |kept|)
    && (forall e :: 0 <= e < |kept| ==> ExpertTotal(x.state.held, e) == kept[e])
    && (forall g, e :: 0 <= g < gpus && 0 <= e < |kept| && e in x.state.held[g] ==> g in placement[e])
  }

  lemma MoveKeepsInv(x: Search, slow: nat, m: Move, gpus: nat, kept: seq<real>, placement: Ranks)
    requires |placement| == |kept| && SearchInv(x, gpus, kept, placement) && CanMove(x, slow, m)
    requires m.expert < |kept| && m.destination in placement[m.expert]
    ensures SearchInv(Moved(x, slow, m), gpus, kept, placement)
  {
    MoveKeepsAgreement(x, slow, m);
    MoveKeepsConsistency(x, slow, m, gpus, |kept|);
    forall e | 0 <= e < |kept| ensures ExpertTotal(Moved(x, slow, m).state.held, e) == kept[e] {
      MoveKeepsTokens(x, slow, m, e);
    }
  }

  /** Each round keeps the invariant and lowers the makespan by more than the least gain. */
  lemma RoundImproves(c: Costs, x: Search, order: seq<nat>, placement: Ranks, gpus: nat, kept: seq<real>)
    requires Sane(c) && Searchable(x, order, placement)
    requires |placement| == |kept| && SearchInv(x, gpus, kept, placement)
    ensures var r := Improve(c, x, order, placement);
            r.Some? ==>
              && SearchInv(r.value, gpus, kept, placement)
              && Makespan(c, r.value.state) < Makespan(c, x.state) - MIN_GAIN
  {
    var slow := SlowGpu(c, x);
    var base := Cost(c, x.state, slow);
    TryAllFacts(c, x, slow, base, order, placement, |order|);
    SlowestIsMax(CostSeq(c, x.state), |x.state.held|);
    var ch := Best(c, x, order, placement);
    if ch.move.Some? {
      MoveKeepsInv(x, slow, ch.move.value, gpus, kept, placement);
      PredictionIsExact(c, x, slow, ch.move.value);
    }
  }

  /** A round takes the best move: no other chunk of the slowest GPU would lead to a smaller makespan. */
  lemma RoundTakesBestMove(c: Costs, x: Search, order: seq<nat>, placement: Ranks, k: nat, i: nat)
    requires Sane(c) && Searchable(x, order, placement) && Agree(x)
    requires k < |order| && i < |placement[order[k]]|
    ensures var r := Improve(c, x, order, placement);
            var slow := SlowGpu(c, x);
            var m := Move(order[k], placement[order[k]][i]);
            Candidate(x, slow, m) ==>
              if r == None then Makespan(c, Moved(x, slow, m).state) >= Cost(c, x.state, slow) - MIN_GAIN
              else Makespan(c, r.value.state) <= Makespan(c, Moved(x, slow, m).state)
  {
    var slow := SlowGpu(c, x);
    var base := Cost(c, x.state, slow);
    var m := Move(order[k], placement[order[k]][i]);
    if Candidate(x, slow, m) {
      TryAllFacts(c, x, slow, base, order, placement, |order|);
      TryAllIsBest(c, x, slow, base, order, placement, |order|, k, i);
      PredictionIsExact(c, x, slow, m);
      var ch := Best(c, x, order, placement);
      if ch.move.Some? {
        PredictionIsExact(c, x, slow, ch.move.value);
      }
    }
  }

  ghost predicate NoWorse(c: Costs, x: Search, r: Search, gpus: nat, kept: seq<real>, placement: Ranks)
    requires Sane(c) && |placement| == |kept| && |x.state.held| == |x.state.loads|
  {
    SearchInv(r, gpus, kept, placement) && Makespan(c, r.state) <= Makespan(c, x.state)
  }

  lemma RoundNeverWorsens(c: Costs, x: Search, y: Search, order: seq<nat>, placement: Ranks, gpus: nat, kept: seq<real>)
    requires Sane(c) && |x.state.held| == |x.state.loads|
    requires |placement| == |kept| && NoWorse(c, x, y, gpus, kept, placement)
    ensures NoWorse(c, x, Rounds(c, order, placement)(y), gpus, kept, placement)
  {
    if Searchable(y, order, placement) {
      RoundImproves(c, y, order, placement, gpus, kept);
    }
  }

  /** The whole search conserves every expert's tokens on its own GPUs and never ends worse than it began. */
  lemma {:induction false} SearchNeverWorsens(
    c: Costs, x: Search, order: seq<nat>, placement: Ranks, gpus: nat, kept: seq<real>, rounds: nat)
    requires Sane(c) && |x.state.held| == |x.state.loads|
    requires |placement| == |kept| && SearchInv(x, gpus, kept, placement)
    ensures NoWorse(c, x, Improved(c, x, order, placement, rounds), gpus, kept, placement)
    decreases rounds
  {
    if rounds > 0 {
      SearchNeverWorsens(c, x, order, placement, gpus, kept, rounds - 1);
      RoundNeverWorsens(c, x, Improved(c, x, order, placement, rounds - 1), order, placement, gpus, kept);
    }
  }

  lemma {:induction false} RepeatIsOver<T>(f: T -> T, x: T, n: nat, m: nat)
    requires n <= m && f(Repeat(f, x, n)) == Repeat(f, x, n)
    ensures Repeat(f, x, m) == Repeat(f, x, n)
    decreases m
  {
    if n < m {
      RepeatIsOver(f, x, n, m - 1);
    }
  }
}
