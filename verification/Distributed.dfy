/**
 Distributed routing: the demand is divided over the source GPUs, every source routes its part on its own, and the
 parts are added up again with a matrix of what each source sends to each destination.
 */
module Distributed {
  import opened Common
  import opened Placement
  import opened RouterLoops
  import opened Routing
  import opened Sums

  /** One token of a request that goes to an expert from the GPU it lives on. */
  datatype Assignment = Assignment(expert: int, source: int, tag: nat)

  // ---------------------------------------------------------------- dividing the demand over the sources

  method SplitCountsBySource(counts: seq<real>, gpus: nat) returns (bySource: array2<real>)
    ensures bySource.Length0 == gpus && bySource.Length1 == |counts|
    ensures forall s, e :: 0 <= s < gpus && 0 <= e < |counts| ==> bySource[s, e] == Distribute(counts[e], gpus)[s]
  {
    bySource := new real[gpus, |counts|]((_, _) => 0.0);
    for expert := 0 to |counts|
      invariant forall s, e :: 0 <= s < gpus && 0 <= e < expert ==> bySource[s, e] == Distribute(counts[e], gpus)[s]
    {
      var chunks := DistributeReplicaTokens(counts[expert], gpus);
      for source := 0 to gpus
        invariant forall s, e :: 0 <= s < gpus && 0 <= e < expert ==> bySource[s, e] == Distribute(counts[e], gpus)[s]
        invariant forall s :: 0 <= s < source ==> bySource[s, expert] == chunks[s]
      {
        bySource[source, expert] := chunks[source];
      }
    }
  }

  predicate From(a: Assignment, gpus: nat, experts: nat, e: nat) {
    0 <= a.source < gpus && 0 <= a.expert < experts && a.expert == e
  }

  /** How many assignments go to an expert from a known source. */
  function Covered(assignments: seq<Assignment>, gpus: nat, experts: nat, e: nat): nat {
    if assignments == [] then 0
    else
      var n := |assignments| - 1;
      Covered(assignments[..n], gpus, experts, e) + if From(assignments[n], gpus, experts, e) then 1 else 0
  }

  /** How many of them come from one source. */
  function CoveredFrom(assignments: seq<Assignment>, gpus: nat, experts: nat, s: nat, e: nat): nat {
    if assignments == [] then 0
    else
      var n := |assignments| - 1;
      CoveredFrom(assignments[..n], gpus, experts, s, e) +
      if From(assignments[n], gpus, experts, e) && assignments[n].source == s then 1 else 0
  }

  /** The demand of an expert at a source: its assignments there and a part of what no assignment covers. */
  function SourceDemand(counts: seq<real>, assignments: seq<Assignment>, gpus: nat, s: nat, e: nat): real
    requires e < |counts| && s < gpus
  {
    var remaining := counts[e] - Covered(assignments, gpus, |counts|, e) as real;
    CoveredFrom(assignments, gpus, |counts|, s, e) as real +
    (if remaining <= EPSILON then 0.0 else Distribute(remaining, gpus)[s])
  }

  ghost predicate CountsUpTo(bySource: array2<real>, covered: array<real>, assignments: seq<Assignment>, gpus: nat,
                             experts: nat)
    reads bySource, covered
  {
    && bySource.Length0 == gpus && bySource.Length1 == experts == covered.Length
    && (forall e :: 0 <= e < experts ==> covered[e] == Covered(assignments, gpus, experts, e) as real)
    && (forall s, e :: 0 <= s < gpus && 0 <= e < experts ==>
          bySource[s, e] == CoveredFrom(assignments, gpus, experts, s, e) as real)
  }

  method CountAssignments(assignments: seq<Assignment>, gpus: nat, experts: nat)
    returns (bySource: array2<real>, covered: array<real>)
    ensures fresh(bySource) && fresh(covered)
    ensures CountsUpTo(bySource, covered, assignments, gpus, experts)
  {
    bySource := new real[gpus, experts]((_, _) => 0.0);
    covered := new real[experts](_ => 0.0);
    TakeAll(assignments);
    for i := 0 to |assignments|
      invariant CountsUpTo(bySource, covered, assignments[..i], gpus, experts)
    {
      TakeNext(assignments, i);
      var a := assignments[i];
      if 0 <= a.source < gpus && 0 <= a.expert < experts {
        bySource[a.source, a.expert] := bySource[a.source, a.expert] + 1.0;
        covered[a.expert] := covered[a.expert] + 1.0;
      }
    }
  }

  method AddColumn(bySource: array2<real>, expert: nat, chunks: seq<real>)
    requires expert < bySource.Length1 && |chunks| == bySource.Length0
    modifies bySource
    ensures forall s, e :: 0 <= s < bySource.Length0 && 0 <= e < bySource.Length1 ==>
              bySource[s, e] == old(bySource[s, e]) + if e == expert then chunks[s] else 0.0
  {
    for source := 0 to bySource.Length0
      invariant forall s, e :: 0 <= s < bySource.Length0 && 0 <= e < bySource.Length1 ==>
                  bySource[s, e] == old(bySource[s, e]) + if e == expert && s < source then chunks[s] else 0.0
    {
      bySource[source, expert] := bySource[source, expert] + chunks[source];
    }
  }

  method TraceCountsBySource(counts: seq<real>, assignments: seq<Assignment>, gpus: nat)
    returns (bySource: array2<real>)
    ensures bySource.Length0 == gpus && bySource.Length1 == |counts|
    ensures forall s, e :: 0 <= s < gpus && 0 <= e < |counts| ==>
            bySource[s, e] == SourceDemand(counts, assignments, gpus, s, e)
  {
    var covered;
    bySource, covered := CountAssignments(assignments, gpus, |counts|);
    for expert := 0 to |counts|
      invariant forall e :: 0 <= e < |counts| ==> covered[e] == Covered(assignments, gpus, |counts|, e) as real
      invariant forall s, e :: 0 <= s < gpus && 0 <= e < |counts| ==>
                  bySource[s, e] == if e < expert then SourceDemand(counts, assignments, gpus, s, e)
                                    else CoveredFrom(assignments, gpus, |counts|, s, e) as real
    {
      var remaining := counts[expert] - covered[expert];
      if remaining > EPSILON {
        var chunks := DistributeReplicaTokens(remaining, gpus);
        AddColumn(bySource, expert, chunks);
      }
    }
  }

  // ---------------------------------------------------------------- the sources together have the whole demand

  lemma {:induction false} CoveredBySources(assignments: seq<Assignment>, gpus: nat, experts: nat, e: nat,
                                            column: seq<real>)
    requires |column| == gpus
    requires forall s :: 0 <= s < gpus ==> column[s] == CoveredFrom(assignments, gpus, experts, s, e) as real
    ensures SumR(column) == Covered(assignments, gpus, experts, e) as real
  {
    if assignments == [] {
      SumRZeros(column);
    } else {
      var n := |assignments| - 1;
      var a := assignments[n];
      var before := seq(gpus, s requires 0 <= s < gpus => CoveredFrom(assignments[..n], gpus, experts, s, e) as real);
      CoveredBySources(assignments[..n], gpus, experts, e, before);
      if From(a, gpus, experts, e) {
        assert column == before[a.source := before[a.source] + 1.0];
        SumRUpdate(before, a.source, before[a.source] + 1.0);
      } else {
        assert column == before;
      }
    }
  }

  ghost function FromSource(assignments: seq<Assignment>, s: int, e: int): set<nat> {
    set i: nat | i < |assignments| && assignments[i].source == s && assignments[i].expert == e
  }

  /** What a source is counted for is the number of its assignments to the expert. */
  lemma {:induction false} CoveredFromIsCount(assignments: seq<Assignment>, gpus: nat, experts: nat, s: nat, e: nat)
    requires s < gpus && e < experts
    ensures CoveredFrom(assignments, gpus, experts, s, e) == |FromSource(assignments, s, e)|
  {
    if assignments != [] {
      var n := |assignments| - 1;
      CoveredFromIsCount(assignments[..n], gpus, experts, s, e);
      var before := FromSource(assignments[..n], s, e);
      if assignments[n].source == s && assignments[n].expert == e {
        assert FromSource(assignments, s, e) == before + {n};
      } else {
        assert FromSource(assignments, s, e) == before;
      }
    }
  }

  /**
   An expert's demand at each source: as many tokens as `own` says, and an even part of what those leave of the count,
   unless that is no more than `least`.
   */
  ghost predicate FairDemand(count: real, own: seq<nat>, least: real, column: seq<real>, rest: real, parts: seq<real>) {
    && |column| == |own| == |parts| && rest == count - Sum(own) as real
    && (forall s :: 0 <= s < |column| ==> column[s] == own[s] as real + parts[s])
    && (if rest > least then EvenParts(Trace, rest, parts) else forall s :: 0 <= s < |parts| ==> parts[s] == 0.0)
  }

  /** The numbers of assignments to an expert from each source; synthetic demand has none. */
  ghost function Own(form: Form, assignments: seq<Assignment>, gpus: nat, e: nat): (r: seq<nat>)
    ensures |r| == gpus
  {
    seq(gpus, s requires 0 <= s < gpus => if form == Synthetic then 0 else |FromSource(assignments, s, e)|)
  }

  lemma DistributeIsEven(tokens: real, gpus: nat)
    requires gpus >= 1 && tokens > 0.0
    ensures EvenParts(Trace, tokens, Distribute(tokens, gpus))
  {
    SharesAreEven(Trace, tokens, gpus);
  }

  lemma {:induction false} SumAsReal(a: seq<nat>, b: seq<real>)
    requires |a| == |b| && forall i :: 0 <= i < |a| ==> b[i] == a[i] as real
    ensures SumR(b) == Sum(a) as real
  {
    if a != [] {
      SumAsReal(a[..|a| - 1], b[..|b| - 1]);
    }
  }

  lemma OwnIsCovered(assignments: seq<Assignment>, gpus: nat, experts: nat, e: nat)
    requires e < experts
    ensures Sum(Own(Trace, assignments, gpus, e)) == Covered(assignments, gpus, experts, e)
    ensures forall s :: 0 <= s < gpus ==>
              Own(Trace, assignments, gpus, e)[s] == CoveredFrom(assignments, gpus, experts, s, e)
  {
    var own := Own(Trace, assignments, gpus, e);
    forall s | 0 <= s < gpus ensures own[s] == CoveredFrom(assignments, gpus, experts, s, e) {
      CoveredFromIsCount(assignments, gpus, experts, s, e);
    }
    var column := seq(gpus, s requires 0 <= s < gpus => CoveredFrom(assignments, gpus, experts, s, e) as real);
    CoveredBySources(assignments, gpus, experts, e, column);
    SumAsReal(own, column);
  }

  lemma SyntheticIsFair(counts: seq<real>, assignments: seq<Assignment>, gpus: nat, column: seq<real>, e: nat)
    requires gpus >= 1 && |column| == gpus && e < |counts|
    requires forall s :: 0 <= s < gpus ==> column[s] == DemandAt(Synthetic, counts, assignments, gpus, s, e)
    ensures FairDemand(counts[e], Own(Synthetic, assignments, gpus, e), 0.0, column, counts[e], column)
  {
    SumOfZeros(Own(Synthetic, assignments, gpus, e));
    assert column == Distribute(counts[e], gpus);
    if counts[e] > 0.0 {
      DistributeIsEven(counts[e], gpus);
    }
  }

  lemma TraceIsFair(counts: seq<real>, assignments: seq<Assignment>, gpus: nat, column: seq<real>, e: nat, rest: real,
                    parts: seq<real>)
    requires gpus >= 1 && |column| == gpus && e < |counts|
    requires forall s :: 0 <= s < gpus ==> column[s] == DemandAt(Trace, counts, assignments, gpus, s, e)
    requires rest == counts[e] - Covered(assignments, gpus, |counts|, e) as real
    requires parts == if rest > EPSILON then Distribute(rest, gpus) else seq(gpus, _ => 0.0)
    ensures FairDemand(counts[e], Own(Trace, assignments, gpus, e), EPSILON, column, rest, parts)
  {
    var own := Own(Trace, assignments, gpus, e);
    OwnIsCovered(assignments, gpus, |counts|, e);
    forall s | 0 <= s < gpus ensures column[s] == own[s] as real + parts[s] {
      SourceDemandIs(counts, assignments, gpus, s, e, rest, parts);
    }
    PartsAreFair(counts[e], own, column, rest, parts);
  }

  lemma SourceDemandIs(counts: seq<real>, assignments: seq<Assignment>, gpus: nat, s: nat, e: nat, rest: real,
                       parts: seq<real>)
    requires s < gpus && e < |counts| && rest == counts[e] - Covered(assignments, gpus, |counts|, e) as real
    requires parts == if rest > EPSILON then Distribute(rest, gpus) else seq(gpus, _ => 0.0)
    ensures DemandAt(Trace, counts, assignments, gpus, s, e) ==
            CoveredFrom(assignments, gpus, |counts|, s, e) as real + parts[s]
  {
  }

  lemma PartsAreFair(count: real, own: seq<nat>, column: seq<real>, rest: real, parts: seq<real>)
    requires |own| == |column| == |parts| >= 1 && rest == count - Sum(own) as real
    requires parts == if rest > EPSILON then Distribute(rest, |own|) else seq(|own|, _ => 0.0)
    requires forall s :: 0 <= s < |own| ==> column[s] == own[s] as real + parts[s]
    ensures FairDemand(count, own, EPSILON, column, rest, parts)
  {
    if rest > EPSILON {
      DistributeIsEven(rest, |own|);
    }
  }

  /** A trace leaves a rest of at most a billionth of a token undivided. */
  function Least(form: Form): real {
    if form == Synthetic then 0.0 else EPSILON
  }

  ghost predicate IsFair(form: Form, counts: seq<real>, assignments: seq<Assignment>, gpus: nat, column: seq<real>,
                         e: nat)
    requires e < |counts|
  {
    exists rest, parts :: FairDemand(counts[e], Own(form, assignments, gpus, e), Least(form), column, rest, parts)
  }

  lemma DemandIsFair(form: Form, counts: seq<real>, assignments: seq<Assignment>, gpus: nat, column: seq<real>, e: nat)
    requires gpus >= 1 && |column| == gpus && e < |counts|
    requires forall s :: 0 <= s < gpus ==> column[s] == DemandAt(form, counts, assignments, gpus, s, e)
    ensures IsFair(form, counts, assignments, gpus, column, e)
  {
    if form == Synthetic {
      SyntheticIsFair(counts, assignments, gpus, column, e);
      assert FairDemand(counts[e], Own(form, assignments, gpus, e), Least(form), column, counts[e], column);
    } else {
      var rest := counts[e] - Covered(assignments, gpus, |counts|, e) as real;
      var parts := if rest > EPSILON then Distribute(rest, gpus) else seq(gpus, _ => 0.0);
      TraceIsFair(counts, assignments, gpus, column, e, rest, parts);
      assert FairDemand(counts[e], Own(form, assignments, gpus, e), Least(form), column, rest, parts);
    }
  }

  /** Synthetic demand: the sources together have an expert's count, up to the rounding of one division. */
  lemma DistributedTotal(tokens: real, gpus: nat)
    requires gpus >= 1
    ensures SumR(Distribute(tokens, gpus)) == if tokens <= 0.0 then 0.0 else Kept(Trace, tokens)
  {
    if tokens <= 0.0 {
      SumRZeros(Distribute(tokens, gpus));
    } else {
      SharesAddUp(Trace, tokens, gpus);
    }
  }

  lemma ColumnAddsUp(covered: seq<real>, remaining: real, gpus: nat, column: seq<real>)
    requires |covered| == |column| == gpus >= 1
    requires forall s :: 0 <= s < gpus ==>
               column[s] == covered[s] + if remaining <= EPSILON then 0.0 else Distribute(remaining, gpus)[s]
    ensures SumR(column) == SumR(covered) + if remaining <= EPSILON then 0.0 else Kept(Trace, remaining)
  {
    if remaining <= EPSILON {
      assert column == covered;
    } else {
      DistributedTotal(remaining, gpus);
      SumRPointwise(covered, Distribute(remaining, gpus), column);
    }
  }

  /** What an expert demands of the sources together, up to the rounding of one division. */
  function TraceDemand(counts: seq<real>, assignments: seq<Assignment>, gpus: nat, e: nat): real
    requires e < |counts|
  {
    var covered := Covered(assignments, gpus, |counts|, e) as real;
    covered + if counts[e] - covered <= EPSILON then 0.0 else Kept(Trace, counts[e] - covered)
  }

  /** Trace demand: the sources together have an expert's assignments and what those leave uncovered. */
  lemma TraceAddsUp(counts: seq<real>, assignments: seq<Assignment>, gpus: nat, e: nat, column: seq<real>)
    requires gpus >= 1 && |column| == gpus && e < |counts|
    requires forall s :: 0 <= s < gpus ==> column[s] == SourceDemand(counts, assignments, gpus, s, e)
    ensures SumR(column) == TraceDemand(counts, assignments, gpus, e)
  {
    var covered := Covered(assignments, gpus, |counts|, e) as real;
    var first := seq(gpus, s requires 0 <= s < gpus => CoveredFrom(assignments, gpus, |counts|, s, e) as real);
    CoveredBySources(assignments, gpus, |counts|, e, first);
    ColumnAddsUp(first, counts[e] - covered, gpus, column);
  }

  /** Whole counts that the assignments do not exceed are divided without any loss; others to within a billionth. */
  lemma TraceDemandIsClose(counts: seq<real>, assignments: seq<Assignment>, gpus: nat, e: nat)
    requires e < |counts| && counts[e] >= Covered(assignments, gpus, |counts|, e) as real
    ensures -EPSILON <= TraceDemand(counts, assignments, gpus, e) - counts[e] <= EPSILON
    ensures counts[e].Floor as real == counts[e] ==> TraceDemand(counts, assignments, gpus, e) == counts[e]
  {
    var covered := Covered(assignments, gpus, |counts|, e);
    KeptIsClose(Trace, counts[e] - covered as real);
    if counts[e].Floor as real == counts[e] {
      var rest := counts[e].Floor - covered;
      assert counts[e] - covered as real == rest as real;
      WholeIsWhole(rest);
    }
  }

  lemma WholeIsWhole(n: int)
    ensures (n as real).Floor as real == n as real
  {
  }

  // ---------------------------------------------------------------- adding the sources up

  function Merge(a: map<nat, real>, b: map<nat, real>): map<nat, real> {
    map e: nat | e in a.Keys + b.Keys :: At(a, e) + At(b, e)
  }

  predicate SameGpus(a: State, b: State) {
    |a.held| == |a.loads| == |b.held| == |b.loads|
  }

  function AddState(a: State, b: State): (r: State)
    requires SameGpus(a, b)
    ensures SameGpus(r, a)
  {
    State(seq(|a.held|, d requires 0 <= d < |a.held| => Merge(a.held[d], b.held[d])),
          seq(|a.held|, d requires 0 <= d < |a.held| => a.loads[d] + b.loads[d]))
  }

  predicate AllOn(states: seq<State>, gpus: nat) {
    forall s :: 0 <= s < |states| ==> |states[s].held| == |states[s].loads| == gpus
  }

  function Aggregate(states: seq<State>, gpus: nat): (r: State)
    requires AllOn(states, gpus)
    ensures |r.held| == |r.loads| == gpus
  {
    if states == [] then Empty(gpus)
    else
      var n := |states| - 1;
      AddState(Aggregate(states[..n], gpus), states[n])
  }

  /** What each source sends to each destination. */
  function Matrix(states: seq<State>): (m: seq<seq<real>>)
    ensures |m| == |states| && forall s :: 0 <= s < |m| ==> m[s] == states[s].loads
  {
    seq(|states|, s requires 0 <= s < |states| => states[s].loads)
  }

  lemma {:induction false} MergeTotal(a: map<nat, real>, b: map<nat, real>, n: nat)
    ensures GpuTotal(Merge(a, b), n) == GpuTotal(a, n) + GpuTotal(b, n)
  {
    if n > 0 {
      MergeTotal(a, b, n - 1);
    }
  }

  lemma {:induction false} MergeExpert(a: seq<map<nat, real>>, b: seq<map<nat, real>>, m: seq<map<nat, real>>, e: nat)
    requires |a| == |b| == |m| && forall d :: 0 <= d < |m| ==> m[d] == Merge(a[d], b[d])
    ensures ExpertTotal(m, e) == ExpertTotal(a, e) + ExpertTotal(b, e)
  {
    if m != [] {
      var n := |m| - 1;
      MergeExpert(a[..n], b[..n], m[..n], e);
      assert At(m[n], e) == At(a[n], e) + At(b[n], e);
    }
  }

  lemma MergeGpu(a: map<nat, real>, la: real, b: map<nat, real>, lb: real, experts: nat)
    requires ConsistentGpu(a, la, experts) && ConsistentGpu(b, lb, experts)
    ensures ConsistentGpu(Merge(a, b), la + lb, experts)
  {
    MergeTotal(a, b, experts);
  }

  lemma AddStateIsConsistent(a: State, b: State, gpus: nat, experts: nat)
    requires Consistent(a, gpus, experts) && Consistent(b, gpus, experts)
    ensures Consistent(AddState(a, b), gpus, experts)
  {
    forall d | 0 <= d < gpus ensures ConsistentGpu(AddState(a, b).held[d], AddState(a, b).loads[d], experts) {
      MergeGpu(a.held[d], a.loads[d], b.held[d], b.loads[d], experts);
    }
  }

  lemma {:induction false} AggregateIsConsistent(states: seq<State>, gpus: nat, experts: nat)
    requires AllOn(states, gpus) && forall s :: 0 <= s < |states| ==> Consistent(states[s], gpus, experts)
    ensures Consistent(Aggregate(states, gpus), gpus, experts)
  {
    if states == [] {
      EmptyIsConsistent(gpus, experts);
    } else {
      var n := |states| - 1;
      AggregateIsConsistent(states[..n], gpus, experts);
      AddStateIsConsistent(Aggregate(states[..n], gpus), states[n], gpus, experts);
    }
  }

  /** A column of the matrix adds up to the load of its destination. */
  lemma {:induction false} ColumnIsLoad(states: seq<State>, gpus: nat, d: nat, column: seq<real>)
    requires AllOn(states, gpus) && d < gpus && |column| == |states|
    requires forall s :: 0 <= s < |states| ==> column[s] == states[s].loads[d]
    ensures SumR(column) == Aggregate(states, gpus).loads[d]
  {
    if states != [] {
      var n := |states| - 1;
      ColumnIsLoad(states[..n], gpus, d, column[..n]);
    }
  }

  /** An expert's tokens in the aggregate are its tokens at all sources. */
  lemma {:induction false} ExpertOfAggregate(states: seq<State>, gpus: nat, e: nat, parts: seq<real>)
    requires AllOn(states, gpus) && |parts| == |states|
    requires forall s :: 0 <= s < |states| ==> parts[s] == ExpertTotal(states[s].held, e)
    ensures ExpertTotal(Aggregate(states, gpus).held, e) == SumR(parts)
  {
    if states == [] {
      EmptyCounts(gpus, e);
    } else {
      var n := |states| - 1;
      ExpertOfAggregate(states[..n], gpus, e, parts[..n]);
      var before := Aggregate(states[..n], gpus);
      MergeExpert(before.held, states[n].held, AddState(before, states[n]).held, e);
    }
  }

  /** On every GPU the aggregate holds what all sources sent there. */
  lemma {:induction false} HeldOfAggregate(states: seq<State>, gpus: nat, d: nat, e: nat, parts: seq<real>)
    requires AllOn(states, gpus) && d < gpus && |parts| == |states|
    requires forall s :: 0 <= s < |states| ==> parts[s] == At(states[s].held[d], e)
    ensures At(Aggregate(states, gpus).held[d], e) == SumR(parts)
  {
    if states != [] {
      var n := |states| - 1;
      HeldOfAggregate(states[..n], gpus, d, e, parts[..n]);
    }
  }

  ghost function MergeSome(a: map<nat, real>, b: map<nat, real>, done: set<nat>): map<nat, real> {
    map e: nat | e in a.Keys + done :: At(a, e) + if e in done then At(b, e) else 0.0
  }

  lemma MergeNext(a: map<nat, real>, b: map<nat, real>, done: set<nat>, e: nat, m: map<nat, real>)
    requires e in b && e !in done && m == MergeSome(a, b, done)
    ensures m[e := At(m, e) + b[e]] == MergeSome(a, b, done + {e})
  {
  }

  lemma MergeNone(a: map<nat, real>, b: map<nat, real>)
    ensures MergeSome(a, b, {}) == a
  {
  }

  lemma MergeEverything(a: map<nat, real>, b: map<nat, real>)
    ensures MergeSome(a, b, b.Keys) == Merge(a, b)
  {
  }

  lemma MoveOver<T>(done: set<T>, left: set<T>, all: set<T>, e: T)
    requires done + left == all && done !! left && e in left
    ensures (done + {e}) + (left - {e}) == all && (done + {e}) !! (left - {e}) && |left - {e}| < |left|
  {
  }

  method MergeInto(a: map<nat, real>, b: map<nat, real>) returns (m: map<nat, real>)
    ensures m == Merge(a, b)
  {
    m := a;
    var left := b.Keys;
    ghost var done: set<nat> := {};
    MergeNone(a, b);
    while left != {}
      invariant done + left == b.Keys && done !! left && m == MergeSome(a, b, done)
      decreases |left|
    {
      var e :| e in left;
      MergeNext(a, b, done, e, m);
      m := m[e := At(m, e) + b[e]];
      MoveOver(done, left, b.Keys, e);
      left, done := left - {e}, done + {e};
    }
    assert done == b.Keys;
    MergeEverything(a, b);
  }

  method AddStates(a: State, b: State) returns (r: State)
    requires SameGpus(a, b)
    ensures r == AddState(a, b)
  {
    var held: seq<map<nat, real>>, loads: seq<real> := [], [];
    for d := 0 to |a.held|
      invariant |held| == |loads| == d
      invariant forall k :: 0 <= k < d ==> held[k] == Merge(a.held[k], b.held[k]) && loads[k] == a.loads[k] + b.loads[k]
    {
      var m := MergeInto(a.held[d], b.held[d]);
      held, loads := held + [m], loads + [a.loads[d] + b.loads[d]];
    }
    r := State(held, loads);
  }

  method AggregateStates(states: seq<State>, gpus: nat) returns (r: State, matrix: seq<seq<real>>)
    requires AllOn(states, gpus)
    ensures r == Aggregate(states, gpus) && matrix == Matrix(states)
  {
    r, matrix := Empty(gpus), [];
    TakeAll(states);
    for source := 0 to |states|
      invariant r == Aggregate(states[..source], gpus) && |r.held| == |r.loads| == gpus
      invariant |matrix| == source && forall s :: 0 <= s < source ==> matrix[s] == states[s].loads
    {
      TakeNext(states, source);
      r := AddStates(r, states[source]);
      matrix := matrix + [states[source].loads];
    }
  }

  // ---------------------------------------------------------------- flow conservation

  ghost predicate RoutedBySource(states: seq<State>, gpus: nat, kept: seq<seq<real>>, experts: nat, placement: Ranks) {
    && |states| == |kept| && |placement| == experts
    && forall s :: 0 <= s < |states| ==> |kept[s]| == experts && RoutesAll(states[s], gpus, kept[s], placement)
  }

  /** A row of the matrix adds up to what its source routes. */
  lemma RowIsDemand(states: seq<State>, gpus: nat, kept: seq<seq<real>>, experts: nat, placement: Ranks, s: nat)
    requires RoutedBySource(states, gpus, kept, experts, placement) && s < |states|
    ensures SumR(Matrix(states)[s]) == SumR(kept[s])
  {
    LoadsAddUp(states[s], gpus, kept[s], placement);
  }

  function ColumnOf(rows: seq<seq<real>>, e: nat): (c: seq<real>)
    requires forall s :: 0 <= s < |rows| ==> e < |rows[s]|
    ensures |c| == |rows| && forall s :: 0 <= s < |c| ==> c[s] == rows[s][e]
  {
    seq(|rows|, s requires 0 <= s < |rows| => rows[s][e])
  }

  /** Nothing is lost or made up: the aggregate has every expert's demand of all sources, and its loads add up to it. */
  lemma FlowIsConserved(states: seq<State>, gpus: nat, kept: seq<seq<real>>, experts: nat, placement: Ranks,
                        total: seq<real>)
    requires RoutedBySource(states, gpus, kept, experts, placement) && |total| == experts
    requires forall e :: 0 <= e < experts ==> total[e] == SumR(ColumnOf(kept, e))
    ensures AllOn(states, gpus) && Consistent(Aggregate(states, gpus), gpus, experts)
    ensures forall e :: 0 <= e < experts ==> ExpertTotal(Aggregate(states, gpus).held, e) == total[e]
    ensures SumR(Aggregate(states, gpus).loads) == SumR(total)
  {
    AggregateIsConsistent(states, gpus, experts);
    var r := Aggregate(states, gpus);
    forall e | 0 <= e < experts ensures ExpertTotal(r.held, e) == total[e] {
      ExpertOfAggregate(states, gpus, e, ColumnOf(kept, e));
    }
    TotalsAgree(r.held, r.loads, total);
  }

  /** The demand of an expert at a source, in either form. */
  function DemandAt(form: Form, counts: seq<real>, assignments: seq<Assignment>, gpus: nat, s: nat, e: nat): real
    requires e < |counts| && s < gpus
  {
    if form == Synthetic then Distribute(counts[e], gpus)[s] else SourceDemand(counts, assignments, gpus, s, e)
  }

  ghost predicate DemandOf(demand: seq<seq<real>>, form: Form, counts: seq<real>, assignments: seq<Assignment>,
                           gpus: nat) {
    && |demand| == gpus
    && (forall s :: 0 <= s < gpus ==> |demand[s]| == |counts|)
    && forall s, e :: 0 <= s < gpus && 0 <= e < |counts| ==>
       demand[s][e] == DemandAt(form, counts, assignments, gpus, s, e)
  }

  method DivideBySource(form: Form, counts: seq<real>, assignments: seq<Assignment>, gpus: nat)
    returns (demand: seq<seq<real>>)
    ensures DemandOf(demand, form, counts, assignments, gpus)
  {
    var bySource;
    if form == Synthetic {
      bySource := SplitCountsBySource(counts, gpus);
    } else {
      bySource := TraceCountsBySource(counts, assignments, gpus);
    }
    demand := [];
    for s := 0 to gpus
      invariant |demand| == s && forall k :: 0 <= k < s ==> demand[k] == RowOf(bySource, k)
    {
      demand := demand + [RowOf(bySource, s)];
    }
  }

  function KeptRows(router: Router, form: Form, demand: seq<seq<real>>): (k: seq<seq<real>>)
    ensures |k| == |demand| && forall s :: 0 <= s < |k| ==> k[s] == KeptOf(router, form, demand[s])
  {
    seq(|demand|, s requires 0 <= s < |demand| => KeptOf(router, form, demand[s]))
  }

  // ---------------------------------------------------------------- how exact the whole is

  lemma DistributeIsNatural(tokens: real, gpus: nat, s: nat)
    requires s < gpus
    ensures Distribute(tokens, gpus)[s] >= 0.0
    ensures tokens.Floor as real == tokens ==> Distribute(tokens, gpus)[s].Floor as real == Distribute(tokens, gpus)[s]
  {
    if tokens > 0.0 {
      SharesAreNatural(Trace, tokens, gpus, s);
      if tokens.Floor as real == tokens {
        RoundOfWhole(tokens.Floor);
        var n: nat := Round(tokens);
        WholeIsWhole(n / gpus + if s < n % gpus then 1 else 0);
      }
    }
  }

  lemma DemandIsNatural(form: Form, counts: seq<real>, assignments: seq<Assignment>, gpus: nat, s: nat, e: nat)
    requires e < |counts| && s < gpus
    ensures DemandAt(form, counts, assignments, gpus, s, e) >= 0.0
    ensures counts[e].Floor as real == counts[e] ==>
              DemandAt(form, counts, assignments, gpus, s, e).Floor as real ==
                  DemandAt(form, counts, assignments, gpus, s, e)
  {
    DistributeIsNatural(counts[e], gpus, s);
    var covered := Covered(assignments, gpus, |counts|, e);
    var remaining := counts[e] - covered as real;
    DistributeIsNatural(remaining, gpus, s);
    if counts[e].Floor as real == counts[e] {
      assert remaining == (counts[e].Floor - covered) as real;
      WholeIsWhole(counts[e].Floor - covered);
      var part := if remaining <= EPSILON then 0.0 else Distribute(remaining, gpus)[s];
      WholeIsWhole(CoveredFrom(assignments, gpus, |counts|, s, e) + part.Floor);
    }
  }

  lemma {:induction false} KeptIsCloseInAll(router: Router, form: Form, column: seq<real>, kept: seq<real>)
    requires |kept| == |column|
    requires forall s :: 0 <= s < |column| ==> column[s] >= 0.0 && kept[s] == KeptBy(router, form, column[s])
    ensures -(|column| as real * EPSILON) <= SumR(kept) - SumR(column) <= |column| as real * EPSILON
    ensures (forall s :: 0 <= s < |column| ==> column[s].Floor as real == column[s]) ==> SumR(kept) == SumR(column)
  {
    if column != [] {
      var n := |column| - 1;
      KeptIsCloseInAll(router, form, column[..n], kept[..n]);
      KeptIsClose(form, column[n]);
      assert |column| as real * EPSILON == n as real * EPSILON + EPSILON;
    }
  }

  /**
   What all sources together route of an expert: its whole count exactly, any other count to within a billionth of a
   token for the division over the sources and one for each source.
   */
  lemma DistributedKeepsCounts(
    router: Router, form: Form, counts: seq<real>, assignments: seq<Assignment>, gpus: nat, e: nat,
    column: seq<real>, kept: seq<real>)
    requires gpus >= 1 && e < |counts| && |column| == |kept| == gpus
    requires counts[e] >= 0.0 && (form == Trace ==> counts[e] >= Covered(assignments, gpus, |counts|, e) as real)
    requires forall s :: 0 <= s < gpus ==> column[s] == DemandAt(form, counts, assignments, gpus, s, e)
    requires forall s :: 0 <= s < gpus ==> kept[s] == KeptBy(router, form, column[s])
    ensures -((gpus + 1) as real * EPSILON) <= SumR(kept) - counts[e] <= (gpus + 1) as real * EPSILON
    ensures counts[e].Floor as real == counts[e] ==> SumR(kept) == counts[e]
  {
    forall s | 0 <= s < gpus
      ensures column[s] >= 0.0 && (counts[e].Floor as real == counts[e] ==> column[s].Floor as real == column[s])
    {
      DemandIsNatural(form, counts, assignments, gpus, s, e);
    }
    KeptIsCloseInAll(router, form, column, kept);
    KeptIsClose(Trace, counts[e]);
    assert (gpus + 1) as real * EPSILON == gpus as real * EPSILON + EPSILON;
    if form == Synthetic {
      assert column == Distribute(counts[e], gpus);
      DistributedTotal(counts[e], gpus);
    } else {
      TraceAddsUp(counts, assignments, gpus, e, column);
      TraceDemandIsClose(counts, assignments, gpus, e);
    }
  }

  /** Tokens are only where their expert is placed. */
  ghost predicate OnlyHosts(s: State, placement: Ranks) {
    forall g, e :: 0 <= g < |s.held| && 0 <= e < |placement| && e in s.held[g] ==> g in placement[e]
  }

  /**
   The tokens of an expert on all GPUs are its count: exactly a whole count, any other to within a billionth of a token
   for the division over the sources and one for each source.
   */
  ghost predicate KeepsCount(
    s: State, form: Form, counts: seq<real>, assignments: seq<Assignment>, gpus: nat, e: nat)
    requires e < |counts|
  {
    counts[e] >= 0.0 && (form == Trace ==> counts[e] >= Covered(assignments, gpus, |counts|, e) as real) ==>
      && -((gpus + 1) as real * EPSILON) <= ExpertTotal(s.held, e) - counts[e] <= (gpus + 1) as real * EPSILON
      && (counts[e].Floor as real == counts[e] ==> ExpertTotal(s.held, e) == counts[e])
  }

  lemma {:induction false} AggregateOnlyHosts(states: seq<State>, gpus: nat, placement: Ranks)
    requires AllOn(states, gpus) && forall s :: 0 <= s < |states| ==> OnlyHosts(states[s], placement)
    ensures OnlyHosts(Aggregate(states, gpus), placement)
  {
    if states != [] {
      var n := |states| - 1;
      AggregateOnlyHosts(states[..n], gpus, placement);
      AddStateOnlyHosts(Aggregate(states[..n], gpus), states[n], placement);
    }
  }

  lemma AddStateOnlyHosts(a: State, b: State, placement: Ranks)
    requires SameGpus(a, b) && OnlyHosts(a, placement) && OnlyHosts(b, placement)
    ensures OnlyHosts(AddState(a, b), placement)
  {
  }

  lemma ExpertIsKept(
    router: Router, form: Form, counts: seq<real>, gpus: nat, assignments: seq<Assignment>,
    demand: seq<seq<real>>, r: State, e: nat)
    requires gpus >= 1 && e < |counts| && DemandOf(demand, form, counts, assignments, gpus)
    requires ExpertTotal(r.held, e) == SumR(ColumnOf(KeptRows(router, form, demand), e))
    ensures KeepsCount(r, form, counts, assignments, gpus, e)
  {
    if counts[e] >= 0.0 && (form == Trace ==> counts[e] >= Covered(assignments, gpus, |counts|, e) as real) {
      DistributedKeepsCounts(router, form, counts, assignments, gpus, e,
                             ColumnOf(demand, e), ColumnOf(KeptRows(router, form, demand), e));
    }
  }

  lemma StatesOnlyHosts(states: seq<State>, gpus: nat, kept: seq<seq<real>>, experts: nat, placement: Ranks)
    requires RoutedBySource(states, gpus, kept, experts, placement)
    ensures forall s :: 0 <= s < |states| ==> OnlyHosts(states[s], placement)
  {
    forall s | 0 <= s < |states| ensures OnlyHosts(states[s], placement) {
      assert RoutesAll(states[s], gpus, kept[s], placement);
    }
  }

  function TotalsOf(rows: seq<seq<real>>, experts: nat): (t: seq<real>)
    requires forall s :: 0 <= s < |rows| ==> |rows[s]| == experts
    ensures |t| == experts && forall e :: 0 <= e < experts ==> t[e] == SumR(ColumnOf(rows, e))
  {
    seq(experts, e requires 0 <= e < experts => SumR(ColumnOf(rows, e)))
  }

  /** The aggregate of all sources has the counts it was asked to route, on GPUs that may serve them. */
  lemma AggregateIsExact(
    router: Router, form: Form, counts: seq<real>, placement: Ranks, gpus: nat, assignments: seq<Assignment>,
    demand: seq<seq<real>>, states: seq<State>)
    requires gpus >= 1 && DemandOf(demand, form, counts, assignments, gpus)
    requires RoutedBySource(states, gpus, KeptRows(router, form, demand), |counts|, placement)
    ensures AllOn(states, gpus) && Consistent(Aggregate(states, gpus), gpus, |counts|)
    ensures OnlyHosts(Aggregate(states, gpus), placement)
    ensures forall e :: 0 <= e < |counts| ==> KeepsCount(Aggregate(states, gpus), form, counts, assignments, gpus, e)
  {
    var kept := KeptRows(router, form, demand);
    FlowIsConserved(states, gpus, kept, |counts|, placement, TotalsOf(kept, |counts|));
    StatesOnlyHosts(states, gpus, kept, |counts|, placement);
    AggregateOnlyHosts(states, gpus, placement);
    forall e | 0 <= e < |counts| ensures KeepsCount(Aggregate(states, gpus), form, counts, assignments, gpus, e) {
      ExpertIsKept(router, form, counts, gpus, assignments, demand, Aggregate(states, gpus), e);
    }
  }

  lemma StatesAreOn(states: seq<State>, gpus: nat, kept: seq<seq<real>>, experts: nat, placement: Ranks)
    requires RoutedBySource(states, gpus, kept, experts, placement)
    ensures AllOn(states, gpus)
  {
    forall s | 0 <= s < |states| ensures |states[s].held| == |states[s].loads| == gpus {
      assert RoutesAll(states[s], gpus, kept[s], placement);
    }
  }

  lemma OneMoreSource(states: seq<State>, last: State, gpus: nat, kept: seq<seq<real>>, row: seq<real>, experts: nat,
                      placement: Ranks)
    requires RoutedBySource(states, gpus, kept, experts, placement) && |row| == experts
    requires RoutesAll(last, gpus, row, placement)
    ensures RoutedBySource(states + [last], gpus, kept + [row], experts, placement)
  {
    var states', kept' := states + [last], kept + [row];
    forall s | 0 <= s < |states'|
      ensures |kept'[s]| == experts && RoutesAll(states'[s], gpus, kept'[s], placement)
    {
      if s < |states| {
        assert states'[s] == states[s] && kept'[s] == kept[s];
      } else {
        assert states'[s] == last && kept'[s] == row;
      }
    }
  }

  /** Every source routed its own demand as its router promises. */
  ghost predicate RoutedEach(router: Router, form: Form, c: Costs, demand: seq<seq<real>>, experts: nat,
                             placement: Ranks, gpus: nat, states: seq<State>)
    requires Sane(c) && ValidRanks(placement, experts, gpus)
  {
    && |states| == |demand|
    && forall s :: 0 <= s < |states| ==>
         |demand[s]| == experts && RoutedBy(router, form, c, demand[s], placement, gpus, states[s])
  }

  lemma OneMoreRouted(router: Router, form: Form, c: Costs, demand: seq<seq<real>>, row: seq<real>, experts: nat,
                      placement: Ranks, gpus: nat, states: seq<State>, last: State)
    requires Sane(c) && ValidRanks(placement, experts, gpus)
    requires RoutedEach(router, form, c, demand, experts, placement, gpus, states)
    requires |row| == experts && RoutedBy(router, form, c, row, placement, gpus, last)
    ensures RoutedEach(router, form, c, demand + [row], experts, placement, gpus, states + [last])
  {
    var states', demand' := states + [last], demand + [row];
    forall s | 0 <= s < |states'|
      ensures |demand'[s]| == experts && RoutedBy(router, form, c, demand'[s], placement, gpus, states'[s])
    {
      if s < |states| {
        assert states'[s] == states[s] && demand'[s] == demand[s];
      } else {
        assert states'[s] == last && demand'[s] == row;
      }
    }
  }

  method RouteSources(
    router: Router, form: Form, c: Costs, demand: seq<seq<real>>, experts: nat, placement: Ranks, gpus: nat)
    returns (states: seq<State>)
    requires Sane(c) && gpus >= 1 && ValidRanks(placement, experts, gpus)
    requires forall s :: 0 <= s < |demand| ==> |demand[s]| == experts
    ensures RoutedBySource(states, gpus, KeptRows(router, form, demand), experts, placement)
    ensures RoutedEach(router, form, c, demand, experts, placement, gpus, states)
  {
    states := [];
    ghost var kept := KeptRows(router, form, demand);
    TakeAll(kept);
    TakeAll(demand);
    for source := 0 to |demand|
      invariant RoutedBySource(states, gpus, kept[..source], experts, placement)
      invariant RoutedEach(router, form, c, demand[..source], experts, placement, gpus, states)
    {
      var s := RouteCentral(router, form, c, demand[source], placement, gpus);
      OneMoreSource(states, s, gpus, kept[..source], kept[source], experts, placement);
      TakeNext(kept, source);
      TakeNext(demand, source);
      OneMoreRouted(router, form, c, demand[..source], demand[source], experts, placement, gpus, states, s);
      states := states + [s];
    }
  }

  lemma AllDemandIsFair(form: Form, counts: seq<real>, assignments: seq<Assignment>, gpus: nat, demand: seq<seq<real>>)
    requires gpus >= 1 && DemandOf(demand, form, counts, assignments, gpus)
    ensures forall e :: 0 <= e < |counts| ==> IsFair(form, counts, assignments, gpus, ColumnOf(demand, e), e)
  {
    forall e | 0 <= e < |counts| ensures IsFair(form, counts, assignments, gpus, ColumnOf(demand, e), e) {
      DemandIsFair(form, counts, assignments, gpus, ColumnOf(demand, e), e);
    }
  }

  /** Routes every source's demand on its own and adds the results up. */
  method RouteDistributed(
    router: Router, form: Form, c: Costs, counts: seq<real>, placement: Ranks, gpus: nat, assignments: seq<Assignment>)
    returns (r: State, matrix: seq<seq<real>>, demand: seq<seq<real>>, states: seq<State>)
    requires Sane(c) && gpus >= 1 && ValidRanks(placement, |counts|, gpus)
    ensures DemandOf(demand, form, counts, assignments, gpus)
    ensures |states| == gpus && RoutedBySource(states, gpus, KeptRows(router, form, demand), |counts|, placement)
    ensures AllOn(states, gpus) && r == Aggregate(states, gpus) && matrix == Matrix(states)
    ensures Consistent(r, gpus, |counts|) && OnlyHosts(r, placement)
    ensures forall e :: 0 <= e < |counts| ==> KeepsCount(r, form, counts, assignments, gpus, e)
    ensures forall e :: 0 <= e < |counts| ==> IsFair(form, counts, assignments, gpus, ColumnOf(demand, e), e)
    ensures RoutedEach(router, form, c, demand, |counts|, placement, gpus, states)
  {
    demand := DivideBySource(form, counts, assignments, gpus);
    states := RouteSources(router, form, c, demand, |counts|, placement, gpus);
    StatesAreOn(states, gpus, KeptRows(router, form, demand), |counts|, placement);
    r, matrix := AggregateStates(states, gpus);
    AggregateIsExact(router, form, counts, placement, gpus, assignments, demand, states);
    AllDemandIsFair(form, counts, assignments, gpus, demand);
  }
}
