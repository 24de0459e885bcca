/**
 The workload of a shared decode forward (decodeCountsLocked in pkg/simulator/moe_trace_runtime.go) and what the
 barrier guarantees about it: over a whole run every recorded decode route is counted exactly once.
 */
module DecodeSharing {
  import opened Arithmetic
  import opened Common
  import opened DecodeBarrier
  import opened RouteCounts
  import opened Sums

  /** The recorded decode routes of each request. */
  datatype Traces = Traces(shape: Shape, decodeTokens: seq<nat>, routes: seq<seq<nat>>) {
    ghost predicate Valid() {
      && |decodeTokens| == |routes|
      && forall i :: 0 <= i < |routes| ==> ValidRoutes(shape, decodeTokens[i] * shape.layers, routes[i])
    }
  }

  /** What request id adds to the count of expert e in layer l at a decode position. */
  function Share(tr: Traces, id: Id, position: nat, l: nat, e: nat): nat
    requires tr.Valid() && l < tr.shape.layers
  {
    if id < |tr.routes| && position < tr.decodeTokens[id]
    then DecodeCount(tr.shape, tr.decodeTokens[id], tr.routes[id], position, l, e)
    else 0
  }

  /** The exact trace workload of a set of participants among the first n requests. */
  function Workload(tr: Traces, participants: map<Id, nat>, n: nat, l: nat, e: nat): nat
    requires tr.Valid() && l < tr.shape.layers
  {
    if n == 0 then 0
    else Workload(tr, participants, n - 1, l, e)
         + (if n - 1 in participants then Share(tr, n - 1, participants[n - 1], l, e) else 0)
  }

  lemma {:induction false} OneMoreParticipant(tr: Traces, participants: map<Id, nat>, id: Id, position: nat, n: nat,
                                              l: nat, e: nat)
    requires tr.Valid() && l < tr.shape.layers && id !in participants
    ensures Workload(tr, participants[id := position], n, l, e) ==
            Workload(tr, participants, n, l, e) + (if id < n then Share(tr, id, position, l, e) else 0)
  {
    if n > 0 {
      OneMoreParticipant(tr, participants, id, position, n - 1, l, e);
    }
  }

  lemma {:induction false} NoParticipants(tr: Traces, n: nat, l: nat, e: nat)
    requires tr.Valid() && l < tr.shape.layers
    ensures Workload(tr, map[], n, l, e) == 0
  {
    if n > 0 {
      NoParticipants(tr, n - 1, l, e);
    }
  }

  /** The load of requests that are running without a trace, spread over the configured expert popularity. */
  function Synthetic(shape: Shape, running: int, traced: int, probability: real): real {
    if running - traced > 0 then ((running - traced) * shape.topK) as real * probability else 0.0
  }

  // ---------------------------------------------------------------- the workload of a layer together

  /** What one request adds to the counts of a layer. */
  function SharesOf(tr: Traces, id: Id, position: nat, l: nat): (r: seq<int>)
    requires tr.Valid() && l < tr.shape.layers
    ensures |r| == tr.shape.experts
  {
    seq(tr.shape.experts, e requires 0 <= e < tr.shape.experts => Share(tr, id, position, l, e))
  }

  function WorkloadsOf(tr: Traces, participants: map<Id, nat>, n: nat, l: nat): (r: seq<int>)
    requires tr.Valid() && l < tr.shape.layers
    ensures |r| == tr.shape.experts
  {
    seq(tr.shape.experts, e requires 0 <= e < tr.shape.experts => Workload(tr, participants, n, l, e))
  }

  /** Every request brings topK routes to every layer. */
  lemma SharesAddUp(tr: Traces, id: Id, position: nat, l: nat)
    requires tr.Valid() && l < tr.shape.layers && id < |tr.routes| && position < tr.decodeTokens[id]
    ensures Sum(SharesOf(tr, id, position, l)) == tr.shape.topK
  {
    var shape := tr.shape;
    CellInside(shape, tr.decodeTokens[id], shape.layers, position, l + 1);
    NextCell(shape, shape.layers, position, l);
    var base := Cell(shape, shape.layers, position, l);
    CountsAddUp(tr.routes[id], base, base + shape.topK, shape.experts);
    assert SharesOf(tr, id, position, l) == CountsIn(tr.routes[id], base, base + shape.topK, shape.experts);
  }

  lemma {:induction false} SumPlus(a: seq<int>, b: seq<int>, c: seq<int>)
    requires |a| == |b| == |c| && forall i :: 0 <= i < |a| ==> c[i] == a[i] + b[i]
    ensures Sum(c) == Sum(a) + Sum(b)
  {
    if a != [] {
      SumPlus(a[..|a| - 1], b[..|b| - 1], c[..|c| - 1]);
    }
  }

  ghost function Below(participants: map<Id, nat>, n: nat): set<Id> {
    set id | id in participants && id < n
  }

  lemma OneMoreBelow(participants: map<Id, nat>, n: nat)
    ensures |Below(participants, n + 1)| == |Below(participants, n)| + (if n in participants then 1 else 0)
  {
    var before := Below(participants, n);
    if n in participants {
      assert Below(participants, n + 1) == before + {n};
    } else {
      assert Below(participants, n + 1) == before;
    }
  }

  lemma OneMoreWorkload(tr: Traces, participants: map<Id, nat>, n: nat, l: nat)
    requires tr.Valid() && l < tr.shape.layers
    ensures Sum(WorkloadsOf(tr, participants, n + 1, l)) ==
            Sum(WorkloadsOf(tr, participants, n, l)) +
            (if n in participants then Sum(SharesOf(tr, n, participants[n], l)) else 0)
  {
    var before, after := WorkloadsOf(tr, participants, n, l), WorkloadsOf(tr, participants, n + 1, l);
    if n in participants {
      SumPlus(before, SharesOf(tr, n, participants[n], l), after);
    } else {
      assert after == before;
    }
  }

  lemma {:induction false} WorkloadAddsUp(tr: Traces, participants: map<Id, nat>, n: nat, l: nat)
    requires tr.Valid() && l < tr.shape.layers
    requires forall id :: id in participants ==> id < |tr.routes| && participants[id] < tr.decodeTokens[id]
    ensures Sum(WorkloadsOf(tr, participants, n, l)) == |Below(participants, n)| * tr.shape.topK
  {
    var after := WorkloadsOf(tr, participants, n, l);
    if n == 0 {
      SumOfZeros(after);
    } else {
      WorkloadAddsUp(tr, participants, n - 1, l);
      OneMoreBelow(participants, n - 1);
      OneMoreWorkload(tr, participants, n - 1, l);
      if n - 1 in participants {
        SharesAddUp(tr, n - 1, participants[n - 1], l);
        MulDistributes(|Below(participants, n)|, 1, tr.shape.topK);
      }
    }
  }

  function Scaled(s: seq<real>, factor: real): (r: seq<real>)
    ensures |r| == |s| && forall e :: 0 <= e < |s| ==> r[e] == factor * s[e]
  {
    seq(|s|, e requires 0 <= e < |s| => factor * s[e])
  }

  lemma {:induction false} SumScaled(s: seq<real>, factor: real)
    ensures SumR(Scaled(s, factor)) == factor * SumR(s)
  {
    if s != [] {
      var n := |s| - 1;
      SumScaled(s[..n], factor);
      var a, b := Scaled(s, factor), Scaled(s[..n], factor);
      forall e | 0 <= e < n ensures a[..n][e] == b[e] {
        assert s[..n][e] == s[e];
      }
      assert a[..n] == b;
    }
  }

  lemma {:induction false} SumAsReals(a: seq<int>, b: seq<real>)
    requires |a| == |b| && forall i :: 0 <= i < |a| ==> b[i] == a[i] as real
    ensures SumR(b) == Sum(a) as real
  {
    if a != [] {
      SumAsReals(a[..|a| - 1], b[..|b| - 1]);
    }
  }

  function Larger(a: int, b: int): int {
    if a < b then b else a
  }

  /**
   A layer of the shared counts has topK routes for every running request, traced or not, when the probabilities add up
   to one.
   */
  lemma LayerAddsUp(tr: Traces, participants: map<Id, nat>, n: nat, l: nat, running: int, probabilities: seq<real>,
                    row: seq<real>)
    requires tr.Valid() && l < tr.shape.layers && |row| == |probabilities| == tr.shape.experts
    requires forall id :: id in participants ==> id < n && id < |tr.routes| && participants[id] < tr.decodeTokens[id]
    requires forall e :: 0 <= e < |row| ==>
               row[e] == Workload(tr, participants, n, l, e) as real +
                         Synthetic(tr.shape, running, |participants|, probabilities[e])
    requires SumR(probabilities) == 1.0
    ensures SumR(row) == (Larger(running, |participants|) * tr.shape.topK) as real
  {
    var loads, topK, many := WorkloadsOf(tr, participants, n, l), tr.shape.topK, |participants|;
    WorkloadAddsUp(tr, participants, n, l);
    AllBelow(participants, n);
    var part := Untraced(tr.shape, running, many, probabilities);
    UntracedAddsUp(tr.shape, running, many, probabilities);
    forall e | 0 <= e < |row| ensures row[e] == loads[e] as real + part[e] {
      assert part[e] == Synthetic(tr.shape, running, many, probabilities[e]);
      assert loads[e] == Workload(tr, participants, n, l, e);
    }
    RowAddsUp(loads, part, row);
    MulDistributes(Larger(running, many), many, topK);
  }

  function Untraced(shape: Shape, running: int, traced: int, probabilities: seq<real>): (r: seq<real>)
    ensures |r| == |probabilities|
    ensures forall e :: 0 <= e < |r| ==> r[e] == Synthetic(shape, running, traced, probabilities[e])
  {
    seq(|probabilities|, e requires 0 <= e < |probabilities| => Synthetic(shape, running, traced, probabilities[e]))
  }

  lemma UntracedAddsUp(shape: Shape, running: int, traced: int, probabilities: seq<real>)
    requires SumR(probabilities) == 1.0
    ensures SumR(Untraced(shape, running, traced, probabilities)) ==
            ((Larger(running, traced) - traced) * shape.topK) as real
  {
    var factor := ((Larger(running, traced) - traced) * shape.topK) as real;
    var a, b := Untraced(shape, running, traced, probabilities), Scaled(probabilities, factor);
    SumScaled(probabilities, factor);
    forall e | 0 <= e < |a| ensures a[e] == b[e] {
      SyntheticIs(shape, running, traced, probabilities[e]);
    }
    assert a == b;
  }

  lemma AllBelow(participants: map<Id, nat>, n: nat)
    requires forall id :: id in participants ==> id < n
    ensures |Below(participants, n)| == |participants|
  {
    assert Below(participants, n) == participants.Keys;
    assert |participants.Keys| == |participants|;
  }

  lemma SyntheticIs(shape: Shape, running: int, traced: int, probability: real)
    ensures Synthetic(shape, running, traced, probability) ==
            ((Larger(running, traced) - traced) * shape.topK) as real * probability
  {
  }

  lemma RowAddsUp(loads: seq<int>, part: seq<real>, row: seq<real>)
    requires |loads| == |part| == |row| && forall e :: 0 <= e < |row| ==> row[e] == loads[e] as real + part[e]
    ensures SumR(row) == Sum(loads) as real + SumR(part)
  {
    var a := seq(|loads|, e requires 0 <= e < |loads| => loads[e] as real);
    SumAsReals(loads, a);
    SumRPointwise(a, part, row);
  }

  /** The counts hold exactly the trace workload of the participants. */
  ghost predicate Holds(counts: array2<real>, tr: Traces, participants: map<Id, nat>, n: nat)
    requires tr.Valid()
    reads counts
  {
    && counts.Length0 == tr.shape.layers && counts.Length1 == tr.shape.experts
    && forall l, e :: 0 <= l < tr.shape.layers && 0 <= e < tr.shape.experts ==>
         counts[l, e] == Workload(tr, participants, n, l, e) as real
  }

  method AddParticipant(counts: array2<real>, tr: Traces, ghost participants: map<Id, nat>, id: Id, position: nat,
                        ghost n: nat)
    requires tr.Valid() && Holds(counts, tr, participants, n)
    requires id !in participants && id < n && id < |tr.routes| && position < tr.decodeTokens[id]
    modifies counts
    ensures Holds(counts, tr, participants[id := position], n)
  {
    AddDecodePosition(tr.shape, counts, tr.decodeTokens[id], tr.routes[id], position);
    forall l, e | 0 <= l < tr.shape.layers && 0 <= e < tr.shape.experts
      ensures counts[l, e] == Workload(tr, participants[id := position], n, l, e) as real
    {
      OneMoreParticipant(tr, participants, id, position, n, l, e);
    }
  }

  /** The participants found among the requests visited so far. */
  function Visited(r: Registry, todo: set<Id>): map<Id, nat> {
    map id | id in Participants(r) && id !in todo :: Participants(r)[id]
  }

  lemma VisitOne(r: Registry, todo: set<Id>, id: Id)
    requires id in todo && id in r.requests
    ensures id !in Visited(r, todo)
    ensures Visited(r, todo - {id}) ==
            if id in Participants(r) then Visited(r, todo)[id := r.requests[id].position] else Visited(r, todo)
  {
  }

  /** Collects the participants, visiting the requests in no particular order, and their exact routes. */
  method CountParticipants(counts: array2<real>, tr: Traces, r: Registry, ghost n: nat)
    returns (participants: map<Id, nat>)
    requires tr.Valid() && Holds(counts, tr, map[], n)
    requires forall id :: id in r.requests ==>
             id < n && id < |tr.routes| && r.requests[id].outputTokens <= tr.decodeTokens[id]
    modifies counts
    ensures participants == Participants(r)
    ensures Holds(counts, tr, participants, n)
  {
    participants := map[];
    var todo := r.requests.Keys;
    assert Visited(r, todo) == map[];
    while todo != {}
      invariant todo <= r.requests.Keys
      invariant participants == Visited(r, todo)
      invariant Holds(counts, tr, participants, n)
      decreases todo
    {
      var id :| id in todo;
      VisitOne(r, todo, id);
      var a := r.requests[id];
      if a.position < a.outputTokens - 1 {
        AddParticipant(counts, tr, participants, id, a.position, n);
        participants := participants[id := a.position];
      }
      todo := todo - {id};
    }
    assert Visited(r, {}) == Participants(r);
  }

  /**
   The counts of one forward: the recorded routes of every request with a position left, plus the load of the
   requests that run without a trace.
   */
  method DecodeCounts(tr: Traces, r: Registry, n: nat, running: int, probabilities: seq<real>)
    returns (ok: bool, counts: array2<real>, participants: map<Id, nat>)
    requires tr.Valid() && |probabilities| == tr.shape.experts
    requires forall id :: id in r.requests ==>
             id < n && id < |tr.routes| && r.requests[id].outputTokens <= tr.decodeTokens[id]
    ensures participants == Participants(r) && (ok <==> participants != map[])
    ensures counts.Length0 == tr.shape.layers && counts.Length1 == tr.shape.experts
    ensures ok ==> forall l, e :: 0 <= l < tr.shape.layers && 0 <= e < tr.shape.experts ==>
                     counts[l, e] == Workload(tr, participants, n, l, e) as real
                                     + Synthetic(tr.shape, running, |participants|, probabilities[e])
    ensures ok && SumR(probabilities) == 1.0 ==> forall l :: 0 <= l < tr.shape.layers ==>
              SumR(RowOf(counts, l)) == (Larger(running, |participants|) * tr.shape.topK) as real
  {
    counts := new real[tr.shape.layers, tr.shape.experts]((_, _) => 0.0);
    forall l, e | 0 <= l < tr.shape.layers && 0 <= e < tr.shape.experts
      ensures Workload(tr, map[], n, l, e) == 0
    {
      NoParticipants(tr, n, l, e);
    }
    participants := CountParticipants(counts, tr, r, n);
    ok := |participants| > 0;
    if ok {
      AddUntraced(counts, tr.shape, running, |participants|, probabilities);
      if SumR(probabilities) == 1.0 {
        forall l | 0 <= l < tr.shape.layers
          ensures SumR(RowOf(counts, l)) == (Larger(running, |participants|) * tr.shape.topK) as real
        {
          LayerAddsUp(tr, participants, n, l, running, probabilities, RowOf(counts, l));
        }
      }
    }
  }

  /** Adds the load of the running requests that are not among the participants. */
  method AddUntraced(counts: array2<real>, shape: Shape, running: int, traced: nat, probabilities: seq<real>)
    requires |probabilities| == counts.Length1
    modifies counts
    ensures forall l, e :: 0 <= l < counts.Length0 && 0 <= e < counts.Length1 ==>
              counts[l, e] == old(counts[l, e]) + Synthetic(shape, running, traced, probabilities[e])
  {
    if running - traced > 0 {
      AddSynthetic(counts, ((running - traced) * shape.topK) as real, probabilities);
    }
  }

  method AddSynthetic(counts: array2<real>, assignments: real, probabilities: seq<real>)
    requires |probabilities| == counts.Length1
    modifies counts
    ensures forall l, e :: 0 <= l < counts.Length0 && 0 <= e < counts.Length1 ==>
              counts[l, e] == old(counts[l, e]) + assignments * probabilities[e]
  {
    for layer := 0 to counts.Length0
      invariant forall l, e :: 0 <= l < counts.Length0 && 0 <= e < counts.Length1 ==>
                  counts[l, e] == if l < layer then old(counts[l, e]) + assignments * probabilities[e]
                      else old(counts[l, e])
    {
      for expert := 0 to counts.Length1
        invariant forall l, e :: 0 <= l < counts.Length0 && 0 <= e < counts.Length1 ==>
                    counts[l, e] == if l < layer || (l == layer && e < expert) then
                        old(counts[l, e]) + assignments * probabilities[e]
                                    else old(counts[l, e])
      {
        counts[layer, expert] := counts[layer, expert] + assignments * probabilities[expert];
      }
    }
  }

  // ---------------------------------------------------------------- conservation over a run

  /** The trace workload of all generations together. */
  function TotalWorkload(tr: Traces, steps: seq<Generation>, n: nat, l: nat, e: nat): nat
    requires tr.Valid() && l < tr.shape.layers
  {
    if steps == [] then 0
    else TotalWorkload(tr, steps[..|steps| - 1], n, l, e) + Workload(tr, steps[|steps| - 1].participants, n, l, e)
  }

  function SharesAt(tr: Traces, id: Id, positions: seq<nat>, l: nat, e: nat): nat
    requires tr.Valid() && l < tr.shape.layers
  {
    if positions == [] then 0
    else SharesAt(tr, id, positions[..|positions| - 1], l, e) + Share(tr, id, positions[|positions| - 1], l, e)
  }

  /** The same total, taken request by request. */
  function TotalByRequest(tr: Traces, steps: seq<Generation>, n: nat, l: nat, e: nat): nat
    requires tr.Valid() && l < tr.shape.layers
  {
    if n == 0 then 0
    else TotalByRequest(tr, steps, n - 1, l, e) + SharesAt(tr, n - 1, Contributed(steps, n - 1), l, e)
  }

  lemma {:induction false} TotalsAddGeneration(tr: Traces, steps: seq<Generation>, g: Generation, n: nat, l: nat,
                                               e: nat)
    requires tr.Valid() && l < tr.shape.layers
    ensures TotalByRequest(tr, steps + [g], n, l, e) ==
            TotalByRequest(tr, steps, n, l, e) + Workload(tr, g.participants, n, l, e)
  {
    if n > 0 {
      TotalsAddGeneration(tr, steps, g, n - 1, l, e);
      OneMoreContribution(steps, g, n - 1);
      var c := Contributed(steps, n - 1);
      if n - 1 in g.participants {
        assert (c + [g.participants[n - 1]])[..|c|] == c;
      } else {
        EmptyConcat(c);
      }
    }
  }

  lemma {:induction false} TotalsAgree(tr: Traces, steps: seq<Generation>, n: nat, l: nat, e: nat)
    requires tr.Valid() && l < tr.shape.layers
    ensures TotalWorkload(tr, steps, n, l, e) == TotalByRequest(tr, steps, n, l, e)
  {
    if steps == [] {
      NothingByRequest(tr, n, l, e);
    } else {
      var m := |steps| - 1;
      TakeNext(steps, m);
      TakeAll(steps);
      TotalsAgree(tr, steps[..m], n, l, e);
      TotalsAddGeneration(tr, steps[..m], steps[m], n, l, e);
    }
  }

  lemma {:induction false} NothingByRequest(tr: Traces, n: nat, l: nat, e: nat)
    requires tr.Valid() && l < tr.shape.layers
    ensures TotalByRequest(tr, [], n, l, e) == 0
  {
    if n > 0 {
      NothingByRequest(tr, n - 1, l, e);
    }
  }

  /** The recorded routes of positions 0 .. tokens-2 of the first n requests. */
  function Recorded(tr: Traces, threads: seq<Thread>, n: nat, l: nat, e: nat): nat
    requires tr.Valid() && l < tr.shape.layers && n <= |threads|
  {
    if n == 0 then 0
    else Recorded(tr, threads, n - 1, l, e)
         + SharesAt(tr, n - 1, UpTo(if threads[n - 1].tokens > 0 then threads[n - 1].tokens - 1 else 0), l, e)
  }

  /** Over a complete run, the generations together count every recorded decode route exactly once. */
  lemma EveryRouteIsCountedOnce(tr: Traces, states: seq<System>, labels: seq<Label>, l: nat, e: nat)
    requires tr.Valid() && l < tr.shape.layers && IsRun(states, labels)
    requires forall k :: 0 <= k < |labels| ==> !QuitsEarly(states[k], labels[k])
    requires forall x :: Enabled(states[|labels|], x) ==> QuitsEarly(states[|labels|], x)
    requires forall id :: 0 <= id < |states[|labels|].threads| ==> states[|labels|].threads[id].tokens > 0
    ensures var s := states[|labels|];
            TotalWorkload(tr, s.reg.steps, |s.threads|, l, e) == Recorded(tr, s.threads, |s.threads|, l, e)
  {
    var s := states[|labels|];
    TotalsAgree(tr, s.reg.steps, |s.threads|, l, e);
    forall id | 0 <= id < |s.threads|
      ensures Contributed(s.reg.steps, id) == UpTo(s.threads[id].tokens - 1)
    {
      EveryRequestIsServed(states, labels, id);
    }
    ServedIsRecorded(tr, s, |s.threads|, l, e);
  }

  lemma {:induction false} ServedIsRecorded(tr: Traces, s: System, n: nat, l: nat, e: nat)
    requires tr.Valid() && l < tr.shape.layers && n <= |s.threads|
    requires forall id :: 0 <= id < |s.threads| ==>
               s.threads[id].tokens > 0 && Contributed(s.reg.steps, id) == UpTo(s.threads[id].tokens - 1)
    ensures TotalByRequest(tr, s.reg.steps, n, l, e) == Recorded(tr, s.threads, n, l, e)
  {
    if n > 0 {
      ServedIsRecorded(tr, s, n - 1, l, e);
    }
  }
}
