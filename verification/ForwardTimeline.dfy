/**
 The shared timeline of model forwards (reserveForward in pkg/simulator/moe_trace_fidelity.go): each forward starts when
 it is called or when the forwards reserved before it are over, whichever is later.
 */
module ForwardTimeline {
  import opened Common

  datatype Call = Call(at: real, latency: real)

  datatype Slot = Slot(start: real, finish: real)

  function Reserve(next: real, c: Call): Slot {
    var start := if next > c.at then next else c.at;
    Slot(start, start + c.latency)
  }

  /** When the model is free again after some calls, if it was free at `origin`. */
  function NextAfter(origin: real, calls: seq<Call>): real {
    if calls == [] then origin
    else Reserve(NextAfter(origin, calls[..|calls| - 1]), calls[|calls| - 1]).finish
  }

  /** The forward of call i. */
  function SlotAt(origin: real, calls: seq<Call>, i: nat): Slot
    requires i < |calls|
  {
    Reserve(NextAfter(origin, calls[..i]), calls[i])
  }

  function Busy(calls: seq<Call>): real {
    if calls == [] then 0.0 else Busy(calls[..|calls| - 1]) + calls[|calls| - 1].latency
  }

  lemma {:induction false} FrontIsSooner(origin: real, calls: seq<Call>, n: nat)
    requires n <= |calls| && forall i :: 0 <= i < |calls| ==> calls[i].latency >= 0.0
    ensures NextAfter(origin, calls[..n]) <= NextAfter(origin, calls)
  {
    if n == |calls| {
      TakeAll(calls);
    } else {
      var m := |calls| - 1;
      FrontIsSooner(origin, calls[..m], n);
      assert calls[..m][..n] == calls[..n];
    }
  }

  /** No two forwards overlap, and none starts before it is called. */
  lemma ForwardsDoNotOverlap(origin: real, calls: seq<Call>, i: nat, j: nat)
    requires i < j < |calls| && forall i :: 0 <= i < |calls| ==> calls[i].latency >= 0.0
    ensures SlotAt(origin, calls, i).finish <= SlotAt(origin, calls, j).start
    ensures calls[j].at <= SlotAt(origin, calls, j).start
    ensures SlotAt(origin, calls, j).finish == SlotAt(origin, calls, j).start + calls[j].latency
  {
    FrontIsSooner(origin, calls[..j], i + 1);
    assert calls[..j][..i + 1] == calls[..i + 1];
    TakeNext(calls, i);
  }

  /** A forward that waits starts the moment the one before it is over: the model is never idle while a call waits. */
  lemma WaitingMeansBusy(origin: real, calls: seq<Call>, i: nat)
    requires i < |calls| && SlotAt(origin, calls, i).start > calls[i].at
    ensures SlotAt(origin, calls, i).start == if i == 0 then origin else SlotAt(origin, calls, i - 1).finish
  {
    TakeAll(calls);
    if i > 0 {
      TakeNext(calls, i - 1);
    }
  }

  /** The end of a chain that begins with call k: its time and all latencies from there on. */
  function ChainEnd(calls: seq<Call>, k: nat): real
    requires k < |calls|
  {
    calls[k].at + Busy(calls[k..])
  }

  lemma BusyOneMore(calls: seq<Call>, k: nat)
    requires k < |calls|
    ensures Busy(calls[k..]) == Busy(calls[..|calls| - 1][k..]) + calls[|calls| - 1].latency
  {
    assert calls[k..][..|calls[k..]| - 1] == calls[..|calls| - 1][k..];
  }

  lemma {:induction false} NoChainIsLonger(origin: real, calls: seq<Call>, k: nat)
    ensures NextAfter(origin, calls) >= origin + Busy(calls)
    ensures k < |calls| ==> NextAfter(origin, calls) >= ChainEnd(calls, k)
  {
    if calls != [] {
      var m := |calls| - 1;
      NoChainIsLonger(origin, calls[..m], k);
      if k < |calls| {
        BusyOneMore(calls, k);
        assert k == m ==> calls[..m][k..] == [];
      }
    }
  }

  /**
   When the model is free again: at the end of the longest chain, which is either all calls from the origin on or the
   calls from some call on.
   */
  lemma {:induction false} EndIsLongestChain(origin: real, calls: seq<Call>)
    ensures NextAfter(origin, calls) == origin + Busy(calls)
            || exists k :: 0 <= k < |calls| && NextAfter(origin, calls) == ChainEnd(calls, k)
    ensures NextAfter(origin, calls) >= origin + Busy(calls)
    ensures forall k :: 0 <= k < |calls| ==> NextAfter(origin, calls) >= ChainEnd(calls, k)
  {
    forall k | 0 <= k < |calls| ensures NextAfter(origin, calls) >= ChainEnd(calls, k) {
      NoChainIsLonger(origin, calls, k);
    }
    NoChainIsLonger(origin, calls, 0);
    if calls != [] {
      var m := |calls| - 1;
      EndIsLongestChain(origin, calls[..m]);
      if NextAfter(origin, calls[..m]) <= calls[m].at {
        BusyOneMore(calls, m);
        assert calls[..m][m..] == [];
        assert NextAfter(origin, calls) == ChainEnd(calls, m);
      } else if k :| 0 <= k < m && NextAfter(origin, calls[..m]) == ChainEnd(calls[..m], k) {
        BusyOneMore(calls, k);
        assert NextAfter(origin, calls) == ChainEnd(calls, k);
      }
    }
  }

  class Timeline {
    var nextAvailable: real
    ghost const origin: real
    ghost var calls: seq<Call>

    ghost predicate Valid()
      reads this
    {
      nextAvailable == NextAfter(origin, calls)
    }

    constructor (start: real)
      ensures Valid() && origin == start && calls == []
    {
      nextAvailable, origin, calls := start, start, [];
    }

    method ReserveForward(callStarted: real, modelLatency: real) returns (start: real, latency: real)
      requires Valid()
      modifies this
      ensures Valid() && calls == old(calls) + [Call(callStarted, modelLatency)]
      ensures start == SlotAt(origin, calls, |calls| - 1).start
      ensures callStarted + latency == SlotAt(origin, calls, |calls| - 1).finish
    {
      start := callStarted;
      if nextAvailable > start {
        start := nextAvailable;
      }
      var finish := start + modelLatency;
      nextAvailable := finish;
      ghost var before := calls;
      calls := calls + [Call(callStarted, modelLatency)];
      assert calls[..|calls| - 1] == before;
      latency := finish - callStarted;
    }
  }
}
