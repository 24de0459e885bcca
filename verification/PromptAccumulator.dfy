/** The accumulator object: its arrays are updated record by record. */
module PromptAccumulator {
  import opened Accumulator
  import opened Common

  /** The checks on the experts of a record. */
  method CheckExperts(p: Plan, experts: seq<int>) returns (r: Option<seq<nat>>)
    ensures r.Some? <==> ValidExperts(p, experts)
    ensures r.Some? ==> |r.value| == |experts| && forall i :: 0 <= i < |experts| ==> r.value[i] == experts[i]
  {
    if |experts| != p.shape.topK {
      return None;
    }
    var seen: set<int> := {};
    var ids: seq<nat> := [];
    for i := 0 to |experts|
      invariant |ids| == i && forall k :: 0 <= k < i ==> ids[k] == experts[k] < p.shape.experts
      invariant forall k, l :: 0 <= k < l < i ==> experts[k] != experts[l]
      invariant seen == set k | 0 <= k < i :: experts[k]
    {
      var e := experts[i];
      if e < 0 || e >= p.shape.experts {
        return None;
      }
      if e in seen {
        return None;
      }
      seen := seen + {e};
      ids := ids + [e];
    }
    return Some(ids);
  }

  lemma BumpNext(counts: seq<nat>, base: nat, experts: seq<nat>, i: nat)
    requires i < |experts| && base + experts[i] < |counts|
    ensures var b := Bump(counts, base, experts[..i]);
            Bump(counts, base, experts[..i + 1]) == b[base + experts[i] := b[base + experts[i]] + 1]
  {
    var x := experts[..i + 1];
    forall e: nat ensures Occurrences(x, e) == Occurrences(experts[..i], e) + if experts[i] == e then 1 else 0 {
      SameCounts(x, experts[..i], 0, i, 0, e);
    }
    var b, c := Bump(counts, base, experts[..i]), Bump(counts, base, x);
    forall k | 0 <= k < |counts| ensures c[k] == b[base + experts[i] := b[base + experts[i]] + 1][k] {
      if base <= k {
        assert Occurrences(x, k - base) == Occurrences(experts[..i], k - base) + if experts[i] == k - base then 1
               else 0;
      }
    }
  }

  lemma BumpNothing(counts: seq<nat>, base: nat)
    ensures Bump(counts, base, []) == counts
  {
  }

  /** Counts the experts of a record one by one; stops at a count that is full. */
  method CountExperts(counts: seq<nat>, base: nat, experts: seq<nat>) returns (r: Option<seq<nat>>)
    requires forall i :: 0 <= i < |experts| ==> base + experts[i] < |counts|
    requires forall i, j :: 0 <= i < j < |experts| ==> experts[i] != experts[j]
    ensures r == if Overflows(counts, base, experts) then None else Some(Bump(counts, base, experts))
  {
    var c := counts;
    BumpNothing(counts, base);
    TakeAll(experts);
    for i := 0 to |experts|
      invariant c == Bump(counts, base, experts[..i])
      invariant forall k :: 0 <= k < i ==> counts[base + experts[k]] != MAX_UINT32
    {
      BumpNext(counts, base, experts, i);
      NotYetCounted(counts, base, experts, i);
      if c[base + experts[i]] == MAX_UINT32 {
        return None;
      }
      c := c[base + experts[i] := c[base + experts[i]] + 1];
    }
    return Some(c);
  }

  lemma NotYetCounted(counts: seq<nat>, base: nat, experts: seq<nat>, i: nat)
    requires i < |experts| && base + experts[i] < |counts|
    requires forall i, j :: 0 <= i < j < |experts| ==> experts[i] != experts[j]
    ensures Bump(counts, base, experts[..i])[base + experts[i]] == counts[base + experts[i]]
  {
    var x := experts[..i];
    DistinctOccurs(x, i, experts[i]);
    TakeAll(x);
  }

  lemma CopyIsWrite(routes: seq<nat>, cells: nat, cell: nat, experts: seq<nat>)
    requires |routes| == cells * |experts| && cell < cells
    ensures cell * |experts| + |experts| <= |routes|
    ensures routes[..cell * |experts|] + experts + routes[cell * |experts| + |experts|..] ==
            WriteCell(routes, cell, experts)
  {
    CellEnds(cells, cell, |experts|);
  }

  class PromptAccumulator {
    const plan: Plan
    var prefill: Half
    var decode: Half
    var counts: seq<nat>

    ghost function View(): Acc
      reads this
    {
      Acc(prefill, decode, counts)
    }

    ghost predicate Valid()
      reads this
    {
      GoodPlan(plan) && Fits(plan, View())
    }

    constructor (plan: Plan)
      requires GoodPlan(plan)
      ensures Valid() && this.plan == plan && View() == Start(plan)
    {
      this.plan := plan;
      var a := Start(plan);
      prefill, decode, counts := a.prefill, a.decode, a.counts;
    }

    /** Adds one record; after an error the accumulator is not used again. */
    method Add(r: Record) returns (ok: bool)
      requires Valid()
      modifies this
      ensures ok <==> Accumulator.Add(plan, old(View()), r).Some?
      ensures ok ==> Valid() && View() == Accumulator.Add(plan, old(View()), r).value
    {
      if r.layer !in plan.slots || r.tokenId < 0 || r.tokenId > MAX_UINT32 {
        return false;
      }
      var experts := CheckExperts(plan, r.experts);
      if experts == None || (r.gateWeights != 0 && r.gateWeights != plan.shape.topK) {
        return false;
      }
      if r.phase == Prefill && 0 <= r.position < plan.input {
        assert experts.value == Experts(plan, r);
        ok := AddPrefill(r, experts.value);
      } else if r.phase == Decode && 0 <= r.position - plan.input < plan.decode {
        assert experts.value == Experts(plan, r);
        ok := AddDecode(r, experts.value);
      } else {
        ok := false;
      }
    }

    method AddPrefill(r: Record, experts: seq<nat>) returns (ok: bool)
      requires Valid() && ValidRecord(plan, r) && r.phase == Prefill && experts == Experts(plan, r)
      modifies this
      ensures ok <==> Accumulator.Add(plan, old(View()), r).Some?
      ensures ok ==> View() == Accumulator.Add(plan, old(View()), r).value
    {
      CellIsInside(plan, r);
      var slot := plan.slots[r.layer];
      var cell := slot * plan.input + r.position;
      if prefill.seen[cell] {
        return false;
      }
      if prefill.tokenSeen[r.position] && prefill.ids[r.position] != r.tokenId {
        return false;
      }
      var base := slot * plan.shape.experts;
      forall i | 0 <= i < |experts| ensures base + experts[i] < |counts| {
        CellInTable(plan.shape.layers, plan.shape.experts, slot, experts[i]);
      }
      CopyIsWrite(prefill.routes, |prefill.seen|, cell, experts);
      var at := cell * plan.shape.topK;
      prefill := Half(prefill.ids[r.position := r.tokenId], prefill.tokenSeen[r.position := true],
                      prefill.seen[cell := true],
                      prefill.routes[..at] + experts + prefill.routes[at + plan.shape.topK..]);
      var c := CountExperts(counts, base, experts);
      if c == None {
        return false;
      }
      counts := c.value;
      return true;
    }

    method AddDecode(r: Record, experts: seq<nat>) returns (ok: bool)
      requires Valid() && ValidRecord(plan, r) && r.phase == Decode && experts == Experts(plan, r)
      modifies this
      ensures ok <==> Accumulator.Add(plan, old(View()), r).Some?
      ensures ok ==> View() == Accumulator.Add(plan, old(View()), r).value
    {
      CellIsInside(plan, r);
      var position := r.position - plan.input;
      var cell := position * plan.shape.layers + plan.slots[r.layer];
      if decode.seen[cell] {
        return false;
      }
      if decode.tokenSeen[position] && decode.ids[position] != r.tokenId {
        return false;
      }
      CopyIsWrite(decode.routes, |decode.seen|, cell, experts);
      var at := cell * plan.shape.topK;
      decode := Half(decode.ids[position := r.tokenId], decode.tokenSeen[position := true], decode.seen[cell := true],
                     decode.routes[..at] + experts + decode.routes[at + plan.shape.topK..]);
      return true;
    }

    method ValidateComplete() returns (ok: bool)
      ensures ok <==> Complete(View())
    {
      var a := AllSeen(prefill.tokenSeen);
      var b := AllSeen(decode.tokenSeen);
      var c := AllSeen(prefill.seen);
      var d := AllSeen(decode.seen);
      return a && b && c && d;
    }
  }

  method AllSeen(seen: seq<bool>) returns (all: bool)
    ensures all <==> AllTrue(seen)
  {
    for i := 0 to |seen|
      invariant forall k :: 0 <= k < i ==> seen[k]
    {
      if !seen[i] {
        return false;
      }
    }
    return true;
  }
}
