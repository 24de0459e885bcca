/** The placements as the program computes them, with loops over slots, experts and ranks. */
module PlacementLoops {
  import opened Arithmetic
  import opened Common
  import opened StableSort
  import opened Placement

  lemma {:induction false} StaysStuck(load: seq<real>, cap: nat, n: nat, m: nat)
    requires n <= m && Apportion(load, cap, n) == None
    ensures Apportion(load, cap, m) == None
  {
    if n < m {
      StaysStuck(load, cap, n, m - 1);
    }
  }

  method BestExpert(load: seq<real>, replicas: seq<nat>, gpus: nat) returns (best: int)
    requires |load| == |replicas|
    ensures best < |load| && Best(load, replicas, gpus, |load|) == if best < 0 then None else Some(best)
  {
    best := -1;
    var bestScore := 0.0;
    for expert := 0 to |load|
      invariant best < expert && Best(load, replicas, gpus, expert) == if best < 0 then None else Some(best)
      invariant best >= 0 ==> bestScore == Score(load[best], replicas[best])
    {
      if replicas[expert] < gpus {
        var score := load[expert] / (replicas[expert] + 1) as real;
        if best < 0 || score > bestScore {
          best, bestScore := expert, score;
        }
      }
    }
  }

  method ApportionReplicas(load: seq<real>, slots: nat, gpus: nat) returns (r: Option<seq<nat>>)
    requires |load| <= slots
    ensures r == Apportion(load, gpus, slots - |load|)
  {
    var replicas: seq<nat> := seq(|load|, _ => 1);
    var remaining := slots - |load|;
    while remaining > 0
      invariant 0 <= remaining <= slots - |load|
      invariant Apportion(load, gpus, slots - |load| - remaining) == Some(replicas) && |replicas| == |load|
    {
      var best := BestExpert(load, replicas, gpus);
      if best < 0 {
        StaysStuck(load, gpus, slots - |load| - remaining + 1, slots - |load|);
        return None;
      }
      replicas := replicas[best := replicas[best] + 1];
      remaining := remaining - 1;
    }
    return Some(replicas);
  }

  /** Gives one expert its ranks and counts them. */
  method PlaceExpert(slots: seq<nat>, count: nat) returns (ranks: seq<nat>, slots': seq<nat>)
    requires count <= |slots|
    ensures ranks == Chosen(slots, count) && slots' == Bump(slots, ranks)
  {
    SortUpTo(|slots|, Occupancy(slots));
    var all := Sort(UpTo(|slots|), Occupancy(slots));
    ghost var chosen := Chosen(slots, count);
    ranks, slots' := [], slots;
    for j := 0 to count
      invariant ranks == chosen[..j] && |slots'| == |slots| && slots' == Bump(slots, chosen[..j])
    {
      TakeNext(chosen, j);
      ranks := ranks + [all[j]];
      slots' := slots'[all[j] := slots'[all[j]] + 1];
    }
    TakeAll(chosen);
  }

  method PlaceExperts(order: seq<nat>, replicas: seq<nat>, gpus: nat) returns (ranks: Ranks, slots: seq<nat>)
    requires Placeable(order, replicas, gpus)
    ensures Layout(ranks, slots) == Place(order, replicas, gpus)
  {
    ranks, slots := seq(|replicas|, _ => []), seq(gpus, _ => 0);
    TakeAll(order);
    for i := 0 to |order|
      invariant Layout(ranks, slots) == Place(order[..i], replicas, gpus)
    {
      TakeNext(order, i);
      var e := order[i];
      var chosen, slots' := PlaceExpert(slots, replicas[e]);
      ranks, slots := ranks[e := ranks[e] + chosen], slots';
    }
  }

  method AllFilled(filled: seq<nat>, perRank: nat) returns (full: bool)
    ensures full <==> !exists r :: 0 <= r < |filled| && filled[r] != perRank
  {
    for r := 0 to |filled|
      invariant forall k :: 0 <= k < r ==> filled[k] == perRank
    {
      if filled[r] != perRank {
        return false;
      }
    }
    return true;
  }

  method PlaceAllReplicas(replicas: seq<nat>, perRank: nat, gpus: nat) returns (p: Option<Placed>)
    requires forall e :: 0 <= e < |replicas| ==> replicas[e] <= gpus
    ensures p == PlaceReplicas(replicas, perRank, gpus)
  {
    OrderFacts(replicas, gpus);
    var order := Order(replicas);
    var ranks, filled := PlaceExperts(order, replicas, gpus);
    var full := AllFilled(filled, perRank);
    return if full then Some(Placed(ranks, replicas)) else None;
  }

  method ApportionAndPlace(load: seq<real>, slots: nat, gpus: nat) returns (p: Option<Placed>)
    ensures p == Dhondt(load, slots, gpus)
  {
    if gpus == 0 || slots < |load| || slots % gpus != 0 || slots > |load| * gpus {
      return None;
    }
    var replicas := ApportionReplicas(load, slots, gpus);
    if replicas == None {
      return None;
    }
    ApportionFacts(load, gpus, slots - |load|);
    p := PlaceAllReplicas(replicas.value, slots / gpus, gpus);
  }

  lemma DhondtKeepsLaws(load: seq<real>, slots: nat, gpus: nat)
    ensures var p := Dhondt(load, slots, gpus);
            && (p.Some? <==> ValidDimensions(|load|, slots, gpus))
            && (p.Some? ==> DhondtWell(p.value, |load|, slots, gpus, slots / gpus) && FollowsLoad(load, p.value, gpus))
            && (p.Some? && NonNegative(load) ==> SharesByLoad(load, p.value.ranks, gpus))
  {
    DhondtFillsRanksEqually(load, slots, gpus);
    if ValidDimensions(|load|, slots, gpus) {
      DhondtFollowsLoad(load, slots, gpus);
      if NonNegative(load) {
        DhondtSharesByLoad(load, slots, gpus);
      }
    }
  }

  /** None stands for a panic. */
  method DhondtPlaceOneLayer(load: seq<real>, slots: nat, gpus: nat) returns (p: Option<Placed>)
    ensures p == Dhondt(load, slots, gpus)
    ensures p.Some? <==> ValidDimensions(|load|, slots, gpus)
    ensures p.Some? ==> DhondtWell(p.value, |load|, slots, gpus, slots / gpus) && FollowsLoad(load, p.value, gpus)
    ensures p.Some? && NonNegative(load) ==> SharesByLoad(load, p.value.ranks, gpus)
  {
    DhondtKeepsLaws(load, slots, gpus);
    p := ApportionAndPlace(load, slots, gpus);
  }

  // ---------------------------------------------------------------- placements from a map of physical slots

  /** Slots are contiguous by rank: slot s belongs to rank s / perRank. */
  function ByRank(perRank: nat): nat -> nat
    requires perRank >= 1
  {
    (s: nat) => s / perRank
  }

  /** The ranks of every expert when the slots hold the experts `logical` and `rank` gives the rank of a slot. */
  function FromMap(logical: seq<nat>, experts: nat, rank: nat -> nat): (r: Ranks)
    ensures |r| == experts
  {
    if logical == [] then seq(experts, _ => [])
    else
      var n := |logical| - 1;
      var r := FromMap(logical[..n], experts, rank);
      if logical[n] < experts then r[logical[n] := r[logical[n]] + [rank(n)]] else r
  }

  ghost predicate Mapped(logical: seq<nat>, rank: nat -> nat, e: nat, g: nat) {
    exists s :: 0 <= s < |logical| && logical[s] == e && rank(s) == g
  }

  lemma {:induction false} FromMapAt(logical: seq<nat>, experts: nat, rank: nat -> nat, e: nat, g: nat)
    requires e < experts
    ensures g in FromMap(logical, experts, rank)[e] <==> Mapped(logical, rank, e, g)
  {
    if logical != [] {
      var n := |logical| - 1;
      FromMapAt(logical[..n], experts, rank, e, g);
      if Mapped(logical[..n], rank, e, g) {
        var s :| 0 <= s < |logical[..n]| && logical[..n][s] == e && rank(s) == g;
        assert logical[s] == e;
      }
      if Mapped(logical, rank, e, g) {
        var s :| 0 <= s < |logical| && logical[s] == e && rank(s) == g;
        if s < n {
          assert logical[..n][s] == e;
        }
      }
    }
  }

  /** No expert twice on a rank. */
  ghost predicate NoDuplicates(logical: seq<int>, rank: nat -> nat) {
    forall s, t :: 0 <= s < t < |logical| && logical[s] == logical[t] ==> rank(s) != rank(t)
  }

  ghost predicate RanksBelow(n: nat, rank: nat -> nat, gpus: nat) {
    forall s: nat :: s < n ==> rank(s) < gpus
  }

  lemma {:induction false} FromMapDistinct(logical: seq<nat>, experts: nat, rank: nat -> nat, gpus: nat, e: nat)
    requires e < experts && NoDuplicates(logical, rank) && RanksBelow(|logical|, rank, gpus)
    ensures GoodRanks(FromMap(logical, experts, rank)[e], gpus)
  {
    if logical != [] {
      var n := |logical| - 1;
      FromMapDistinct(logical[..n], experts, rank, gpus, e);
      FromMapAt(logical[..n], experts, rank, e, rank(n));
    }
  }

  lemma AllRanksInside(n: nat, perRank: nat, gpus: nat)
    requires perRank >= 1 && n <= perRank * gpus
    ensures RanksBelow(n, ByRank(perRank), gpus)
  {
  }

  /** A map with every expert somewhere and none twice on a rank gives a valid placement. */
  lemma FromMapIsValid(logical: seq<nat>, experts: nat, rank: nat -> nat, gpus: nat)
    requires NoDuplicates(logical, rank) && RanksBelow(|logical|, rank, gpus)
    requires forall e: nat :: e < experts ==> e in logical
    ensures ValidRanks(FromMap(logical, experts, rank), experts, gpus)
  {
    var r := FromMap(logical, experts, rank);
    forall e: nat | e < experts ensures r[e] != [] && GoodRanks(r[e], gpus) {
      assert e in logical;
      FromMapDistinct(logical, experts, rank, gpus, e);
      var s :| 0 <= s < |logical| && logical[s] == e;
      FromMapAt(logical, experts, rank, e, rank(s));
    }
  }

  method SpreadSlots(logical: seq<nat>, experts: nat, perRank: nat) returns (ranks: Ranks)
    requires perRank >= 1 && forall s :: 0 <= s < |logical| ==> logical[s] < experts
    ensures ranks == FromMap(logical, experts, ByRank(perRank))
  {
    ranks := seq(experts, _ => []);
    TakeAll(logical);
    for slot := 0 to |logical|
      invariant ranks == FromMap(logical[..slot], experts, ByRank(perRank))
    {
      TakeNext(logical, slot);
      var expert := logical[slot];
      ranks := ranks[expert := ranks[expert] + [slot / perRank]];
    }
  }

  // ---------------------------------------------------------------- the initial placement

  function Cycle(experts: nat, slots: nat): (m: seq<nat>)
    requires experts >= 1
    ensures |m| == slots && forall s :: 0 <= s < slots ==> m[s] == s % experts
  {
    seq(slots, s requires 0 <= s < slots => s % experts)
  }

  lemma WrapAround(s: nat, experts: nat)
    requires 1 <= experts <= s
    ensures (s - experts) % experts == s % experts
  {
    var q, r := (s - experts) / experts, (s - experts) % experts;
    DivModDef(s - experts, experts);
    MulDistributes(q + 1, 1, experts);
    DivModUnique(s, experts, q + 1, r);
  }

  /** Two slots with the same expert in a cycle are at least a whole cycle apart. */
  lemma CycleApart(experts: nat, s: nat, t: nat)
    requires experts >= 1 && s < t && s % experts == t % experts
    ensures t - s >= experts
  {
    DivModDef(s, experts);
    DivModDef(t, experts);
    var k := t / experts - s / experts;
    MulDistributes(t / experts, s / experts, experts);
    assert t - s == k * experts;
    PositiveFactor(k, experts);
    MulAtLeast(k, experts);
  }

  lemma FarApart(s: nat, t: nat, d: nat)
    requires d >= 1 && t - s >= d
    ensures s / d != t / d
  {
  }

  /** A cycle of experts as long as a rank or longer never repeats on a rank. */
  lemma CycleHasNoDuplicates(experts: nat, slots: nat, perRank: nat)
    requires 1 <= perRank <= experts
    ensures NoDuplicates(Cycle(experts, slots), ByRank(perRank))
  {
    var m := Cycle(experts, slots);
    forall s, t | 0 <= s < t < slots && m[s] == m[t] ensures ByRank(perRank)(s) != ByRank(perRank)(t) {
      CycleApart(experts, s, t);
      FarApart(s, t, perRank);
    }
  }

  lemma PerRankAtMostExperts(experts: nat, slots: nat, gpus: nat)
    requires gpus >= 1 && slots % gpus == 0 && slots <= experts * gpus && slots >= 1
    ensures 1 <= slots / gpus <= experts && slots == slots / gpus * gpus
  {
  }

  method CycleMap(experts: nat, slots: nat) returns (logical: seq<nat>)
    requires 1 <= experts <= slots
    ensures logical == Cycle(experts, slots)
  {
    logical := [];
    for expert := 0 to experts
      invariant logical == Cycle(experts, expert)
    {
      DivModUnique(expert, experts, 0, expert);
      logical := logical + [expert];
    }
    for slot := experts to slots
      invariant logical == Cycle(experts, slot)
    {
      WrapAround(slot, experts);
      logical := logical + [(slot - experts) % experts];
    }
  }

  lemma CycleHasAll(experts: nat, slots: nat, e: nat)
    requires e < experts <= slots
    ensures e in Cycle(experts, slots)
  {
    DivModUnique(e, experts, 0, e);
    assert Cycle(experts, slots)[e] == e;
  }

  lemma InitialIsValid(experts: nat, slots: nat, gpus: nat)
    requires experts >= 1 && ValidDimensions(experts, slots, gpus)
    ensures slots / gpus >= 1 &&
            ValidRanks(FromMap(Cycle(experts, slots), experts, ByRank(slots / gpus)), experts, gpus)
  {
    PerRankAtMostExperts(experts, slots, gpus);
    CycleHasNoDuplicates(experts, slots, slots / gpus);
    forall e: nat | e < experts ensures e in Cycle(experts, slots) {
      CycleHasAll(experts, slots, e);
    }
    AllRanksInside(slots, slots / gpus, gpus);
    FromMapIsValid(Cycle(experts, slots), experts, ByRank(slots / gpus), gpus);
  }

  ghost predicate HasSlot(experts: nat, slots: nat, perRank: nat, e: nat, g: nat)
    requires experts >= 1 && perRank >= 1
  {
    exists s: nat :: s < slots && SlotOn(experts, perRank, s, e, g)
  }

  /** Slot s holds a copy of expert e on rank g. */
  predicate SlotOn(experts: nat, perRank: nat, s: nat, e: nat, g: nat)
    requires experts >= 1 && perRank >= 1
  {
    s % experts == e && s / perRank == g
  }

  /** The slots are dealt out to the experts in turn, and filled rank by rank. */
  lemma InitialIs(experts: nat, slots: nat, perRank: nat, e: nat, g: nat)
    requires experts >= 1 && perRank >= 1 && e < experts
    ensures g in FromMap(Cycle(experts, slots), experts, ByRank(perRank))[e] <==>
            HasSlot(experts, slots, perRank, e, g)
  {
    var logical, rank := Cycle(experts, slots), ByRank(perRank);
    FromMapAt(logical, experts, rank, e, g);
    if Mapped(logical, rank, e, g) {
      var s :| 0 <= s < |logical| && logical[s] == e && rank(s) == g;
      assert SlotOn(experts, perRank, s, e, g);
    }
    if HasSlot(experts, slots, perRank, e, g) {
      var s: nat :| s < slots && SlotOn(experts, perRank, s, e, g);
      assert logical[s] == e && rank(s) == g;
    }
  }

  method InitialPlacement(experts: nat, slots: nat, gpus: nat) returns (r: Option<Ranks>)
    ensures r.Some? <==> experts >= 1 && ValidDimensions(experts, slots, gpus)
    ensures r.Some? ==> r.value == FromMap(Cycle(experts, slots), experts, ByRank(slots / gpus))
    ensures r.Some? ==> ValidRanks(r.value, experts, gpus)
    ensures r.Some? ==> slots / gpus >= 1 && forall e: nat, g: nat :: e < experts ==>
              (g in r.value[e] <==> HasSlot(experts, slots, slots / gpus, e, g))
  {
    if experts < 1 || slots < experts || gpus < 1 {
      return None;
    }
    if slots % gpus != 0 || slots > experts * gpus {
      return None;
    }
    InitialIsValid(experts, slots, gpus);
    var logical := CycleMap(experts, slots);
    var ranks := SpreadSlots(logical, experts, slots / gpus);
    forall e: nat, g: nat | e < experts ensures g in ranks[e] <==> HasSlot(experts, slots, slots / gpus, e, g) {
      InitialIs(experts, slots, slots / gpus, e, g);
    }
    return Some(ranks);
  }

  // ---------------------------------------------------------------- a fixed placement

  ghost predicate AllIn(logical: seq<int>, experts: nat) {
    forall e: nat :: e < experts ==> e in logical
  }

  predicate AllPlaced(ranks: Ranks) {
    forall e :: 0 <= e < |ranks| ==> ranks[e] != []
  }

  /** A layer whose slots hold known experts, none twice on a rank and none missing. */
  ghost predicate GoodMap(logical: seq<int>, experts: nat, rank: nat -> nat) {
    && (forall s :: 0 <= s < |logical| ==> 0 <= logical[s] < experts)
    && NoDuplicates(logical, rank) && AllIn(logical, experts)
  }

  ghost predicate FixedLayerOk(logical: seq<int>, experts: nat, slots: nat, gpus: nat)
    requires gpus >= 1 && slots % gpus == 0
  {
    && |logical| == slots
    && if slots / gpus == 0 then experts == 0 else GoodMap(logical, experts, ByRank(slots / gpus))
  }

  /** `done` is the accepted beginning of the map. */
  ghost predicate Accepted(logical: seq<int>, experts: nat, rank: nat -> nat, done: seq<nat>) {
    && |done| <= |logical|
    && (forall s :: 0 <= s < |done| ==> 0 <= logical[s] < experts && done[s] == logical[s])
    && NoDuplicates(done, rank)
  }

  ghost predicate BadSlot(logical: seq<int>, experts: nat, rank: nat -> nat, n: nat) {
    n < |logical| &&
    (0 <= logical[n] < experts ==> exists s :: 0 <= s < n && logical[s] == logical[n] && rank(s) == rank(n))
  }

  lemma AcceptNext(logical: seq<int>, experts: nat, rank: nat -> nat, done: seq<nat>, expert: nat)
    requires Accepted(logical, experts, rank, done) && |done| < |logical|
    requires expert == logical[|done|] && expert < experts
    ensures if Mapped(done, rank, expert, rank(|done|)) then BadSlot(logical, experts, rank, |done|)
            else Accepted(logical, experts, rank, done + [expert])
  {
  }

  lemma FromMapNext(done: seq<nat>, experts: nat, rank: nat -> nat, expert: nat)
    requires expert < experts
    ensures FromMap(done + [expert], experts, rank)
            == var r := FromMap(done, experts, rank); r[expert := r[expert] + [rank(|done|)]]
  {
  }

  /** The loop over the slots of one layer: stops at the first bad slot. */
  method ScanSlots(logical: seq<int>, experts: nat, rank: nat -> nat) returns (r: Option<Ranks>, ghost done: seq<nat>)
    ensures Accepted(logical, experts, rank, done)
    ensures r.Some? ==> |done| == |logical| && r.value == FromMap(done, experts, rank)
    ensures r == None ==> BadSlot(logical, experts, rank, |done|)
  {
    var ranks: Ranks := seq(experts, _ => []);
    done := [];
    for slot := 0 to |logical|
      invariant |done| == slot && Accepted(logical, experts, rank, done) && ranks == FromMap(done, experts, rank)
    {
      if logical[slot] < 0 || logical[slot] >= experts {
        return None, done;
      }
      var expert, gpu := logical[slot], rank(slot);
      FromMapAt(done, experts, rank, expert, gpu);
      AcceptNext(logical, experts, rank, done, expert);
      if gpu in ranks[expert] {
        return None, done;
      }
      FromMapNext(done, experts, rank, expert);
      ranks := ranks[expert := ranks[expert] + [gpu]];
      done := done + [expert];
    }
    return Some(ranks), done;
  }

  method EveryExpertPlaced(ranks: Ranks) returns (ok: bool)
    ensures ok <==> AllPlaced(ranks)
  {
    for e := 0 to |ranks|
      invariant forall k :: 0 <= k < e ==> ranks[k] != []
    {
      if |ranks[e]| == 0 {
        return false;
      }
    }
    return true;
  }

  lemma PlacedIffMapped(logical: seq<nat>, experts: nat, rank: nat -> nat, e: nat)
    requires e < experts
    ensures FromMap(logical, experts, rank)[e] != [] <==> e in logical
  {
  }

  lemma SameElements(logical: seq<int>, done: seq<nat>, e: nat)
    requires |done| == |logical| && forall s :: 0 <= s < |done| ==> done[s] == logical[s]
    ensures e in done <==> e in logical
  {
  }

  lemma BadSlotIsBad(logical: seq<int>, experts: nat, rank: nat -> nat, n: nat)
    requires BadSlot(logical, experts, rank, n)
    ensures !GoodMap(logical, experts, rank)
  {
  }

  lemma AllPlacedIff(logical: seq<int>, experts: nat, rank: nat -> nat, done: seq<nat>)
    requires |logical| == |done| && Accepted(logical, experts, rank, done)
    ensures AllPlaced(FromMap(done, experts, rank)) <==> AllIn(logical, experts)
  {
    var r := FromMap(done, experts, rank);
    forall e: nat | e < experts ensures r[e] != [] <==> e in logical {
      PlacedIffMapped(done, experts, rank, e);
      SameElements(logical, done, e);
    }
    if AllPlaced(r) {
      forall e: nat | e < experts ensures e in logical {
        assert r[e] != [];
      }
    }
    if AllIn(logical, experts) {
      forall e: nat | e < experts ensures r[e] != [] {
        assert e in logical;
      }
    }
  }

  lemma AcceptedIsGood(logical: seq<int>, experts: nat, rank: nat -> nat, done: seq<nat>)
    requires |logical| == |done| && Accepted(logical, experts, rank, done)
    ensures GoodMap(logical, experts, rank) <==> AllPlaced(FromMap(done, experts, rank))
  {
    AllPlacedIff(logical, experts, rank, done);
    forall s, t | 0 <= s < t < |logical| && logical[s] == logical[t] ensures rank(s) != rank(t) {
      assert done[s] == done[t];
    }
  }

  lemma AcceptedIsValid(logical: seq<int>, experts: nat, rank: nat -> nat, gpus: nat, done: seq<nat>)
    requires |logical| == |done| && Accepted(logical, experts, rank, done) && AllIn(logical, experts)
    requires RanksBelow(|logical|, rank, gpus)
    ensures ValidRanks(FromMap(done, experts, rank), experts, gpus)
  {
    forall e: nat | e < experts ensures e in done {
      assert e in logical;
      SameElements(logical, done, e);
    }
    FromMapIsValid(done, experts, rank, gpus);
  }

  /** The placement a map of the slots gives, exactly when the map is good. */
  method MapSlots(logical: seq<int>, experts: nat, rank: nat -> nat, ghost gpus: nat) returns (r: Option<Ranks>)
    requires RanksBelow(|logical|, rank, gpus)
    ensures r.Some? <==> GoodMap(logical, experts, rank)
    ensures r.Some? ==> ValidRanks(r.value, experts, gpus)
    ensures r.Some? ==> forall s :: 0 <= s < |logical| ==> rank(s) in r.value[logical[s]]
  {
    ghost var done;
    r, done := ScanSlots(logical, experts, rank);
    if r == None {
      BadSlotIsBad(logical, experts, rank, |done|);
      return None;
    }
    AcceptedIsGood(logical, experts, rank, done);
    var ok := EveryExpertPlaced(r.value);
    if !ok {
      return None;
    }
    AcceptedIsValid(logical, experts, rank, gpus, done);
    forall s | 0 <= s < |logical| ensures rank(s) in r.value[logical[s]] {
      FromMapAt(done, experts, rank, done[s], rank(s));
    }
  }

  /**
   One layer of a fixed placement: accepted exactly when it is well formed, and then a valid placement of its slots.
   */
  method FixedLayer(logical: seq<int>, experts: nat, slots: nat, gpus: nat) returns (r: Option<Ranks>)
    requires gpus >= 1 && slots % gpus == 0
    ensures r.Some? <==> FixedLayerOk(logical, experts, slots, gpus)
    ensures r.Some? ==> ValidRanks(r.value, experts, gpus)
    ensures r.Some? && slots / gpus > 0 ==> forall s :: 0 <= s < slots ==> s / (slots / gpus) in r.value[logical[s]]
  {
    if |logical| != slots {
      return None;
    }
    var perRank := slots / gpus;
    DivModDef(slots, gpus);
    if perRank == 0 {
      return if experts == 0 then Some([]) else None;
    }
    AllRanksInside(slots, perRank, gpus);
    r := MapSlots(logical, experts, ByRank(perRank), gpus);
    assert r.Some? ==> forall s :: 0 <= s < slots ==> ByRank(perRank)(s) in r.value[logical[s]];
  }
}
