/**
 The shared state of the expert-parallel model (moeSimulator in pkg/simulator/moe.go): the load window, the placements
 with their generation, and the cache of latencies by generation and token count.
 */
module MoeModel {
  import opened Arithmetic
  import opened Common
  import opened EplbWindow
  import opened Placement
  import opened PlacementLoops
  import opened Sums

  // ---------------------------------------------------------------- the window as one flat array

  /** Position of an entry: slot after slot, layer after layer, expert after expert. */
  function Index(stride: nat, slot: nat, x: nat): nat {
    slot * stride + x
  }

  lemma IndexInside(stride: nat, slots: nat, slot: nat, x: nat)
    requires slot < slots && x < stride
    ensures Index(stride, slot, x) < slots * stride
  {
    MulMonotone(slot + 1, slots, stride);
    MulDistributes(slot + 1, 1, stride);
  }

  /** Entries of different slots lie at different positions. */
  lemma IndexApart(stride: nat, a: nat, b: nat, x: nat)
    requires a != b && x < stride
    ensures !(Index(stride, b, 0) <= Index(stride, a, x) < Index(stride, b, 0) + stride)
  {
    if a < b {
      MulMonotone(a + 1, b, stride);
      MulDistributes(a + 1, 1, stride);
    } else {
      MulMonotone(b + 1, a, stride);
      MulDistributes(b + 1, 1, stride);
    }
  }

  function Flat(counts: seq<seq<real>>, experts: nat): (r: seq<real>)
    requires forall l :: 0 <= l < |counts| ==> |counts[l]| == experts
    ensures |r| == |counts| * experts
  {
    if counts == [] then [] else Flat(counts[..|counts| - 1], experts) + counts[|counts| - 1]
  }

  lemma {:induction false} FlatAt(counts: seq<seq<real>>, experts: nat, l: nat, e: nat)
    requires forall l :: 0 <= l < |counts| ==> |counts[l]| == experts
    requires l < |counts| && e < experts
    ensures Index(experts, l, e) < |counts| * experts && Flat(counts, experts)[Index(experts, l, e)] == counts[l][e]
  {
    var n := |counts| - 1;
    IndexInside(experts, |counts|, l, e);
    if l < n {
      FlatAt(counts[..n], experts, l, e);
    }
  }

  function Zeros(n: nat): (z: seq<real>)
    ensures |z| == n && forall i :: 0 <= i < n ==> z[i] == 0.0
  {
    seq(n, _ => 0.0)
  }

  function SlotOf(window: seq<real>, stride: nat, slot: nat): (r: seq<real>)
    requires |window| == WINDOW * stride && slot < WINDOW
    ensures |r| == stride
  {
    LayerInside(slot, WINDOW, stride);
    window[slot * stride..slot * stride + stride]
  }

  function RingOf(window: seq<real>, stride: nat): (r: seq<seq<real>>)
    requires |window| == WINDOW * stride
    ensures |r| == WINDOW
  {
    seq(WINDOW, i requires 0 <= i < WINDOW => SlotOf(window, stride, i))
  }

  lemma SlotEntry(window: seq<real>, stride: nat, slot: nat, x: nat)
    requires |window| == WINDOW * stride && slot < WINDOW && x < stride
    ensures Index(stride, slot, x) < |window| && SlotOf(window, stride, slot)[x] == window[Index(stride, slot, x)]
  {
    IndexInside(stride, WINDOW, slot, x);
    LayerInside(slot, WINDOW, stride);
    SliceAt(window, slot * stride, stride, x);
  }

  lemma SliceAt<T>(s: seq<T>, base: nat, length: nat, x: nat)
    requires base + length <= |s| && x < length
    ensures s[base..base + length][x] == s[base + x]
  {
  }

  /** The window with one slot replaced. */
  ghost predicate SlotWritten(before: seq<real>, after: seq<real>, base: nat, v: seq<real>) {
    && |after| == |before| && base + |v| <= |before|
    && forall k :: 0 <= k < |before| ==> after[k] == if base <= k < base + |v| then v[k - base] else before[k]
  }

  lemma WrittenRing(before: seq<real>, after: seq<real>, stride: nat, slot: nat, v: seq<real>)
    requires |before| == WINDOW * stride && slot < WINDOW && |v| == stride
    requires SlotWritten(before, after, slot * stride, v)
    ensures RingOf(after, stride) == RingOf(before, stride)[slot := v]
  {
    forall i | 0 <= i < WINDOW ensures SlotOf(after, stride, i) == if i == slot then v else SlotOf(before, stride, i) {
      WrittenSlot(before, after, stride, slot, v, i);
    }
  }

  lemma WrittenSlot(before: seq<real>, after: seq<real>, stride: nat, slot: nat, v: seq<real>, i: nat)
    requires |before| == WINDOW * stride && slot < WINDOW && |v| == stride && i < WINDOW
    requires SlotWritten(before, after, slot * stride, v)
    ensures SlotOf(after, stride, i) == if i == slot then v else SlotOf(before, stride, i)
  {
    forall x | 0 <= x < stride
      ensures SlotOf(after, stride, i)[x] == if i == slot then v[x] else SlotOf(before, stride, i)[x]
    {
      SlotEntry(after, stride, i, x);
      SlotEntry(before, stride, i, x);
      if i != slot {
        IndexApart(stride, i, slot, x);
      }
    }
  }

  method CopyLayer(window: array<real>, base: nat, counts: seq<real>)
    requires base + |counts| <= window.Length
    modifies window
    ensures SlotWritten(old(window[..]), window[..], base, counts)
  {
    for e := 0 to |counts|
      invariant forall k :: 0 <= k < window.Length ==>
                  window[k] == if base <= k < base + e then counts[k - base] else old(window[k])
    {
      window[base + e] := counts[e];
    }
  }

  lemma WriteNext(before: seq<real>, mid: seq<real>, after: seq<real>, base: nat, v: seq<real>, w: seq<real>)
    requires SlotWritten(before, mid, base, v) && SlotWritten(mid, after, base + |v|, w)
    ensures SlotWritten(before, after, base, v + w)
  {
  }

  /** Copies the counts of every layer into one slot. */
  method WriteSlot(window: array<real>, base: nat, counts: seq<seq<real>>, experts: nat)
    requires forall l :: 0 <= l < |counts| ==> |counts[l]| == experts
    requires base + |counts| * experts <= window.Length
    modifies window
    ensures SlotWritten(old(window[..]), window[..], base, Flat(counts, experts))
  {
    ghost var before := window[..];
    TakeAll(counts);
    for layer := 0 to |counts|
      invariant SlotWritten(before, window[..], base, Flat(counts[..layer], experts))
    {
      ghost var mid := window[..];
      TakeNext(counts, layer);
      LayerInside(layer, |counts|, experts);
      CopyLayer(window, base + layer * experts, counts[layer]);
      WriteNext(before, mid, window[..], base, Flat(counts[..layer], experts), counts[layer]);
    }
  }

  lemma LayerInside(layer: nat, layers: nat, experts: nat)
    requires layer < layers
    ensures layer * experts + experts <= layers * experts
  {
    MulMonotone(layer + 1, layers, experts);
    MulDistributes(layer + 1, 1, experts);
  }

  // ---------------------------------------------------------------- summing the window

  method AddSlot(loads: array2<real>, window: array<real>, base: nat)
    requires base + loads.Length0 * loads.Length1 <= window.Length
    modifies loads
    ensures forall l, e :: 0 <= l < loads.Length0 && 0 <= e < loads.Length1 ==>
              && Index(loads.Length1, l, e) < loads.Length0 * loads.Length1
              && loads[l, e] == old(loads[l, e]) + window[base + Index(loads.Length1, l, e)]
  {
    var experts := loads.Length1;
    forall l: nat, e: nat | l < loads.Length0 && e < experts ensures Index(experts, l, e) < loads.Length0 * experts {
      IndexInside(experts, loads.Length0, l, e);
    }
    for layer := 0 to loads.Length0
      invariant forall l, e :: 0 <= l < loads.Length0 && 0 <= e < experts ==>
                  loads[l, e] == old(loads[l, e]) + if l < layer then window[base + Index(experts, l, e)] else 0.0
    {
      var layerBase := base + layer * experts;
      for expert := 0 to experts
        invariant forall l, e :: 0 <= l < loads.Length0 && 0 <= e < experts ==>
                    loads[l, e] == old(loads[l, e]) +
                                   if l < layer || (l == layer && e < expert) then window[base + Index(experts, l, e)]
                                       else 0.0
      {
        assert layerBase + expert == base + Index(experts, layer, expert);
        loads[layer, expert] := loads[layer, expert] + window[layerBase + expert];
      }
    }
  }

  lemma EntriesNext(window: seq<real>, stride: nat, x: nat, slot: nat)
    requires |window| == WINDOW * stride && slot < WINDOW && x < stride
    ensures Index(stride, slot, x) < |window|
    ensures var s := Entries(RingOf(window, stride), x);
            SumR(s[..slot + 1]) == SumR(s[..slot]) + window[Index(stride, slot, x)]
  {
    var s := Entries(RingOf(window, stride), x);
    SlotEntry(window, stride, slot, x);
    TakeNext(s, slot);
    SumRAppend(s[..slot], s[slot]);
  }

  /** The sum of one entry over all slots. */
  function WindowSum(window: seq<real>, stride: nat, x: nat): real
    requires |window| == WINDOW * stride
  {
    SumR(Entries(RingOf(window, stride), x))
  }

  /** The sums of the first n slots. */
  ghost predicate SummedUpTo(loads: array2<real>, window: seq<real>, n: nat)
    requires |window| == WINDOW * (loads.Length0 * loads.Length1) && n <= WINDOW
    reads loads
  {
    forall l: nat, e: nat :: l < loads.Length0 && e < loads.Length1 ==>
      loads[l, e] == SumR(Entries(RingOf(window, loads.Length0 * loads.Length1), Index(loads.Length1, l, e))[..n])
  }

  method SumWindow(window: array<real>, layers: nat, experts: nat) returns (loads: array2<real>)
    requires window.Length == WINDOW * (layers * experts)
    ensures fresh(loads) && loads.Length0 == layers && loads.Length1 == experts
    ensures forall l: nat, e: nat :: l < layers && e < experts ==>
              loads[l, e] == WindowSum(window[..], layers * experts, Index(experts, l, e))
  {
    loads := new real[layers, experts]((_, _) => 0.0);
    var stride := layers * experts;
    ghost var w := window[..];
    assert SummedUpTo(loads, w, 0);
    for step := 0 to WINDOW
      invariant window[..] == w && SummedUpTo(loads, w, step)
    {
      LayerInside(step, WINDOW, stride);
      AddSlot(loads, window, step * stride);
      forall l: nat, e: nat | l < layers && e < experts
        ensures loads[l, e] == SumR(Entries(RingOf(w, stride), Index(experts, l, e))[..step + 1])
      {
        IndexInside(experts, layers, l, e);
        EntriesNext(w, stride, Index(experts, l, e), step);
      }
    }
    forall l: nat, e: nat | l < layers && e < experts
      ensures loads[l, e] == WindowSum(w, stride, Index(experts, l, e))
    {
      TakeAll(Entries(RingOf(w, stride), Index(experts, l, e)));
    }
  }

  lemma EmptyRing(window: seq<real>, stride: nat)
    requires |window| == WINDOW * stride && forall k :: 0 <= k < |window| ==> window[k] == 0.0
    ensures RingInv(RingOf(window, stride), [], Zeros(stride))
  {
    forall i | 0 <= i < WINDOW ensures SlotOf(window, stride, i) == Zeros(stride) {
      forall x | 0 <= x < stride ensures SlotOf(window, stride, i)[x] == 0.0 {
        SlotEntry(window, stride, i, x);
      }
    }
  }

  // ---------------------------------------------------------------- the model object

  /** The load of one layer that a rebalance after this history must place. */
  function LoadsOf(history: seq<seq<real>>, experts: nat, l: nat): (r: seq<real>)
    requires Rebalances(|history|)
    ensures |r| == experts
  {
    seq(experts, e requires 0 <= e < experts => SumR(Entries(Seen(history), Index(experts, l, e))))
  }

  function Latency(layerCost: (Ranks, seq<real>) -> real, placements: seq<Ranks>, demand: seq<real>): real {
    if placements == [] then 0.0
    else
      var n := |placements| - 1;
      Latency(layerCost, placements[..n], demand) + layerCost(placements[n], demand)
  }

  function LayerCosts(layerCost: (Ranks, seq<real>) -> real, placements: seq<Ranks>, demand: seq<real>): (r: seq<real>)
    ensures |r| == |placements| && forall l :: 0 <= l < |r| ==> r[l] == layerCost(placements[l], demand)
  {
    seq(|placements|, l requires 0 <= l < |placements| => layerCost(placements[l], demand))
  }

  /** The latency is the sum of the costs of all layers, each under its own placement. */
  lemma {:induction false} LatencyIsSum(layerCost: (Ranks, seq<real>) -> real, placements: seq<Ranks>,
                                        demand: seq<real>)
    ensures Latency(layerCost, placements, demand) == SumR(LayerCosts(layerCost, placements, demand))
  {
    if placements != [] {
      var n := |placements| - 1;
      LatencyIsSum(layerCost, placements[..n], demand);
      assert LayerCosts(layerCost, placements, demand)[..n] == LayerCosts(layerCost, placements[..n], demand);
    }
  }

  datatype Key = Key(generation: nat, tokens: int)

  /** Every entry of the current generation is what computing it on the current placements would give. */
  ghost predicate CacheInv(cache: map<Key, real>, generation: nat, layerCost: (Ranks, seq<real>) -> real,
                           placements: seq<Ranks>, demand: int -> seq<real>) {
    && (forall k :: k in cache ==> k.generation <= generation)
    && (forall k :: k in cache && k.generation == generation ==>
        cache[k] == Latency(layerCost, placements, demand(k.tokens)))
  }

  lemma NewGenerationMisses(cache: map<Key, real>, generation: nat, layerCost: (Ranks, seq<real>) -> real,
                            placements: seq<Ranks>, placements': seq<Ranks>, demand: int -> seq<real>)
    requires CacheInv(cache, generation, layerCost, placements, demand)
    ensures CacheInv(cache, generation + 1, layerCost, placements', demand)
  {
  }

  class Model {
    const layers: nat
    const experts: nat
    const slots: nat
    const gpus: nat
    /** What one layer costs under a placement, the demand of so many tokens, and the cost of changing placements. */
    const layerCost: (Ranks, seq<real>) -> real
    const demand: int -> seq<real>
    const moveCost: (seq<Ranks>, seq<Ranks>) -> real
    const window: array<real>
    var windowStep: nat
    var rearrangementStep: nat
    var generation: nat
    var placements: seq<Ranks>
    var cache: map<Key, real>
    ghost var history: seq<seq<real>>

    ghost predicate Valid()
      reads this, window
    {
      && ValidDimensions(experts, slots, gpus)
      && window.Length == WINDOW * (layers * experts)
      && rearrangementStep == Counter(|history|) && windowStep == Position(|history|)
      && RingInv(RingOf(window[..], layers * experts), history, Zeros(layers * experts))
      && ValidPlacements(placements)
      && (forall t :: |demand(t)| == experts)
      && CacheInv(cache, generation, layerCost, placements, demand)
    }

    ghost predicate ValidPlacements(p: seq<Ranks>) {
      |p| == layers && forall l :: 0 <= l < layers ==> ValidRanks(p[l], experts, gpus)
    }

    constructor (layers: nat, experts: nat, slots: nat, gpus: nat, layerCost: (Ranks, seq<real>) -> real,
                 demand: int -> seq<real>, moveCost: (seq<Ranks>, seq<Ranks>) -> real)
      requires experts >= 1 && ValidDimensions(experts, slots, gpus) && forall t :: |demand(t)| == experts
      ensures Valid() && fresh(window) && history == [] && generation == 0
      ensures this.layers == layers && this.experts == experts && this.slots == slots && this.gpus == gpus
      ensures slots / gpus >= 1 && |placements| == layers
      ensures forall l :: 0 <= l < layers ==>
              placements[l] == FromMap(Cycle(experts, slots), experts, ByRank(slots / gpus))
    {
      this.layers, this.experts, this.slots, this.gpus := layers, experts, slots, gpus;
      this.layerCost, this.demand, this.moveCost := layerCost, demand, moveCost;
      window := new real[WINDOW * (layers * experts)](_ => 0.0);
      windowStep, rearrangementStep, generation := 0, INTERVAL - INTERVAL / 4, 0;
      placements, cache, history := [], map[], [];
      new;
      InitialIsValid(experts, slots, gpus);
      var initial := InitialPlacement(experts, slots, gpus);
      placements := seq(layers, _ => initial.value);
      EmptyRing(window[..], layers * experts);
    }

    /** Records the demand of a forward when a rebalance is near. */
    method Record(counts: seq<seq<real>>)
      requires Valid() && |counts| == layers && forall l :: 0 <= l < layers ==> |counts[l]| == experts
      modifies this`windowStep, window
      ensures RingOf(window[..], layers * experts) ==
              Recording(old(RingOf(window[..], layers * experts)), |history|, Flat(counts, experts))
      ensures windowStep == Position(|history| + 1)
    {
      PositionSteps(|history|);
      if INTERVAL - rearrangementStep <= WINDOW {
        var stride := layers * experts;
        ghost var before := window[..];
        LayerInside(windowStep, WINDOW, stride);
        WriteSlot(window, windowStep * stride, counts, experts);
        WrittenRing(before, window[..], stride, windowStep, Flat(counts, experts));
        windowStep := windowStep + 1;
        if windowStep >= WINDOW {
          windowStep := 0;
        }
      }
    }

    /** New placements from the recorded loads; the old ones lose their generation. */
    method Rebalance() returns (migration: real)
      requires ValidDimensions(experts, slots, gpus) && window.Length == WINDOW * (layers * experts)
      requires Rebalances(|history|)
      requires Complete(RingOf(window[..], layers * experts), history, Zeros(layers * experts))
      modifies this`placements, this`generation
      ensures generation == old(generation) + 1 && migration == moveCost(old(placements), placements)
      ensures ValidPlacements(placements) && PlacedByLoads(placements, history, layers, experts, slots, gpus)
    {
      var loads := SeenLoads(window, layers, experts, history);
      var p := PlaceLayers(loads, history, layers, experts, slots, gpus);
      migration := moveCost(placements, p);
      placements, generation := p, generation + 1;
    }

    /** One forward: record, count, and rebalance when the interval is over. */
    method Advance(counts: seq<seq<real>>) returns (migration: real)
      requires Valid() && |counts| == layers && forall l :: 0 <= l < layers ==> |counts[l]| == experts
      modifies this, window
      ensures Valid() && history == old(history) + [Flat(counts, experts)] && cache == old(cache)
      ensures !Rebalances(|history|) ==>
              placements == old(placements) && generation == old(generation) && migration == 0.0
      ensures Rebalances(|history|) ==>
              generation == old(generation) + 1 && migration == moveCost(old(placements), placements)
      ensures Rebalances(|history|) ==> PlacedByLoads(placements, history, layers, experts, slots, gpus)
    {
      ghost var n, stride := |history|, layers * experts;
      CounterSteps(n);
      ghost var empty := Zeros(stride);
      ghost var v := Flat(counts, experts);
      RecordingKeepsRing(RingOf(window[..], stride), history, empty, v);
      Record(counts);
      history := history + [v];
      rearrangementStep := rearrangementStep + 1;
      if rearrangementStep < INTERVAL {
        return 0.0;
      }
      rearrangementStep := 0;
      NewGenerationMisses(cache, generation, layerCost, placements, placements, demand);
      migration := Rebalance();
      NewGenerationMisses(cache, generation - 1, layerCost, old(placements), placements, demand);
    }

    /** The latency on the current placements, from the cache if it is there. */
    method Lookup(tokens: int) returns (latency: real)
      requires CacheInv(cache, generation, layerCost, placements, demand)
      modifies this`cache
      ensures CacheInv(cache, generation, layerCost, placements, demand)
      ensures latency == Latency(layerCost, placements, demand(tokens))
    {
      var key := Key(generation, tokens);
      if key in cache {
        latency := cache[key];
      } else {
        latency := ComputeLatency(layerCost, placements, demand(tokens));
        cache := cache[key := latency];
      }
    }

    /** The latency of a synthetic forward is what computing it on the placements before it would give. */
    method LatencyForTokens(tokens: int) returns (latency: real)
      requires Valid()
      modifies this, window
      ensures Valid()
      ensures tokens <= 0 ==> latency == 0.0 && history == old(history) && placements == old(placements)
      ensures tokens > 0 ==>
                && history == old(history) + [Flat(seq(layers, _ => demand(tokens)), experts)]
                && latency == Latency(layerCost, old(placements), demand(tokens)) +
                              (if Rebalances(|history|) then moveCost(old(placements), placements) else 0.0)
    {
      if tokens <= 0 {
        return 0.0;
      }
      latency := Lookup(tokens);
      var migration := Advance(seq(layers, _ => demand(tokens)));
      latency := latency + migration;
    }

    /** Installs a fixed placement if every layer of it is well formed; otherwise nothing changes. */
    method InstallFixed(numLayers: int, numPhysical: int, maps: seq<seq<int>>) returns (ok: bool)
      requires Valid()
      modifies this`placements, this`generation
      ensures Valid()
      ensures ok <==>
                && (numLayers == 0 || numLayers == layers) && (numPhysical == 0 || numPhysical == slots)
                && |maps| == layers && FixedOk(maps, experts, slots, gpus)
      ensures if ok then generation == old(generation) + 1
              else placements == old(placements) && generation == old(generation)
      ensures ok ==> forall l :: 0 <= l < layers ==> FixedAt(placements[l], maps[l], slots, gpus)
    {
      if (numLayers != 0 && numLayers != layers) || (numPhysical != 0 && numPhysical != slots) || |maps| != layers {
        return false;
      }
      var fixed := FixedLayers(maps, experts, slots, gpus);
      if fixed == None {
        return false;
      }
      NewGenerationMisses(cache, generation, layerCost, placements, fixed.value, demand);
      placements, generation := fixed.value, generation + 1;
      return true;
    }
  }

  method ComputeLatency(layerCost: (Ranks, seq<real>) -> real, placements: seq<Ranks>, counts: seq<real>)
    returns (latency: real)
    ensures latency == Latency(layerCost, placements, counts)
  {
    latency := 0.0;
    TakeAll(placements);
    for layer := 0 to |placements|
      invariant latency == Latency(layerCost, placements[..layer], counts)
    {
      TakeNext(placements, layer);
      latency := latency + layerCost(placements[layer], counts);
    }
  }

  /** The loads of all layers, as the rebalance must see them. */
  method SeenLoads(window: array<real>, layers: nat, experts: nat, ghost history: seq<seq<real>>)
    returns (loads: seq<seq<real>>)
    requires window.Length == WINDOW * (layers * experts) && Rebalances(|history|)
    requires Complete(RingOf(window[..], layers * experts), history, Zeros(layers * experts))
    ensures |loads| == layers && forall l :: 0 <= l < layers ==> loads[l] == LoadsOf(history, experts, l)
  {
    var sums := SumWindow(window, layers, experts);
    ghost var w := window[..];
    loads := [];
    for layer := 0 to layers
      invariant forall l: nat, e: nat :: l < layers && e < experts ==>
                sums[l, e] == WindowSum(w, layers * experts, Index(experts, l, e))
      invariant |loads| == layer && forall l :: 0 <= l < layer ==> loads[l] == LoadsOf(history, experts, l)
    {
      var load := RowOf(sums, layer);
      LayerLoadIsSeen(load, w, layers, experts, layer, history);
      loads := loads + [load];
    }
  }

  lemma LayerLoadIsSeen(load: seq<real>, window: seq<real>, layers: nat, experts: nat, layer: nat,
                        history: seq<seq<real>>)
    requires |load| == experts && layer < layers && |window| == WINDOW * (layers * experts)
    requires forall e: nat :: e < experts ==> load[e] == WindowSum(window, layers * experts, Index(experts, layer, e))
    requires Rebalances(|history|) && Complete(RingOf(window, layers * experts), history, Zeros(layers * experts))
    ensures load == LoadsOf(history, experts, layer)
  {
    forall e: nat | e < experts ensures load[e] == LoadsOf(history, experts, layer)[e] {
      RebalanceSumsSeen(RingOf(window, layers * experts), history, Zeros(layers * experts), Index(experts, layer, e));
    }
  }

  /** Every layer is placed by D'Hondt on the loads that the rebalance must see. */
  ghost predicate PlacedByLoads(placements: seq<Ranks>, history: seq<seq<real>>, layers: nat, experts: nat, slots: nat,
                                gpus: nat)
    requires Rebalances(|history|)
  {
    && |placements| == layers
    && forall l :: 0 <= l < layers ==> PlacedByLoad(placements[l], LoadsOf(history, experts, l), slots, gpus)
  }

  ghost predicate PlacedByLoad(ranks: Ranks, load: seq<real>, slots: nat, gpus: nat) {
    && Dhondt(load, slots, gpus).Some? && ranks == Dhondt(load, slots, gpus).value.ranks
    && (NonNegative(load) ==> SharesByLoad(load, ranks, gpus))
  }

  lemma {:induction false} SumRIsNatural(s: seq<real>)
    requires forall i :: 0 <= i < |s| ==> s[i] >= 0.0
    ensures SumR(s) >= 0.0
  {
    if s != [] {
      SumRIsNatural(s[..|s| - 1]);
    }
  }

  /** What the forwards that a rebalance sees asked of an expert in a layer. */
  function Asked(forwards: seq<seq<seq<real>>>, l: nat, e: nat): (r: seq<real>)
    requires forall i :: 0 <= i < |forwards| ==> l < |forwards[i]| && e < |forwards[i][l]|
    ensures |r| == |forwards| && forall i :: 0 <= i < |r| ==> r[i] == forwards[i][l][e]
  {
    seq(|forwards|, i requires 0 <= i < |forwards| => forwards[i][l][e])
  }

  ghost predicate FlatOf(history: seq<seq<real>>, forwards: seq<seq<seq<real>>>, layers: nat, experts: nat) {
    && |history| == |forwards|
    && forall i :: 0 <= i < |forwards| ==>
         && |forwards[i]| == layers && (forall l :: 0 <= l < layers ==> |forwards[i][l]| == experts)
         && history[i] == Flat(forwards[i], experts)
  }

  /**
   The load that a rebalance places is the sum of what the first 750 forwards, later the last 1000 forwards, asked of
   the expert in the layer.
   */
  lemma LoadsAreAsked(history: seq<seq<real>>, forwards: seq<seq<seq<real>>>, layers: nat, experts: nat, l: nat, e: nat)
    requires FlatOf(history, forwards, layers, experts) && Rebalances(|history|) && l < layers && e < experts
    ensures var seen := if |forwards| == 750 then 750 else 1000;
            && seen <= |forwards|
            && LoadsOf(history, experts, l)[e] == SumR(Asked(forwards[|forwards| - seen..], l, e))
  {
    var seen := if |forwards| == 750 then 750 else 1000;
    SeenIsLast(history);
    var asked, entries := Asked(forwards[|forwards| - seen..], l, e), Entries(Seen(history), Index(experts, l, e));
    forall i | 0 <= i < seen ensures asked[i] == entries[i] {
      FlatAt(forwards[|forwards| - seen + i], experts, l, e);
      IndexInside(experts, layers, l, e);
    }
    assert asked == entries;
  }

  lemma SeenIsLast(history: seq<seq<real>>)
    requires Rebalances(|history|)
    ensures var seen := if |history| == 750 then 750 else 1000;
            seen <= |history| && Seen(history) == history[|history| - seen..]
  {
    DivModDef(|history| - FIRST, INTERVAL);
  }

  /**
   After a rebalance every layer shares its copies by what the recorded forwards asked of it: no copy of an expert
   served less of it than a further copy of another expert would have.
   */
  lemma RebalanceSharesByLoad(placements: seq<Ranks>, history: seq<seq<real>>, layers: nat, experts: nat, slots: nat,
                              gpus: nat, l: nat)
    requires Rebalances(|history|) && PlacedByLoads(placements, history, layers, experts, slots, gpus) && l < layers
    requires forall i, x :: 0 <= i < |history| && 0 <= x < |history[i]| ==> history[i][x] >= 0.0
    ensures SharesByLoad(LoadsOf(history, experts, l), placements[l], gpus)
  {
    var loads := LoadsOf(history, experts, l);
    forall e | 0 <= e < experts ensures loads[e] >= 0.0 {
      SumRIsNatural(Entries(Seen(history), Index(experts, l, e)));
    }
    assert PlacedByLoad(placements[l], loads, slots, gpus);
  }

  method PlaceLayer(load: seq<real>, slots: nat, gpus: nat) returns (ranks: Ranks)
    requires ValidDimensions(|load|, slots, gpus)
    ensures PlacedByLoad(ranks, load, slots, gpus) && ValidRanks(ranks, |load|, gpus)
  {
    var placed := DhondtPlaceOneLayer(load, slots, gpus);
    ranks := placed.value.ranks;
  }

  ghost predicate AllPlaced(p: seq<Ranks>, loads: seq<seq<real>>, experts: nat, slots: nat, gpus: nat) {
    && |p| == |loads|
    && forall l :: 0 <= l < |p| ==> PlacedByLoad(p[l], loads[l], slots, gpus) && ValidRanks(p[l], experts, gpus)
  }

  lemma OneMorePlaced(p: seq<Ranks>, ranks: Ranks, loads: seq<seq<real>>, load: seq<real>, experts: nat, slots: nat,
                      gpus: nat)
    requires AllPlaced(p, loads, experts, slots, gpus)
    requires PlacedByLoad(ranks, load, slots, gpus) && ValidRanks(ranks, experts, gpus)
    ensures AllPlaced(p + [ranks], loads + [load], experts, slots, gpus)
  {
    var p', loads' := p + [ranks], loads + [load];
    forall l | 0 <= l < |p'|
      ensures PlacedByLoad(p'[l], loads'[l], slots, gpus) && ValidRanks(p'[l], experts, gpus)
    {
      if l < |p| {
        assert p'[l] == p[l] && loads'[l] == loads[l];
      } else {
        assert p'[l] == ranks && loads'[l] == load;
      }
    }
  }

  method PlaceLayers(loads: seq<seq<real>>, ghost history: seq<seq<real>>, layers: nat, experts: nat, slots: nat,
                     gpus: nat)
    returns (p: seq<Ranks>)
    requires ValidDimensions(experts, slots, gpus) && Rebalances(|history|)
    requires |loads| == layers && forall l :: 0 <= l < layers ==> loads[l] == LoadsOf(history, experts, l)
    ensures PlacedByLoads(p, history, layers, experts, slots, gpus)
    ensures forall l :: 0 <= l < layers ==> ValidRanks(p[l], experts, gpus)
  {
    p := [];
    TakeAll(loads);
    for layer := 0 to layers
      invariant AllPlaced(p, loads[..layer], experts, slots, gpus)
    {
      var ranks := PlaceLayer(loads[layer], slots, gpus);
      OneMorePlaced(p, ranks, loads[..layer], loads[layer], experts, slots, gpus);
      TakeNext(loads, layer);
      p := p + [ranks];
    }
  }

  ghost predicate FixedOk(maps: seq<seq<int>>, experts: nat, slots: nat, gpus: nat)
    requires gpus >= 1 && slots % gpus == 0
  {
    forall l :: 0 <= l < |maps| ==> FixedLayerOk(maps[l], experts, slots, gpus)
  }

  /** Each slot's expert is placed on the slot's rank. */
  ghost predicate FixedAt(ranks: Ranks, logical: seq<int>, slots: nat, gpus: nat)
    requires gpus >= 1
  {
    |logical| == slots && (slots > 0 ==> slots / gpus >= 1 && forall s :: 0 <= s < slots ==>
      0 <= logical[s] < |ranks| && s / (slots / gpus) in ranks[logical[s]])
  }

  method FixedLayers(maps: seq<seq<int>>, experts: nat, slots: nat, gpus: nat) returns (r: Option<seq<Ranks>>)
    requires gpus >= 1 && slots % gpus == 0
    ensures r.Some? <==> FixedOk(maps, experts, slots, gpus)
    ensures r.Some? ==> |r.value| == |maps| && forall l :: 0 <= l < |maps| ==>
              ValidRanks(r.value[l], experts, gpus) && FixedAt(r.value[l], maps[l], slots, gpus)
  {
    var fixed: seq<Ranks> := [];
    for layer := 0 to |maps|
      invariant |fixed| == layer
      invariant forall l :: 0 <= l < layer ==> FixedLayerOk(maps[l], experts, slots, gpus)
      invariant forall l :: 0 <= l < layer ==>
                ValidRanks(fixed[l], experts, gpus) && FixedAt(fixed[l], maps[l], slots, gpus)
    {
      var one := FixedLayer(maps[layer], experts, slots, gpus);
      if one == None {
        return None;
      }
      fixed := fixed + [one.value];
    }
    return Some(fixed);
  }
}
