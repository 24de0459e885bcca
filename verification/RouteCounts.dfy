/**
 Expert histograms of recorded routes: the loops that turn a range of the flat route arrays of a trace prompt into
 per-layer expert counts (pkg/simulator/moe_trace_fidelity.go, moe_trace_virtual.go, moe_trace_runtime.go).
 */
module RouteCounts {
  import opened Arithmetic
  import opened Common
  import opened Sums

  /** How often expert e occurs in routes[lo..hi]. */
  function CountIn(routes: seq<nat>, lo: nat, hi: nat, e: nat): nat
    requires lo <= hi <= |routes|
    decreases hi
  {
    if lo == hi then 0 else CountIn(routes, lo, hi - 1, e) + (if routes[hi - 1] == e then 1 else 0)
  }

  lemma {:induction false} CountSplits(routes: seq<nat>, lo: nat, mid: nat, hi: nat, e: nat)
    requires lo <= mid <= hi <= |routes|
    ensures CountIn(routes, lo, hi, e) == CountIn(routes, lo, mid, e) + CountIn(routes, mid, hi, e)
    decreases hi
  {
    if mid < hi {
      CountSplits(routes, lo, mid, hi - 1, e);
    }
  }

  ghost function Places(routes: seq<nat>, lo: nat, hi: nat, e: nat): set<nat>
    requires hi <= |routes|
  {
    set i: nat | lo <= i < hi && routes[i] == e
  }

  /** The count is the number of places where the expert stands. */
  lemma {:induction false} CountIsNumber(routes: seq<nat>, lo: nat, hi: nat, e: nat)
    requires lo <= hi <= |routes|
    ensures CountIn(routes, lo, hi, e) == |Places(routes, lo, hi, e)|
    decreases hi
  {
    if lo < hi {
      CountIsNumber(routes, lo, hi - 1, e);
      var before := Places(routes, lo, hi - 1, e);
      if routes[hi - 1] == e {
        assert Places(routes, lo, hi, e) == before + {hi - 1};
      } else {
        assert Places(routes, lo, hi, e) == before;
      }
    }
  }

  /** The dimensions shared by all route arrays of a trace. */
  datatype Shape = Shape(layers: nat, experts: nat, topK: nat)

  /** First route of a (row, column) cell of a table with `columns` columns, topK routes per cell. */
  function Cell(shape: Shape, columns: nat, row: nat, column: nat): nat {
    (row * columns + column) * shape.topK
  }

  lemma CellInside(shape: Shape, rows: nat, columns: nat, row: nat, column: nat)
    requires row < rows && column <= columns
    ensures Cell(shape, columns, row, column) <= rows * columns * shape.topK
  {
    MulMonotone(row + 1, rows, columns);
    MulDistributes(row + 1, 1, columns);
    MulMonotone(row * columns + column, rows * columns, shape.topK);
  }

  lemma NextCell(shape: Shape, columns: nat, row: nat, column: nat)
    ensures Cell(shape, columns, row, column + 1) == Cell(shape, columns, row, column) + shape.topK
  {
  }

  predicate ValidRoutes(shape: Shape, cells: nat, routes: seq<nat>) {
    |routes| == cells * shape.topK && forall i :: 0 <= i < |routes| ==> routes[i] < shape.experts
  }

  /** Adds the routes lo..hi to one layer of the counts. */
  method CountRange(counts: array2<real>, layer: nat, routes: seq<nat>, lo: nat, hi: nat)
    requires layer < counts.Length0 && lo <= hi <= |routes|
    requires forall i :: lo <= i < hi ==> routes[i] < counts.Length1
    modifies counts
    ensures forall l, e :: 0 <= l < counts.Length0 && 0 <= e < counts.Length1 ==>
              counts[l, e] == old(counts[l, e]) + (if l == layer then CountIn(routes, lo, hi, e) as real else 0.0)
  {
    assert forall e: nat :: CountIn(routes, lo, lo, e) == 0;
    for i := lo to hi
      invariant forall l, e :: 0 <= l < counts.Length0 && 0 <= e < counts.Length1 ==>
                  counts[l, e] == old(counts[l, e]) + (if l == layer then CountIn(routes, lo, i, e) as real else 0.0)
    {
      var expert := routes[i];
      counts[layer, expert] := counts[layer, expert] + 1.0;
    }
  }

  /** The routes of positions start..end of a layer-major prefill table, by layer. */
  method AddPrefillRange(shape: Shape, counts: array2<real>, inputTokens: nat, routes: seq<nat>, start: int, end: int)
    requires counts.Length0 == shape.layers && counts.Length1 == shape.experts
    requires ValidRoutes(shape, shape.layers * inputTokens, routes)
    modifies counts
    ensures forall l, e :: 0 <= l < shape.layers && 0 <= e < shape.experts ==>
              counts[l, e] == old(counts[l, e]) + PrefillCount(shape, inputTokens, routes, start, end, l, e) as real
  {
    var first := if start < 0 then 0 else start;
    var last := if end > inputTokens then inputTokens else end;
    for layer := 0 to shape.layers
      invariant forall l, e :: 0 <= l < shape.layers && 0 <= e < shape.experts ==>
                  counts[l, e] == old(counts[l, e])
                                  + (if l < layer then
                                     PrefillCount(shape, inputTokens, routes, start, end, l, e) as real else 0.0)
    {
      if first <= last {
        CellInside(shape, shape.layers, inputTokens, layer, last);
        MulMonotone(layer * inputTokens + first, layer * inputTokens + last, shape.topK);
        CountRange(counts, layer, routes, Cell(shape, inputTokens, layer, first),
                   Cell(shape, inputTokens, layer, last));
      }
    }
  }

  /** The count a chunk of prefill positions contributes; positions outside the prompt are cut off. */
  function PrefillCount(shape: Shape, inputTokens: nat, routes: seq<nat>, start: int, end: int, l: nat, e: nat): nat
    requires ValidRoutes(shape, shape.layers * inputTokens, routes) && l < shape.layers
  {
    var first := if start < 0 then 0 else start;
    var last := if end > inputTokens then inputTokens else end;
    if first > last then 0
    else
      CellInside(shape, shape.layers, inputTokens, l, last);
      MulMonotone(l * inputTokens + first, l * inputTokens + last, shape.topK);
      CountIn(routes, Cell(shape, inputTokens, l, first), Cell(shape, inputTokens, l, last), e)
  }

  /** Consecutive chunks add up: cutting the positions in two changes nothing. */
  lemma ChunksAddUp(shape: Shape, inputTokens: nat, routes: seq<nat>, start: nat, mid: nat, end: nat, l: nat, e: nat)
    requires ValidRoutes(shape, shape.layers * inputTokens, routes) && l < shape.layers
    requires start <= mid <= end <= inputTokens
    ensures PrefillCount(shape, inputTokens, routes, start, end, l, e) ==
            PrefillCount(shape, inputTokens, routes, start, mid, l, e) +
                PrefillCount(shape, inputTokens, routes, mid, end, l, e)
  {
    CellInside(shape, shape.layers, inputTokens, l, end);
    MulMonotone(l * inputTokens + start, l * inputTokens + mid, shape.topK);
    MulMonotone(l * inputTokens + mid, l * inputTokens + end, shape.topK);
    CountSplits(routes, Cell(shape, inputTokens, l, start), Cell(shape, inputTokens, l, mid),
                Cell(shape, inputTokens, l, end), e);
  }

  lemma InLayer(layers: nat, experts: nat, l: nat, e: nat)
    requires l < layers && e < experts
    ensures l * experts + e < layers * experts
  {
    MulMonotone(l + 1, layers, experts);
    MulDistributes(l + 1, 1, experts);
  }

  /** The stored count of an expert in a layer. */
  function StoredAt(stored: seq<nat>, layers: nat, experts: nat, l: nat, e: nat): nat
    requires |stored| == layers * experts && l < layers && e < experts
  {
    InLayer(layers, experts, l, e);
    stored[l * experts + e]
  }

  method CopyStored(counts: array2<real>, stored: seq<nat>, layer: nat)
    requires |stored| == counts.Length0 * counts.Length1 && layer < counts.Length0
    modifies counts
    ensures forall l: nat, e: nat :: l < counts.Length0 && e < counts.Length1 ==>
              counts[l, e] == if l == layer then StoredAt(stored, counts.Length0, counts.Length1, l, e) as real
                  else old(counts[l, e])
  {
    for expert := 0 to counts.Length1
      invariant forall l: nat, e: nat :: l < counts.Length0 && e < counts.Length1 ==>
                  counts[l, e] == if l == layer && e < expert then
                      StoredAt(stored, counts.Length0, counts.Length1, l, e) as real
                                  else old(counts[l, e])
    {
      counts[layer, expert] := StoredAt(stored, counts.Length0, counts.Length1, layer, expert) as real;
    }
  }

  /** The stored counts of a prompt, layer by layer. */
  method CountsAsReals(stored: seq<nat>, layers: nat, experts: nat) returns (counts: array2<real>)
    requires |stored| == layers * experts
    ensures fresh(counts) && counts.Length0 == layers && counts.Length1 == experts
    ensures forall l: nat, e: nat :: l < layers && e < experts ==>
            counts[l, e] == StoredAt(stored, layers, experts, l, e) as real
  {
    counts := new real[layers, experts]((_, _) => 0.0);
    for layer := 0 to layers
      invariant forall l: nat, e: nat :: l < layer && e < experts ==>
                counts[l, e] == StoredAt(stored, layers, experts, l, e) as real
    {
      CopyStored(counts, stored, layer);
    }
  }

  /** The stored counts are those of the whole prompt. */
  ghost predicate CountsWhole(shape: Shape, counts: array2<real>, inputTokens: nat, routes: seq<nat>)
    requires ValidRoutes(shape, shape.layers * inputTokens, routes)
    reads counts
  {
    && counts.Length0 == shape.layers && counts.Length1 == shape.experts
    && forall l, e :: 0 <= l < shape.layers && 0 <= e < shape.experts ==>
         counts[l, e] == PrefillCount(shape, inputTokens, routes, 0, inputTokens, l, e) as real
  }

  /** The demand of the prefill positions that are not cached; None when all of them are. */
  method TracePrefillCounts(shape: Shape, whole: array2<real>, inputTokens: nat, routes: seq<nat>, cached: int)
    returns (counts: Option<array2<real>>)
    requires ValidRoutes(shape, shape.layers * inputTokens, routes) && CountsWhole(shape, whole, inputTokens, routes)
    ensures counts == None <==> cached > 0 && cached >= inputTokens
    ensures counts.Some? ==> counts.value.Length0 == shape.layers && counts.value.Length1 == shape.experts
    ensures counts.Some? ==> forall l, e :: 0 <= l < shape.layers && 0 <= e < shape.experts ==>
              counts.value[l, e] == PrefillCount(shape, inputTokens, routes, cached, inputTokens, l, e) as real
  {
    if cached <= 0 {
      return Some(whole);
    }
    if cached >= inputTokens {
      return None;
    }
    var c := new real[shape.layers, shape.experts]((_, _) => 0.0);
    AddPrefillRange(shape, c, inputTokens, routes, cached, inputTokens);
    return Some(c);
  }

  /** The count one decode position contributes; decode routes are stored position-major. */
  function DecodeCount(shape: Shape, decodeTokens: nat, routes: seq<nat>, position: nat, l: nat, e: nat): nat
    requires ValidRoutes(shape, decodeTokens * shape.layers, routes) && position < decodeTokens && l < shape.layers
  {
    CellInside(shape, decodeTokens, shape.layers, position, l + 1);
    NextCell(shape, shape.layers, position, l);
    CountIn(routes, Cell(shape, shape.layers, position, l), Cell(shape, shape.layers, position, l) + shape.topK, e)
  }

  method AddDecodePosition(shape: Shape, counts: array2<real>, decodeTokens: nat, routes: seq<nat>, position: nat)
    requires counts.Length0 == shape.layers && counts.Length1 == shape.experts
    requires ValidRoutes(shape, decodeTokens * shape.layers, routes) && position < decodeTokens
    modifies counts
    ensures forall l, e :: 0 <= l < shape.layers && 0 <= e < shape.experts ==>
              counts[l, e] == old(counts[l, e]) + DecodeCount(shape, decodeTokens, routes, position, l, e) as real
  {
    for layer := 0 to shape.layers
      invariant forall l, e :: 0 <= l < shape.layers && 0 <= e < shape.experts ==>
                  counts[l, e] == old(counts[l, e])
                                  + (if l < layer then DecodeCount(shape, decodeTokens, routes, position, l, e) as real
                                     else 0.0)
    {
      CellInside(shape, decodeTokens, shape.layers, position, layer + 1);
      NextCell(shape, shape.layers, position, layer);
      var base := Cell(shape, shape.layers, position, layer);
      CountRange(counts, layer, routes, base, base + shape.topK);
    }
  }

  // ---------------------------------------------------------------- the counts in terms of positions

  /** The k-th route of a cell. */
  function RouteAt(shape: Shape, routes: seq<nat>, cell: nat, k: nat): nat
    requires cell * shape.topK + k < |routes|
  {
    routes[cell * shape.topK + k]
  }

  /** The routes of the expert that a position recorded in a layer, out of topK. */
  ghost function Chosen(shape: Shape, routes: seq<nat>, cell: nat, e: nat): set<nat>
    requires (cell + 1) * shape.topK <= |routes|
  {
    MulDistributes(cell + 1, 1, shape.topK);
    set k: nat | k < shape.topK && RouteAt(shape, routes, cell, k) == e
  }

  lemma ShiftedSize(a: set<nat>, b: set<nat>, base: nat)
    requires forall i :: i in b <==> i >= base && i - base in a
    ensures |a| == |b|
    decreases |a|
  {
    if a == {} {
      assert b == {};
    } else {
      var k :| k in a;
      assert k + base in b;
      ShiftedSize(a - {k}, b - {k + base}, base);
    }
  }

  /**
   Decode routes are stored by position, then by layer: position p of layer l has the topK routes of cell p * layers +
   l.
   */
  lemma DecodeCountIsNumber(shape: Shape, decodeTokens: nat, routes: seq<nat>, position: nat, l: nat, e: nat)
    requires ValidRoutes(shape, decodeTokens * shape.layers, routes) && position < decodeTokens && l < shape.layers
    ensures (position * shape.layers + l + 1) * shape.topK <= |routes|
    ensures DecodeCount(shape, decodeTokens, routes, position, l, e) ==
            |Chosen(shape, routes, position * shape.layers + l, e)|
  {
    var cell := position * shape.layers + l;
    CellInside(shape, decodeTokens, shape.layers, position, l + 1);
    NextCell(shape, shape.layers, position, l);
    MulDistributes(cell + 1, 1, shape.topK);
    CountIsNumber(routes, cell * shape.topK, cell * shape.topK + shape.topK, e);
    ShiftedSize(Chosen(shape, routes, cell, e),
                Places(routes, cell * shape.topK, cell * shape.topK + shape.topK, e), cell * shape.topK);
  }

  /** Prefill routes are stored by layer, then by position: position p of layer l has those of cell l * tokens + p. */
  lemma PrefillCountIsNumber(shape: Shape, inputTokens: nat, routes: seq<nat>, position: nat, l: nat, e: nat)
    requires ValidRoutes(shape, shape.layers * inputTokens, routes) && position < inputTokens && l < shape.layers
    ensures (l * inputTokens + position + 1) * shape.topK <= |routes|
    ensures PrefillCount(shape, inputTokens, routes, position, position + 1, l, e) ==
            |Chosen(shape, routes, l * inputTokens + position, e)|
  {
    var cell := l * inputTokens + position;
    CellInside(shape, shape.layers, inputTokens, l, position + 1);
    NextCell(shape, inputTokens, l, position);
    MulDistributes(cell + 1, 1, shape.topK);
    CountIsNumber(routes, cell * shape.topK, cell * shape.topK + shape.topK, e);
    ShiftedSize(Chosen(shape, routes, cell, e),
                Places(routes, cell * shape.topK, cell * shape.topK + shape.topK, e), cell * shape.topK);
  }

  // ---------------------------------------------------------------- the counts of a layer together

  function CountsIn(routes: seq<nat>, lo: nat, hi: nat, experts: nat): (r: seq<nat>)
    requires lo <= hi <= |routes|
    ensures |r| == experts && forall e :: 0 <= e < experts ==> r[e] == CountIn(routes, lo, hi, e)
  {
    seq(experts, e requires 0 <= e < experts => CountIn(routes, lo, hi, e))
  }

  /** All experts together occur as often as there are routes. */
  lemma {:induction false} CountsAddUp(routes: seq<nat>, lo: nat, hi: nat, experts: nat)
    requires lo <= hi <= |routes| && forall i :: lo <= i < hi ==> routes[i] < experts
    ensures Sum(CountsIn(routes, lo, hi, experts)) == hi - lo
    decreases hi
  {
    var counts: seq<int> := CountsIn(routes, lo, hi, experts);
    if lo == hi {
      SumOfZeros(counts);
    } else {
      CountsAddUp(routes, lo, hi - 1, experts);
      var before: seq<int>, e := CountsIn(routes, lo, hi - 1, experts), routes[hi - 1];
      assert counts == before[e := before[e] + 1];
      SumUpdate(before, e, before[e] + 1);
    }
  }
}
