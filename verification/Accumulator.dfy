/**
 Collecting the trace records of one prompt (pkg/moetrace/accumulator.go): the routes of every position and layer, the
 token IDs, and the histogram of the prefill routes.
 */
module Accumulator {
  import opened Arithmetic
  import opened Common
  import opened Folds
  import opened RouteCounts

  datatype Phase = Prefill | Decode | Unknown

  datatype Record = Record(prompt: int, phase: Phase, position: int, tokenId: int, layer: int, experts: seq<int>,
                           gateWeights: nat)

  /** The dimensions of a prompt and the slots of the sparse layers. */
  datatype Plan = Plan(shape: Shape, input: nat, decode: nat, slots: map<int, nat>)

  /** One phase of a prompt: per position a token, per cell (a position in a layer) the experts. */
  datatype Half = Half(ids: seq<nat>, tokenSeen: seq<bool>, seen: seq<bool>, routes: seq<nat>)

  datatype Acc = Acc(prefill: Half, decode: Half, counts: seq<nat>)

  /** The slots number the layers. */
  predicate GoodPlan(p: Plan) {
    forall l :: l in p.slots ==> p.slots[l] < p.shape.layers
  }

  // ---------------------------------------------------------------- one record

  predicate ValidExperts(p: Plan, experts: seq<int>) {
    && |experts| == p.shape.topK
    && (forall i :: 0 <= i < |experts| ==> 0 <= experts[i] < p.shape.experts)
    && forall i, j :: 0 <= i < j < |experts| ==> experts[i] != experts[j]
  }

  /** The record is acceptable whatever was added before it. */
  predicate ValidRecord(p: Plan, r: Record) {
    && r.layer in p.slots && 0 <= r.tokenId <= MAX_UINT32
    && ValidExperts(p, r.experts) && (r.gateWeights == 0 || r.gateWeights == p.shape.topK)
    && match r.phase
       case Prefill => 0 <= r.position < p.input
       case Decode => 0 <= r.position - p.input < p.decode
       case Unknown => false
  }

  function Experts(p: Plan, r: Record): (e: seq<nat>)
    requires ValidRecord(p, r)
    ensures |e| == p.shape.topK && forall i :: 0 <= i < |e| ==> e[i] == r.experts[i] < p.shape.experts
  {
    seq(|r.experts|, i requires 0 <= i < |r.experts| => r.experts[i])
  }

  function PositionOf(p: Plan, r: Record): nat
    requires ValidRecord(p, r)
  {
    if r.phase == Prefill then r.position else r.position - p.input
  }

  /** Prefill cells are ordered by layer, decode cells by position. */
  function CellOf(p: Plan, r: Record): nat
    requires ValidRecord(p, r)
  {
    if r.phase == Prefill then p.slots[r.layer] * p.input + r.position
    else (r.position - p.input) * p.shape.layers + p.slots[r.layer]
  }

  function WriteCell(routes: seq<nat>, cell: nat, experts: seq<nat>): (w: seq<nat>)
    ensures |w| == |routes|
  {
    var at := cell * |experts|;
    seq(|routes|, i requires 0 <= i < |routes| => if at <= i < at + |experts| then experts[i - at] else routes[i])
  }

  predicate HalfFits(h: Half, positions: nat, cells: nat, topK: nat) {
    |h.ids| == |h.tokenSeen| == positions && |h.seen| == cells && |h.routes| == cells * topK
  }

  function AddToHalf(h: Half, cell: nat, position: nat, token: nat, experts: seq<nat>): Option<Half>
    requires cell < |h.seen| && position < |h.ids| == |h.tokenSeen|
  {
    if h.seen[cell] || (h.tokenSeen[position] && h.ids[position] != token) then None
    else
      Some(Half(h.ids[position := token], h.tokenSeen[position := true], h.seen[cell := true],
                WriteCell(h.routes, cell, experts)))
  }

  function Occurrences(experts: seq<nat>, e: nat): nat {
    CountIn(experts, 0, |experts|, e)
  }

  function BumpAt(counts: seq<nat>, base: nat, experts: seq<nat>, i: nat): nat
    requires i < |counts|
  {
    if base <= i then counts[i] + Occurrences(experts, i - base) else counts[i]
  }

  /** Counts the experts of a record in the row that begins at `base`. */
  function Bump(counts: seq<nat>, base: nat, experts: seq<nat>): (c: seq<nat>)
    ensures |c| == |counts| && forall i :: 0 <= i < |c| ==> c[i] == BumpAt(counts, base, experts, i)
  {
    seq(|counts|, i requires 0 <= i < |counts| => BumpAt(counts, base, experts, i))
  }

  predicate Overflows(counts: seq<nat>, base: nat, experts: seq<nat>) {
    exists i :: 0 <= i < |experts| && base + experts[i] < |counts| && counts[base + experts[i]] == MAX_UINT32
  }

  predicate Fits(p: Plan, a: Acc) {
    && HalfFits(a.prefill, p.input, p.shape.layers * p.input, p.shape.topK)
    && HalfFits(a.decode, p.decode, p.decode * p.shape.layers, p.shape.topK)
    && |a.counts| == p.shape.layers * p.shape.experts
  }

  lemma CellIsInside(p: Plan, r: Record)
    requires GoodPlan(p) && ValidRecord(p, r)
    ensures CellOf(p, r) < if r.phase == Prefill then p.shape.layers * p.input else p.decode * p.shape.layers
    ensures PositionOf(p, r) < if r.phase == Prefill then p.input else p.decode
  {
    if r.phase == Prefill {
      CellInTable(p.shape.layers, p.input, p.slots[r.layer], r.position);
    } else {
      CellInTable(p.decode, p.shape.layers, r.position - p.input, p.slots[r.layer]);
    }
  }

  lemma CellInTable(rows: nat, columns: nat, row: nat, column: nat)
    requires row < rows && column < columns
    ensures row * columns + column < rows * columns
  {
    MulMonotone(row + 1, rows, columns);
    MulDistributes(row + 1, 1, columns);
  }

  /** Adds a record without looking for overflow of the counts. */
  function AddFreely(p: Plan, a: Acc, r: Record): (a': Option<Acc>)
    requires GoodPlan(p) && Fits(p, a)
    ensures a'.Some? ==> Fits(p, a'.value)
  {
    if !ValidRecord(p, r) then None
    else
      CellIsInside(p, r);
      var half := if r.phase == Prefill then a.prefill else a.decode;
      var half' := AddToHalf(half, CellOf(p, r), PositionOf(p, r), r.tokenId, Experts(p, r));
      if half' == None then None
      else if r.phase == Decode then Some(a.(decode := half'.value))
      else Some(a.(prefill := half'.value, counts := Bump(a.counts, p.slots[r.layer] * p.shape.experts, Experts(p, r))))
  }

  /** Adds a record: None for every error. */
  function Add(p: Plan, a: Acc, r: Record): (a': Option<Acc>)
    requires GoodPlan(p) && Fits(p, a)
    ensures a'.Some? ==> Fits(p, a'.value)
  {
    if ValidRecord(p, r) && r.phase == Prefill &&
        Overflows(a.counts, p.slots[r.layer] * p.shape.experts, Experts(p, r)) then None
    else AddFreely(p, a, r)
  }

  function AddAll(p: Plan, a: Acc, records: seq<Record>): (a': Option<Acc>)
    requires GoodPlan(p) && Fits(p, a)
    ensures a'.Some? ==> Fits(p, a'.value)
  {
    if records == [] then Some(a)
    else
      var b := AddAll(p, a, records[..|records| - 1]);
      if b == None then None else Add(p, b.value, records[|records| - 1])
  }

  function EmptyHalf(positions: nat, cells: nat, topK: nat): Half {
    Half(seq(positions, _ => 0), seq(positions, _ => false), seq(cells, _ => false), seq(cells * topK, _ => 0))
  }

  function Start(p: Plan): (a: Acc)
    ensures Fits(p, a)
  {
    Acc(EmptyHalf(p.input, p.shape.layers * p.input, p.shape.topK),
        EmptyHalf(p.decode, p.decode * p.shape.layers, p.shape.topK), seq(p.shape.layers * p.shape.experts, _ => 0))
  }

  predicate AllTrue(s: seq<bool>) {
    forall i :: 0 <= i < |s| ==> s[i]
  }

  predicate Complete(a: Acc) {
    AllTrue(a.prefill.tokenSeen) && AllTrue(a.decode.tokenSeen) && AllTrue(a.prefill.seen) && AllTrue(a.decode.seen)
  }

  // ---------------------------------------------------------------- the histogram

  lemma CellEnds(cells: nat, c: nat, k: nat)
    requires c < cells
    ensures c * k + k <= cells * k
  {
    MulMonotone(c + 1, cells, k);
    MulDistributes(c + 1, 1, k);
  }

  /** How often an expert occurs in one cell. */
  function CellCount(routes: seq<nat>, cells: nat, k: nat, c: nat, e: nat): nat
    requires |routes| == cells * k && c < cells
  {
    CellEnds(cells, c, k);
    CountIn(routes, c * k, c * k + k, e)
  }

  /** How often an expert occurs in the seen cells c0 .. c0 + n. */
  function RowCount(seen: seq<bool>, routes: seq<nat>, k: nat, c0: nat, n: nat, e: nat): nat
    requires c0 + n <= |seen| && |routes| == |seen| * k
  {
    if n == 0 then 0
    else RowCount(seen, routes, k, c0, n - 1, e) + if seen[c0 + n - 1] then CellCount(routes, |seen|, k, c0 + n - 1, e)
        else 0
  }

  lemma {:induction false} SameCounts(a: seq<nat>, b: seq<nat>, lo: nat, hi: nat, shift: nat, e: nat)
    requires shift <= lo <= hi <= |a| && hi - shift <= |b| && forall i :: lo <= i < hi ==> a[i] == b[i - shift]
    ensures CountIn(a, lo, hi, e) == CountIn(b, lo - shift, hi - shift, e)
    decreases hi
  {
    if lo < hi {
      SameCounts(a, b, lo, hi - 1, shift, e);
    }
  }

  /** Different cells do not overlap. */
  lemma CellsApart(c: nat, d: nat, k: nat, i: nat)
    requires c != d && i < k
    ensures !(d * k <= c * k + i < d * k + k)
  {
    if c < d {
      MulMonotone(c + 1, d, k);
      MulDistributes(c + 1, 1, k);
    } else {
      MulMonotone(d + 1, c, k);
      MulDistributes(d + 1, 1, k);
    }
  }

  /** Writing experts at `base` and counting the range of the same length at `at`. */
  lemma WrittenRangeCount(routes: seq<nat>, w: seq<nat>, base: nat, experts: seq<nat>, at: nat, e: nat)
    requires |w| == |routes| && base + |experts| <= |w| && at + |experts| <= |w|
    requires forall i :: 0 <= i < |w| ==> w[i] == if base <= i < base + |experts| then experts[i - base] else routes[i]
    requires at == base || at + |experts| <= base || base + |experts| <= at
    ensures CountIn(w, at, at + |experts|, e) ==
            if at == base then Occurrences(experts, e) else CountIn(routes, at, at + |experts|, e)
  {
    if at == base {
      SameCounts(w, experts, at, at + |experts|, at, e);
    } else {
      SameCounts(w, routes, at, at + |experts|, 0, e);
    }
  }

  lemma RangesApart(c: nat, d: nat, k: nat)
    requires c != d
    ensures c * k + k <= d * k || d * k + k <= c * k
  {
    if c < d {
      CellEnds(d, c, k);
    } else {
      CellEnds(c, d, k);
    }
  }

  lemma WrittenCellCount(routes: seq<nat>, cells: nat, cell: nat, experts: seq<nat>, c: nat, e: nat)
    requires |routes| == cells * |experts| && cell < cells && c < cells
    ensures CellCount(WriteCell(routes, cell, experts), cells, |experts|, c, e) ==
            if c == cell then Occurrences(experts, e) else CellCount(routes, cells, |experts|, c, e)
  {
    CellEnds(cells, c, |experts|);
    CellEnds(cells, cell, |experts|);
    if c != cell {
      RangesApart(c, cell, |experts|);
    }
    WrittenRangeCount(routes, WriteCell(routes, cell, experts), cell * |experts|, experts, c * |experts|, e);
  }

  /** Entering an unseen cell adds its experts to the count of its row. */
  lemma {:induction false} RowCountGrows(seen: seq<bool>, routes: seq<nat>, cell: nat, experts: seq<nat>, c0: nat,
                                         n: nat, e: nat)
    requires cell < |seen| && !seen[cell] && c0 + n <= |seen| && |routes| == |seen| * |experts|
    ensures RowCount(seen[cell := true], WriteCell(routes, cell, experts), |experts|, c0, n, e) ==
            RowCount(seen, routes, |experts|, c0, n, e) + if c0 <= cell < c0 + n then Occurrences(experts, e) else 0
  {
    if n > 0 {
      RowCountGrows(seen, routes, cell, experts, c0, n - 1, e);
      WrittenCellCount(routes, |seen|, cell, experts, c0 + n - 1, e);
    }
  }

  function SeenIn(seen: seq<bool>, c0: nat, n: nat): nat
    requires c0 + n <= |seen|
  {
    if n == 0 then 0 else SeenIn(seen, c0, n - 1) + if seen[c0 + n - 1] then 1 else 0
  }

  /** No cell holds an expert twice. */
  ghost predicate NoRepeats(seen: seq<bool>, routes: seq<nat>, k: nat)
    requires |routes| == |seen| * k
  {
    forall c: nat, e: nat :: c < |seen| && seen[c] ==> CellCount(routes, |seen|, k, c, e) <= 1
  }

  lemma {:induction false} RowCountBound(seen: seq<bool>, routes: seq<nat>, k: nat, c0: nat, n: nat, e: nat)
    requires c0 + n <= |seen| && |routes| == |seen| * k && NoRepeats(seen, routes, k)
    ensures RowCount(seen, routes, k, c0, n, e) <= SeenIn(seen, c0, n)
  {
    if n > 0 {
      RowCountBound(seen, routes, k, c0, n - 1, e);
    }
  }

  lemma {:induction false} UnseenMeansRoom(seen: seq<bool>, c0: nat, n: nat, cell: nat)
    requires c0 + n <= |seen|
    ensures SeenIn(seen, c0, n) <= n
    ensures c0 <= cell < c0 + n && !seen[cell] ==> SeenIn(seen, c0, n) < n
  {
    if n > 0 {
      UnseenMeansRoom(seen, c0, n - 1, cell);
    }
  }

  lemma {:induction false} DistinctOccurs(experts: seq<nat>, n: nat, e: nat)
    requires n <= |experts| && forall i, j :: 0 <= i < j < |experts| ==> experts[i] != experts[j]
    ensures CountIn(experts, 0, n, e) == if e in experts[..n] then 1 else 0
  {
    if n > 0 {
      DistinctOccurs(experts, n - 1, e);
      TakeNext(experts, n - 1);
    }
  }

  // ---------------------------------------------------------------- the invariant

  /** The stored count of an expert in a layer. */
  function CountAt(p: Plan, a: Acc, l: nat, e: nat): nat
    requires Fits(p, a) && l < p.shape.layers && e < p.shape.experts
  {
    CellInTable(p.shape.layers, p.shape.experts, l, e);
    a.counts[l * p.shape.experts + e]
  }

  /** How often an expert occurs in the routes seen so far in a layer. */
  function SeenCount(p: Plan, a: Acc, l: nat, e: nat): nat
    requires Fits(p, a) && l < p.shape.layers
  {
    CellEnds(p.shape.layers, l, p.input);
    RowCount(a.prefill.seen, a.prefill.routes, p.shape.topK, l * p.input, p.input, e)
  }

  ghost predicate Inv(p: Plan, a: Acc) {
    && Fits(p, a)
    && NoRepeats(a.prefill.seen, a.prefill.routes, p.shape.topK)
    && (forall l: nat, e: nat :: l < p.shape.layers && e < p.shape.experts ==>
        CountAt(p, a, l, e) == SeenCount(p, a, l, e))
  }

  lemma {:induction false} NoOccurrence(experts: seq<nat>, n: nat, bound: nat, e: nat)
    requires n <= |experts| && e >= bound && forall i :: 0 <= i < |experts| ==> experts[i] < bound
    ensures CountIn(experts, 0, n, e) == 0
  {
    if n > 0 {
      NoOccurrence(experts, n - 1, bound, e);
    }
  }

  /** Counting a record in one row leaves the other rows alone. */
  lemma BumpedRow(counts: seq<nat>, rows: nat, columns: nat, row: nat, experts: seq<nat>, l: nat, e: nat)
    requires |counts| == rows * columns && row < rows && l < rows && e < columns
    requires forall i :: 0 <= i < |experts| ==> experts[i] < columns
    ensures l * columns + e < |counts|
    ensures Bump(counts, row * columns, experts)[l * columns + e] ==
            counts[l * columns + e] + if l == row then Occurrences(experts, e) else 0
  {
    CellInTable(rows, columns, l, e);
    var i, base := l * columns + e, row * columns;
    if l > row {
      MulMonotone(row + 1, l, columns);
      MulDistributes(row + 1, 1, columns);
      NoOccurrence(experts, |experts|, columns, i - base);
    } else if l < row {
      MulMonotone(l + 1, row, columns);
      MulDistributes(l + 1, 1, columns);
    }
  }

  /** A cell belongs to the row of its own layer only. */
  lemma CellRow(rows: nat, columns: nat, row: nat, column: nat, l: nat)
    requires row < rows && column < columns && l < rows
    ensures l * columns <= row * columns + column < l * columns + columns <==> l == row
  {
    if l != row {
      CellsApart(row, l, columns, column);
    }
  }

  lemma AddKeepsNoRepeats(seen: seq<bool>, routes: seq<nat>, cell: nat, experts: seq<nat>)
    requires cell < |seen| && |routes| == |seen| * |experts| && NoRepeats(seen, routes, |experts|)
    requires forall i, j :: 0 <= i < j < |experts| ==> experts[i] != experts[j]
    ensures NoRepeats(seen[cell := true], WriteCell(routes, cell, experts), |experts|)
  {
    var seen', routes' := seen[cell := true], WriteCell(routes, cell, experts);
    forall c: nat, e: nat | c < |seen'| && seen'[c] ensures CellCount(routes', |seen'|, |experts|, c, e) <= 1 {
      WrittenCellCount(routes, |seen|, cell, experts, c, e);
      DistinctOccurs(experts, |experts|, e);
    }
  }

  /** Entering a cell in row `slot` and counting its experts there keeps the count of row l right. */
  lemma RowStaysCounted(seen: seq<bool>, routes: seq<nat>, counts: seq<nat>, rows: nat, columns: nat, experts: nat,
                        slot: nat, column: nat, entered: seq<nat>, l: nat, e: nat)
    requires |seen| == rows * columns && |routes| == |seen| * |entered| && |counts| == rows * experts
    requires slot < rows && column < columns && l < rows && e < experts
    requires forall i :: 0 <= i < |entered| ==> entered[i] < experts
    requires slot * columns + column < |seen| && !seen[slot * columns + column]
    requires l * columns + columns <= |seen| && l * experts + e < |counts|
    requires counts[l * experts + e] == RowCount(seen, routes, |entered|, l * columns, columns, e)
    ensures Bump(counts, slot * experts, entered)[l * experts + e] ==
            RowCount(seen[slot * columns + column := true], WriteCell(routes, slot * columns + column, entered),
                     |entered|, l * columns, columns, e)
  {
    RowCountGrows(seen, routes, slot * columns + column, entered, l * columns, columns, e);
    CellRow(rows, columns, slot, column, l);
    BumpedRow(counts, rows, experts, slot, entered, l, e);
  }

  lemma AddKeepsCount(p: Plan, a: Acc, r: Record, l: nat, e: nat)
    requires GoodPlan(p) && Fits(p, a) && ValidRecord(p, r) && r.phase == Prefill && l < p.shape.layers &&
             e < p.shape.experts
    requires CountAt(p, a, l, e) == SeenCount(p, a, l, e) && AddFreely(p, a, r).Some?
    ensures CountAt(p, AddFreely(p, a, r).value, l, e) == SeenCount(p, AddFreely(p, a, r).value, l, e)
  {
    CellIsInside(p, r);
    CellEnds(p.shape.layers, l, p.input);
    CellInTable(p.shape.layers, p.shape.experts, l, e);
    RowStaysCounted(a.prefill.seen, a.prefill.routes, a.counts, p.shape.layers, p.input, p.shape.experts,
                    p.slots[r.layer], r.position, Experts(p, r), l, e);
  }

  lemma AddKeepsInv(p: Plan, a: Acc, r: Record)
    requires GoodPlan(p) && Inv(p, a) && AddFreely(p, a, r).Some?
    ensures Inv(p, AddFreely(p, a, r).value)
  {
    var a' := AddFreely(p, a, r).value;
    CellIsInside(p, r);
    if r.phase == Prefill {
      AddKeepsNoRepeats(a.prefill.seen, a.prefill.routes, CellOf(p, r), Experts(p, r));
      forall l: nat, e: nat | l < p.shape.layers && e < p.shape.experts
        ensures CountAt(p, a', l, e) == SeenCount(p, a', l, e)
      {
        AddKeepsCount(p, a, r, l, e);
      }
    } else {
      forall l: nat, e: nat | l < p.shape.layers && e < p.shape.experts
        ensures CountAt(p, a', l, e) == SeenCount(p, a', l, e)
      {
        assert CountAt(p, a, l, e) == SeenCount(p, a, l, e);
      }
    }
  }

  /** There is room for one more in the count of an expert whose cell is not seen yet. */
  lemma RoomToCount(p: Plan, a: Acc, slot: nat, position: nat, e: nat)
    requires Inv(p, a) && slot < p.shape.layers && position < p.input && e < p.shape.experts
    requires slot * p.input + position < |a.prefill.seen| && !a.prefill.seen[slot * p.input + position]
    ensures CountAt(p, a, slot, e) < p.input
  {
    CellEnds(p.shape.layers, slot, p.input);
    UnseenMeansRoom(a.prefill.seen, slot * p.input, p.input, slot * p.input + position);
    assert CountAt(p, a, slot, e) == SeenCount(p, a, slot, e);
    RowCountBound(a.prefill.seen, a.prefill.routes, p.shape.topK, slot * p.input, p.input, e);
  }

  lemma NoOverflow(p: Plan, a: Acc, slot: nat, position: nat, experts: seq<nat>)
    requires Inv(p, a) && slot < p.shape.layers && position < p.input <= MAX_UINT32
    requires slot * p.input + position < |a.prefill.seen| && !a.prefill.seen[slot * p.input + position]
    requires forall i :: 0 <= i < |experts| ==> experts[i] < p.shape.experts
    ensures !Overflows(a.counts, slot * p.shape.experts, experts)
  {
    var base := slot * p.shape.experts;
    forall i | 0 <= i < |experts| ensures base + experts[i] < |a.counts| && a.counts[base + experts[i]] < MAX_UINT32 {
      CellInTable(p.shape.layers, p.shape.experts, slot, experts[i]);
      RoomToCount(p, a, slot, position, experts[i]);
    }
  }

  /** The overflow branch of the counts is never taken. */
  lemma CountsNeverOverflow(p: Plan, a: Acc, r: Record)
    requires GoodPlan(p) && Inv(p, a) && p.input <= MAX_UINT32
    ensures Add(p, a, r) == AddFreely(p, a, r)
  {
    if ValidRecord(p, r) && r.phase == Prefill && AddFreely(p, a, r).Some? {
      CellIsInside(p, r);
      NoOverflow(p, a, p.slots[r.layer], r.position, Experts(p, r));
    }
  }

  // ---------------------------------------------------------------- the order of the records does not matter

  lemma WritesCommute(routes: seq<nat>, c: nat, d: nat, x: seq<nat>, y: seq<nat>)
    requires c != d && |x| == |y|
    ensures WriteCell(WriteCell(routes, c, x), d, y) == WriteCell(WriteCell(routes, d, y), c, x)
  {
    var k := |x|;
    var u, v := WriteCell(WriteCell(routes, c, x), d, y), WriteCell(WriteCell(routes, d, y), c, x);
    forall i | 0 <= i < |routes| ensures u[i] == v[i] {
      if c * k <= i < c * k + k {
        CellsApart(c, d, k, i - c * k);
      }
    }
  }

  lemma BumpsCommute(counts: seq<nat>, b: nat, c: nat, x: seq<nat>, y: seq<nat>)
    ensures Bump(Bump(counts, b, x), c, y) == Bump(Bump(counts, c, y), b, x)
  {
  }

  /** An update of one phase. */
  datatype Update = Update(cell: nat, position: nat, token: nat, experts: seq<nat>)

  predicate CanUpdate(h: Half, u: Update) {
    u.cell < |h.seen| && u.position < |h.ids| == |h.tokenSeen|
  }

  function Updated(h: Half, u: Update): (r: Option<Half>)
    requires CanUpdate(h, u)
    ensures r.Some? ==> |r.value.seen| == |h.seen| && |r.value.ids| == |r.value.tokenSeen| == |h.ids|
  {
    AddToHalf(h, u.cell, u.position, u.token, u.experts)
  }

  function Twice(h: Half, u: Update, v: Update): Option<Half>
    requires CanUpdate(h, u) && CanUpdate(h, v)
  {
    var r := Updated(h, u);
    if r == None then None else Updated(r.value, v)
  }

  lemma UpdatesCommute(h: Half, u: Update, v: Update)
    requires CanUpdate(h, u) && CanUpdate(h, v) && |u.experts| == |v.experts|
    ensures Twice(h, u, v) == Twice(h, v, u)
  {
    if u.cell != v.cell {
      WritesCommute(h.routes, u.cell, v.cell, u.experts, v.experts);
      if u.position == v.position && u.token == v.token {
        assert h.ids[u.position := u.token][v.position := v.token] ==
               h.ids[v.position := v.token][u.position := u.token];
      }
      if Twice(h, u, v).Some? && Twice(h, v, u).Some? {
        var x, y := Twice(h, u, v).value, Twice(h, v, u).value;
        assert x.ids == y.ids && x.tokenSeen == y.tokenSeen && x.seen == y.seen && x.routes == y.routes;
      }
    }
  }

  function UpdateOf(p: Plan, r: Record): Update
    requires ValidRecord(p, r)
  {
    Update(CellOf(p, r), PositionOf(p, r), r.tokenId, Experts(p, r))
  }

  function HalfOf(a: Acc, phase: Phase): Half {
    if phase == Prefill then a.prefill else a.decode
  }

  lemma CanAdd(p: Plan, a: Acc, r: Record)
    requires GoodPlan(p) && Fits(p, a) && ValidRecord(p, r)
    ensures CanUpdate(HalfOf(a, r.phase), UpdateOf(p, r))
    ensures AddFreely(p, a, r).Some? <==> Updated(HalfOf(a, r.phase), UpdateOf(p, r)).Some?
    ensures AddFreely(p, a, r).Some? ==>
            HalfOf(AddFreely(p, a, r).value, r.phase) == Updated(HalfOf(a, r.phase), UpdateOf(p, r)).value
    ensures AddFreely(p, a, r).Some? && r.phase == Prefill ==>
              AddFreely(p, a, r).value.decode == a.decode &&
              AddFreely(p, a, r).value.counts == Bump(a.counts, p.slots[r.layer] * p.shape.experts, Experts(p, r))
    ensures AddFreely(p, a, r).Some? && r.phase == Decode ==>
              AddFreely(p, a, r).value.prefill == a.prefill && AddFreely(p, a, r).value.counts == a.counts
  {
    CellIsInside(p, r);
  }

  function AddTwice(p: Plan, a: Acc, r: Record, s: Record): Option<Acc>
    requires GoodPlan(p) && Fits(p, a)
  {
    var b := AddFreely(p, a, r);
    if b == None then None else AddFreely(p, b.value, s)
  }

  /** Two records lead to the same state, or to an error, in either order. */
  lemma AddsCommute(p: Plan, a: Acc, r: Record, s: Record)
    requires GoodPlan(p) && Fits(p, a)
    ensures AddTwice(p, a, r, s) == AddTwice(p, a, s, r)
  {
    if ValidRecord(p, r) && ValidRecord(p, s) {
      CanAdd(p, a, r);
      CanAdd(p, a, s);
      if r.phase == s.phase {
        UpdatesCommute(HalfOf(a, r.phase), UpdateOf(p, r), UpdateOf(p, s));
      }
      if r.phase == Prefill && s.phase == Prefill {
        BumpsCommute(a.counts, p.slots[r.layer] * p.shape.experts, p.slots[s.layer] * p.shape.experts, Experts(p, r),
                     Experts(p, s));
      }
      AddTwiceParts(p, a, r, s);
      AddTwiceParts(p, a, s, r);
    }
  }

  /** The state after two records, part by part. */
  lemma AddTwiceParts(p: Plan, a: Acc, r: Record, s: Record)
    requires GoodPlan(p) && Fits(p, a) && ValidRecord(p, r) && ValidRecord(p, s)
    ensures CanUpdate(HalfOf(a, r.phase), UpdateOf(p, r)) && CanUpdate(HalfOf(a, s.phase), UpdateOf(p, s))
    ensures r.phase == s.phase ==>
              && (AddTwice(p, a, r, s).Some? <==> Twice(HalfOf(a, r.phase), UpdateOf(p, r), UpdateOf(p, s)).Some?)
              && (AddTwice(p, a, r, s).Some? ==>
                    HalfOf(AddTwice(p, a, r, s).value, r.phase) ==
                        Twice(HalfOf(a, r.phase), UpdateOf(p, r), UpdateOf(p, s)).value)
              && (AddTwice(p, a, r, s).Some? && r.phase == Prefill ==> AddTwice(p, a, r, s).value.decode == a.decode)
              && (AddTwice(p, a, r, s).Some? && r.phase == Decode ==> AddTwice(p, a, r, s).value.prefill == a.prefill)
  {
    CanAdd(p, a, r);
    CanAdd(p, a, s);
    if AddFreely(p, a, r).Some? {
      CanAdd(p, AddFreely(p, a, r).value, s);
    }
  }

  /** Adding as a total step over states and errors. */
  function Steps(p: Plan): (Option<Acc>, Record) -> Option<Acc>
    requires GoodPlan(p)
  {
    (o: Option<Acc>, r: Record) => if o.Some? && Fits(p, o.value) then AddFreely(p, o.value, r) else None
  }

  lemma StepsCommute(p: Plan)
    requires GoodPlan(p)
    ensures Commutes(Steps(p))
  {
    var step := Steps(p);
    forall o: Option<Acc>, r: Record, s: Record ensures step(step(o, r), s) == step(step(o, s), r) {
      if o.Some? && Fits(p, o.value) {
        AddsCommute(p, o.value, r, s);
      }
    }
  }

  lemma {:induction false} StartRowIsEmpty(p: Plan, c0: nat, n: nat, e: nat)
    requires c0 + n <= p.shape.layers * p.input
    ensures RowCount(Start(p).prefill.seen, Start(p).prefill.routes, p.shape.topK, c0, n, e) == 0
  {
    if n > 0 {
      StartRowIsEmpty(p, c0, n - 1, e);
    }
  }

  lemma StartCount(p: Plan, l: nat, e: nat)
    requires l < p.shape.layers && e < p.shape.experts
    ensures CountAt(p, Start(p), l, e) == 0 == SeenCount(p, Start(p), l, e)
  {
    CellInTable(p.shape.layers, p.shape.experts, l, e);
    CellEnds(p.shape.layers, l, p.input);
    StartRowIsEmpty(p, l * p.input, p.input, e);
  }

  lemma StartInv(p: Plan)
    ensures Inv(p, Start(p))
  {
    var a := Start(p);
    forall l: nat, e: nat | l < p.shape.layers && e < p.shape.experts
      ensures CountAt(p, a, l, e) == SeenCount(p, a, l, e)
    {
      StartCount(p, l, e);
    }
  }

  /** Adding records keeps the invariant and is a fold of the free steps. */
  lemma {:induction false} AddAllIsFold(p: Plan, records: seq<Record>)
    requires GoodPlan(p) && p.input <= MAX_UINT32
    ensures AddAll(p, Start(p), records) == Fold(Steps(p), Some(Start(p)), records)
    ensures AddAll(p, Start(p), records).Some? ==> Inv(p, AddAll(p, Start(p), records).value)
  {
    StartInv(p);
    if records != [] {
      var n := |records| - 1;
      AddAllIsFold(p, records[..n]);
      var b := AddAll(p, Start(p), records[..n]);
      if b.Some? {
        CountsNeverOverflow(p, b.value, records[n]);
        if AddFreely(p, b.value, records[n]).Some? {
          AddKeepsInv(p, b.value, records[n]);
        }
      }
    }
  }

  /** The same records in any order give the same accumulator, or an error in every order. */
  lemma OrderDoesNotMatter(p: Plan, a: seq<Record>, b: seq<Record>)
    requires GoodPlan(p) && p.input <= MAX_UINT32 && multiset(a) == multiset(b)
    ensures AddAll(p, Start(p), a) == AddAll(p, Start(p), b)
  {
    AddAllIsFold(p, a);
    AddAllIsFold(p, b);
    StepsCommute(p);
    FoldOfPermutation(Steps(p), Some(Start(p)), a, b);
  }

  // ---------------------------------------------------------------- complete accumulators

  lemma {:induction false} SeenGrows(seen: seq<bool>, cell: nat, n: nat)
    requires cell < |seen| && !seen[cell] && n <= |seen|
    ensures SeenIn(seen[cell := true], 0, n) == SeenIn(seen, 0, n) + if cell < n then 1 else 0
  {
    if n > 0 {
      SeenGrows(seen, cell, n - 1);
    }
  }

  lemma {:induction false} SeenAll(seen: seq<bool>, n: nat)
    requires n <= |seen|
    ensures SeenIn(seen, 0, n) <= n
    ensures SeenIn(seen, 0, n) == n <==> forall i :: 0 <= i < n ==> seen[i]
  {
    if n > 0 {
      SeenAll(seen, n - 1);
    }
  }

  function Seen(a: Acc): nat {
    SeenIn(a.prefill.seen, 0, |a.prefill.seen|) + SeenIn(a.decode.seen, 0, |a.decode.seen|)
  }

  lemma AddIsSeen(p: Plan, a: Acc, r: Record)
    requires GoodPlan(p) && Fits(p, a) && AddFreely(p, a, r).Some?
    ensures Seen(AddFreely(p, a, r).value) == Seen(a) + 1
  {
    CanAdd(p, a, r);
    var h := HalfOf(a, r.phase);
    SeenGrows(h.seen, CellOf(p, r), |h.seen|);
  }

  lemma {:induction false} NothingSeen(seen: seq<bool>, n: nat)
    requires n <= |seen| && forall i :: 0 <= i < |seen| ==> !seen[i]
    ensures SeenIn(seen, 0, n) == 0
  {
    if n > 0 {
      NothingSeen(seen, n - 1);
    }
  }

  /** Every record that was added is seen in a cell of its own. */
  lemma {:induction false} RecordsAreSeen(p: Plan, records: seq<Record>)
    requires GoodPlan(p) && p.input <= MAX_UINT32 && AddAll(p, Start(p), records).Some?
    ensures Seen(AddAll(p, Start(p), records).value) == |records|
  {
    if records == [] {
      NothingSeen(Start(p).prefill.seen, |Start(p).prefill.seen|);
      NothingSeen(Start(p).decode.seen, |Start(p).decode.seen|);
    } else {
      var n := |records| - 1;
      RecordsAreSeen(p, records[..n]);
      AddAllIsFold(p, records[..n]);
      CountsNeverOverflow(p, AddAll(p, Start(p), records[..n]).value, records[n]);
      AddIsSeen(p, AddAll(p, Start(p), records[..n]).value, records[n]);
    }
  }

  function ExpectedRecords(p: Plan): nat {
    (p.input + p.decode) * p.shape.layers
  }

  lemma ExpectedSplits(p: Plan)
    ensures ExpectedRecords(p) == p.shape.layers * p.input + p.decode * p.shape.layers
  {
  }

  lemma AllSeenIff(a: Acc)
    ensures AllTrue(a.prefill.seen) && AllTrue(a.decode.seen) <==> Seen(a) == |a.prefill.seen| + |a.decode.seen|
  {
    SeenAll(a.prefill.seen, |a.prefill.seen|);
    SeenAll(a.decode.seen, |a.decode.seen|);
  }

  /** All cells are seen exactly when as many records were added as expected. */
  lemma AllCellsSeenIff(p: Plan, records: seq<Record>)
    requires GoodPlan(p) && p.input <= MAX_UINT32 && AddAll(p, Start(p), records).Some?
    ensures var a := AddAll(p, Start(p), records).value;
            AllTrue(a.prefill.seen) && AllTrue(a.decode.seen) <==> |records| == ExpectedRecords(p)
  {
    RecordsAreSeen(p, records);
    AllSeenIff(AddAll(p, Start(p), records).value);
    ExpectedSplits(p);
  }
}
