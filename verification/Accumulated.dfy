/** What an accumulator holds once all records of its prompt were added. */
module Accumulated {
  import opened Accumulator
  import opened Arithmetic
  import opened Common
  import opened RouteCounts

  // ---------------------------------------------------------------- every record is kept

  /** One phase holds an update: its cell, its token and its experts. */
  predicate Holds(h: Half, u: Update)
    requires CanUpdate(h, u)
  {
    && h.seen[u.cell] && h.tokenSeen[u.position] && h.ids[u.position] == u.token
    && u.cell * |u.experts| + |u.experts| <= |h.routes|
    && h.routes[u.cell * |u.experts|..u.cell * |u.experts| + |u.experts|] == u.experts
  }

  lemma UpdateIsHeld(h: Half, u: Update)
    requires CanUpdate(h, u) && |h.routes| == |h.seen| * |u.experts| && Updated(h, u).Some?
    ensures Holds(Updated(h, u).value, u)
  {
    CellEnds(|h.seen|, u.cell, |u.experts|);
  }

  lemma UpdateKeepsHeld(h: Half, u: Update, v: Update)
    requires CanUpdate(h, u) && CanUpdate(h, v) && |u.experts| == |v.experts| && Holds(h, u) && Updated(h, v).Some?
    ensures Holds(Updated(h, v).value, u)
  {
    var k := |u.experts|;
    var at := u.cell * k;
    var w := WriteCell(h.routes, v.cell, v.experts);
    forall i | at <= i < at + k ensures w[i] == h.routes[i] {
      CellsApart(u.cell, v.cell, k, i - at);
    }
    assert w[at..at + k] == h.routes[at..at + k];
  }

  ghost predicate HoldsRecord(p: Plan, a: Acc, r: Record) {
    GoodPlan(p) && Fits(p, a) && ValidRecord(p, r) && CanUpdate(HalfOf(a, r.phase), UpdateOf(p, r)) &&
    Holds(HalfOf(a, r.phase), UpdateOf(p, r))
  }

  lemma AddHolds(p: Plan, a: Acc, r: Record)
    requires GoodPlan(p) && Fits(p, a) && AddFreely(p, a, r).Some?
    ensures HoldsRecord(p, AddFreely(p, a, r).value, r)
  {
    CanAdd(p, a, r);
    UpdateIsHeld(HalfOf(a, r.phase), UpdateOf(p, r));
  }

  lemma AddKeepsHeld(p: Plan, a: Acc, r: Record, s: Record)
    requires GoodPlan(p) && Fits(p, a) && HoldsRecord(p, a, r) && AddFreely(p, a, s).Some?
    ensures HoldsRecord(p, AddFreely(p, a, s).value, r)
  {
    CanAdd(p, a, s);
    if r.phase == s.phase {
      UpdateKeepsHeld(HalfOf(a, r.phase), UpdateOf(p, r), UpdateOf(p, s));
    }
  }

  /** The last record of a successful run was added, without overflow, to what the records before it gave. */
  lemma LastAdd(p: Plan, records: seq<Record>) returns (b: Acc)
    requires GoodPlan(p) && p.input <= MAX_UINT32 && AddAll(p, Start(p), records).Some? && records != []
    ensures AddAll(p, Start(p), records[..|records| - 1]) == Some(b) && Fits(p, b)
    ensures AddAll(p, Start(p), records) == AddFreely(p, b, records[|records| - 1])
  {
    var n := |records| - 1;
    AddAllIsFold(p, records[..n]);
    b := AddAll(p, Start(p), records[..n]).value;
    CountsNeverOverflow(p, b, records[n]);
  }

  /** The accumulator holds the token and the experts of every record that was added. */
  lemma {:induction false} RecordIsKept(p: Plan, records: seq<Record>, i: nat)
    requires GoodPlan(p) && p.input <= MAX_UINT32 && AddAll(p, Start(p), records).Some? && i < |records|
    ensures HoldsRecord(p, AddAll(p, Start(p), records).value, records[i])
  {
    var n := |records| - 1;
    var b := LastAdd(p, records);
    if i < n {
      RecordIsKept(p, records[..n], i);
      AddKeepsHeld(p, b, records[i], records[n]);
    } else {
      AddHolds(p, b, records[n]);
    }
  }

  // ---------------------------------------------------------------- nothing else is held

  ghost predicate CellHasRecord(p: Plan, records: seq<Record>, phase: Phase, c: nat) {
    exists i :: 0 <= i < |records| && ValidRecord(p, records[i]) && records[i].phase == phase &&
        CellOf(p, records[i]) == c
  }

  ghost predicate PositionHasRecord(p: Plan, records: seq<Record>, phase: Phase, position: nat) {
    exists i :: 0 <= i < |records| && ValidRecord(p, records[i]) && records[i].phase == phase &&
        PositionOf(p, records[i]) == position
  }

  lemma MoreRecords(p: Plan, records: seq<Record>, n: nat, phase: Phase, c: nat)
    requires n <= |records|
    ensures CellHasRecord(p, records[..n], phase, c) ==> CellHasRecord(p, records, phase, c)
    ensures PositionHasRecord(p, records[..n], phase, c) ==> PositionHasRecord(p, records, phase, c)
  {
  }

  /** A seen cell or token comes from a record. */
  lemma {:induction false} SeenFromRecord(p: Plan, records: seq<Record>, phase: Phase, c: nat)
    requires GoodPlan(p) && p.input <= MAX_UINT32 && AddAll(p, Start(p), records).Some? && phase != Unknown
    ensures var h := HalfOf(AddAll(p, Start(p), records).value, phase);
            && (c < |h.seen| && h.seen[c] ==> CellHasRecord(p, records, phase, c))
            && (c < |h.tokenSeen| && h.tokenSeen[c] ==> PositionHasRecord(p, records, phase, c))
  {
    if records != [] {
      var n := |records| - 1;
      var r := records[n];
      SeenFromRecord(p, records[..n], phase, c);
      MoreRecords(p, records, n, phase, c);
      var b := LastAdd(p, records);
      CanAdd(p, b, r);
      assert r == records[n];
    }
  }

  // ---------------------------------------------------------------- complete exactly when all records are there

  lemma CellIsUnique(columns: nat, row: nat, column: nat, row': nat, column': nat)
    requires column < columns && column' < columns && row * columns + column == row' * columns + column'
    ensures row == row' && column == column'
  {
    DivModUnique(row * columns + column, columns, row, column);
    DivModUnique(row * columns + column, columns, row', column');
  }

  /** The record that a seen cell comes from. */
  lemma RecordOfCell(p: Plan, records: seq<Record>, phase: Phase, c: nat) returns (r: Record)
    requires GoodPlan(p) && p.input <= MAX_UINT32 && AddAll(p, Start(p), records).Some? && phase != Unknown
    requires var h := HalfOf(AddAll(p, Start(p), records).value, phase); c < |h.seen| && h.seen[c]
    ensures HoldsRecord(p, AddAll(p, Start(p), records).value, r) && r.phase == phase && CellOf(p, r) == c
  {
    SeenFromRecord(p, records, phase, c);
    var i :| 0 <= i < |records| && ValidRecord(p, records[i]) && records[i].phase == phase &&
        CellOf(p, records[i]) == c;
    RecordIsKept(p, records, i);
    r := records[i];
  }

  function CellAt(p: Plan, phase: Phase, slot: nat, position: nat): nat {
    if phase == Prefill then slot * p.input + position else position * p.shape.layers + slot
  }

  lemma CellAtIsInside(p: Plan, a: Acc, phase: Phase, slot: nat, position: nat)
    requires Fits(p, a) && slot < p.shape.layers && position < if phase == Prefill then p.input else p.decode
    ensures CellAt(p, phase, slot, position) < |HalfOf(a, phase).seen|
  {
    if phase == Prefill {
      CellInTable(p.shape.layers, p.input, slot, position);
    } else {
      CellInTable(p.decode, p.shape.layers, position, slot);
    }
  }

  /** A record in a cell belongs to the position of the cell. */
  lemma CellTellsPosition(p: Plan, r: Record, slot: nat, position: nat)
    requires GoodPlan(p) && ValidRecord(p, r) && slot < p.shape.layers && position < if r.phase == Prefill then p.input
             else p.decode
    requires CellOf(p, r) == CellAt(p, r.phase, slot, position)
    ensures PositionOf(p, r) == position && p.slots[r.layer] == slot
  {
    if r.phase == Prefill {
      CellIsUnique(p.input, p.slots[r.layer], r.position, slot, position);
    } else {
      CellIsUnique(p.shape.layers, r.position - p.input, p.slots[r.layer], position, slot);
    }
  }

  /** A seen cell has seen the token of its position. */
  lemma SeenCellHasToken(p: Plan, records: seq<Record>, phase: Phase, slot: nat, position: nat)
    requires GoodPlan(p) && p.input <= MAX_UINT32 && AddAll(p, Start(p), records).Some? && phase != Unknown
    requires slot < p.shape.layers && position < if phase == Prefill then p.input else p.decode
    ensures var a := AddAll(p, Start(p), records).value;
            AllTrue(HalfOf(a, phase).seen) ==> HalfOf(a, phase).tokenSeen[position]
  {
    var a := AddAll(p, Start(p), records).value;
    if AllTrue(HalfOf(a, phase).seen) {
      CellAtIsInside(p, a, phase, slot, position);
      var r := RecordOfCell(p, records, phase, CellAt(p, phase, slot, position));
      CellTellsPosition(p, r, slot, position);
    }
  }

  /** A prompt is complete exactly when as many records were added as it has layers and positions. */
  lemma CompleteIff(p: Plan, records: seq<Record>)
    requires GoodPlan(p) && p.input <= MAX_UINT32 && p.shape.layers >= 1 && AddAll(p, Start(p), records).Some?
    ensures Complete(AddAll(p, Start(p), records).value) <==> |records| == ExpectedRecords(p)
  {
    AllCellsSeenIff(p, records);
    var a := AddAll(p, Start(p), records).value;
    if |records| == ExpectedRecords(p) {
      forall i | 0 <= i < p.input ensures a.prefill.tokenSeen[i] {
        SeenCellHasToken(p, records, Prefill, 0, i);
      }
      forall i | 0 <= i < p.decode ensures a.decode.tokenSeen[i] {
        SeenCellHasToken(p, records, Decode, 0, i);
      }
    }
  }

  // ---------------------------------------------------------------- the arrays of a complete accumulator

  lemma HeldRouteIsValid(p: Plan, a: Acc, r: Record, x: nat)
    requires HoldsRecord(p, a, r) && x < p.shape.topK
    ensures CellOf(p, r) * p.shape.topK + x < |HalfOf(a, r.phase).routes|
    ensures HalfOf(a, r.phase).routes[CellOf(p, r) * p.shape.topK + x] == r.experts[x] < p.shape.experts
  {
  }

  lemma SeenRouteIsValid(p: Plan, records: seq<Record>, phase: Phase, j: nat)
    requires GoodPlan(p) && p.input <= MAX_UINT32 && AddAll(p, Start(p), records).Some? && phase != Unknown
    requires var h := HalfOf(AddAll(p, Start(p), records).value, phase); AllTrue(h.seen) && j < |h.routes|
    ensures HalfOf(AddAll(p, Start(p), records).value, phase).routes[j] < p.shape.experts
  {
    var h := HalfOf(AddAll(p, Start(p), records).value, phase);
    assert |h.routes| == |h.seen| * p.shape.topK;
    var c, x := SplitIndex(j, |h.seen|, p.shape.topK);
    var r := RecordOfCell(p, records, phase, c);
    HeldRouteIsValid(p, AddAll(p, Start(p), records).value, r, x);
  }

  lemma SplitIndex(j: nat, cells: nat, k: nat) returns (c: nat, x: nat)
    requires j < cells * k
    ensures c < cells && x < k && j == c * k + x
  {
    InTable(j, cells, k);
    DivModDef(j, k);
    c, x := j / k, j % k;
  }

  lemma InTable(j: nat, cells: nat, k: nat)
    requires j < cells * k
    ensures k >= 1 && j / k < cells
  {
  }

  lemma TokenIsValid(p: Plan, records: seq<Record>, phase: Phase, position: nat)
    requires GoodPlan(p) && p.input <= MAX_UINT32 && AddAll(p, Start(p), records).Some? && phase != Unknown
    requires var h := HalfOf(AddAll(p, Start(p), records).value, phase); position < |h.ids| && AllTrue(h.tokenSeen)
    ensures HalfOf(AddAll(p, Start(p), records).value, phase).ids[position] <= MAX_UINT32
  {
    SeenFromRecord(p, records, phase, position);
    var i :| 0 <= i < |records| && ValidRecord(p, records[i]) && records[i].phase == phase &&
        PositionOf(p, records[i]) == position;
    RecordIsKept(p, records, i);
  }

  // ---------------------------------------------------------------- the counts are the histogram of the routes

  lemma FullCell(seen: seq<bool>, routes: seq<nat>, k: nat, c: nat, e: nat)
    requires c < |seen| && |routes| == |seen| * k
    ensures c * k <= (c + 1) * k <= |routes|
    ensures CellCount(routes, |seen|, k, c, e) == CountIn(routes, c * k, (c + 1) * k, e)
  {
  }

  lemma FullRowStep(routes: seq<nat>, lo: nat, mid: nat, hi: nat, e: nat, row: nat, cell: nat)
    requires lo <= mid <= hi <= |routes| && row == CountIn(routes, lo, mid, e) && cell == CountIn(routes, mid, hi, e)
    ensures row + cell == CountIn(routes, lo, hi, e)
  {
    CountSplits(routes, lo, mid, hi, e);
  }

  lemma RowCountStep(seen: seq<bool>, routes: seq<nat>, k: nat, c0: nat, c: nat, e: nat)
    requires c0 <= c < |seen| && |routes| == |seen| * k && AllTrue(seen)
    ensures RowCount(seen, routes, k, c0, c + 1 - c0, e) ==
            RowCount(seen, routes, k, c0, c - c0, e) + CellCount(routes, |seen|, k, c, e)
  {
  }

  lemma {:induction false} FullRowCount(seen: seq<bool>, routes: seq<nat>, k: nat, c0: nat, c1: nat, e: nat)
    requires c0 <= c1 <= |seen| && |routes| == |seen| * k && AllTrue(seen)
    ensures c0 * k <= c1 * k <= |routes|
    ensures RowCount(seen, routes, k, c0, c1 - c0, e) == CountIn(routes, c0 * k, c1 * k, e)
    decreases c1
  {
    if c0 == c1 {
      MulMonotone(c0, |seen|, k);
    } else {
      var c: nat := c1 - 1;
      NatProduct(c0, k);
      FullRowCount(seen, routes, k, c0, c, e);
      FullCell(seen, routes, k, c, e);
      RowCountStep(seen, routes, k, c0, c, e);
      FullRowStep(routes, c0 * k, c * k, (c + 1) * k, e, RowCount(seen, routes, k, c0, c - c0, e),
                  CellCount(routes, |seen|, k, c, e));
    }
  }

  /** The stored counts are the histogram of the prefill routes. */
  lemma CountsAreHistogram(p: Plan, a: Acc, l: nat, e: nat)
    requires Inv(p, a) && AllTrue(a.prefill.seen) && l < p.shape.layers && e < p.shape.experts
    requires ValidRoutes(p.shape, p.shape.layers * p.input, a.prefill.routes)
    ensures CountAt(p, a, l, e) == PrefillCount(p.shape, p.input, a.prefill.routes, 0, p.input, l, e)
  {
    CellEnds(p.shape.layers, l, p.input);
    FullRowCount(a.prefill.seen, a.prefill.routes, p.shape.topK, l * p.input, l * p.input + p.input, e);
    assert CountAt(p, a, l, e) == SeenCount(p, a, l, e);
  }

  // ---------------------------------------------------------------- the counts of a layer add up

  function SumCounts(routes: seq<nat>, lo: nat, hi: nat, n: nat): nat
    requires lo <= hi <= |routes|
  {
    if n == 0 then 0 else SumCounts(routes, lo, hi, n - 1) + CountIn(routes, lo, hi, n - 1)
  }

  lemma {:induction false} SumOfNone(routes: seq<nat>, lo: nat, n: nat)
    requires lo <= |routes|
    ensures SumCounts(routes, lo, lo, n) == 0
  {
    if n > 0 {
      SumOfNone(routes, lo, n - 1);
    }
  }

  lemma {:induction false} SumOfOneMore(routes: seq<nat>, lo: nat, hi: nat, n: nat)
    requires lo < hi <= |routes|
    ensures SumCounts(routes, lo, hi, n) == SumCounts(routes, lo, hi - 1, n) + if routes[hi - 1] < n then 1 else 0
  {
    if n > 0 {
      SumOfOneMore(routes, lo, hi, n - 1);
    }
  }

  /** Every route is counted for exactly one expert. */
  lemma {:induction false} EveryRouteIsCounted(routes: seq<nat>, lo: nat, hi: nat, experts: nat)
    requires lo <= hi <= |routes| && forall i :: 0 <= i < |routes| ==> routes[i] < experts
    ensures SumCounts(routes, lo, hi, experts) == hi - lo
    decreases hi
  {
    if lo == hi {
      SumOfNone(routes, lo, experts);
    } else {
      EveryRouteIsCounted(routes, lo, hi - 1, experts);
      SumOfOneMore(routes, lo, hi, experts);
    }
  }

  /** The sum of the stored counts of a layer over the first n experts. */
  function LayerSum(p: Plan, a: Acc, l: nat, n: nat): nat
    requires Fits(p, a) && l < p.shape.layers && n <= p.shape.experts
  {
    if n == 0 then 0 else LayerSum(p, a, l, n - 1) + CountAt(p, a, l, n - 1)
  }

  lemma {:induction false} LayerSumIsSum(p: Plan, a: Acc, l: nat, n: nat)
    requires Inv(p, a) && AllTrue(a.prefill.seen) && l < p.shape.layers && n <= p.shape.experts
    ensures var k := p.shape.topK;
            && l * p.input * k <= (l * p.input + p.input) * k <= |a.prefill.routes|
            && LayerSum(p, a, l, n) == SumCounts(a.prefill.routes, l * p.input * k, (l * p.input + p.input) * k, n)
  {
    CellEnds(p.shape.layers, l, p.input);
    FullRowCount(a.prefill.seen, a.prefill.routes, p.shape.topK, l * p.input, l * p.input + p.input, 0);
    if n > 0 {
      LayerSumIsSum(p, a, l, n - 1);
      FullRowCount(a.prefill.seen, a.prefill.routes, p.shape.topK, l * p.input, l * p.input + p.input, n - 1);
      assert CountAt(p, a, l, n - 1) == SeenCount(p, a, l, n - 1);
    }
  }

  /** Each layer counts topK experts for every input token. */
  lemma LayerCountsAddUp(p: Plan, a: Acc, l: nat)
    requires Inv(p, a) && AllTrue(a.prefill.seen) && l < p.shape.layers
    requires ValidRoutes(p.shape, p.shape.layers * p.input, a.prefill.routes)
    ensures LayerSum(p, a, l, p.shape.experts) == p.input * p.shape.topK
  {
    var k := p.shape.topK;
    LayerSumIsSum(p, a, l, p.shape.experts);
    EveryRouteIsCounted(a.prefill.routes, l * p.input * k, (l * p.input + p.input) * k, p.shape.experts);
    MulDistributes(l * p.input + p.input, p.input, k);
  }

  // ---------------------------------------------------------------- which records are accepted

  /** Two records do not fill the same cell and agree on the token of their position. */
  predicate Compatible(p: Plan, r: Record, s: Record)
    requires ValidRecord(p, r) && ValidRecord(p, s)
  {
    r.phase == s.phase ==>
      CellOf(p, r) != CellOf(p, s) && (PositionOf(p, r) == PositionOf(p, s) ==> r.tokenId == s.tokenId)
  }

  ghost predicate Acceptable(p: Plan, records: seq<Record>) {
    && (forall i :: 0 <= i < |records| ==> ValidRecord(p, records[i]))
    && forall i, j :: 0 <= i < j < |records| ==> Compatible(p, records[i], records[j])
  }

  lemma HeldIsCompatible(p: Plan, a: Acc, r: Record, s: Record)
    requires HoldsRecord(p, a, r) && AddFreely(p, a, s).Some?
    ensures Compatible(p, r, s)
  {
    CanAdd(p, a, s);
  }

  /** A record that is compatible with all earlier ones is accepted. */
  lemma CompatibleIsAccepted(p: Plan, records: seq<Record>, s: Record)
    requires GoodPlan(p) && p.input <= MAX_UINT32 && AddAll(p, Start(p), records).Some? && ValidRecord(p, s)
    requires forall i :: 0 <= i < |records| && ValidRecord(p, records[i]) ==> Compatible(p, records[i], s)
    ensures AddFreely(p, AddAll(p, Start(p), records).value, s).Some?
  {
    var a := AddAll(p, Start(p), records).value;
    CanAdd(p, a, s);
    var h := HalfOf(a, s.phase);
    if h.seen[CellOf(p, s)] {
      SeenFromRecord(p, records, s.phase, CellOf(p, s));
    }
    if h.tokenSeen[PositionOf(p, s)] {
      SeenFromRecord(p, records, s.phase, PositionOf(p, s));
      var i :| 0 <= i < |records| && ValidRecord(p, records[i]) && records[i].phase == s.phase
               && PositionOf(p, records[i]) == PositionOf(p, s);
      RecordIsKept(p, records, i);
    }
  }

  lemma NotCompatibleIsRefused(p: Plan, records: seq<Record>, n: nat)
    requires GoodPlan(p) && p.input <= MAX_UINT32 && n < |records| && AddAll(p, Start(p), records[..n]).Some?
    requires AddFreely(p, AddAll(p, Start(p), records[..n]).value, records[n]).Some?
    ensures ValidRecord(p, records[n])
    ensures forall i :: 0 <= i < n ==> ValidRecord(p, records[i]) && Compatible(p, records[i], records[n])
  {
    forall i | 0 <= i < n ensures ValidRecord(p, records[i]) && Compatible(p, records[i], records[n]) {
      assert records[..n][i] == records[i];
      RecordIsKept(p, records[..n], i);
      HeldIsCompatible(p, AddAll(p, Start(p), records[..n]).value, records[i], records[n]);
    }
  }

  /** Records are accepted exactly when each is valid and no two of them clash. */
  lemma {:induction false} AcceptedIff(p: Plan, records: seq<Record>)
    requires GoodPlan(p) && p.input <= MAX_UINT32
    ensures AddAll(p, Start(p), records).Some? <==> Acceptable(p, records)
  {
    if records != [] {
      var n := |records| - 1;
      var front := records[..n];
      AcceptedIff(p, front);
      AcceptableFront(p, records);
      AddAllIsFold(p, front);
      if AddAll(p, Start(p), front).Some? {
        CountsNeverOverflow(p, AddAll(p, Start(p), front).value, records[n]);
        if AddFreely(p, AddAll(p, Start(p), front).value, records[n]).Some? {
          NotCompatibleIsRefused(p, records, n);
        } else if Acceptable(p, records) {
          CompatibleIsAccepted(p, front, records[n]);
        }
      }
    }
  }

  lemma AcceptableFront(p: Plan, records: seq<Record>)
    requires records != []
    ensures var n := |records| - 1;
            Acceptable(p, records) <==>
              && Acceptable(p, records[..n]) && ValidRecord(p, records[n])
              && forall i :: 0 <= i < n ==> ValidRecord(p, records[i]) && Compatible(p, records[i], records[n])
  {
  }
}
