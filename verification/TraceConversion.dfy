/** From trace records to a file and back: what a reader finds of every record that was converted. */
module TraceConversion {
  import opened Accumulated
  import opened Accumulator
  import opened Arithmetic
  import Bytes
  import opened Common
  import opened Convert
  import opened RouteCounts
  import F = TraceFile
  import Fmt = TraceFormat
  import W = TraceWriter

  /** A finished accumulator as the writer takes it. */
  function PromptOf(p: Plan, i: nat, a: Acc): W.Prompt {
    W.Prompt(i, p.shape.layers, p.shape.experts, p.shape.topK,
             F.PromptData(a.prefill.ids, a.decode.ids, a.counts, a.prefill.routes, a.decode.routes, [], []))
  }

  ghost predicate FromRecords(p: Plan, a: Acc, records: seq<Record>) {
    && GoodPlan(p) && p.input <= MAX_UINT32 && p.shape.layers >= 1
    && AddAll(p, Start(p), records) == Some(a) && Complete(a)
  }

  lemma RoutesAreValid(p: Plan, a: Acc, records: seq<Record>)
    requires FromRecords(p, a, records)
    ensures ValidRoutes(p.shape, p.shape.layers * p.input, a.prefill.routes)
    ensures ValidRoutes(p.shape, p.decode * p.shape.layers, a.decode.routes)
  {
    forall j | 0 <= j < |a.prefill.routes| ensures a.prefill.routes[j] < p.shape.experts {
      SeenRouteIsValid(p, records, Prefill, j);
    }
    forall j | 0 <= j < |a.decode.routes| ensures a.decode.routes[j] < p.shape.experts {
      SeenRouteIsValid(p, records, Decode, j);
    }
  }

  lemma TokensAreValid(p: Plan, a: Acc, records: seq<Record>)
    requires FromRecords(p, a, records)
    ensures W.AllBelow(a.prefill.ids, Bytes.Pow256(4)) && W.AllBelow(a.decode.ids, Bytes.Pow256(4))
  {
    Bytes.Powers();
    forall j | 0 <= j < |a.prefill.ids| ensures a.prefill.ids[j] < Bytes.Pow256(4) {
      TokenIsValid(p, records, Prefill, j);
    }
    forall j | 0 <= j < |a.decode.ids| ensures a.decode.ids[j] < Bytes.Pow256(4) {
      TokenIsValid(p, records, Decode, j);
    }
  }

  lemma CountIsBounded(p: Plan, a: Acc, x: nat)
    requires Accumulator.Inv(p, a) && x < |a.counts|
    ensures a.counts[x] <= p.input
  {
    InTable(x, p.shape.layers, p.shape.experts);
    var l, e := x / p.shape.experts, x % p.shape.experts;
    DivModDef(x, p.shape.experts);
    CellEnds(p.shape.layers, l, p.input);
    assert CountAt(p, a, l, e) == SeenCount(p, a, l, e);
    RowCountBound(a.prefill.seen, a.prefill.routes, p.shape.topK, l * p.input, p.input, e);
    UnseenMeansRoom(a.prefill.seen, l * p.input, p.input, 0);
  }

  /** A complete accumulator is what the writer expects. */
  lemma CompleteIsWellFormed(p: Plan, a: Acc, records: seq<Record>, i: nat)
    requires FromRecords(p, a, records)
    ensures W.WellFormed(PromptOf(p, i, a))
  {
    RoutesAreValid(p, a, records);
    TokensAreValid(p, a, records);
    AddAllIsFold(p, records);
    Bytes.Powers();
    forall x | 0 <= x < |a.counts| ensures a.counts[x] < Bytes.Pow256(4) {
      CountIsBounded(p, a, x);
    }
  }

  // ---------------------------------------------------------------- the stored counts

  /** The count that a reader finds is the histogram of the routes, and any two parts of the prompt add up to it. */
  lemma StoredCounts(p: Plan, a: Acc, records: seq<Record>, l: nat, e: nat, mid: nat)
    requires FromRecords(p, a, records) && l < p.shape.layers && e < p.shape.experts && mid <= p.input
    ensures ValidRoutes(p.shape, p.shape.layers * p.input, a.prefill.routes)
    ensures CountAt(p, a, l, e) == PrefillCount(p.shape, p.input, a.prefill.routes, 0, p.input, l, e)
    ensures CountAt(p, a, l, e) == PrefillCount(p.shape, p.input, a.prefill.routes, 0, mid, l, e) +
                                   PrefillCount(p.shape, p.input, a.prefill.routes, mid, p.input, l, e)
    ensures LayerSum(p, a, l, p.shape.experts) == p.input * p.shape.topK
  {
    RoutesAreValid(p, a, records);
    AddAllIsFold(p, records);
    CountsAreHistogram(p, a, l, e);
    ChunksAddUp(p.shape, p.input, a.prefill.routes, 0, mid, p.input, l, e);
    LayerCountsAddUp(p, a, l);
  }

  // ---------------------------------------------------------------- the accessors of the reader

  function PrefillExperts(d: F.PromptData, layers: nat, topK: nat, slot: int, position: int): Option<seq<nat>> {
    if slot < 0 || slot >= layers || position < 0 || position >= |d.inputIds| then None
    else
      var base := (slot * |d.inputIds| + position) * topK;
      if base + topK <= |d.prefillRoutes| then Some(d.prefillRoutes[base..base + topK]) else None
  }

  function DecodeExperts(d: F.PromptData, layers: nat, topK: nat, position: int, slot: int): Option<seq<nat>> {
    if position < 0 || position >= |d.decodeIds| || slot < 0 || slot >= layers then None
    else
      var base := (position * layers + slot) * topK;
      if base + topK <= |d.decodeRoutes| then Some(d.decodeRoutes[base..base + topK]) else None
  }

  /** The data of a prompt says what a record says. */
  ghost predicate Says(d: F.PromptData, p: Plan, r: Record)
    requires ValidRecord(p, r)
  {
    if r.phase == Prefill then
      && r.position < |d.inputIds| && d.inputIds[r.position] == r.tokenId
      && PrefillExperts(d, p.shape.layers, p.shape.topK, p.slots[r.layer], r.position) == Some(Experts(p, r))
    else
      && r.position - p.input < |d.decodeIds| && d.decodeIds[r.position - p.input] == r.tokenId
      && DecodeExperts(d, p.shape.layers, p.shape.topK, r.position - p.input, p.slots[r.layer]) == Some(Experts(p, r))
  }

  lemma HeldIsSaid(p: Plan, a: Acc, r: Record, i: nat)
    requires HoldsRecord(p, a, r)
    ensures Says(PromptOf(p, i, a).data, p, r)
  {
  }

  // ---------------------------------------------------------------- records, file, records

  /** The metadata of the file says what the checked source metadata says. */
  ghost predicate Describes(m: F.Metadata, src: Source) {
    && GoodSource(src) && m.formatVersion == 1 && m.sourceGpuBytes == 0
    && |m.sparseLayers| == src.shape.layers && m.numExperts == src.shape.experts && m.topK == src.shape.topK
    && 1 <= src.shape.topK <= src.shape.experts
    && m.expertBytes >= 0 && Fmt.ExpertBytes(m.numExperts) == Some(m.expertBytes)
    && m.numPrompts == |src.prompts| == |m.prompts|
    && forall i :: 0 <= i < |src.prompts| ==> DescribesPrompt(m.prompts[i], src.prompts[i], i)
  }

  predicate DescribesPrompt(m: F.PromptMeta, t: Tokens, i: nat) {
    m.index == i && m.inputTokens == t.input <= MAX_UINT32 && m.decodeTokens == t.decode <= MAX_UINT32
  }

  function PromptsOf(src: Source, accs: seq<Acc>): (ps: seq<W.Prompt>)
    requires |accs| == |src.prompts|
    ensures |ps| == |accs| && forall i :: 0 <= i < |ps| ==> ps[i] == PromptOf(PlanOf(src, i), i, accs[i])
  {
    seq(|accs|, i requires 0 <= i < |accs| => PromptOf(PlanOf(src, i), i, accs[i]))
  }

  lemma DoneIsFromRecords(src: Source, records: seq<Record>, i: nat, a: Acc)
    requires GoodSource(src) && i < |src.prompts| && Done(src, records, i, a) && Complete(a)
    ensures FromRecords(PlanOf(src, i), a, Group(records, i))
  {
  }

  /** What a conversion hands to the writer fits the metadata. */
  lemma ConvertedMatches(m: F.Metadata, src: Source, records: seq<Record>)
    requires Describes(m, src) && ConvertRecords(src, records).Converted?
    ensures |ConvertRecords(src, records).prompts| == |src.prompts| &&
            W.Matching(m, PromptsOf(src, ConvertRecords(src, records).prompts))
  {
    ConvertedIff(src, records);
    var accs := ConvertRecords(src, records).prompts;
    var ps := PromptsOf(src, accs);
    forall i | 0 <= i < |ps| ensures W.MatchingPrompt(m, ps[i], i) {
      DoneIsFromRecords(src, records, i, accs[i]);
      CompleteIsWellFormed(PlanOf(src, i), accs[i], Group(records, i), i);
      assert DescribesPrompt(m.prompts[i], src.prompts[i], i);
      assert Fits(PlanOf(src, i), accs[i]);
    }
  }

  lemma {:induction false} InOwnGroup(records: seq<Record>, k: nat) returns (j: nat)
    requires k < |records| && records[k].prompt >= 0
    ensures j < |Group(records, records[k].prompt)| && Group(records, records[k].prompt)[j] == records[k]
  {
    var n := |records| - 1;
    if k < n {
      j := InOwnGroup(records[..n], k);
    } else {
      j := |Group(records[..n], records[k].prompt)|;
    }
  }

  lemma RecordIsSaid(src: Source, records: seq<Record>, k: nat)
    requires GoodSource(src) && ConvertRecords(src, records).Converted? && k < |records|
    ensures var i := records[k].prompt;
            && 0 <= i < |src.prompts| == |ConvertRecords(src, records).prompts| &&
               ValidRecord(PlanOf(src, i), records[k])
            && Says(PromptOf(PlanOf(src, i), i, ConvertRecords(src, records).prompts[i]).data, PlanOf(src, i),
                    records[k])
  {
    ConvertedIff(src, records);
    var i := records[k].prompt;
    var a := ConvertRecords(src, records).prompts[i];
    var j := InOwnGroup(records, k);
    PlanIsGood(src, i);
    assert Done(src, records, i, a);
    RecordIsKept(PlanOf(src, i), Group(records, i), j);
    HeldIsSaid(PlanOf(src, i), a, records[k], i);
  }

  /**
   Every record of a converted trace can be read from the file: opening the written file and reading the prompt of the
   record gives its token ID at its position and its experts in its layer.
   */
  lemma RecordsSurvive(m: F.Metadata, src: Source, records: seq<Record>, encode: W.Encoder, decode: F.Decoder,
                       sourceSize: nat, sha: seq<Bytes.Byte>, k: nat)
    requires Describes(m, src) && ConvertRecords(src, records).Converted? && k < |records|
    requires |ConvertRecords(src, records).prompts| == |src.prompts|
    requires var ps := PromptsOf(src, ConvertRecords(src, records).prompts);
             && W.Written(m, ps, encode, decode, sourceSize, sha)
             && |ps| <= MAX_UINT32 && src.shape.layers <= MAX_UINT32
    ensures var file := W.WrittenFile(m, PromptsOf(src, ConvertRecords(src, records).prompts), encode, sourceSize, sha);
            var r := records[k];
            && F.Open(file, decode).Some? && 0 <= r.prompt < |src.prompts| && ValidRecord(PlanOf(src, r.prompt), r)
            && (var data := F.ReadPrompt(file, F.Open(file, decode).value, r.prompt);
                data.Some? && Says(data.value, PlanOf(src, r.prompt), r))
  {
    var ps := PromptsOf(src, ConvertRecords(src, records).prompts);
    W.FileRoundTrip(m, ps, encode, decode, sourceSize, sha);
    RecordIsSaid(src, records, k);
    W.PromptRoundTrip(m, ps, encode, decode, sourceSize, sha, records[k].prompt);
  }

  // ---------------------------------------------------------------- what the simulator makes of a record

  lemma OnceIn(routes: seq<nat>, base: nat, experts: seq<nat>, e: nat)
    requires base + |experts| <= |routes| && routes[base..base + |experts|] == experts
    requires forall i, j :: 0 <= i < j < |experts| ==> experts[i] != experts[j]
    ensures CountIn(routes, base, base + |experts|, e) == if e in experts then 1 else 0
  {
    forall i | base <= i < base + |experts| ensures routes[i] == experts[i - base] {
      assert routes[base..base + |experts|][i - base] == routes[i];
    }
    SameCounts(routes, experts, base, base + |experts|, base, e);
    OnceInAll(experts, |experts|, e);
    TakeAll(experts);
  }

  lemma {:induction false} OnceInAll(experts: seq<nat>, n: nat, e: nat)
    requires n <= |experts| && forall i, j :: 0 <= i < j < |experts| ==> experts[i] != experts[j]
    ensures CountIn(experts, 0, n, e) == if e in experts[..n] then 1 else 0
  {
    if n > 0 {
      OnceInAll(experts, n - 1, e);
      TakeNext(experts, n - 1);
    }
  }

  /** The simulator counts a record for exactly its experts, in its layer and at its position. */
  lemma RecordIsCounted(p: Plan, d: F.PromptData, r: Record, e: nat)
    requires GoodPlan(p) && ValidRecord(p, r) && Says(d, p, r) && |d.inputIds| == p.input && |d.decodeIds| == p.decode
    requires ValidRoutes(p.shape, p.shape.layers * p.input, d.prefillRoutes)
    requires ValidRoutes(p.shape, p.decode * p.shape.layers, d.decodeRoutes)
    ensures var l := p.slots[r.layer];
            && (r.phase == Prefill ==>
                  PrefillCount(p.shape, p.input, d.prefillRoutes, r.position, r.position + 1, l, e) ==
                  if e as int in r.experts then 1 else 0)
            && (r.phase == Decode ==>
                  DecodeCount(p.shape, p.decode, d.decodeRoutes, r.position - p.input, l, e) ==
                  if e as int in r.experts then 1 else 0)
  {
    var l, experts := p.slots[r.layer], Experts(p, r);
    SameMembers(experts, r.experts, e);
    if r.phase == Prefill {
      NextCell(p.shape, p.input, l, r.position);
      OnceIn(d.prefillRoutes, Cell(p.shape, p.input, l, r.position), experts, e);
    } else {
      OnceIn(d.decodeRoutes, Cell(p.shape, p.shape.layers, r.position - p.input, l), experts, e);
    }
  }

  lemma SameMembers(a: seq<nat>, b: seq<int>, e: nat)
    requires |a| == |b| && forall i :: 0 <= i < |a| ==> a[i] == b[i]
    ensures e in a <==> e as int in b
  {
    if e in a {
      var i :| 0 <= i < |a| && a[i] == e;
      assert b[i] == e;
    }
    if e as int in b {
      var i :| 0 <= i < |b| && b[i] == e;
      assert a[i] == e;
    }
  }

  /** The counts of a prompt are the histogram of its prefill routes. */
  ghost predicate IsHistogram(d: F.PromptData, shape: Shape, input: nat) {
    && ValidRoutes(shape, shape.layers * input, d.prefillRoutes) && |d.counts| == shape.layers * shape.experts
    && forall l: nat, e: nat :: l < shape.layers && e < shape.experts ==>
         StoredAt(d.counts, shape.layers, shape.experts, l, e) ==
         PrefillCount(shape, input, d.prefillRoutes, 0, input, l, e)
  }

  lemma FinishedIsHistogram(p: Plan, a: Acc, records: seq<Record>, i: nat)
    requires FromRecords(p, a, records)
    ensures IsHistogram(PromptOf(p, i, a).data, p.shape, p.input)
  {
    var d := PromptOf(p, i, a).data;
    RoutesAreValid(p, a, records);
    forall l: nat, e: nat | l < p.shape.layers && e < p.shape.experts
      ensures StoredAt(d.counts, p.shape.layers, p.shape.experts, l, e) ==
              PrefillCount(p.shape, p.input, d.prefillRoutes, 0, p.input, l, e)
    {
      StoredCounts(p, a, records, l, e, 0);
    }
  }

  /** The counts that a reader finds are the histogram of the prefill routes that it finds. */
  lemma CountsSurvive(m: F.Metadata, src: Source, records: seq<Record>, encode: W.Encoder, decode: F.Decoder,
                      sourceSize: nat, sha: seq<Bytes.Byte>, i: nat) returns (d: F.PromptData)
    requires Describes(m, src) && ConvertRecords(src, records).Converted? && i < |src.prompts|
    requires |ConvertRecords(src, records).prompts| == |src.prompts|
    requires var ps := PromptsOf(src, ConvertRecords(src, records).prompts);
             && W.Written(m, ps, encode, decode, sourceSize, sha)
             && |ps| <= MAX_UINT32 && src.shape.layers <= MAX_UINT32
    ensures var file := W.WrittenFile(m, PromptsOf(src, ConvertRecords(src, records).prompts), encode, sourceSize, sha);
            F.Open(file, decode).Some? && F.ReadPrompt(file, F.Open(file, decode).value, i) == Some(d)
    ensures IsHistogram(d, src.shape, src.prompts[i].input)
  {
    var prompts := ConvertRecords(src, records).prompts;
    var ps := PromptsOf(src, prompts);
    W.FileRoundTrip(m, ps, encode, decode, sourceSize, sha);
    W.PromptRoundTrip(m, ps, encode, decode, sourceSize, sha, i);
    d := ps[i].data;
    ConvertedIff(src, records);
    assert Done(src, records, i, prompts[i]);
    DoneIsFromRecords(src, records, i, prompts[i]);
    FinishedIsHistogram(PlanOf(src, i), prompts[i], Group(records, i), i);
  }
}
