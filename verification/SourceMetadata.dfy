/**
 The metadata of a JSON trace: its validation and what the conversion and the writer take from it
 (pkg/moetrace/source.go, pkg/moetrace/writer.go). With it, records can be followed from a validated trace to the reader
 of the written file.
 */
module SourceMetadata {
  import opened Accumulator
  import Bytes
  import opened Common
  import opened Convert
  import opened RouteCounts
  import F = TraceFile
  import Fmt = TraceFormat
  import T = TraceConversion
  import W = TraceWriter

  datatype Meta = Meta(
    model: string, numExperts: int, topK: int, sparseLayers: seq<int>, numSparseLayers: int, numPrompts: int,
    prompts: seq<F.PromptMeta>)

  predicate ValidPrompt(p: F.PromptMeta, i: nat) {
    p.index == i && 0 <= p.inputTokens <= MAX_UINT32 && 0 <= p.decodeTokens <= MAX_UINT32
  }

  ghost predicate ValidLayers(layers: seq<int>) {
    Distinct(layers) && forall i :: 0 <= i < |layers| ==> layers[i] >= 0
  }

  ghost predicate ValidMeta(m: Meta) {
    && m.model != "" && 1 <= m.numExperts <= 65536 && 1 <= m.topK <= m.numExperts
    && m.numSparseLayers == |m.sparseLayers| >= 1 && ValidLayers(m.sparseLayers)
    && m.numPrompts == |m.prompts| >= 1
    && forall i :: 0 <= i < |m.prompts| ==> ValidPrompt(m.prompts[i], i)
  }

  // ---------------------------------------------------------------- validation

  method CheckLayers(layers: seq<int>) returns (ok: bool)
    ensures ok <==> ValidLayers(layers)
  {
    var seen: set<int> := {};
    for i := 0 to |layers|
      invariant seen == Elems(layers[..i]) && ValidLayers(layers[..i])
    {
      if layers[i] < 0 {
        return false;
      }
      if layers[i] in seen {
        assert layers[i] in layers[..i];
        return false;
      }
      TakeNext(layers, i);
      AppendDistinct(layers[..i], layers[i]);
      seen := seen + {layers[i]};
    }
    TakeAll(layers);
    return true;
  }

  method CheckPrompts(prompts: seq<F.PromptMeta>) returns (ok: bool)
    ensures ok <==> forall i :: 0 <= i < |prompts| ==> ValidPrompt(prompts[i], i)
  {
    for i := 0 to |prompts|
      invariant forall k :: 0 <= k < i ==> ValidPrompt(prompts[k], k)
    {
      var p := prompts[i];
      if p.index != i || p.inputTokens < 0 || p.decodeTokens < 0 || p.inputTokens > MAX_UINT32 ||
          p.decodeTokens > MAX_UINT32 {
        assert !ValidPrompt(prompts[i], i);
        return false;
      }
    }
    return true;
  }

  method ValidateMetadata(m: Meta) returns (ok: bool)
    ensures ok <==> ValidMeta(m)
  {
    if m.model == "" || m.numExperts < 1 || m.numExperts > 65536 || m.topK < 1 || m.topK > m.numExperts {
      return false;
    }
    if m.numSparseLayers != |m.sparseLayers| || m.numSparseLayers < 1 {
      return false;
    }
    ok := CheckLayers(m.sparseLayers);
    if !ok || m.numPrompts != |m.prompts| || m.numPrompts < 1 {
      return false;
    }
    ok := CheckPrompts(m.prompts);
  }

  // ---------------------------------------------------------------- what is taken from it

  /** The position of every layer; a later mention of a layer replaces an earlier one. */
  function SlotsOf(layers: seq<int>): (slots: map<int, nat>)
    ensures forall l :: l in slots ==> slots[l] < |layers|
  {
    if layers == [] then map[] else SlotsOf(layers[..|layers| - 1])[layers[|layers| - 1] := |layers| - 1]
  }

  method LayerSlots(layers: seq<int>) returns (slots: map<int, nat>)
    ensures slots == SlotsOf(layers)
  {
    slots := map[];
    TakeAll(layers);
    for slot := 0 to |layers|
      invariant slots == SlotsOf(layers[..slot])
    {
      TakeNext(layers, slot);
      slots := slots[layers[slot] := slot];
    }
  }

  /** The slots of validated layers number them one to one. */
  lemma {:induction false} SlotsAreLayers(layers: seq<int>, l: int)
    requires Distinct(layers)
    ensures l in SlotsOf(layers) <==> l in layers
    ensures l in SlotsOf(layers) ==> layers[SlotsOf(layers)[l]] == l
  {
    if layers != [] {
      var n := |layers| - 1;
      SlotsAreLayers(layers[..n], l);
      assert layers == layers[..n] + [layers[n]];
    }
  }

  function TokensAt(p: F.PromptMeta, i: nat): Tokens
    requires ValidPrompt(p, i)
  {
    Tokens(p.inputTokens, p.decodeTokens)
  }

  function TokensOf(prompts: seq<F.PromptMeta>): (t: seq<Tokens>)
    requires forall i :: 0 <= i < |prompts| ==> ValidPrompt(prompts[i], i)
    ensures |t| == |prompts| && forall i :: 0 <= i < |t| ==> t[i] == TokensAt(prompts[i], i)
  {
    seq(|prompts|, i requires 0 <= i < |prompts| => TokensAt(prompts[i], i))
  }

  /** Whether the length of a prompt's block can be computed in 64 bits. */
  ghost predicate BlockFits(m: Meta, width: nat, i: nat)
    requires ValidMeta(m)
  {
    i < |m.prompts| &&
    var t := TokensAt(m.prompts[i], i);
    Fmt.BlockLength(Fmt.Dimensions(t.input, t.decode, |m.sparseLayers|, m.numExperts, m.topK, width), 1, 0).Some?
  }

  ghost function SourceOf(m: Meta): Source
    requires ValidMeta(m)
  {
    var width := if m.numExperts <= 256 then 1 else 2;
    Source(Shape(|m.sparseLayers|, m.numExperts, m.topK), SlotsOf(m.sparseLayers), TokensOf(m.prompts),
           (i: nat) => BlockFits(m, width, i))
  }

  /** The metadata that the writer puts into the file. */
  function FileMetadata(m: Meta): F.Metadata
    requires 1 <= m.numExperts <= 65536
  {
    var width := if m.numExperts <= 256 then 1 else 2;
    F.Metadata(1, m.model, m.numExperts, m.topK, m.sparseLayers, m.numPrompts, width, 0, m.prompts)
  }

  /** Validated metadata satisfies everything the conversion and the writer rely on. */
  lemma ValidIsDescribed(m: Meta)
    requires ValidMeta(m)
    ensures T.Describes(FileMetadata(m), SourceOf(m))
  {
    var src := SourceOf(m);
    forall i | 0 <= i < |src.prompts|
      ensures T.DescribesPrompt(m.prompts[i], src.prompts[i], i) && src.prompts[i].input <= MAX_UINT32
    {
      assert ValidPrompt(m.prompts[i], i);
    }
  }

  /** The prompts of a converted trace as the writer takes them. */
  ghost function WrittenPrompts(m: Meta, records: seq<Record>): seq<W.Prompt>
    requires ValidMeta(m) && ConvertRecords(SourceOf(m), records).Converted?
  {
    ValidIsDescribed(m);
    T.ConvertedMatches(FileMetadata(m), SourceOf(m), records);
    T.PromptsOf(SourceOf(m), ConvertRecords(SourceOf(m), records).prompts)
  }

  /**
   From a validated trace to the reader: the file written from its converted records opens, and reading the prompt of
   any record gives its token ID at its position and its experts in its layer.
   */
  lemma ConvertedTraceIsReadable(m: Meta, records: seq<Record>, encode: W.Encoder, decode: F.Decoder,
                                 sourceSize: nat, sha: seq<Bytes.Byte>, k: nat)
    requires ValidMeta(m) && ConvertRecords(SourceOf(m), records).Converted? && k < |records|
    requires decode(encode(FileMetadata(m))) == Some(FileMetadata(m)) && |sha| == 32 && sourceSize <= Fmt.MAX_UINT64
    requires |W.WrittenFile(FileMetadata(m), WrittenPrompts(m, records), encode, sourceSize, sha)| <= Fmt.MAX_UINT64
    requires |m.prompts| <= MAX_UINT32 && |m.sparseLayers| <= MAX_UINT32
    ensures var file := W.WrittenFile(FileMetadata(m), WrittenPrompts(m, records), encode, sourceSize, sha);
            var r := records[k];
            && F.Open(file, decode).Some? && 0 <= r.prompt < |m.prompts| &&
               ValidRecord(PlanOf(SourceOf(m), r.prompt), r)
            && (var data := F.ReadPrompt(file, F.Open(file, decode).value, r.prompt);
                data.Some? && T.Says(data.value, PlanOf(SourceOf(m), r.prompt), r))
            && (var reader := F.Open(file, decode).value;
                && reader.metadata.model == m.model && reader.metadata.prompts == m.prompts
                && reader.metadata.sparseLayers == m.sparseLayers && reader.metadata.numExperts == m.numExperts
                && reader.metadata.topK == m.topK && reader.header.sourceSize == sourceSize && reader.header.sha == sha)
  {
    ValidIsDescribed(m);
    T.ConvertedMatches(FileMetadata(m), SourceOf(m), records);
    T.RecordsSurvive(FileMetadata(m), SourceOf(m), records, encode, decode, sourceSize, sha, k);
    W.FileRoundTrip(FileMetadata(m), WrittenPrompts(m, records), encode, decode, sourceSize, sha);
  }
}
