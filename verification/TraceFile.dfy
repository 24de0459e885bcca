/** Trace files (pkg/moetrace/reader.go): which bytes the reader accepts and what it reads from them. */
module TraceFile {
  import opened Bytes
  import opened Common
  import opened TraceFormat

  datatype PromptMeta = PromptMeta(index: int, prompt: string, inputTokens: int, decodeTokens: int, generated: string)

  datatype Metadata = Metadata(
    formatVersion: nat, model: string, numExperts: int, topK: int, sparseLayers: seq<int>, numPrompts: int,
    expertBytes: int, sourceGpuBytes: int, prompts: seq<PromptMeta>)

  /** The data of one prompt; the source GPUs are there in version 2 only. */
  datatype PromptData = PromptData(
    inputIds: seq<nat>, decodeIds: seq<nat>, counts: seq<nat>, prefillRoutes: seq<nat>, decodeRoutes: seq<nat>,
    prefillGpus: seq<Byte>, decodeGpus: seq<Byte>)

  datatype Reader = Reader(header: Header, metadata: Metadata, index: seq<IndexEntry>)

  /** The metadata as the JSON decoder gives it; None when it refuses the bytes. */
  type Decoder = seq<Byte> -> Option<Metadata>

  // ---------------------------------------------------------------- opening

  predicate Region(offset: nat, length: nat, size: nat) {
    offset <= size && length <= size - offset
  }

  predicate HeaderInside(h: Header, size: nat) {
    && Region(h.metadataOffset, h.metadataLength, size) && Region(h.indexOffset, h.indexLength, size)
    && h.metadataOffset == HEADER_SIZE && h.dataOffset == h.metadataOffset + h.metadataLength
    && h.indexLength == h.numPrompts * INDEX_ENTRY_SIZE
  }

  predicate MetadataMatches(h: Header, m: Metadata) {
    && m.formatVersion == h.version && m.numPrompts == h.numPrompts && m.expertBytes == h.expertBytes
    && (h.version == 1 || m.sourceGpuBytes == 1)
    && |m.prompts| == m.numPrompts && |m.sparseLayers| != 0
    && m.expertBytes >= 0 && ExpertBytes(m.numExperts) == Some(m.expertBytes)
  }

  function EntryAt(file: seq<Byte>, h: Header, i: nat): IndexEntry
    requires HeaderInside(h, |file|) && i < h.numPrompts
  {
    DecodeEntry(file[h.indexOffset + i * INDEX_ENTRY_SIZE..h.indexOffset + i * INDEX_ENTRY_SIZE + INDEX_ENTRY_SIZE])
  }

  /** The index as far as its entries are numbered in order. */
  function ReadIndex(file: seq<Byte>, h: Header, n: nat): (r: Option<seq<IndexEntry>>)
    requires HeaderInside(h, |file|) && n <= h.numPrompts
    ensures r.Some? ==> |r.value| == n
  {
    if n == 0 then Some([])
    else
      var index := ReadIndex(file, h, n - 1);
      if index == None || EntryAt(file, h, n - 1).promptId != n - 1 then None
      else Some(index.value + [EntryAt(file, h, n - 1)])
  }

  function DimensionsOf(b: BlockHeader): Dimensions {
    Dimensions(b.inputTokens, b.decodeTokens, b.layers, b.experts, b.topK, b.expertBytes)
  }

  /** A block header against the index entry that points to it and the metadata. */
  predicate BlockMatches(b: BlockHeader, e: IndexEntry, m: Metadata, i: nat, version: nat)
    requires i < |m.prompts|
  {
    && b.promptId == i && b.inputTokens == e.inputTokens && b.decodeTokens == e.decodeTokens
    && b.layers == |m.sparseLayers| && b.experts == m.numExperts && b.topK == m.topK && b.expertBytes == m.expertBytes
    && BlockLength(DimensionsOf(b), version, SourceBytes(m)) == Some(e.length)
    && m.prompts[i].index == i && m.prompts[i].inputTokens == b.inputTokens &&
       m.prompts[i].decodeTokens == b.decodeTokens
  }

  function SourceBytes(m: Metadata): nat {
    if m.sourceGpuBytes < 0 then 0 else m.sourceGpuBytes
  }

  /** One entry of the index against the file. */
  predicate PromptOk(file: seq<Byte>, r: Reader, i: nat, expected: nat)
    requires i < |r.index| && |r.index| == |r.metadata.prompts|
  {
    var e := r.index[i];
    && e.offset == expected && Region(e.offset, e.length, |file|) && e.offset + e.length <= r.header.indexOffset
    && e.offset + BLOCK_HEADER_SIZE <= |file|
    && BlockMatches(DecodeBlockHeader(file[e.offset..e.offset + BLOCK_HEADER_SIZE]), e, r.metadata, i, r.header.version)
  }

  function PromptChecks(file: seq<Byte>, r: Reader): (nat, nat) -> bool {
    (i: nat, expected: nat) => i < |r.index| && |r.index| == |r.metadata.prompts| && PromptOk(file, r, i, expected)
  }

  /** The offset behind the first n blocks, if each of them passes its check where the one before it ends. */
  function OffsetAfter(index: seq<IndexEntry>, ok: (nat, nat) -> bool, start: nat, n: nat): Option<nat>
    requires n <= |index|
  {
    if n == 0 then Some(start)
    else
      var o := OffsetAfter(index, ok, start, n - 1);
      if o == None || !ok(n - 1, o.value) then None else Some(o.value + index[n - 1].length)
  }

  predicate Validate(file: seq<Byte>, r: Reader) {
    && r.header.dataOffset <= r.header.indexOffset
    && OffsetAfter(r.index, PromptChecks(file, r), r.header.dataOffset, |r.index|) == Some(r.header.indexOffset)
    && r.header.indexOffset + r.header.indexLength == |file|
  }

  /** Opens a file: None for every error the reader reports. */
  function Open(file: seq<Byte>, decode: Decoder): Option<Reader> {
    if |file| < HEADER_SIZE then None
    else
      var h := DecodeHeader(file[..HEADER_SIZE]);
      if h == None || !HeaderInside(h.value, |file|) then None
      else
        var m := decode(file[HEADER_SIZE..HEADER_SIZE + h.value.metadataLength]);
        if m == None || !MetadataMatches(h.value, m.value) then None
        else
          var index := ReadIndex(file, h.value, h.value.numPrompts);
          if index == None then None
          else
            var metadata := if h.value.version == 1 then m.value.(sourceGpuBytes := 0) else m.value;
            var r := Reader(h.value, metadata, index.value);
            if Validate(file, r) then Some(r) else None
  }

  /** The loop over the index with its moving offset. */
  method CheckBlocks(index: seq<IndexEntry>, check: (nat, nat) -> bool, start: nat) returns (o: Option<nat>)
    ensures o == OffsetAfter(index, check, start, |index|)
  {
    var expected := start;
    for i := 0 to |index|
      invariant OffsetAfter(index, check, start, i) == Some(expected)
    {
      if !check(i, expected) {
        StaysBad(index, check, start, i + 1, |index|);
        return None;
      }
      expected := expected + index[i].length;
    }
    return Some(expected);
  }

  method ValidateTrace(file: seq<Byte>, r: Reader) returns (ok: bool)
    ensures ok == Validate(file, r)
  {
    if r.header.dataOffset > r.header.indexOffset {
      return false;
    }
    var end := CheckBlocks(r.index, PromptChecks(file, r), r.header.dataOffset);
    return end == Some(r.header.indexOffset) && r.header.indexOffset + r.header.indexLength == |file|;
  }

  lemma {:induction false} StaysBad(index: seq<IndexEntry>, ok: (nat, nat) -> bool, start: nat, i: nat, n: nat)
    requires i <= n <= |index| && OffsetAfter(index, ok, start, i) == None
    ensures OffsetAfter(index, ok, start, n) == None
  {
    if i < n {
      StaysBad(index, ok, start, i, n - 1);
    }
  }

  // ---------------------------------------------------------------- cutting a block into its parts

  function Total(sizes: seq<nat>): nat {
    if sizes == [] then 0 else sizes[0] + Total(sizes[1..])
  }

  /** Reads parts of the given sizes one after the other; None for a short read and for unread data. */
  function Cut(section: seq<Byte>, sizes: seq<nat>): (r: Option<seq<seq<Byte>>>)
    ensures r.Some? ==> |r.value| == |sizes| && forall i :: 0 <= i < |sizes| ==> |r.value[i]| == sizes[i]
  {
    if sizes == [] then (if section == [] then Some([]) else None)
    else if sizes[0] > |section| then None
    else
      var rest := Cut(section[sizes[0]..], sizes[1..]);
      if rest == None then None else Some([section[..sizes[0]]] + rest.value)
  }

  function Joined(parts: seq<seq<Byte>>): seq<Byte> {
    if parts == [] then [] else parts[0] + Joined(parts[1..])
  }

  function SizesOf(parts: seq<seq<Byte>>): seq<nat> {
    seq(|parts|, i requires 0 <= i < |parts| => |parts[i]|)
  }

  /** Cutting gives back the parts that were joined. */
  lemma {:induction false} CutJoined(parts: seq<seq<Byte>>)
    ensures Cut(Joined(parts), SizesOf(parts)) == Some(parts)
  {
    if parts != [] {
      CutJoined(parts[1..]);
      assert SizesOf(parts)[1..] == SizesOf(parts[1..]);
      TwoParts(parts[0], Joined(parts[1..]));
      assert parts == [parts[0]] + parts[1..];
    }
  }

  /** Cutting succeeds exactly when the sizes add up to the section. */
  lemma {:induction false} CutIff(section: seq<Byte>, sizes: seq<nat>)
    ensures Cut(section, sizes).Some? <==> |section| == Total(sizes)
  {
    if sizes != [] && sizes[0] <= |section| {
      CutIff(section[sizes[0]..], sizes[1..]);
    }
  }

  // ---------------------------------------------------------------- reading a prompt

  function Sizes(m: Metadata, e: IndexEntry, version: nat): seq<nat>
    requires m.numExperts >= 0 && m.topK >= 0 && m.expertBytes >= 0
  {
    var layers := |m.sparseLayers|;
    [e.inputTokens * 4, e.decodeTokens * 4, layers * m.numExperts * 4,
     layers * e.inputTokens * m.topK * m.expertBytes, e.decodeTokens * layers * m.topK * m.expertBytes,
     if version >= 2 then layers * e.inputTokens else 0, if version >= 2 then e.decodeTokens * layers else 0]
  }

  predicate GoodGpus(gpus: seq<Byte>) {
    forall i :: 0 <= i < |gpus| ==> gpus[i] == 0xff || gpus[i] <= 127
  }

  /** The parts of a block as values; None for a short read, unread data or a bad source GPU. */
  function ReadParts(section: seq<Byte>, m: Metadata, e: IndexEntry, version: nat): Option<PromptData>
    requires m.numExperts >= 0 && m.topK >= 0 && m.expertBytes >= 0
  {
    var parts := Cut(section, Sizes(m, e, version));
    if parts == None then None else ValuesOf(parts.value, m, e)
  }

  function ValuesOf(parts: seq<seq<Byte>>, m: Metadata, e: IndexEntry): Option<PromptData>
    requires m.numExperts >= 0 && m.topK >= 0 && m.expertBytes >= 0 && |parts| == 7
    requires |parts[0]| == e.inputTokens * 4 && |parts[1]| == e.decodeTokens * 4 &&
             |parts[2]| == |m.sparseLayers| * m.numExperts * 4
    requires |parts[3]| == |m.sparseLayers| * e.inputTokens * m.topK * m.expertBytes
    requires |parts[4]| == e.decodeTokens * |m.sparseLayers| * m.topK * m.expertBytes
  {
    var layers := |m.sparseLayers|;
    if !GoodGpus(parts[5]) || !GoodGpus(parts[6]) then None
    else
      Some(PromptData(
        Unpack(parts[0], e.inputTokens, 4), Unpack(parts[1], e.decodeTokens, 4),
            Unpack(parts[2], layers * m.numExperts, 4),
        Unpack(parts[3], layers * e.inputTokens * m.topK, m.expertBytes),
        Unpack(parts[4], e.decodeTokens * layers * m.topK, m.expertBytes), parts[5], parts[6]))
  }

  /** One prompt of an open file; None for an ID outside the file and for a block that cannot be read. */
  function ReadPrompt(file: seq<Byte>, r: Reader, id: int): Option<PromptData> {
    if id < 0 || id >= |r.index| || r.metadata.numExperts < 0 || r.metadata.topK < 0 || r.metadata.expertBytes < 0 then
        None
    else
      var e := r.index[id];
      if e.length < BLOCK_HEADER_SIZE || e.offset + e.length > |file| then None
      else ReadParts(file[e.offset + BLOCK_HEADER_SIZE..e.offset + e.length], r.metadata, e, r.header.version)
  }

  /** Each part stands behind the parts before it. */
  lemma {:induction false} CutAt(section: seq<Byte>, sizes: seq<nat>, i: nat)
    requires Cut(section, sizes).Some? && i < |sizes|
    ensures var start := Total(sizes[..i]);
            start + sizes[i] <= |section| && Cut(section, sizes).value[i] == section[start..start + sizes[i]]
  {
    if i > 0 {
      CutAt(section[sizes[0]..], sizes[1..], i - 1);
      assert sizes[..i][1..] == sizes[1..][..i - 1];
      var start := Total(sizes[1..][..i - 1]);
      assert section[sizes[0]..][start..start + sizes[i]] == section[sizes[0] + start..sizes[0] + start + sizes[i]];
    }
  }

  lemma Starts(s: seq<nat>)
    requires |s| == 7
    ensures Total(s[..0]) == 0 && Total(s[..1]) == s[0] && Total(s[..2]) == s[0] + s[1]
    ensures Total(s[..3]) == s[0] + s[1] + s[2] && Total(s[..4]) == s[0] + s[1] + s[2] + s[3]
    ensures Total(s[..5]) == s[0] + s[1] + s[2] + s[3] + s[4]
    ensures Total(s[..6]) == s[0] + s[1] + s[2] + s[3] + s[4] + s[5]
  {
    StartAfter(s, 0);
    StartAfter(s, 1);
    StartAfter(s, 2);
    StartAfter(s, 3);
    StartAfter(s, 4);
    StartAfter(s, 5);
  }

  lemma {:induction false} StartAfter(s: seq<nat>, i: nat)
    requires i < |s|
    ensures Total(s[..i + 1]) == Total(s[..i]) + s[i]
  {
    if i == 0 {
      assert s[..1][1..] == [];
    } else {
      StartAfter(s[1..], i - 1);
      assert s[..i + 1][1..] == s[1..][..i] && s[..i][1..] == s[1..][..i - 1];
    }
  }

  /** The parts of a block in their order, as slices of it. */
  ghost predicate Sliced(s: seq<Byte>, n: seq<nat>, parts: seq<seq<Byte>>)
    requires |n| == 7
  {
    var a := n[0];
    var b := a + n[1];
    var c := b + n[2];
    var d := c + n[3];
    var e := d + n[4];
    var f := e + n[5];
    && |s| == f + n[6] && |parts| == 7
    && parts[0] == s[..a] && parts[1] == s[a..b] && parts[2] == s[b..c] && parts[3] == s[c..d] && parts[4] == s[d..e]
    && parts[5] == s[e..f] && parts[6] == s[f..]
  }

  lemma CutSlices(s: seq<Byte>, n: seq<nat>)
    requires |n| == 7 && Cut(s, n).Some?
    ensures Sliced(s, n, Cut(s, n).value)
  {
    Starts(n);
    CutIff(s, n);
    StartAfter(n, 6);
    assert n[..7] == n;
    CutAt(s, n, 0);
    CutAt(s, n, 1);
    CutAt(s, n, 2);
    CutAt(s, n, 3);
    CutAt(s, n, 4);
    CutAt(s, n, 5);
    CutAt(s, n, 6);
  }

  /** The values of the parts, in this order. */
  ghost predicate ValuesIn(parts: seq<seq<Byte>>, width: nat, data: PromptData) {
    && |parts| == 7
    && IsUnpacked(parts[0], 4, data.inputIds) && IsUnpacked(parts[1], 4, data.decodeIds)
    && IsUnpacked(parts[2], 4, data.counts) && IsUnpacked(parts[3], width, data.prefillRoutes)
    && IsUnpacked(parts[4], width, data.decodeRoutes) && data.prefillGpus == parts[5] && data.decodeGpus == parts[6]
  }

  lemma ValuesAreIn(parts: seq<seq<Byte>>, m: Metadata, e: IndexEntry)
    requires m.numExperts >= 0 && m.topK >= 0 && m.expertBytes >= 0 && |parts| == 7
    requires |parts[0]| == e.inputTokens * 4 && |parts[1]| == e.decodeTokens * 4 &&
             |parts[2]| == |m.sparseLayers| * m.numExperts * 4
    requires |parts[3]| == |m.sparseLayers| * e.inputTokens * m.topK * m.expertBytes
    requires |parts[4]| == e.decodeTokens * |m.sparseLayers| * m.topK * m.expertBytes
    ensures ValuesOf(parts, m, e).Some? ==> ValuesIn(parts, m.expertBytes, ValuesOf(parts, m, e).value)
  {
    var layers := |m.sparseLayers|;
    UnpackIsUnpacked(parts[0], e.inputTokens, 4);
    UnpackIsUnpacked(parts[1], e.decodeTokens, 4);
    UnpackIsUnpacked(parts[2], layers * m.numExperts, 4);
    UnpackIsUnpacked(parts[3], layers * e.inputTokens * m.topK, m.expertBytes);
    UnpackIsUnpacked(parts[4], e.decodeTokens * layers * m.topK, m.expertBytes);
  }

  lemma ReadPartsAt(s: seq<Byte>, m: Metadata, e: IndexEntry, version: nat) returns (parts: seq<seq<Byte>>)
    requires m.numExperts >= 0 && m.topK >= 0 && m.expertBytes >= 0 && ReadParts(s, m, e, version).Some?
    ensures Sliced(s, Sizes(m, e, version), parts)
    ensures ValuesIn(parts, m.expertBytes, ReadParts(s, m, e, version).value)
  {
    CutSlices(s, Sizes(m, e, version));
    parts := Cut(s, Sizes(m, e, version)).value;
    ValuesAreIn(parts, m, e);
  }

  /**
   What is read of a prompt stands behind its block header in this order: input IDs, decode IDs, counts, prefill routes,
   decode routes and the source GPUs of both phases.
   */
  lemma PromptIsAt(file: seq<Byte>, r: Reader, id: nat) returns (parts: seq<seq<Byte>>)
    requires ReadPrompt(file, r, id).Some?
    ensures r.metadata.numExperts >= 0 && r.metadata.topK >= 0 && r.metadata.expertBytes >= 0 && id < |r.index|
    ensures var e := r.index[id];
            && e.offset + BLOCK_HEADER_SIZE <= e.offset + e.length <= |file|
            && Sliced(file[e.offset + BLOCK_HEADER_SIZE..e.offset + e.length], Sizes(r.metadata, e, r.header.version),
                      parts)
            && ValuesIn(parts, r.metadata.expertBytes, ReadPrompt(file, r, id).value)
  {
    var e := r.index[id];
    parts := ReadPartsAt(file[e.offset + BLOCK_HEADER_SIZE..e.offset + e.length], r.metadata, e, r.header.version);
  }

  // ---------------------------------------------------------------- what holds of every accepted file

  lemma {:induction false} OffsetsInOrder(index: seq<IndexEntry>, ok: (nat, nat) -> bool, start: nat, n: nat, i: nat)
    requires i < n <= |index| && OffsetAfter(index, ok, start, n).Some?
    ensures OffsetAfter(index, ok, start, i).Some? && ok(i, OffsetAfter(index, ok, start, i).value)
    ensures OffsetAfter(index, ok, start, i + 1) == Some(OffsetAfter(index, ok, start, i).value + index[i].length)
  {
    if i < n - 1 {
      OffsetsInOrder(index, ok, start, n - 1, i);
    }
  }

  /** The blocks begin right behind the metadata, follow one another without a gap and end where the index begins. */
  ghost predicate Tiled(r: Reader, size: nat) {
    var n := |r.index|;
    && (n == 0 ==> r.header.dataOffset == r.header.indexOffset)
    && (n > 0 ==>
        r.index[0].offset == r.header.dataOffset &&
            r.index[n - 1].offset + r.index[n - 1].length == r.header.indexOffset)
    && (forall i :: 0 <= i < n - 1 ==> r.index[i + 1].offset == r.index[i].offset + r.index[i].length)
    && r.header.dataOffset == HEADER_SIZE + r.header.metadataLength
    && r.header.indexOffset + n * INDEX_ENTRY_SIZE == size
  }

  /** What opening a file has established. */
  ghost predicate Sound(file: seq<Byte>, r: Reader) {
    && Validate(file, r) && HeaderInside(r.header, |file|)
    && |r.index| == r.header.numPrompts && r.metadata.sourceGpuBytes == (if r.header.version == 1 then 0 else 1)
    && 1 <= r.header.version <= 2 && |r.metadata.sparseLayers| > 0
    && r.metadata.expertBytes >= 1 && ExpertBytes(r.metadata.numExperts) == Some(r.metadata.expertBytes)
  }

  lemma OpenedIsSound(file: seq<Byte>, decode: Decoder, r: Reader)
    requires Open(file, decode) == Some(r)
    ensures Sound(file, r)
  {
  }

  lemma CheckedPrompt(file: seq<Byte>, r: Reader, i: nat, o: nat)
    requires PromptChecks(file, r)(i, o)
    ensures i < |r.index| && |r.index| == |r.metadata.prompts| && r.index[i].offset == o && PromptOk(file, r, i, o)
  {
  }

  lemma BlockAt(file: seq<Byte>, r: Reader, i: nat)
    requires Validate(file, r) && i < |r.index|
    ensures |r.index| == |r.metadata.prompts| && PromptOk(file, r, i, r.index[i].offset)
  {
    var ok := PromptChecks(file, r);
    OffsetsInOrder(r.index, ok, r.header.dataOffset, |r.index|, i);
    CheckedPrompt(file, r, i, OffsetAfter(r.index, ok, r.header.dataOffset, i).value);
  }

  /** Checked blocks tile a region: a statement about the offsets alone. */
  lemma OffsetsTile(index: seq<IndexEntry>, ok: (nat, nat) -> bool, start: nat, end: nat)
    requires OffsetAfter(index, ok, start, |index|) == Some(end)
    requires forall i: nat, o: nat :: i < |index| && ok(i, o) ==> index[i].offset == o
    ensures |index| == 0 ==> start == end
    ensures |index| > 0 ==> index[0].offset == start && index[|index| - 1].offset + index[|index| - 1].length == end
    ensures forall i :: 0 <= i < |index| - 1 ==> index[i + 1].offset == index[i].offset + index[i].length
  {
    var n := |index|;
    if n > 0 {
      OffsetsInOrder(index, ok, start, n, 0);
      OffsetsInOrder(index, ok, start, n, n - 1);
    }
    forall i | 0 <= i < n - 1 ensures index[i + 1].offset == index[i].offset + index[i].length {
      OffsetsInOrder(index, ok, start, n, i);
      OffsetsInOrder(index, ok, start, n, i + 1);
    }
  }

  lemma SoundIsTiled(file: seq<Byte>, r: Reader)
    requires Sound(file, r)
    ensures Tiled(r, |file|)
  {
    var ok := PromptChecks(file, r);
    forall i: nat, o: nat | i < |r.index| && ok(i, o) ensures r.index[i].offset == o {
      CheckedPrompt(file, r, i, o);
    }
    OffsetsTile(r.index, ok, r.header.dataOffset, r.header.indexOffset);
  }

  lemma AcceptedFileIsTiled(file: seq<Byte>, decode: Decoder, r: Reader)
    requires Open(file, decode) == Some(r)
    ensures Tiled(r, |file|)
  {
    OpenedIsSound(file, decode, r);
    SoundIsTiled(file, r);
  }

  lemma Regroup(a: nat, b: nat, l: nat, k: nat, w: nat)
    ensures l * a * k * w + b * l * k * w == (a + b) * l * k * w
    ensures l * a + b * l == (a + b) * l
  {
  }

  lemma SevenParts(s: seq<nat>)
    requires |s| == 7
    ensures Total(s) == s[0] + s[1] + s[2] + s[3] + s[4] + s[5] + s[6]
  {
    TotalStep(s, 0);
    TotalStep(s, 1);
    TotalStep(s, 2);
    TotalStep(s, 3);
    TotalStep(s, 4);
    TotalStep(s, 5);
    TotalStep(s, 6);
    assert s[7..] == [];
  }

  lemma TotalStep(s: seq<nat>, i: nat)
    requires i < |s|
    ensures Total(s[i..]) == s[i] + Total(s[i + 1..]) && s[0..] == s
  {
  }

  /** The parts of a block are exactly as long as its checked length says. */
  lemma SizesAddUp(m: Metadata, e: IndexEntry, b: BlockHeader, i: nat, version: nat)
    requires i < |m.prompts| && BlockMatches(b, e, m, i, version) && (version >= 2 ==> m.sourceGpuBytes == 1)
    ensures m.numExperts >= 0 && m.topK >= 0 && m.expertBytes >= 0
    ensures e.length == BLOCK_HEADER_SIZE + Total(Sizes(m, e, version))
  {
    BlockLengthIsMath(DimensionsOf(b), version, SourceBytes(m));
    SevenParts(Sizes(m, e, version));
    Regroup(e.inputTokens, e.decodeTokens, |m.sparseLayers|, m.topK, m.expertBytes);
  }

  /** What one checked block gives the reader. */
  lemma CheckedBlock(file: seq<Byte>, r: Reader, i: nat)
    requires i < |r.index| && |r.index| == |r.metadata.prompts| && PromptOk(file, r, i, r.index[i].offset)
    requires r.header.version >= 2 ==> r.metadata.sourceGpuBytes == 1
    ensures Readable(file, r, i)
  {
    var e := r.index[i];
    SizesAddUp(r.metadata, e, DecodeBlockHeader(file[e.offset..e.offset + BLOCK_HEADER_SIZE]), i, r.header.version);
  }

  /** The block lies in the file and its parts fill it. */
  predicate Readable(file: seq<Byte>, r: Reader, i: nat)
    requires i < |r.index|
  {
    var e, m := r.index[i], r.metadata;
    && m.numExperts >= 0 && m.topK >= 0 && m.expertBytes >= 0
    && e.offset + e.length <= |file| && e.length == BLOCK_HEADER_SIZE + Total(Sizes(m, e, r.header.version))
  }

  function Section(file: seq<Byte>, r: Reader, i: nat): seq<Byte>
    requires i < |r.index| && Readable(file, r, i)
  {
    file[r.index[i].offset + BLOCK_HEADER_SIZE..r.index[i].offset + r.index[i].length]
  }

  lemma ReadableIsRead(file: seq<Byte>, r: Reader, i: nat)
    requires i < |r.index| && Readable(file, r, i)
    ensures Cut(Section(file, r, i), Sizes(r.metadata, r.index[i], r.header.version)).Some?
    ensures ReadPrompt(file, r, i) == ReadParts(Section(file, r, i), r.metadata, r.index[i], r.header.version)
  {
    CutIff(Section(file, r, i), Sizes(r.metadata, r.index[i], r.header.version));
  }

  lemma ReadPartsIff(section: seq<Byte>, m: Metadata, e: IndexEntry, version: nat)
    requires m.numExperts >= 0 && m.topK >= 0 && m.expertBytes >= 0 && Cut(section, Sizes(m, e, version)).Some?
    ensures var parts := Cut(section, Sizes(m, e, version)).value;
            ReadParts(section, m, e, version).Some? <==> GoodGpus(parts[5]) && GoodGpus(parts[6])
    ensures version == 1 ==> ReadParts(section, m, e, version).Some?
  {
  }

  /** Every prompt of an accepted file is read to its last byte; version 2 may still refuse its source GPUs. */
  lemma AcceptedPromptIsRead(file: seq<Byte>, decode: Decoder, r: Reader, i: nat)
    requires Open(file, decode) == Some(r) && i < |r.index|
    ensures Readable(file, r, i)
    ensures var parts := Cut(Section(file, r, i), Sizes(r.metadata, r.index[i], r.header.version));
            && parts.Some?
            && (ReadPrompt(file, r, i).Some? <==> GoodGpus(parts.value[5]) && GoodGpus(parts.value[6]))
    ensures r.header.version == 1 ==> ReadPrompt(file, r, i).Some?
  {
    OpenedIsSound(file, decode, r);
    BlockAt(file, r, i);
    CheckedBlock(file, r, i);
    ReadableIsRead(file, r, i);
    ReadPartsIff(Section(file, r, i), r.metadata, r.index[i], r.header.version);
  }

  // ---------------------------------------------------------------- what an accepted file agrees on

  lemma {:induction false} IndexIsRead(file: seq<Byte>, h: Header, n: nat, i: nat)
    requires HeaderInside(h, |file|) && n <= h.numPrompts && ReadIndex(file, h, n).Some? && i < n
    ensures ReadIndex(file, h, n).value[i] == EntryAt(file, h, i) && EntryAt(file, h, i).promptId == i
  {
    if i < n - 1 {
      IndexIsRead(file, h, n - 1, i);
    }
  }

  /** Index, metadata and block header of an accepted file say the same about a prompt. */
  ghost predicate Consistent(file: seq<Byte>, r: Reader, i: nat)
    requires i < |r.index|
  {
    var e, m := r.index[i], r.metadata;
    && e.promptId == i && |m.prompts| == |r.index|
    && m.prompts[i].index == i && m.prompts[i].inputTokens == e.inputTokens &&
       m.prompts[i].decodeTokens == e.decodeTokens
    && e.offset + BLOCK_HEADER_SIZE <= |file|
    && var b := DecodeBlockHeader(file[e.offset..e.offset + BLOCK_HEADER_SIZE]);
       && b.promptId == i && b.inputTokens == e.inputTokens && b.decodeTokens == e.decodeTokens
       && b.layers == |m.sparseLayers| && b.experts == m.numExperts && b.topK == m.topK
       && b.expertBytes == m.expertBytes == r.header.expertBytes
  }

  lemma AcceptedIsConsistent(file: seq<Byte>, decode: Decoder, r: Reader, i: nat)
    requires Open(file, decode) == Some(r) && i < |r.index|
    ensures Consistent(file, r, i)
    ensures HeaderInside(r.header, |file|) && i < r.header.numPrompts && r.index[i] == EntryAt(file, r.header, i)
    ensures r.metadata.formatVersion == r.header.version && r.metadata.numPrompts == |r.index| == r.header.numPrompts
  {
    OpenedIsSound(file, decode, r);
    IndexIsRead(file, r.header, r.header.numPrompts, i);
    BlockAt(file, r, i);
  }
}
