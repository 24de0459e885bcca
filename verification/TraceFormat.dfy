/** The fixed parts of a trace file (pkg/moetrace/format.go): header, index entries, widths and block lengths. */
module TraceFormat {
  import opened Arithmetic
  import opened Bytes
  import opened Common

  const HEADER_SIZE: nat := 112
  const INDEX_ENTRY_SIZE: nat := 32
  const BLOCK_HEADER_SIZE: nat := 32
  const MAX_UINT64: nat := 0xFFFF_FFFF_FFFF_FFFF

  function Magic(): (m: seq<Byte>)
    ensures |m| == 8
  {
    [0x4d, 0x4f, 0x45, 0x54, 0x52, 0x43, 0x30, 0x31]
  }

  /** The eight characters that begin every trace file. */
  lemma MagicSpells(i: nat)
    requires i < 8
    ensures Magic()[i] == "MOETRC01"[i] as int
  {
  }

  datatype Header = Header(
    version: nat, metadataOffset: nat, metadataLength: nat, dataOffset: nat, indexOffset: nat, indexLength: nat,
    sourceSize: nat, numPrompts: nat, expertBytes: nat, sha: seq<Byte>)

  datatype IndexEntry = IndexEntry(promptId: nat, offset: nat, length: nat, inputTokens: nat, decodeTokens: nat)

  /** The bytes of an expert ID: None for a count the format cannot hold. */
  function ExpertBytes(experts: int): Option<nat> {
    if experts < 1 then None else if experts <= 256 then Some(1) else if experts <= 65536 then Some(2) else None
  }

  /** The width is the least that holds every expert ID. */
  lemma ExpertBytesFit(experts: int)
    ensures ExpertBytes(experts).Some? <==> 1 <= experts <= Pow256(2)
    ensures ExpertBytes(experts).Some? ==>
              var w := ExpertBytes(experts).value;
              w >= 1 && experts <= Pow256(w) && (w > 1 ==> experts > Pow256(w - 1))
  {
  }

  // ---------------------------------------------------------------- the header

  function EncodeHeader(h: Header): (bs: seq<Byte>)
    ensures |bs| == 80 + |h.sha|
  {
    var t10 := LE(0, 4) + h.sha;
    var t9 := LE(INDEX_ENTRY_SIZE, 4) + t10;
    var t8 := LE(h.expertBytes, 4) + t9;
    var t7 := LE(h.numPrompts, 4) + t8;
    var t6 := LE(h.sourceSize, 8) + t7;
    var t5 := LE(h.indexLength, 8) + t6;
    var t4 := LE(h.indexOffset, 8) + t5;
    var t3 := LE(h.dataOffset, 8) + t4;
    var t2 := LE(h.metadataLength, 8) + t3;
    var t1 := LE(h.metadataOffset, 8) + t2;
    Magic() + (LE(h.version, 4) + (LE(HEADER_SIZE, 4) + t1))
  }

  /** Reads the header from the first bytes of a file; None for everything the reader refuses. */
  function DecodeHeader(buf: seq<Byte>): Option<Header>
    requires |buf| == HEADER_SIZE
  {
    if buf[0..8] != Magic() || FromLE(buf[12..16]) != HEADER_SIZE || FromLE(buf[72..76]) != INDEX_ENTRY_SIZE then None
    else
      var h := Header(
        FromLE(buf[8..12]), FromLE(buf[16..24]), FromLE(buf[24..32]), FromLE(buf[32..40]), FromLE(buf[40..48]),
        FromLE(buf[48..56]), FromLE(buf[56..64]), FromLE(buf[64..68]), FromLE(buf[68..72]), buf[80..112]);
      if h.version < 1 || h.version > 2 || (h.expertBytes != 1 && h.expertBytes != 2) then None else Some(h)
  }

  /** What DecodeHeader finds in an encoded header: every number modulo its width. */
  function Truncated(h: Header): Header {
    h.(version := FromLE(LE(h.version, 4)), metadataOffset := FromLE(LE(h.metadataOffset, 8)),
       metadataLength := FromLE(LE(h.metadataLength, 8)), dataOffset := FromLE(LE(h.dataOffset, 8)),
       indexOffset := FromLE(LE(h.indexOffset, 8)), indexLength := FromLE(LE(h.indexLength, 8)),
       sourceSize := FromLE(LE(h.sourceSize, 8)), numPrompts := FromLE(LE(h.numPrompts, 4)),
       expertBytes := FromLE(LE(h.expertBytes, 4)))
  }

  lemma HeaderParts(h: Header)
    requires |h.sha| == 32
    ensures var buf := EncodeHeader(h);
            && |buf| == HEADER_SIZE
            && buf[0..8] == Magic() && buf[8..12] == LE(h.version, 4) && buf[12..16] == LE(HEADER_SIZE, 4)
            && buf[16..24] == LE(h.metadataOffset, 8) && buf[24..32] == LE(h.metadataLength, 8)
            && buf[32..40] == LE(h.dataOffset, 8) && buf[40..48] == LE(h.indexOffset, 8) &&
               buf[48..56] == LE(h.indexLength, 8)
            && buf[56..64] == LE(h.sourceSize, 8) && buf[64..68] == LE(h.numPrompts, 4) &&
               buf[68..72] == LE(h.expertBytes, 4)
            && buf[72..76] == LE(INDEX_ENTRY_SIZE, 4) && buf[76..80] == LE(0, 4) && buf[80..112] == h.sha
  {
    var t10 := LE(0, 4) + h.sha;
    var t9 := LE(INDEX_ENTRY_SIZE, 4) + t10;
    var t8 := LE(h.expertBytes, 4) + t9;
    var t7 := LE(h.numPrompts, 4) + t8;
    var t6 := LE(h.sourceSize, 8) + t7;
    var t5 := LE(h.indexLength, 8) + t6;
    var t4 := LE(h.indexOffset, 8) + t5;
    var t3 := LE(h.dataOffset, 8) + t4;
    var t2 := LE(h.metadataLength, 8) + t3;
    var t1 := LE(h.metadataOffset, 8) + t2;
    var t0 := LE(HEADER_SIZE, 4) + t1;
    var t := LE(h.version, 4) + t0;
    var buf := EncodeHeader(h);
    assert buf == Magic() + t;
    ReadPart(buf, 0, Magic(), t);
    ReadPart(buf, 8, LE(h.version, 4), t0);
    ReadPart(buf, 12, LE(HEADER_SIZE, 4), t1);
    ReadPart(buf, 16, LE(h.metadataOffset, 8), t2);
    ReadPart(buf, 24, LE(h.metadataLength, 8), t3);
    ReadPart(buf, 32, LE(h.dataOffset, 8), t4);
    ReadPart(buf, 40, LE(h.indexOffset, 8), t5);
    ReadPart(buf, 48, LE(h.indexLength, 8), t6);
    ReadPart(buf, 56, LE(h.sourceSize, 8), t7);
    ReadPart(buf, 64, LE(h.numPrompts, 4), t8);
    ReadPart(buf, 68, LE(h.expertBytes, 4), t9);
    ReadPart(buf, 72, LE(INDEX_ENTRY_SIZE, 4), t10);
    ReadPart(buf, 76, LE(0, 4), h.sha);
  }

  predicate Acceptable(h: Header) {
    1 <= h.version <= 2 && (h.expertBytes == 1 || h.expertBytes == 2)
  }

  /** An encoded header is read back with every number modulo its width, and refused only for its version or width. */
  lemma HeaderIsRead(h: Header)
    requires |h.sha| == 32
    ensures |EncodeHeader(h)| == HEADER_SIZE
    ensures DecodeHeader(EncodeHeader(h)) == if Acceptable(Truncated(h)) then Some(Truncated(h)) else None
  {
    HeaderParts(h);
    Powers();
    LERoundTrip(HEADER_SIZE, 4);
    LERoundTrip(INDEX_ENTRY_SIZE, 4);
  }

  predicate HeaderFits(h: Header) {
    && |h.sha| == 32 && h.version <= MAX_UINT32 && h.numPrompts <= MAX_UINT32 && h.expertBytes <= MAX_UINT32
    && h.metadataOffset <= MAX_UINT64 && h.metadataLength <= MAX_UINT64 && h.dataOffset <= MAX_UINT64
    && h.indexOffset <= MAX_UINT64 && h.indexLength <= MAX_UINT64 && h.sourceSize <= MAX_UINT64
  }

  lemma HeaderRoundTrip(h: Header)
    requires HeaderFits(h) && Acceptable(h)
    ensures |EncodeHeader(h)| == HEADER_SIZE && DecodeHeader(EncodeHeader(h)) == Some(h)
  {
    HeaderIsRead(h);
    Powers();
    LERoundTrip(h.version, 4);
    LERoundTrip(h.metadataOffset, 8);
    LERoundTrip(h.metadataLength, 8);
    LERoundTrip(h.dataOffset, 8);
    LERoundTrip(h.indexOffset, 8);
    LERoundTrip(h.indexLength, 8);
    LERoundTrip(h.sourceSize, 8);
    LERoundTrip(h.numPrompts, 4);
    LERoundTrip(h.expertBytes, 4);
  }

  // ---------------------------------------------------------------- index entries

  function EncodeEntry(e: IndexEntry): (bs: seq<Byte>)
    ensures |bs| == INDEX_ENTRY_SIZE
  {
    var t3 := LE(e.inputTokens, 4) + LE(e.decodeTokens, 4);
    var t2 := LE(e.length, 8) + t3;
    var t1 := LE(e.offset, 8) + t2;
    LE(e.promptId, 4) + (LE(0, 4) + t1)
  }

  function DecodeEntry(buf: seq<Byte>): IndexEntry
    requires |buf| == INDEX_ENTRY_SIZE
  {
    IndexEntry(FromLE(buf[0..4]), FromLE(buf[8..16]), FromLE(buf[16..24]), FromLE(buf[24..28]), FromLE(buf[28..32]))
  }

  predicate EntryFits(e: IndexEntry) {
    && e.promptId <= MAX_UINT32 && e.inputTokens <= MAX_UINT32 && e.decodeTokens <= MAX_UINT32
    && e.offset <= MAX_UINT64 && e.length <= MAX_UINT64
  }

  /** Where the numbers of an index entry stand. */
  lemma EntryParts(e: IndexEntry)
    ensures var buf := EncodeEntry(e);
            && |buf| == INDEX_ENTRY_SIZE
            && buf[0..4] == LE(e.promptId, 4) && buf[4..8] == LE(0, 4) && buf[8..16] == LE(e.offset, 8)
            && buf[16..24] == LE(e.length, 8) && buf[24..28] == LE(e.inputTokens, 4)
            && buf[28..32] == LE(e.decodeTokens, 4)
  {
    var t3 := LE(e.inputTokens, 4) + LE(e.decodeTokens, 4);
    var t2 := LE(e.length, 8) + t3;
    var t1 := LE(e.offset, 8) + t2;
    var buf := EncodeEntry(e);
    var t0 := LE(0, 4) + t1;
    assert buf == LE(e.promptId, 4) + t0;
    ReadPart(buf, 0, LE(e.promptId, 4), t0);
    ReadPart(buf, 4, LE(0, 4), t1);
    ReadPart(buf, 8, LE(e.offset, 8), t2);
    ReadPart(buf, 16, LE(e.length, 8), t3);
    ReadPart(buf, 24, LE(e.inputTokens, 4), LE(e.decodeTokens, 4));
    assert buf[28..32] == LE(e.decodeTokens, 4);
  }

  lemma EntryRoundTrip(e: IndexEntry)
    requires EntryFits(e)
    ensures |EncodeEntry(e)| == INDEX_ENTRY_SIZE && DecodeEntry(EncodeEntry(e)) == e
  {
    EntryParts(e);
    Powers();
    LERoundTrip(e.promptId, 4);
    LERoundTrip(e.offset, 8);
    LERoundTrip(e.length, 8);
    LERoundTrip(e.inputTokens, 4);
    LERoundTrip(e.decodeTokens, 4);
  }

  // ---------------------------------------------------------------- block headers

  datatype BlockHeader = BlockHeader(
    promptId: nat, inputTokens: nat, decodeTokens: nat, layers: nat, experts: nat, topK: nat, expertBytes: nat)

  function EncodeBlockHeader(b: BlockHeader): (bs: seq<Byte>)
    ensures |bs| == BLOCK_HEADER_SIZE
  {
    Pack([b.promptId, b.inputTokens, b.decodeTokens, b.layers, b.experts, b.topK, b.expertBytes, 0], 4)
  }

  function DecodeBlockHeader(buf: seq<Byte>): BlockHeader
    requires |buf| == BLOCK_HEADER_SIZE
  {
    var v := Unpack(buf, 8, 4);
    BlockHeader(v[0], v[1], v[2], v[3], v[4], v[5], v[6])
  }

  predicate BlockHeaderFits(b: BlockHeader) {
    && b.promptId <= MAX_UINT32 && b.inputTokens <= MAX_UINT32 && b.decodeTokens <= MAX_UINT32 && b.layers <= MAX_UINT32
    && b.experts <= MAX_UINT32 && b.topK <= MAX_UINT32 && b.expertBytes <= MAX_UINT32
  }

  /** The seven numbers of a block header, and a zero, stand one after the other. */
  lemma BlockHeaderByte(b: BlockHeader, i: nat, j: nat)
    requires i < 8 && j < 4
    ensures var v := [b.promptId, b.inputTokens, b.decodeTokens, b.layers, b.experts, b.topK, b.expertBytes, 0][i];
            EncodeBlockHeader(b)[4 * i + j] == v / Pow256(j) % 256
  {
    PackByte([b.promptId, b.inputTokens, b.decodeTokens, b.layers, b.experts, b.topK, b.expertBytes, 0], 4, i, j);
  }

  lemma BlockHeaderRoundTrip(b: BlockHeader)
    requires BlockHeaderFits(b)
    ensures |EncodeBlockHeader(b)| == BLOCK_HEADER_SIZE && DecodeBlockHeader(EncodeBlockHeader(b)) == b
  {
    Powers();
    PackRoundTrip([b.promptId, b.inputTokens, b.decodeTokens, b.layers, b.experts, b.topK, b.expertBytes, 0], 4);
  }

  /** A block header never holds a number above 32 bits, so one that was larger is not read back. */
  lemma DecodedBlockFits(buf: seq<Byte>)
    requires |buf| == BLOCK_HEADER_SIZE
    ensures BlockHeaderFits(DecodeBlockHeader(buf))
  {
    Powers();
    UnpackFits(buf, 8, 4);
  }

  // ---------------------------------------------------------------- block lengths

  function CheckedMul(a: nat, b: nat): Option<nat> {
    if a != 0 && b > MAX_UINT64 / a then None else Some(a * b)
  }

  function CheckedAdd(a: nat, b: nat): Option<nat>
    requires a <= MAX_UINT64
  {
    if b > MAX_UINT64 - a then None else Some(a + b)
  }

  /** The checked operations succeed exactly when the result fits. */
  lemma CheckedMulIff(a: nat, b: nat)
    ensures CheckedMul(a, b) == if a * b <= MAX_UINT64 then Some(a * b) else None
  {
    if a != 0 {
      var q := MAX_UINT64 / a;
      DivModDef(MAX_UINT64, a);
      if b <= q {
        MulMonotone(b, q, a);
      } else {
        MulMonotone(q + 1, b, a);
        MulDistributes(q + 1, 1, a);
      }
    }
  }

  datatype Dimensions = Dimensions(inputTokens: nat, decodeTokens: nat, layers: nat, experts: nat, topK: nat,
                                   expertBytes: nat)

  function MathLength(d: Dimensions, version: nat, sourceBytes: nat): nat {
    var cells := (d.inputTokens + d.decodeTokens) * d.layers;
    BLOCK_HEADER_SIZE + d.inputTokens * 4 + d.decodeTokens * 4 + d.layers * d.experts * 4 +
        cells * d.topK * d.expertBytes +
    if version >= 2 then cells * sourceBytes else 0
  }

  /** A 64-bit result: None when it does not fit, and when a part of it did not. */
  function Mul(a: Option<nat>, b: nat): Option<nat> {
    if a == None then None else CheckedMul(a.value, b)
  }

  function Add(a: Option<nat>, b: Option<nat>): Option<nat> {
    if a == None || b == None || a.value > MAX_UINT64 then None else CheckedAdd(a.value, b.value)
  }

  /** The length of a prompt block, with every step checked for 64-bit overflow. */
  function BlockLength(d: Dimensions, version: nat, sourceBytes: nat): Option<nat> {
    var inputBytes := CheckedMul(d.inputTokens, 4);
    var decodeBytes := CheckedMul(d.decodeTokens, 4);
    var countBytes := Mul(CheckedMul(d.layers, d.experts), 4);
    var entries := Mul(Add(Some(d.inputTokens), Some(d.decodeTokens)), d.layers);
    var routeBytes := Mul(Mul(entries, d.topK), d.expertBytes);
    var total := Add(Add(Add(Add(Some(BLOCK_HEADER_SIZE), inputBytes), decodeBytes), countBytes), routeBytes);
    if version >= 2 then Add(total, Mul(entries, sourceBytes)) else total
  }

  function Fit(n: nat): Option<nat> {
    if n <= MAX_UINT64 then Some(n) else None
  }

  lemma MulIsProduct(a: nat, b: nat)
    ensures Mul(Fit(a), b) == if a <= MAX_UINT64 then Fit(a * b) else None
  {
    CheckedMulIff(a, b);
  }

  /** A product whose other factor is not zero fits only if the factor does. */
  lemma MulIsExact(a: nat, b: nat)
    requires b >= 1
    ensures Mul(Fit(a), b) == Fit(a * b) && a <= a * b
  {
    MulIsProduct(a, b);
    MulAtLeast(b, a);
  }

  lemma TotalFits(i: nat, d: nat, c: nat, r: nat, s: nat)
    ensures var total := Add(Add(Add(Add(Some(BLOCK_HEADER_SIZE), Fit(i)), Fit(d)), Fit(c)), Fit(r));
            total == Fit(BLOCK_HEADER_SIZE + i + d + c + r) &&
                Add(total, Fit(s)) == Fit(BLOCK_HEADER_SIZE + i + d + c + r + s)
  {
  }

  /** The number of positions in all layers, and of routes: products that are formed on the way to the length. */
  function Cells(d: Dimensions): nat {
    (d.inputTokens + d.decodeTokens) * d.layers
  }

  /** For any dimensions: the length is computed exactly when it and the two products on the way fit in 64 bits. */
  lemma BlockLengthIs(d: Dimensions, version: nat, sourceBytes: nat)
    ensures BlockLength(d, version, sourceBytes) ==
            if Cells(d) <= MAX_UINT64 && Cells(d) * d.topK <= MAX_UINT64 then Fit(MathLength(d, version, sourceBytes))
                else None
  {
    var all, cells := d.inputTokens + d.decodeTokens, Cells(d);
    CheckedMulIff(d.inputTokens, 4);
    CheckedMulIff(d.decodeTokens, 4);
    CheckedMulIff(d.layers, d.experts);
    MulIsExact(d.layers * d.experts, 4);
    MulIsProduct(all, d.layers);
    MulIsProduct(cells, d.topK);
    MulIsProduct(cells * d.topK, d.expertBytes);
    MulIsProduct(cells, sourceBytes);
    TotalFits(d.inputTokens * 4, d.decodeTokens * 4, d.layers * d.experts * 4, cells * d.topK * d.expertBytes,
              if version >= 2 then cells * sourceBytes else 0);
  }

  lemma RoutesAreCounted(d: Dimensions, version: nat, sourceBytes: nat, routeBytes: nat)
    requires routeBytes == Cells(d) * d.topK * d.expertBytes
    ensures MathLength(d, version, sourceBytes) >= routeBytes
  {
    NatProduct(d.layers, d.experts);
    NatProduct(Cells(d), sourceBytes);
  }

  /** With experts per token and a width for their IDs, it is computed exactly when the mathematical length fits. */
  lemma BlockLengthIff(d: Dimensions, version: nat, sourceBytes: nat)
    requires d.topK >= 1 && d.expertBytes >= 1
    ensures BlockLength(d, version, sourceBytes) == Fit(MathLength(d, version, sourceBytes))
  {
    BlockLengthIs(d, version, sourceBytes);
    MulIsExact(Cells(d), d.topK);
    MulIsExact(Cells(d) * d.topK, d.expertBytes);
    RoutesAreCounted(d, version, sourceBytes, Cells(d) * d.topK * d.expertBytes);
  }

  /** A length that fits is refused exactly when one of the products on the way does not fit. */
  lemma RefusedThoughItFitsIff(d: Dimensions, version: nat, sourceBytes: nat)
    requires MathLength(d, version, sourceBytes) <= MAX_UINT64
    ensures BlockLength(d, version, sourceBytes) == None <==> Cells(d) > MAX_UINT64 || Cells(d) * d.topK > MAX_UINT64
  {
    BlockLengthIs(d, version, sourceBytes);
  }

  /** Dimensions that a block header can hold, with an expert but none per token, whose short length is refused. */
  lemma BlockLengthNeedsTopK()
    ensures var d := Dimensions(MAX_UINT32, MAX_UINT32, MAX_UINT32, 1, 0, 1);
            BlockLength(d, 1, 0) == None && MathLength(d, 1, 0) <= MAX_UINT64
  {
    BlockLengthIs(Dimensions(MAX_UINT32, MAX_UINT32, MAX_UINT32, 1, 0, 1), 1, 0);
  }

  /** Whatever it is, a computed length is the mathematical one. */
  lemma BlockLengthIsMath(d: Dimensions, version: nat, sourceBytes: nat)
    ensures BlockLength(d, version, sourceBytes).Some? ==>
              BlockLength(d, version, sourceBytes).value == MathLength(d, version, sourceBytes) <= MAX_UINT64
  {
  }
}
