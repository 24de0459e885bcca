/** Writing trace files (pkg/moetrace/writer.go), and the round trip through the reader. */
module TraceWriter {
  import opened Bytes
  import opened Common
  import opened TraceFile
  import opened TraceFormat

  type Encoder = Metadata -> seq<Byte>

  /** A complete prompt as the writer takes it from its accumulator. */
  datatype Prompt = Prompt(index: nat, layers: nat, experts: nat, topK: nat, data: PromptData)

  predicate AllBelow(s: seq<nat>, bound: nat) {
    forall i :: 0 <= i < |s| ==> s[i] < bound
  }

  /** What every complete accumulator guarantees about its arrays. */
  predicate WellFormed(p: Prompt) {
    && |p.data.counts| == p.layers * p.experts
    && |p.data.prefillRoutes| == p.layers * |p.data.inputIds| * p.topK
    && |p.data.decodeRoutes| == |p.data.decodeIds| * p.layers * p.topK
    && AllBelow(p.data.inputIds, Pow256(4)) && AllBelow(p.data.decodeIds, Pow256(4)) &&
       AllBelow(p.data.counts, Pow256(4))
    && AllBelow(p.data.prefillRoutes, p.experts) && AllBelow(p.data.decodeRoutes, p.experts)
    && p.data.prefillGpus == [] && p.data.decodeGpus == []
  }

  function BlockHeaderOf(p: Prompt, width: nat): BlockHeader {
    BlockHeader(p.index, |p.data.inputIds|, |p.data.decodeIds|, p.layers, p.experts, p.topK, width)
  }

  function PartsOf(p: Prompt, width: nat): seq<seq<Byte>> {
    [Pack(p.data.inputIds, 4), Pack(p.data.decodeIds, 4), Pack(p.data.counts, 4),
     Pack(p.data.prefillRoutes, width), Pack(p.data.decodeRoutes, width), [], []]
  }

  function Block(p: Prompt, width: nat): seq<Byte> {
    EncodeBlockHeader(BlockHeaderOf(p, width)) + Joined(PartsOf(p, width))
  }

  /** A block and what the index says about it besides its place. */
  datatype Item = Item(bytes: seq<Byte>, id: nat, inputTokens: nat, decodeTokens: nat)

  function ItemOf(p: Prompt, width: nat): Item {
    Item(Block(p, width), p.index, |p.data.inputIds|, |p.data.decodeIds|)
  }

  function ItemsOf(ps: seq<Prompt>, width: nat): (r: seq<Item>)
    ensures |r| == |ps| && forall i :: 0 <= i < |ps| ==> r[i] == ItemOf(ps[i], width)
  {
    seq(|ps|, i requires 0 <= i < |ps| => ItemOf(ps[i], width))
  }

  function Blocks(items: seq<Item>): seq<Byte> {
    if items == [] then [] else Blocks(items[..|items| - 1]) + items[|items| - 1].bytes
  }

  function EntryOf(item: Item, offset: nat): IndexEntry {
    IndexEntry(item.id, offset, |item.bytes|, item.inputTokens, item.decodeTokens)
  }

  /** The index of blocks that begin at `base`. */
  function EntriesOf(items: seq<Item>, base: nat): (r: seq<IndexEntry>)
    ensures |r| == |items|
  {
    if items == [] then []
    else
      var n := |items| - 1;
      EntriesOf(items[..n], base) + [EntryOf(items[n], base + |Blocks(items[..n])|)]
  }

  function IndexBytes(index: seq<IndexEntry>): seq<Byte> {
    if index == [] then [] else IndexBytes(index[..|index| - 1]) + EncodeEntry(index[|index| - 1])
  }

  function HeaderOf(metadataLength: nat, blockBytes: nat, prompts: nat, width: nat, sourceSize: nat,
                    sha: seq<Byte>): Header {
    Header(1, HEADER_SIZE, metadataLength, HEADER_SIZE + metadataLength, HEADER_SIZE + metadataLength + blockBytes,
           prompts * INDEX_ENTRY_SIZE, sourceSize, prompts, width, sha)
  }

  /** The whole file. */
  function FileOf(metadata: seq<Byte>, items: seq<Item>, width: nat, sourceSize: nat, sha: seq<Byte>): seq<Byte> {
    var blocks := Blocks(items);
    EncodeHeader(HeaderOf(|metadata|, |blocks|, |items|, width, sourceSize, sha)) +
    (metadata + (blocks + IndexBytes(EntriesOf(items, HEADER_SIZE + |metadata|))))
  }

  // ---------------------------------------------------------------- the writer

  function Dims(p: Prompt, width: nat): Dimensions {
    Dimensions(|p.data.inputIds|, |p.data.decodeIds|, p.layers, p.experts, p.topK, width)
  }

  lemma JoinedSeven(a: seq<Byte>, b: seq<Byte>, c: seq<Byte>, d: seq<Byte>, e: seq<Byte>)
    ensures Joined([a, b, c, d, e, [], []]) == a + (b + (c + (d + e)))
  {
    var s: seq<seq<Byte>> := [a, b, c, d, e, [], []];
    JoinedAt(s, 0);
    JoinedAt(s, 1);
    JoinedAt(s, 2);
    JoinedAt(s, 3);
    JoinedAt(s, 4);
    JoinedAt(s, 5);
    JoinedAt(s, 6);
    EmptyConcat(e);
  }

  lemma JoinedAt(s: seq<seq<Byte>>, i: nat)
    requires i < |s|
    ensures Joined(s[i..]) == s[i] + Joined(s[i + 1..]) && s[0..] == s
    ensures i + 1 == |s| ==> Joined(s[i + 1..]) == []
  {
  }

  /** A block is as long as the checked length says. */
  lemma BlockSize(p: Prompt, width: nat)
    requires WellFormed(p)
    ensures |Block(p, width)| == MathLength(Dims(p, width), 1, 0)
  {
    JoinedSeven(Pack(p.data.inputIds, 4), Pack(p.data.decodeIds, 4), Pack(p.data.counts, 4),
                Pack(p.data.prefillRoutes, width), Pack(p.data.decodeRoutes, width));
    Regroup(|p.data.inputIds|, |p.data.decodeIds|, p.layers, p.topK, width);
  }

  /** A written block: its header, and the arrays in the order in which they are read. */
  lemma BlockLayout(p: Prompt, width: nat)
    requires WellFormed(p)
    ensures var block, n := Block(p, width), [|p.data.inputIds| * 4, |p.data.decodeIds| * 4, |p.data.counts| * 4,
                                              |p.data.prefillRoutes| * width, |p.data.decodeRoutes| * width, 0, 0];
            && |block| >= BLOCK_HEADER_SIZE && block[..BLOCK_HEADER_SIZE] == EncodeBlockHeader(BlockHeaderOf(p, width))
            && Sliced(block[BLOCK_HEADER_SIZE..], n, PartsOf(p, width))
  {
    var parts := PartsOf(p, width);
    CutJoined(parts);
    TwoParts(EncodeBlockHeader(BlockHeaderOf(p, width)), Joined(parts));
    assert SizesOf(parts) == [|p.data.inputIds| * 4, |p.data.decodeIds| * 4, |p.data.counts| * 4,
                              |p.data.prefillRoutes| * width, |p.data.decodeRoutes| * width, 0, 0];
    CutSlices(Joined(parts), SizesOf(parts));
  }

  /** The part of the file that the writer appends to. */
  class Writer {
    const metadataBytes: seq<Byte>
    const numPrompts: nat
    const width: nat
    var file: seq<Byte>
    var offset: nat
    var index: seq<IndexEntry>
    ghost var items: seq<Item>

    ghost predicate Valid()
      reads this
    {
      && (width == 1 || width == 2)
      && offset == |file| && |file| >= HEADER_SIZE
      && file[HEADER_SIZE..] == metadataBytes + Blocks(items)
      && index == EntriesOf(items, HEADER_SIZE + |metadataBytes|)
    }

    constructor (metadata: Metadata, encode: Encoder)
      requires metadata.numPrompts >= 0 && (metadata.expertBytes == 1 || metadata.expertBytes == 2)
      ensures Valid() && items == [] && metadataBytes == encode(metadata)
      ensures width == metadata.expertBytes && numPrompts == metadata.numPrompts
    {
      metadataBytes, numPrompts, width := encode(metadata), metadata.numPrompts, metadata.expertBytes;
      file := seq(HEADER_SIZE, _ => 0) + encode(metadata);
      offset := HEADER_SIZE + |encode(metadata)|;
      index, items := [], [];
      new;
      EmptyConcat(metadataBytes);
    }

    method Write(data: seq<Byte>)
      modifies this`file, this`offset
      ensures file == old(file) + data && offset == old(offset) + |data|
    {
      file := file + data;
      offset := offset + |data|;
    }

    /** Writes integers of the width for expert IDs; refuses one that does not fit in a single byte. */
    method WriteExperts(values: seq<nat>) returns (ok: bool)
      modifies this`file, this`offset
      ensures ok <==> width != 1 || AllBelow(values, 256)
      ensures ok ==> file == old(file) + Pack(values, if width == 1 then 1 else 2)
      ensures ok ==> offset == old(offset) + |values| * (if width == 1 then 1 else 2)
    {
      if width == 1 {
        for i := 0 to |values|
          invariant forall k :: 0 <= k < i ==> values[k] < 256
        {
          if values[i] > 255 {
            return false;
          }
        }
      }
      var buf := PackSlice(values, if width == 1 then 1 else 2);
      Write(buf);
      return true;
    }

    method WriteBlock(p: Prompt) returns (ok: bool)
      requires (width == 1 || width == 2) &&
               (width == 1 ==> AllBelow(p.data.prefillRoutes, 256) && AllBelow(p.data.decodeRoutes, 256))
      modifies this`file, this`offset
      ensures ok && file == old(file) + Block(p, width) && offset == old(offset) + |Block(p, width)|
    {
      ghost var before := file;
      Write(EncodeBlockHeader(BlockHeaderOf(p, width)));
      var buf := PackSlice(p.data.inputIds, 4);
      Write(buf);
      buf := PackSlice(p.data.decodeIds, 4);
      Write(buf);
      buf := PackSlice(p.data.counts, 4);
      Write(buf);
      ok := WriteExperts(p.data.prefillRoutes);
      if !ok {
        return;
      }
      ok := WriteExperts(p.data.decodeRoutes);
      FiveWrites(before, p, width);
    }

    /** Appends the block of one prompt and its index entry. */
    method WritePrompt(p: Prompt) returns (ok: bool)
      requires Valid() && WellFormed(p) && p.experts <= Pow256(width)
      modifies this
      ensures ok <==> p.index == |old(index)| && BlockLength(Dims(p, width), 1, 0).Some?
      ensures ok ==> Valid() && items == old(items) + [ItemOf(p, width)]
    {
      if p.index != |index| {
        return false;
      }
      var start := offset;
      ghost var before := file;
      Powers();
      ok := WriteBlock(p);
      BlockSize(p, width);
      BlockLengthIsMath(Dims(p, width), 1, 0);
      var expected := BlockLength(Dims(p, width), 1, 0);
      if !ok || expected == None || offset - start != expected.value {
        return false;
      }
      AddEntry(IndexEntry(p.index, start, offset - start, |p.data.inputIds|, |p.data.decodeIds|), before,
               ItemOf(p, width));
      return true;
    }

    /** Enters the block just written into the index. */
    method AddEntry(entry: IndexEntry, ghost before: seq<Byte>, ghost item: Item)
      requires (width == 1 || width == 2) && |before| >= HEADER_SIZE &&
               before[HEADER_SIZE..] == metadataBytes + Blocks(items)
      requires index == EntriesOf(items, HEADER_SIZE + |metadataBytes|)
      requires file == before + item.bytes && offset == |file| && entry == EntryOf(item, |before|)
      modifies this`index, this`items
      ensures Valid() && items == old(items) + [item]
    {
      AppendItem(items, item, HEADER_SIZE + |metadataBytes|);
      AppendBlock(before, metadataBytes, Blocks(items), item.bytes);
      index := index + [entry];
      items := items + [item];
    }

    method WriteIndex()
      modifies this`file, this`offset
      ensures file == old(file) + IndexBytes(index)
    {
      ghost var before := file;
      TakeAll(index);
      EmptyConcat(file);
      for i := 0 to |index|
        invariant file == before + IndexBytes(index[..i])
      {
        TakeNext(index, i);
        Associative(before, IndexBytes(index[..i]), EncodeEntry(index[i]));
        Write(EncodeEntry(index[i]));
      }
    }

    /** Writes the index and then the header in front of everything. */
    method Finish(sourceSize: nat, sha: seq<Byte>) returns (ok: bool)
      requires Valid() && |sha| == 32
      modifies this`file, this`offset
      ensures ok <==> |index| == numPrompts
      ensures ok ==> file == FileOf(metadataBytes, items, width, sourceSize, sha)
    {
      var indexOffset := offset;
      ghost var before := file;
      WriteIndex();
      if |index| != numPrompts {
        return false;
      }
      var h := Header(1, HEADER_SIZE, |metadataBytes|, HEADER_SIZE + |metadataBytes|, indexOffset,
                      |index| * INDEX_ENTRY_SIZE, sourceSize, numPrompts, width, sha);
      AppendBlock(before, metadataBytes, Blocks(items), IndexBytes(index));
      file := EncodeHeader(h) + file[HEADER_SIZE..];
      return true;
    }
  }

  lemma AppendBlock(file: seq<Byte>, metadata: seq<Byte>, blocks: seq<Byte>, block: seq<Byte>)
    requires |file| >= HEADER_SIZE && file[HEADER_SIZE..] == metadata + blocks
    ensures (file + block)[HEADER_SIZE..] == metadata + (blocks + block)
    ensures |file| == HEADER_SIZE + |metadata| + |blocks|
  {
  }

  lemma FiveWrites(before: seq<Byte>, p: Prompt, width: nat)
    ensures before + EncodeBlockHeader(BlockHeaderOf(p, width)) + Pack(p.data.inputIds, 4) + Pack(p.data.decodeIds, 4) +
            Pack(p.data.counts, 4) + Pack(p.data.prefillRoutes, width) + Pack(p.data.decodeRoutes, width) ==
                before + Block(p, width)
  {
    var h, a, b, c, d, e :=
        EncodeBlockHeader(BlockHeaderOf(p, width)), Pack(p.data.inputIds, 4), Pack(p.data.decodeIds, 4),
        Pack(p.data.counts, 4), Pack(p.data.prefillRoutes, width), Pack(p.data.decodeRoutes, width);
    JoinedSeven(a, b, c, d, e);
    SixParts(before, h, a, b, c, d, e);
  }

  lemma SixParts<T>(x: seq<T>, h: seq<T>, a: seq<T>, b: seq<T>, c: seq<T>, d: seq<T>, e: seq<T>)
    ensures x + h + a + b + c + d + e == x + (h + (a + (b + (c + (d + e)))))
  {
  }

  /** One more item: one more block, and one more entry that points to it. */
  lemma AppendItem(items: seq<Item>, item: Item, base: nat)
    ensures Blocks(items + [item]) == Blocks(items) + item.bytes
    ensures EntriesOf(items + [item], base) == EntriesOf(items, base) + [EntryOf(item, base + |Blocks(items)|)]
  {
  }

  // ---------------------------------------------------------------- where everything is in the file

  lemma FileParts(metadata: seq<Byte>, items: seq<Item>, width: nat, sourceSize: nat, sha: seq<Byte>)
    requires |sha| == 32
    ensures var file := FileOf(metadata, items, width, sourceSize, sha);
            var data, index := HEADER_SIZE + |metadata|, HEADER_SIZE + |metadata| + |Blocks(items)|;
            && |file| == index + |IndexBytes(EntriesOf(items, data))|
            && file[..HEADER_SIZE] ==
               EncodeHeader(HeaderOf(|metadata|, |Blocks(items)|, |items|, width, sourceSize, sha))
            && file[HEADER_SIZE..data] == metadata
            && file[data..index] == Blocks(items)
            && file[index..] == IndexBytes(EntriesOf(items, data))
  {
    var file := FileOf(metadata, items, width, sourceSize, sha);
    var data, blocks := HEADER_SIZE + |metadata|, Blocks(items);
    var h := HeaderOf(|metadata|, |blocks|, |items|, width, sourceSize, sha);
    var x := IndexBytes(EntriesOf(items, data));
    FourParts(EncodeHeader(h), metadata, blocks, x);
  }

  lemma FourParts<T>(a: seq<T>, b: seq<T>, c: seq<T>, d: seq<T>)
    ensures var s := a + (b + (c + d));
            && |s| == |a| + |b| + |c| + |d| && s[..|a|] == a && s[|a|..|a| + |b|] == b
            && s[|a| + |b|..|a| + |b| + |c|] == c && s[|a| + |b| + |c|..] == d
  {
    ThreeParts(a, b, c + d);
    var s := a + (b + (c + d));
    assert s == (a + b) + (c + d);
    ThreeParts(a + b, c, d);
  }

  lemma ThreeParts<T>(a: seq<T>, b: seq<T>, c: seq<T>)
    ensures var s := a + (b + c);
            && |s| == |a| + |b| + |c| && s[..|a|] == a && s[|a|..|a| + |b|] == b && s[|a| + |b|..] == c
  {
  }

  lemma {:induction false} BlockInBlocks(items: seq<Item>, n: nat, i: nat)
    requires i < n <= |items|
    ensures var o := |Blocks(items[..i])|;
            && o + |items[i].bytes| <= |Blocks(items[..n])|
            && Blocks(items[..n])[o..o + |items[i].bytes|] == items[i].bytes
  {
    TakeNext(items, n - 1);
    var front := Blocks(items[..n - 1]);
    if i < n - 1 {
      BlockInBlocks(items, n - 1, i);
      SliceOfFront(front, items[n - 1].bytes, |Blocks(items[..i])|, |items[i].bytes|);
    } else {
      TwoParts(front, items[i].bytes);
    }
  }

  lemma SliceOfFront<T>(a: seq<T>, b: seq<T>, o: nat, n: nat)
    requires o + n <= |a|
    ensures (a + b)[o..o + n] == a[o..o + n]
  {
  }

  lemma SliceOfPart<T>(s: seq<T>, from: nat, to: nat, o: nat, n: nat)
    requires from <= to <= |s| && o + n <= to - from
    ensures s[from..to][o..o + n] == s[from + o..from + o + n]
  {
    var t, u := s[from..to][o..o + n], s[from + o..from + o + n];
    forall k | 0 <= k < n ensures t[k] == u[k] {
    }
  }

  lemma {:induction false} EntryInIndex(items: seq<Item>, base: nat, n: nat, i: nat)
    requires i < n <= |items|
    ensures EntriesOf(items[..n], base)[i] == EntryOf(items[i], base + |Blocks(items[..i])|)
  {
    TakeNext(items, n - 1);
    if i < n - 1 {
      EntryInIndex(items, base, n - 1, i);
    }
  }

  lemma {:induction false} EntryBytesAt(index: seq<IndexEntry>, n: nat, i: nat)
    requires i < n <= |index|
    ensures |IndexBytes(index[..n])| == n * INDEX_ENTRY_SIZE
    ensures IndexBytes(index[..n])[i * INDEX_ENTRY_SIZE..i * INDEX_ENTRY_SIZE + INDEX_ENTRY_SIZE] ==
            EncodeEntry(index[i])
  {
    TakeNext(index, n - 1);
    var front := IndexBytes(index[..n - 1]);
    IndexSize(index[..n - 1]);
    if i < n - 1 {
      EntryBytesAt(index, n - 1, i);
      SliceOfFront(front, EncodeEntry(index[n - 1]), i * INDEX_ENTRY_SIZE, INDEX_ENTRY_SIZE);
    } else {
      TwoParts(front, EncodeEntry(index[i]));
    }
  }

  lemma {:induction false} IndexSize(index: seq<IndexEntry>)
    ensures |IndexBytes(index)| == |index| * INDEX_ENTRY_SIZE
  {
    if index != [] {
      IndexSize(index[..|index| - 1]);
    }
  }

  // ---------------------------------------------------------------- the round trip

  /** What the converter has checked about its source, and made of it. */
  ghost predicate Matching(m: Metadata, ps: seq<Prompt>) {
    && m.formatVersion == 1 && m.sourceGpuBytes == 0 && |m.sparseLayers| >= 1
    && m.expertBytes >= 0 && ExpertBytes(m.numExperts) == Some(m.expertBytes)
    && m.numPrompts == |ps| == |m.prompts|
    && forall i :: 0 <= i < |ps| ==> MatchingPrompt(m, ps[i], i)
  }

  ghost predicate MatchingPrompt(m: Metadata, p: Prompt, i: nat)
    requires i < |m.prompts|
  {
    && WellFormed(p) && p.index == i && p.layers == |m.sparseLayers| && p.experts == m.numExperts && p.topK == m.topK
    && 1 <= p.topK <= p.experts && |p.data.inputIds| <= MAX_UINT32 && |p.data.decodeIds| <= MAX_UINT32
    && m.prompts[i].index == i && m.prompts[i].inputTokens == |p.data.inputIds| &&
       m.prompts[i].decodeTokens == |p.data.decodeIds|
  }

  predicate ReadsAs(m: Metadata, p: Prompt, e: IndexEntry) {
    && WellFormed(p) && p.layers == |m.sparseLayers| && p.experts == m.numExperts && p.topK == m.topK
    && m.expertBytes >= 0 && p.experts <= Pow256(m.expertBytes)
    && e.inputTokens == |p.data.inputIds| && e.decodeTokens == |p.data.decodeIds|
  }

  lemma PartSizes(m: Metadata, p: Prompt, e: IndexEntry)
    requires ReadsAs(m, p, e)
    ensures SizesOf(PartsOf(p, m.expertBytes)) == Sizes(m, e, 1)
  {
  }

  lemma PartValues(m: Metadata, p: Prompt, e: IndexEntry)
    requires ReadsAs(m, p, e)
    ensures ValuesOf(PartsOf(p, m.expertBytes), m, e) == Some(p.data)
  {
    var w, layers := m.expertBytes, |m.sparseLayers|;
    PartValue(p.data.inputIds, e.inputTokens, 4, Pow256(4));
    PartValue(p.data.decodeIds, e.decodeTokens, 4, Pow256(4));
    PartValue(p.data.counts, layers * m.numExperts, 4, Pow256(4));
    PartValue(p.data.prefillRoutes, layers * e.inputTokens * m.topK, w, p.experts);
    PartValue(p.data.decodeRoutes, e.decodeTokens * layers * m.topK, w, p.experts);
    Assemble(Pack(p.data.inputIds, 4), Pack(p.data.decodeIds, 4), Pack(p.data.counts, 4),
             Pack(p.data.prefillRoutes, w), Pack(p.data.decodeRoutes, w), m, e, p.data);
  }

  lemma Assemble(a: seq<Byte>, b: seq<Byte>, c: seq<Byte>, d: seq<Byte>, f: seq<Byte>, m: Metadata, e: IndexEntry,
                 data: PromptData)
    requires m.numExperts >= 0 && m.topK >= 0 && m.expertBytes >= 0
    requires |a| == e.inputTokens * 4 && |b| == e.decodeTokens * 4 && |c| == |m.sparseLayers| * m.numExperts * 4
    requires |d| == |m.sparseLayers| * e.inputTokens * m.topK * m.expertBytes
    requires |f| == e.decodeTokens * |m.sparseLayers| * m.topK * m.expertBytes
    requires Unpack(a, e.inputTokens, 4) == data.inputIds && Unpack(b, e.decodeTokens, 4) == data.decodeIds
    requires Unpack(c, |m.sparseLayers| * m.numExperts, 4) == data.counts
    requires Unpack(d, |m.sparseLayers| * e.inputTokens * m.topK, m.expertBytes) == data.prefillRoutes
    requires Unpack(f, e.decodeTokens * |m.sparseLayers| * m.topK, m.expertBytes) == data.decodeRoutes
    requires data.prefillGpus == [] && data.decodeGpus == []
    ensures ValuesOf([a, b, c, d, f, [], []], m, e) == Some(data)
  {
  }

  lemma PartValue(values: seq<nat>, n: nat, w: nat, bound: nat)
    requires |values| == n && AllBelow(values, bound) && bound <= Pow256(w)
    ensures |Pack(values, w)| == n * w && Unpack(Pack(values, w), n, w) == values
  {
    PackRoundTrip(values, w);
  }

  /** The parts of a written block, read back. */
  lemma PartsRoundTrip(m: Metadata, p: Prompt, e: IndexEntry)
    requires ReadsAs(m, p, e)
    ensures ReadParts(Joined(PartsOf(p, m.expertBytes)), m, e, 1) == Some(p.data)
  {
    CutJoined(PartsOf(p, m.expertBytes));
    PartSizes(m, p, e);
    PartValues(m, p, e);
  }

  lemma TailSlice<T>(s: seq<T>, from: nat, o: nat, n: nat)
    requires from + o + n <= |s|
    ensures s[from..][o..o + n] == s[from + o..from + o + n]
  {
  }

  // The index, as it is read back.

  ghost predicate IndexLaid(file: seq<Byte>, h: Header, index: seq<IndexEntry>) {
    && HeaderInside(h, |file|) && h.numPrompts == |index| && file[h.indexOffset..] == IndexBytes(index)
    && forall i :: 0 <= i < |index| ==> EntryFits(index[i]) && index[i].promptId == i
  }

  lemma SliceOfTail<T>(s: seq<T>, tail: seq<T>, from: nat, o: nat, n: nat)
    requires from <= |s| && s[from..] == tail && o + n <= |tail|
    ensures from + o + n <= |s| && s[from + o..from + o + n] == tail[o..o + n]
  {
    TailSlice(s, from, o, n);
  }

  lemma EntryBytesIn(index: seq<IndexEntry>, i: nat, o: nat)
    requires i < |index| && o == i * INDEX_ENTRY_SIZE
    ensures o + INDEX_ENTRY_SIZE <= |IndexBytes(index)| &&
            IndexBytes(index)[o..o + INDEX_ENTRY_SIZE] == EncodeEntry(index[i])
  {
    TakeAll(index);
    EntryBytesAt(index, |index|, i);
  }

  lemma EntryIsThere(file: seq<Byte>, from: nat, index: seq<IndexEntry>, i: nat, o: nat)
    requires from <= |file| && file[from..] == IndexBytes(index) && i < |index| && o == i * INDEX_ENTRY_SIZE
    ensures from + o + INDEX_ENTRY_SIZE <= |file| &&
            file[from + o..from + o + INDEX_ENTRY_SIZE] == EncodeEntry(index[i])
  {
    EntryBytesIn(index, i, o);
    SliceOfTail(file, IndexBytes(index), from, o, INDEX_ENTRY_SIZE);
  }

  lemma EntryIsRead(file: seq<Byte>, h: Header, index: seq<IndexEntry>, i: nat)
    requires IndexLaid(file, h, index) && i < |index|
    ensures EntryAt(file, h, i) == index[i]
  {
    EntryIsThere(file, h.indexOffset, index, i, i * INDEX_ENTRY_SIZE);
    EntryRoundTrip(index[i]);
  }

  lemma {:induction false} IndexIsRead(file: seq<Byte>, h: Header, index: seq<IndexEntry>, n: nat)
    requires IndexLaid(file, h, index) && n <= |index|
    ensures ReadIndex(file, h, n) == Some(index[..n])
  {
    if n > 0 {
      IndexIsRead(file, h, index, n - 1);
      EntryIsRead(file, h, index, n - 1);
      TakeNext(index, n - 1);
    }
  }

  // The blocks, as they are checked and read back.

  lemma BlockIsThere(file: seq<Byte>, from: nat, to: nat, items: seq<Item>, i: nat)
    requires from <= to <= |file| && file[from..to] == Blocks(items) && i < |items|
    ensures var o := from + |Blocks(items[..i])|;
            o + |items[i].bytes| <= to && file[o..o + |items[i].bytes|] == items[i].bytes
  {
    TakeAll(items);
    BlockInBlocks(items, |items|, i);
    SliceOfPart(file, from, to, |Blocks(items[..i])|, |items[i].bytes|);
  }

  /** A block lies at an offset of the file and its index entry says so. */
  ghost predicate ItemLaid(file: seq<Byte>, r: Reader, item: Item, i: nat) {
    && i < |r.index| && r.index[i] == EntryOf(item, r.index[i].offset)
    && r.index[i].offset + |item.bytes| <= r.header.indexOffset <= |file| <= MAX_UINT64
    && file[r.index[i].offset..r.index[i].offset + |item.bytes|] == item.bytes
  }

  /** The reader's metadata describes the prompt. */
  ghost predicate Described(r: Reader, p: Prompt, i: nat) {
    && i < |r.metadata.prompts| == |r.index| && r.header.version == 1 && r.metadata.sourceGpuBytes == 0
    && 1 <= r.metadata.expertBytes <= 2 && p.experts <= Pow256(r.metadata.expertBytes) &&
       MatchingPrompt(r.metadata, p, i)
  }

  lemma BlockSlices(file: seq<Byte>, o: nat, p: Prompt, width: nat)
    requires o + |Block(p, width)| <= |file| && file[o..o + |Block(p, width)|] == Block(p, width)
    ensures file[o..o + BLOCK_HEADER_SIZE] == EncodeBlockHeader(BlockHeaderOf(p, width))
    ensures file[o + BLOCK_HEADER_SIZE..o + |Block(p, width)|] == Joined(PartsOf(p, width))
  {
    TwoSlices(file, o, EncodeBlockHeader(BlockHeaderOf(p, width)), Joined(PartsOf(p, width)));
  }

  lemma TwoSlices<T>(s: seq<T>, o: nat, a: seq<T>, b: seq<T>)
    requires o + |a| + |b| <= |s| && s[o..o + |a| + |b|] == a + b
    ensures s[o..o + |a|] == a && s[o + |a|..o + |a| + |b|] == b
  {
    var t := s[o..o + |a| + |b|];
    assert s[o..o + |a|] == t[..|a|];
    assert s[o + |a|..o + |a| + |b|] == t[|a|..];
    TwoParts(a, b);
  }

  /** The block header of a prompt against its index entry and the metadata, when the layers fit in 32 bits. */
  lemma BlockHeaderMatches(m: Metadata, p: Prompt, i: nat, e: IndexEntry)
    requires i < |m.prompts| && i <= MAX_UINT32 && MatchingPrompt(m, p, i) && m.expertBytes >= 1 &&
             m.sourceGpuBytes == 0
    requires e.length == MathLength(Dims(p, m.expertBytes), 1, 0) <= MAX_UINT64
    requires e.inputTokens == |p.data.inputIds| && e.decodeTokens == |p.data.decodeIds|
    ensures BlockMatches(BlockHeaderOf(p, m.expertBytes), e, m, i, 1)
  {
    BlockLengthIff(Dims(p, m.expertBytes), 1, 0);
  }

  lemma PromptPasses(file: seq<Byte>, r: Reader, p: Prompt, i: nat, item: Item)
    requires Described(r, p, i) && ItemLaid(file, r, item, i) && item == ItemOf(p, r.metadata.expertBytes)
    requires i <= MAX_UINT32 && p.layers <= MAX_UINT32
    ensures PromptOk(file, r, i, r.index[i].offset)
  {
    var e, w := r.index[i], r.metadata.expertBytes;
    BlockSlices(file, e.offset, p, w);
    Powers();
    assert p.experts <= MAX_UINT32;
    BlockHeaderRoundTrip(BlockHeaderOf(p, w));
    BlockSize(p, w);
    BlockHeaderMatches(r.metadata, p, i, e);
  }

  lemma LaidReadsAs(m: Metadata, p: Prompt, i: nat, e: IndexEntry)
    requires i < |m.prompts| && MatchingPrompt(m, p, i) && m.expertBytes >= 1 && p.experts <= Pow256(m.expertBytes)
    requires e.inputTokens == |p.data.inputIds| && e.decodeTokens == |p.data.decodeIds|
    ensures ReadsAs(m, p, e) && m.numExperts >= 0 && m.topK >= 0
  {
  }

  /** Reading at a place where a block lies is reading its parts. */
  lemma ReadAt(file: seq<Byte>, r: Reader, i: nat, section: seq<Byte>)
    requires i < |r.index| && r.metadata.numExperts >= 0 && r.metadata.topK >= 0 && r.metadata.expertBytes >= 0
    requires BLOCK_HEADER_SIZE <= r.index[i].length && r.index[i].offset + r.index[i].length <= |file|
    requires file[r.index[i].offset + BLOCK_HEADER_SIZE..r.index[i].offset + r.index[i].length] == section
    ensures ReadPrompt(file, r, i) == ReadParts(section, r.metadata, r.index[i], r.header.version)
  {
  }

  lemma PromptIsRead(file: seq<Byte>, r: Reader, p: Prompt, i: nat, item: Item)
    requires Described(r, p, i) && ItemLaid(file, r, item, i) && item == ItemOf(p, r.metadata.expertBytes)
    ensures ReadPrompt(file, r, i) == Some(p.data)
  {
    var e, w := r.index[i], r.metadata.expertBytes;
    BlockSlices(file, e.offset, p, w);
    LaidReadsAs(r.metadata, p, i, e);
    ReadAt(file, r, i, Joined(PartsOf(p, w)));
    PartsRoundTrip(r.metadata, p, e);
  }

  // ---------------------------------------------------------------- the whole file, as it is read back

  /** Every prompt passes its check where the blocks before it end. */
  lemma {:induction false} OffsetsAreMet(index: seq<IndexEntry>, ok: (nat, nat) -> bool, items: seq<Item>, base: nat,
                                         n: nat)
    requires n <= |items| == |index| && index == EntriesOf(items, base)
    requires forall i: nat :: i < |items| ==> ok(i, index[i].offset)
    ensures OffsetAfter(index, ok, base, n) == Some(base + |Blocks(items[..n])|)
  {
    if n > 0 {
      OffsetsAreMet(index, ok, items, base, n - 1);
      TakeAll(items);
      EntryInIndex(items, base, |items|, n - 1);
      TakeNext(items, n - 1);
    }
  }

  /** A file as the writer leaves it, seen from a reader that knows its header and index. */
  ghost predicate FileLaid(file: seq<Byte>, r: Reader, items: seq<Item>) {
    && |file| <= MAX_UINT64 && r.header.dataOffset <= r.header.indexOffset <= |file|
    && r.header.indexOffset + r.header.indexLength == |file|
    && r.index == EntriesOf(items, r.header.dataOffset)
    && file[r.header.dataOffset..r.header.indexOffset] == Blocks(items)
  }

  lemma EveryItemIsLaid(file: seq<Byte>, r: Reader, items: seq<Item>, i: nat)
    requires FileLaid(file, r, items) && i < |items|
    ensures ItemLaid(file, r, items[i], i)
  {
    TakeAll(items);
    EntryInIndex(items, r.header.dataOffset, |items|, i);
    BlockIsThere(file, r.header.dataOffset, r.header.indexOffset, items, i);
  }

  lemma BlocksFill(file: seq<Byte>, r: Reader, items: seq<Item>)
    requires FileLaid(file, r, items)
    ensures r.header.dataOffset + |Blocks(items[..|items|])| == r.header.indexOffset
  {
    TakeAll(items);
  }

  lemma LaidIsValid(file: seq<Byte>, r: Reader, items: seq<Item>)
    requires FileLaid(file, r, items)
    requires forall i: nat :: i < |items| ==> PromptChecks(file, r)(i, r.index[i].offset)
    ensures Validate(file, r)
  {
    OffsetsAreMet(r.index, PromptChecks(file, r), items, r.header.dataOffset, |items|);
    BlocksFill(file, r, items);
  }

  lemma PromptIsChecked(file: seq<Byte>, r: Reader, p: Prompt, i: nat, item: Item)
    requires Described(r, p, i) && ItemLaid(file, r, item, i) && item == ItemOf(p, r.metadata.expertBytes)
    requires i <= MAX_UINT32 && p.layers <= MAX_UINT32
    ensures PromptChecks(file, r)(i, r.index[i].offset)
  {
    PromptPasses(file, r, p, i, item);
  }

  lemma ManyLayersAreRefused(file: seq<Byte>, r: Reader)
    requires |r.index| > 0 && |r.metadata.sparseLayers| > MAX_UINT32
    ensures !Validate(file, r)
  {
    if Validate(file, r) {
      BlockAt(file, r, 0);
      LayersFit(file, r);
    }
  }

  lemma LayersFit(file: seq<Byte>, r: Reader)
    requires 0 < |r.index| == |r.metadata.prompts| && PromptOk(file, r, 0, r.index[0].offset)
    ensures |r.metadata.sparseLayers| <= MAX_UINT32
  {
    var e := r.index[0];
    DecodedBlockFits(file[e.offset..e.offset + BLOCK_HEADER_SIZE]);
  }

  // ---------------------------------------------------------------- the theorem

  lemma OpenOf(file: seq<Byte>, decode: Decoder, r: Reader)
    requires |file| >= HEADER_SIZE && DecodeHeader(file[..HEADER_SIZE]) == Some(r.header) &&
             HeaderInside(r.header, |file|)
    requires decode(file[HEADER_SIZE..HEADER_SIZE + r.header.metadataLength]) == Some(r.metadata)
    requires MetadataMatches(r.header, r.metadata) && r.header.version == 1 && r.metadata.sourceGpuBytes == 0
    requires ReadIndex(file, r.header, r.header.numPrompts) == Some(r.index)
    ensures Open(file, decode) == if Validate(file, r) then Some(r) else None
  {
  }

  lemma MismatchIsRefused(file: seq<Byte>, decode: Decoder, h: Header, m: Metadata)
    requires |file| >= HEADER_SIZE && DecodeHeader(file[..HEADER_SIZE]) == Some(h) && HeaderInside(h, |file|)
    requires decode(file[HEADER_SIZE..HEADER_SIZE + h.metadataLength]) == Some(m) && !MetadataMatches(h, m)
    ensures Open(file, decode) == None
  {
  }

  lemma {:induction false} EntriesAreFit(items: seq<Item>, base: nat, size: nat, i: nat)
    requires i < |items| <= MAX_UINT32 && base + |Blocks(items)| <= size <= MAX_UINT64
    requires items[i].id == i && items[i].inputTokens <= MAX_UINT32 && items[i].decodeTokens <= MAX_UINT32
    ensures EntryFits(EntriesOf(items, base)[i]) && EntriesOf(items, base)[i].promptId == i
  {
    TakeAll(items);
    EntryInIndex(items, base, |items|, i);
    BlockInBlocks(items, |items|, i);
  }

  /** What the reader finds in a written file, before it validates it. */
  function ReaderOf(m: Metadata, metadataLength: nat, items: seq<Item>, sourceSize: nat, sha: seq<Byte>): Reader
    requires m.expertBytes >= 0
  {
    Reader(HeaderOf(metadataLength, |Blocks(items)|, |items|, m.expertBytes, sourceSize, sha), m,
           EntriesOf(items, HEADER_SIZE + metadataLength))
  }

  lemma WrittenIsLaid(metadata: seq<Byte>, items: seq<Item>, m: Metadata, sourceSize: nat, sha: seq<Byte>)
    requires |sha| == 32 && m.expertBytes >= 0
    ensures var file, r :=
            FileOf(metadata, items, m.expertBytes, sourceSize, sha), ReaderOf(m, |metadata|, items, sourceSize, sha);
            && |file| >= HEADER_SIZE + |metadata| && HeaderInside(r.header, |file|)
            && file[..HEADER_SIZE] == EncodeHeader(r.header)
            && file[HEADER_SIZE..HEADER_SIZE + |metadata|] == metadata
            && file[r.header.indexOffset..] == IndexBytes(r.index)
            && (|file| <= MAX_UINT64 ==> FileLaid(file, r, items))
  {
    FileParts(metadata, items, m.expertBytes, sourceSize, sha);
    IndexSize(EntriesOf(items, HEADER_SIZE + |metadata|));
  }

  /** A written file without too many prompts opens as far as its validation goes. */
  lemma WrittenOpens(file: seq<Byte>, decode: Decoder, r: Reader, items: seq<Item>, metadata: seq<Byte>)
    requires FileLaid(file, r, items) && HeaderInside(r.header, |file|) && r.header.numPrompts == |items| <= MAX_UINT32
    requires |file| >= HEADER_SIZE && file[..HEADER_SIZE] == EncodeHeader(r.header) &&
             r.header.metadataLength == |metadata|
    requires HeaderFits(r.header) && Acceptable(r.header)
    requires file[HEADER_SIZE..HEADER_SIZE + |metadata|] == metadata && decode(metadata) == Some(r.metadata)
    requires MetadataMatches(r.header, r.metadata) && r.header.version == 1 && r.metadata.sourceGpuBytes == 0
    requires file[r.header.indexOffset..] == IndexBytes(r.index)
    requires forall i :: 0 <= i < |items| ==>
               items[i].id == i && items[i].inputTokens <= MAX_UINT32 && items[i].decodeTokens <= MAX_UINT32
    ensures Open(file, decode) == if Validate(file, r) then Some(r) else None
  {
    HeaderRoundTrip(r.header);
    forall i | 0 <= i < |r.index| ensures EntryFits(r.index[i]) && r.index[i].promptId == i {
      EntriesAreFit(items, r.header.dataOffset, |file|, i);
    }
    IndexIsRead(file, r.header, r.index, |r.index|);
    TakeAll(r.index);
    OpenOf(file, decode, r);
  }

  lemma ManyPromptsAreRefused(file: seq<Byte>, decode: Decoder, h: Header, m: Metadata)
    requires |file| >= HEADER_SIZE && |h.sha| == 32 && file[..HEADER_SIZE] == EncodeHeader(h)
    requires m.numPrompts == h.numPrompts > MAX_UINT32 && HEADER_SIZE <= |file|
    requires h.metadataLength <= MAX_UINT64 && HEADER_SIZE + h.metadataLength <= |file|
    requires decode(file[HEADER_SIZE..HEADER_SIZE + h.metadataLength]) == Some(m)
    ensures Open(file, decode) == None
  {
    HeaderIsRead(h);
    Powers();
    LERoundTrip(h.metadataLength, 8);
    FromLEFits(LE(h.numPrompts, 4));
    var t := Truncated(h);
    assert !MetadataMatches(t, m);
    if Acceptable(t) && HeaderInside(t, |file|) {
      MismatchIsRefused(file, decode, t, m);
    }
  }

  /** What the round trip assumes: checked metadata, a JSON codec that keeps it, and 64-bit sizes. */
  ghost predicate Written(m: Metadata, ps: seq<Prompt>, encode: Encoder, decode: Decoder, sourceSize: nat,
                          sha: seq<Byte>) {
    && Matching(m, ps) && decode(encode(m)) == Some(m) && |sha| == 32 && sourceSize <= MAX_UINT64
    && |FileOf(encode(m), ItemsOf(ps, m.expertBytes), m.expertBytes, sourceSize, sha)| <= MAX_UINT64
  }

  function WrittenFile(m: Metadata, ps: seq<Prompt>, encode: Encoder, sourceSize: nat, sha: seq<Byte>): seq<Byte>
    requires m.expertBytes >= 0
  {
    FileOf(encode(m), ItemsOf(ps, m.expertBytes), m.expertBytes, sourceSize, sha)
  }

  /** The prompt that the writer accepts as its `i`-th. */
  ghost predicate Writable(p: Prompt, i: nat, width: nat) {
    p.index == i && BlockLength(Dims(p, width), 1, 0).Some?
  }

  ghost predicate AllWritable(ps: seq<Prompt>, n: nat, width: nat)
    requires n <= |ps|
  {
    forall i :: 0 <= i < n ==> Writable(ps[i], i, width)
  }

  lemma NextIsWritable(ps: seq<Prompt>, i: nat, width: nat)
    requires i < |ps| && AllWritable(ps, i, width)
    ensures Writable(ps[i], i, width) ==> AllWritable(ps, i + 1, width)
    ensures AllWritable(ps, |ps|, width) ==> Writable(ps[i], i, width)
  {
    if Writable(ps[i], i, width) {
      forall k | 0 <= k < i + 1 ensures Writable(ps[k], k, width) {
        assert k == i || Writable(ps[k], k, width);
      }
    }
  }

  lemma ItemsNext(ps: seq<Prompt>, i: nat, width: nat)
    requires i < |ps|
    ensures ItemsOf(ps[..i + 1], width) == ItemsOf(ps[..i], width) + [ItemOf(ps[i], width)]
  {
  }

  /**
   A whole trace through the writer: it succeeds exactly when the prompts are numbered, have a block length and are as
   many as the metadata says, and then leaves the file that the round trip is about.
   */
  method WriteTrace(m: Metadata, ps: seq<Prompt>, encode: Encoder, sourceSize: nat, sha: seq<Byte>)
    returns (r: Option<seq<Byte>>)
    requires m.numPrompts >= 0 && (m.expertBytes == 1 || m.expertBytes == 2) && |sha| == 32
    requires forall i :: 0 <= i < |ps| ==> WellFormed(ps[i]) && ps[i].experts <= Pow256(m.expertBytes)
    ensures r.Some? <==> |ps| == m.numPrompts && AllWritable(ps, |ps|, m.expertBytes)
    ensures r.Some? ==> r.value == WrittenFile(m, ps, encode, sourceSize, sha)
  {
    var w := new Writer(m, encode);
    var ok: bool;
    for i := 0 to |ps|
      invariant fresh(w) && w.Valid() && w.items == ItemsOf(ps[..i], w.width) && |w.index| == i
      invariant AllWritable(ps, i, w.width)
    {
      ItemsNext(ps, i, w.width);
      NextIsWritable(ps, i, w.width);
      ok := w.WritePrompt(ps[i]);
      assert ok <==> Writable(ps[i], i, w.width);
      if !ok {
        return None;
      }
    }
    TakeAll(ps);
    ok := w.Finish(sourceSize, sha);
    return if ok then Some(w.file) else None;
  }

  lemma DescribedByMatch(m: Metadata, ps: seq<Prompt>, r: Reader, i: nat)
    requires Matching(m, ps) && r.metadata == m && r.header.version == 1 && |r.index| == |ps| && i < |ps|
    ensures Described(r, ps[i], i)
  {
  }

  lemma ItemIsNumbered(m: Metadata, ps: seq<Prompt>, i: nat)
    requires Matching(m, ps) && i < |ps|
    ensures var item := ItemsOf(ps, m.expertBytes)[i];
            item == ItemOf(ps[i], m.expertBytes) && item.id == i && item.inputTokens <= MAX_UINT32 &&
                item.decodeTokens <= MAX_UINT32
  {
  }

  lemma WrittenIsValid(m: Metadata, ps: seq<Prompt>, file: seq<Byte>, r: Reader)
    requires Matching(m, ps) && r.metadata == m && r.header.version == 1 && |ps| <= MAX_UINT32
    requires FileLaid(file, r, ItemsOf(ps, m.expertBytes)) && |m.sparseLayers| <= MAX_UINT32
    ensures Validate(file, r)
  {
    var items := ItemsOf(ps, m.expertBytes);
    forall i: nat | i < |items| ensures PromptChecks(file, r)(i, r.index[i].offset) {
      DescribedByMatch(m, ps, r, i);
      EveryItemIsLaid(file, r, items, i);
      ItemIsNumbered(m, ps, i);
      PromptIsChecked(file, r, ps[i], i, items[i]);
    }
    LaidIsValid(file, r, items);
  }

  lemma NoPromptsAreValid(file: seq<Byte>, r: Reader)
    requires FileLaid(file, r, [])
    ensures Validate(file, r)
  {
  }

  lemma WrittenIsRead(m: Metadata, ps: seq<Prompt>, file: seq<Byte>, r: Reader, i: nat)
    requires Matching(m, ps) && r.metadata == m && r.header.version == 1 && i < |ps|
    requires FileLaid(file, r, ItemsOf(ps, m.expertBytes))
    ensures ReadPrompt(file, r, i) == Some(ps[i].data)
  {
    DescribedByMatch(m, ps, r, i);
    EveryItemIsLaid(file, r, ItemsOf(ps, m.expertBytes), i);
    ItemIsNumbered(m, ps, i);
    PromptIsRead(file, r, ps[i], i, ItemsOf(ps, m.expertBytes)[i]);
  }

  lemma MatchingIsAcceptable(m: Metadata, ps: seq<Prompt>, h: Header)
    requires Matching(m, ps) && h.version == 1 && h.numPrompts == |ps| && h.expertBytes == m.expertBytes
    ensures MetadataMatches(h, m) && Acceptable(h)
  {
  }

  /** The written file opens as its own reader says, if its prompts can be counted in 32 bits. */
  lemma WrittenOpensAsReader(m: Metadata, ps: seq<Prompt>, encode: Encoder, decode: Decoder, sourceSize: nat,
                             sha: seq<Byte>)
    requires Written(m, ps, encode, decode, sourceSize, sha) && |ps| <= MAX_UINT32
    ensures var file := WrittenFile(m, ps, encode, sourceSize, sha);
            var r := ReaderOf(m, |encode(m)|, ItemsOf(ps, m.expertBytes), sourceSize, sha);
            && FileLaid(file, r, ItemsOf(ps, m.expertBytes))
            && Open(file, decode) == if Validate(file, r) then Some(r) else None
  {
    var items := ItemsOf(ps, m.expertBytes);
    var file := WrittenFile(m, ps, encode, sourceSize, sha);
    var r := ReaderOf(m, |encode(m)|, items, sourceSize, sha);
    WrittenIsLaid(encode(m), items, m, sourceSize, sha);
    MatchingIsAcceptable(m, ps, r.header);
    forall i | 0 <= i < |items|
      ensures items[i].id == i && items[i].inputTokens <= MAX_UINT32 && items[i].decodeTokens <= MAX_UINT32
    {
      ItemIsNumbered(m, ps, i);
    }
    WrittenOpens(file, decode, r, items, encode(m));
  }

  lemma WrittenWithManyPrompts(m: Metadata, ps: seq<Prompt>, encode: Encoder, decode: Decoder, sourceSize: nat,
                               sha: seq<Byte>)
    requires Written(m, ps, encode, decode, sourceSize, sha) && |ps| > MAX_UINT32
    ensures Open(WrittenFile(m, ps, encode, sourceSize, sha), decode) == None
  {
    var items := ItemsOf(ps, m.expertBytes);
    var r := ReaderOf(m, |encode(m)|, items, sourceSize, sha);
    WrittenIsLaid(encode(m), items, m, sourceSize, sha);
    ManyPromptsAreRefused(WrittenFile(m, ps, encode, sourceSize, sha), decode, r.header, m);
  }

  /**
   A written file is accepted exactly when its prompts and layers can be counted in 32 bits, and then every prompt is
   read back exactly as it was written, at either expert width.
   */
  lemma FileRoundTrip(m: Metadata, ps: seq<Prompt>, encode: Encoder, decode: Decoder, sourceSize: nat, sha: seq<Byte>)
    requires Written(m, ps, encode, decode, sourceSize, sha)
    ensures var reader := Open(WrittenFile(m, ps, encode, sourceSize, sha), decode);
            && (reader.Some? <==> |ps| <= MAX_UINT32 && (ps == [] || |m.sparseLayers| <= MAX_UINT32))
            && (reader.Some? ==> reader.value.metadata == m && |reader.value.index| == |ps|)
            && (reader.Some? ==>
                  var h := reader.value.header; h.version == 1 && h.sourceSize == sourceSize && h.sha == sha)
  {
    if |ps| > MAX_UINT32 {
      WrittenWithManyPrompts(m, ps, encode, decode, sourceSize, sha);
    } else {
      WrittenOpensAsReader(m, ps, encode, decode, sourceSize, sha);
      var file := WrittenFile(m, ps, encode, sourceSize, sha);
      var r := ReaderOf(m, |encode(m)|, ItemsOf(ps, m.expertBytes), sourceSize, sha);
      if ps == [] {
        NoPromptsAreValid(file, r);
      } else if |m.sparseLayers| <= MAX_UINT32 {
        WrittenIsValid(m, ps, file, r);
      } else {
        ManyLayersAreRefused(file, r);
      }
    }
  }

  lemma PromptRoundTrip(m: Metadata, ps: seq<Prompt>, encode: Encoder, decode: Decoder, sourceSize: nat, sha: seq<Byte>,
                        i: nat)
    requires Written(m, ps, encode, decode, sourceSize, sha) && i < |ps|
    requires Open(WrittenFile(m, ps, encode, sourceSize, sha), decode).Some?
    ensures var file := WrittenFile(m, ps, encode, sourceSize, sha);
            ReadPrompt(file, Open(file, decode).value, i) == Some(ps[i].data)
  {
    FileRoundTrip(m, ps, encode, decode, sourceSize, sha);
    WrittenOpensAsReader(m, ps, encode, decode, sourceSize, sha);
    var r := ReaderOf(m, |encode(m)|, ItemsOf(ps, m.expertBytes), sourceSize, sha);
    WrittenIsRead(m, ps, WrittenFile(m, ps, encode, sourceSize, sha), r, i);
  }
}
