/**
 What the events of an admission say besides the hashes (pkg/kvcache/block_cache.go): the tokens of new and of evicted
 blocks, the parent and the LoRA adapter, and the table from which the tokens come.
 */
module EventContents {
  import opened Common
  import opened BlockCache
  import opened Admission
  import opened Sums

  // ---------------------------------------------------------------- which blocks are new

  /** The positions of the request whose blocks are not cached, in order. */
  ghost predicate NewAt<K>(cached: set<K>, keys: seq<K>, positions: seq<nat>) {
    && (forall i :: 0 <= i < |positions| ==> positions[i] < |keys| && keys[positions[i]] !in cached)
    && (forall i, j :: 0 <= i < j < |positions| ==> positions[i] < positions[j])
    && (forall p: nat :: p < |keys| && keys[p] !in cached ==> p in positions)
  }

  /** Block i is the one at the i-th position of the request, with the tokens given for it there. */
  ghost predicate TakenFrom<K>(blocks: seq<NewBlock<K>>, keys: seq<K>, blockTokens: seq<seq<Token>>,
                               positions: seq<nat>)
  {
    && |keys| == |blockTokens| && |blocks| == |positions|
    && forall i :: 0 <= i < |blocks| ==>
         positions[i] < |keys| && blocks[i] == NewBlock(keys[positions[i]], blockTokens[positions[i]])
  }

  lemma TakenFromLonger<K>(blocks: seq<NewBlock<K>>, keys: seq<K>, blockTokens: seq<seq<Token>>, positions: seq<nat>)
    requires |keys| == |blockTokens| && keys != []
    requires var n := |keys| - 1; TakenFrom(blocks, keys[..n], blockTokens[..n], positions)
    ensures TakenFrom(blocks, keys, blockTokens, positions)
    ensures var n := |keys| - 1;
            TakenFrom(blocks + [NewBlock(keys[n], blockTokens[n])], keys, blockTokens, positions + [n])
  {
  }

  lemma OneMoreNew<K>(cached: set<K>, keys: seq<K>, keys': seq<K>, before: seq<nat>, after: seq<nat>)
    requires |keys'| == |keys| + 1 && keys == keys'[..|keys|] && NewAt(cached, keys, before)
    requires after == if keys'[|keys|] in cached then before else before + [|keys|]
    ensures NewAt(cached, keys', after)
  {
    forall p: nat | p < |keys'| && keys'[p] !in cached ensures p in after {
      if p < |keys| {
        assert keys[p] == keys'[p] && p in before;
      } else {
        assert after[|before|] == p;
      }
    }
  }

  function NewPositions<K>(cached: set<K>, keys: seq<K>): seq<nat> {
    if keys == [] then []
    else
      var n := |keys| - 1;
      NewPositions(cached, keys[..n]) + if keys[n] in cached then [] else [n]
  }

  lemma {:induction false} PositionsAreNew<K>(cached: set<K>, keys: seq<K>)
    ensures NewAt(cached, keys, NewPositions(cached, keys))
  {
    if keys != [] {
      var n := |keys| - 1;
      PositionsAreNew(cached, keys[..n]);
      var before := NewPositions(cached, keys[..n]);
      EmptyConcat(before);
      OneMoreNew(cached, keys[..n], keys, before, NewPositions(cached, keys));
    }
  }

  lemma {:induction false} PositionsAreTaken<K>(cached: set<K>, keys: seq<K>, blockTokens: seq<seq<Token>>)
    requires |keys| == |blockTokens|
    ensures TakenFrom(NewBlocks(cached, keys, blockTokens), keys, blockTokens, NewPositions(cached, keys))
  {
    if keys != [] {
      var n := |keys| - 1;
      PositionsAreTaken(cached, keys[..n], blockTokens[..n]);
      var before := NewPositions(cached, keys[..n]);
      TakenFromLonger(NewBlocks(cached, keys[..n], blockTokens[..n]), keys, blockTokens, before);
      EmptyConcat(before);
    }
  }

  lemma NewBlocksAt<K>(cached: set<K>, keys: seq<K>, blockTokens: seq<seq<Token>>) returns (positions: seq<nat>)
    requires |keys| == |blockTokens|
    ensures NewAt(cached, keys, positions)
    ensures TakenFrom(NewBlocks(cached, keys, blockTokens), keys, blockTokens, positions)
  {
    positions := NewPositions(cached, keys);
    PositionsAreNew(cached, keys);
    PositionsAreTaken(cached, keys, blockTokens);
  }

  // ---------------------------------------------------------------- the tokens of the new blocks

  function Lengths<K>(blocks: seq<NewBlock<K>>): (r: seq<int>)
    ensures |r| == |blocks| && forall i :: 0 <= i < |r| ==> r[i] == |blocks[i].tokens|
  {
    seq(|blocks|, i requires 0 <= i < |blocks| => |blocks[i].tokens|)
  }

  /** The tokens of block i stand behind those of the blocks before it. */
  lemma {:induction false} TokensAt<K>(blocks: seq<NewBlock<K>>, i: nat)
    requires i < |blocks|
    ensures var start, b := Sum(Lengths(blocks)[..i]), blocks[i].tokens;
            0 <= start && start + |b| <= |AllTokens(blocks)| && AllTokens(blocks)[start..start + |b|] == b
    ensures |AllTokens(blocks)| == Sum(Lengths(blocks))
  {
    var n := |blocks| - 1;
    var front := blocks[..n];
    assert Lengths(blocks)[..n] == Lengths(front);
    AllTokensSize(front);
    AllTokensSize(blocks);
    if i < n {
      TokensAt(front, i);
      assert Lengths(blocks)[..i] == Lengths(front)[..i];
    }
  }

  lemma {:induction false} AllTokensSize<K>(blocks: seq<NewBlock<K>>)
    ensures |AllTokens(blocks)| == Sum(Lengths(blocks))
  {
    if blocks != [] {
      var n := |blocks| - 1;
      AllTokensSize(blocks[..n]);
      assert Lengths(blocks)[..n] == Lengths(blocks[..n]);
    }
  }

  // ---------------------------------------------------------------- the token table

  predicate Same(a: map<BlockKey, seq<Token>>, b: map<BlockKey, seq<Token>>, k: BlockKey) {
    (k in a <==> k in b) && (k in a ==> a[k] == b[k])
  }

  lemma {:induction false} UnusedShrinks(t: Tables, blocks: seq<NewBlock<BlockKey>>, max: nat, picks: seq<BlockKey>)
    requires |picks| == |blocks|
    ensures AddAll(t, blocks, max, picks).unused.Keys <= t.unused.Keys
  {
    if blocks != [] {
      UnusedShrinks(t, blocks[..|blocks| - 1], max, picks[..|blocks| - 1]);
    }
  }

  /** Adding another block leaves the tokens of a block alone that is not evicted. */
  lemma OneKeepsTokens(t: Tables, b: NewBlock<BlockKey>, max: nat, loaded: set<string>, now: Time, v: BlockKey,
                       k: BlockKey)
    requires b.key != k && k != NO_BLOCK && (k in t.unused ==> k in AddOne(t, b, max, v).unused)
    requires Full(t, max) ==> Picked(t.unused, loaded, now, v)
    ensures Same(t.tokens, AddOne(t, b, max, v).tokens, k)
  {
    if Full(t, max) {
      PickRemovesIff(t.unused, loaded, now, v);
    }
  }

  lemma OneEnters(t: Tables, b: NewBlock<BlockKey>, max: nat, v: BlockKey)
    ensures var t' := AddOne(t, b, max, v);
            b.key in t'.tokens && t'.tokens[b.key] == b.tokens
  {
  }

  /** Blocks that stay where they are keep their tokens. */
  lemma {:induction false} TokensStay(t: Tables, blocks: seq<NewBlock<BlockKey>>, max: nat, loaded: set<string>,
                                      now: Time, picks: seq<BlockKey>, k: BlockKey)
    requires |picks| == |blocks| && GoodPicks(t, blocks, max, loaded, now, picks) && k != NO_BLOCK
    requires forall i :: 0 <= i < |blocks| ==> blocks[i].key != k
    requires k in t.unused ==> k in AddAll(t, blocks, max, picks).unused
    ensures Same(t.tokens, AddAll(t, blocks, max, picks).tokens, k)
  {
    if blocks != [] {
      var n := |blocks| - 1;
      var before := AddAll(t, blocks[..n], max, picks[..n]);
      UnusedShrinks(t, blocks[..n], max, picks[..n]);
      TokensStay(t, blocks[..n], max, loaded, now, picks[..n], k);
      OneKeepsTokens(before, blocks[n], max, loaded, now, picks[n], k);
    }
  }

  /** The last mention of a new block fixes its tokens. */
  lemma {:induction false} TokensEnter(t: Tables, blocks: seq<NewBlock<BlockKey>>, max: nat, loaded: set<string>,
                                       now: Time, picks: seq<BlockKey>, i: nat)
    requires |picks| == |blocks| && GoodPicks(t, blocks, max, loaded, now, picks)
    requires i < |blocks| && blocks[i].key != NO_BLOCK && blocks[i].key !in t.unused
    requires forall j :: i < j < |blocks| ==> blocks[j].key != blocks[i].key
    ensures var t', k := AddAll(t, blocks, max, picks), blocks[i].key;
            k in t'.tokens && t'.tokens[k] == blocks[i].tokens
  {
    var n := |blocks| - 1;
    var before := AddAll(t, blocks[..n], max, picks[..n]);
    assert AddAll(t, blocks, max, picks) == AddOne(before, blocks[n], max, picks[n]);
    if i < n {
      TokensEnter(t, blocks[..n], max, loaded, now, picks[..n], i);
      UnusedShrinks(t, blocks[..n], max, picks[..n]);
      OneKeepsTokens(before, blocks[n], max, loaded, now, picks[n], blocks[i].key);
    } else {
      OneEnters(before, blocks[n], max, picks[n]);
    }
  }

  // ---------------------------------------------------------------- the remove events

  /** The event removes an unused block with the tokens that the table held for it, or nothing under the zero key. */
  ghost predicate RemovalOf(e: Event, tokens: map<BlockKey, seq<Token>>, unused: set<BlockKey>) {
    || (e.Remove? && e.hashes == [NO_BLOCK.hash])
    || exists v :: v in unused && e == Removal(tokens, v)
  }

  lemma {:induction false} RemovalsAre(t: Tables, blocks: seq<NewBlock<BlockKey>>, max: nat, loaded: set<string>,
                                       now: Time, picks: seq<BlockKey>, j: nat)
    requires |picks| == |blocks| && GoodPicks(t, blocks, max, loaded, now, picks) && t.removed == []
    requires forall i :: 0 <= i < |blocks| ==> blocks[i].key !in t.unused
    requires j < |AddAll(t, blocks, max, picks).removed|
    ensures var t' := AddAll(t, blocks, max, picks);
            RemovalOf(t'.removed[j], t.tokens, t.unused.Keys - t'.unused.Keys)
  {
    var n := |blocks| - 1;
    var before, t' := AddAll(t, blocks[..n], max, picks[..n]), AddAll(t, blocks, max, picks);
    OneRemoval(before, blocks[n], max, picks[n]);
    if j < |before.removed| {
      RemovalsAre(t, blocks[..n], max, loaded, now, picks[..n], j);
      RemovalStays(before.removed[j], t.tokens, t.unused.Keys, before.unused.Keys, t'.unused.Keys);
    } else {
      LastRemoval(t, blocks[..n], max, loaded, now, picks[..n], blocks[n], picks[n]);
    }
  }

  lemma OneRemoval(t: Tables, b: NewBlock<BlockKey>, max: nat, v: BlockKey)
    ensures var t' := AddOne(t, b, max, v);
            && t'.unused.Keys <= t.unused.Keys
            && t'.removed == t.removed + if Full(t, max) then [Removal(t.tokens, v)] else []
  {
  }

  lemma RemovalOfMore(e: Event, tokens: map<BlockKey, seq<Token>>, a: set<BlockKey>, b: set<BlockKey>)
    requires RemovalOf(e, tokens, a) && a <= b
    ensures RemovalOf(e, tokens, b)
  {
  }

  lemma RemovalStays(e: Event, tokens: map<BlockKey, seq<Token>>, unused: set<BlockKey>, left: set<BlockKey>,
                     left': set<BlockKey>)
    requires RemovalOf(e, tokens, unused - left) && left' <= left
    ensures RemovalOf(e, tokens, unused - left')
  {
    RemovalOfMore(e, tokens, unused - left, unused - left');
  }

  lemma LastRemoval(t: Tables, blocks: seq<NewBlock<BlockKey>>, max: nat, loaded: set<string>, now: Time,
                    picks: seq<BlockKey>, b: NewBlock<BlockKey>, v: BlockKey)
    requires |picks| == |blocks| && GoodPicks(t, blocks, max, loaded, now, picks)
    requires forall i :: 0 <= i < |blocks| ==> blocks[i].key !in t.unused
    requires var before := AddAll(t, blocks, max, picks);
             Full(before, max) && Picked(before.unused, loaded, now, v)
    ensures var before := AddAll(t, blocks, max, picks);
            RemovalOf(Removal(before.tokens, v), t.tokens, t.unused.Keys - AddOne(before, b, max, v).unused.Keys)
  {
    var before := AddAll(t, blocks, max, picks);
    PickRemovesIff(before.unused, loaded, now, v);
    UnusedShrinks(t, blocks, max, picks);
    if v != NO_BLOCK {
      TokensStay(t, blocks, max, loaded, now, picks, v);
      assert Removal(before.tokens, v) == Removal(t.tokens, v);
    }
  }

  // ---------------------------------------------------------------- the events of an admission

  /** The store event of an admission: the new blocks in request order, with their tokens, and who asked for them. */
  ghost predicate Announces(e: Event, req: Request, hashes: seq<nat>, blockTokens: seq<seq<Token>>, positions: seq<nat>,
                            cached: set<BlockKey>)
    requires |hashes| == |blockTokens| && forall i :: 0 <= i < |positions| ==> positions[i] < |hashes|
  {
    && e.Store? && e.loraName == req.loraName && e.loraID == req.loraID
    && |e.hashes| == |positions| && (forall i :: 0 <= i < |positions| ==> e.hashes[i] == hashes[positions[i]])
    && ParentOf(e.parent, KeysOf(req.model, hashes), cached)
    && (forall i :: 0 <= i < |positions| ==> HoldsTokens(e.tokens, blockTokens, positions, i))
    && |e.tokens| == SizeOf(blockTokens, positions, |positions|)
  }

  /** The hash of the last block that was cached; none if no block was. */
  ghost predicate ParentOf(parent: Option<nat>, keys: seq<BlockKey>, cached: set<BlockKey>) {
    if parent == None then forall i :: 0 <= i < |keys| ==> keys[i] !in cached
    else exists i :: 0 <= i < |keys| && keys[i] in cached && parent.value == keys[i].hash &&
                     forall j :: i < j < |keys| ==> keys[j] !in cached
  }

  /** The number of tokens of the first n of these blocks. */
  function SizeOf(blockTokens: seq<seq<Token>>, positions: seq<nat>, n: nat): nat
    requires n <= |positions| && forall i :: 0 <= i < |positions| ==> positions[i] < |blockTokens|
  {
    if n == 0 then 0 else SizeOf(blockTokens, positions, n - 1) + |blockTokens[positions[n - 1]]|
  }

  /** The tokens of the i-th of these blocks stand behind those of the blocks before it. */
  predicate HoldsTokens(tokens: seq<Token>, blockTokens: seq<seq<Token>>, positions: seq<nat>, i: nat)
    requires i < |positions| && forall i :: 0 <= i < |positions| ==> positions[i] < |blockTokens|
  {
    var start, b := SizeOf(blockTokens, positions, i), blockTokens[positions[i]];
    start + |b| <= |tokens| && tokens[start..start + |b|] == b
  }

  lemma {:induction false} SizesAgree(blocks: seq<NewBlock<BlockKey>>, keys: seq<BlockKey>,
                                      blockTokens: seq<seq<Token>>, positions: seq<nat>, n: nat)
    requires TakenFrom(blocks, keys, blockTokens, positions) && n <= |blocks|
    ensures SizeOf(blockTokens, positions, n) == Sum(Lengths(blocks)[..n])
  {
    if n > 0 {
      SizesAgree(blocks, keys, blockTokens, positions, n - 1);
      assert Lengths(blocks)[..n][..n - 1] == Lengths(blocks)[..n - 1];
    }
  }

  lemma StoreAnnounces(req: Request, hashes: seq<nat>, blockTokens: seq<seq<Token>>, cached: set<BlockKey>,
                       positions: seq<nat>, added: seq<NewBlock<BlockKey>>, last: int)
    requires |hashes| == |blockTokens| && added != [] && last == LastCached(cached, KeysOf(req.model, hashes))
    requires TakenFrom(added, KeysOf(req.model, hashes), blockTokens, positions)
    ensures Announces(StoreEvents(added, last, req, hashes)[0], req, hashes, blockTokens, positions, cached)
  {
    var keys, e := KeysOf(req.model, hashes), StoreEvents(added, last, req, hashes)[0];
    forall i | 0 <= i < |positions| ensures HoldsTokens(e.tokens, blockTokens, positions, i) {
      SizesAgree(added, keys, blockTokens, positions, i);
      TokensAt(added, i);
    }
    SizesAgree(added, keys, blockTokens, positions, |positions|);
    TakeAll(Lengths(added));
    AllTokensSize(added);
    if last >= 0 {
      assert keys[last] in cached;
    }
  }

  /**
   The events of an admission, whatever the list and the clock: first the removals, each with the tokens that the table
   held for its block; then, if any block is new, one store event with the tokens given for each new block.
   */
  lemma AdmissionAnnounces(c: Cache, c': Cache, req: Request, hashes: seq<nat>, blockTokens: seq<seq<Token>>, now: Time,
                           picks: seq<BlockKey>, emitted: seq<Event>, r: StartResult)
    returns (positions: seq<nat>, removals: nat)
    requires Admitted(c, c', req, hashes, blockTokens, now, picks, emitted, r)
    ensures |hashes| == |blockTokens| && NewAt(c.Cached(), KeysOf(req.model, hashes), positions)
    ensures |emitted| == removals + if positions == [] then 0 else 1
    ensures forall j :: 0 <= j < removals ==> RemovalOf(emitted[j], c.tokens, c.unused.Keys - c'.unused.Keys)
    ensures positions != [] ==> Announces(emitted[removals], req, hashes, blockTokens, positions, c.Cached())
  {
    var keys := KeysOf(req.model, hashes);
    var added, t := NewBlocks(c.Cached(), keys, blockTokens), Known(c, keys);
    positions := NewBlocksAt(c.Cached(), keys, blockTokens);
    var t' := AddAll(t, added, c.maxBlocks, picks);
    removals := |t'.removed|;
    AddedAreNotUnused(c, keys, blockTokens);
    UnusedShrinks(t, added, c.maxBlocks, picks);
    forall j | 0 <= j < removals ensures RemovalOf(emitted[j], c.tokens, c.unused.Keys - c'.unused.Keys) {
      RemovalsAre(t, added, c.maxBlocks, c.loaded, now, picks, j);
      RemovalOfMore(t'.removed[j], c.tokens, t.unused.Keys - t'.unused.Keys, c.unused.Keys - c'.unused.Keys);
    }
    if positions != [] {
      StoreAnnounces(req, hashes, blockTokens, c.Cached(), positions, added, LastCached(c.Cached(), keys));
    }
  }

  lemma AddedAreNotUnused(c: Cache, keys: seq<BlockKey>, blockTokens: seq<seq<Token>>)
    requires |keys| == |blockTokens|
    ensures forall i :: 0 <= i < |NewBlocks(c.Cached(), keys, blockTokens)| ==>
              NewBlocks(c.Cached(), keys, blockTokens)[i].key !in Known(c, keys).unused
  {
    var added := NewBlocks(c.Cached(), keys, blockTokens);
    NewBlocksAreTheMissingOnes(c.Cached(), keys, blockTokens);
    forall i | 0 <= i < |added| ensures added[i].key !in Known(c, keys).unused {
      assert BlockKeys(added)[i] in Elems(BlockKeys(added));
    }
  }

  /** With b tokens per block, the i-th new block has the tokens i * b to i * b + b of its store event. */
  lemma AnnouncedByBlock(e: Event, req: Request, hashes: seq<nat>, blockTokens: seq<seq<Token>>, positions: seq<nat>,
                         cached: set<BlockKey>, b: nat, i: nat)
    requires |hashes| == |blockTokens| && forall i :: 0 <= i < |positions| ==> positions[i] < |hashes|
    requires Announces(e, req, hashes, blockTokens, positions, cached) && i < |positions|
    requires forall k :: 0 <= k < |blockTokens| ==> |blockTokens[k]| == b
    ensures |e.tokens| == |e.hashes| * b && i * b + b <= |e.tokens|
    ensures e.hashes[i] == hashes[positions[i]] && e.tokens[i * b..i * b + b] == blockTokens[positions[i]]
  {
    SizeOfEqual(blockTokens, positions, b, i);
    SizeOfEqual(blockTokens, positions, b, |positions|);
    assert HoldsTokens(e.tokens, blockTokens, positions, i);
  }

  lemma {:induction false} SizeOfEqual(blockTokens: seq<seq<Token>>, positions: seq<nat>, b: nat, n: nat)
    requires n <= |positions| && forall i :: 0 <= i < |positions| ==> positions[i] < |blockTokens|
    requires forall k :: 0 <= k < |blockTokens| ==> |blockTokens[k]| == b
    ensures SizeOf(blockTokens, positions, n) == n * b
  {
    if n > 0 {
      SizeOfEqual(blockTokens, positions, b, n - 1);
    }
  }

  /** The table: a new block has the tokens given where it was last named, and a block that stayed keeps its own. */
  lemma AdmissionKeepsTokens(c: Cache, c': Cache, req: Request, hashes: seq<nat>, blockTokens: seq<seq<Token>>,
                             now: Time, picks: seq<BlockKey>, emitted: seq<Event>, r: StartResult, p: nat)
    requires Admitted(c, c', req, hashes, blockTokens, now, picks, emitted, r)
    requires p < |hashes| && KeysOf(req.model, hashes)[p] !in c.Cached() && KeysOf(req.model, hashes)[p] != NO_BLOCK
    requires forall q :: p < q < |hashes| ==> hashes[q] != hashes[p]
    ensures var k := KeysOf(req.model, hashes)[p]; k in c'.tokens && c'.tokens[k] == blockTokens[p]
  {
    var keys := KeysOf(req.model, hashes);
    var added := NewBlocks(c.Cached(), keys, blockTokens);
    var positions := NewBlocksAt(c.Cached(), keys, blockTokens);
    var i :| 0 <= i < |positions| && positions[i] == p;
    AddedAreNotUnused(c, keys, blockTokens);
    forall j | i < j < |added| ensures added[j].key != added[i].key {
      assert positions[i] < positions[j] < |hashes|;
    }
    TokensEnter(Known(c, keys), added, c.maxBlocks, c.loaded, now, picks, i);
  }

  lemma AdmissionKeepsOldTokens(c: Cache, c': Cache, req: Request, hashes: seq<nat>, blockTokens: seq<seq<Token>>,
                                now: Time, picks: seq<BlockKey>, emitted: seq<Event>, r: StartResult, k: BlockKey)
    requires Admitted(c, c', req, hashes, blockTokens, now, picks, emitted, r) && k != NO_BLOCK
    requires k in c.Cached() && k in c'.Cached() && c.used.Keys !! c.unused.Keys
    ensures Same(c.tokens, c'.tokens, k)
  {
    var keys := KeysOf(req.model, hashes);
    var added := NewBlocks(c.Cached(), keys, blockTokens);
    var positions := NewBlocksAt(c.Cached(), keys, blockTokens);
    forall i | 0 <= i < |added| ensures added[i].key != k {
      assert keys[positions[i]] !in c.Cached();
    }
    var gone := AdmissionExchanges(c, c', req, hashes, blockTokens, now, picks, emitted, r);
    ExchangedCache(c, c', keys, gone, now);
    TokensStay(Known(c, keys), added, c.maxBlocks, c.loaded, now, picks, k);
  }

  /** The positions of a request whose blocks are cached. */
  ghost function CachedAt<K>(cached: set<K>, keys: seq<K>): set<nat> {
    set p: nat | p < |keys| && keys[p] in cached
  }

  lemma {:induction false} OldAndNew<K>(cached: set<K>, keys: seq<K>, blockTokens: seq<seq<Token>>)
    requires |keys| == |blockTokens|
    ensures |CachedAt(cached, keys)| + |NewBlocks(cached, keys, blockTokens)| == |keys|
  {
    if keys == [] {
      assert CachedAt(cached, keys) == {};
    } else {
      var n := |keys| - 1;
      OldAndNew(cached, keys[..n], blockTokens[..n]);
      var before := CachedAt(cached, keys[..n]);
      assert CachedAt(cached, keys) == if keys[n] in cached then before + {n} else before;
    }
  }

  /** The hits of a request are its mentions of cached blocks. */
  lemma HitsAreCachedMentions(c: Cache, c': Cache, req: Request, hashes: seq<nat>, blockTokens: seq<seq<Token>>,
                              now: Time, picks: seq<BlockKey>, emitted: seq<Event>, r: StartResult)
    requires Admitted(c, c', req, hashes, blockTokens, now, picks, emitted, r)
    ensures r == Hits(|CachedAt(c.Cached(), KeysOf(req.model, hashes))|)
  {
    OldAndNew(c.Cached(), KeysOf(req.model, hashes), blockTokens);
  }
}
