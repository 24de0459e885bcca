/**
 What the operations of the block cache keep (pkg/kvcache/block_cache.go): in every run whatever the requests list and
 the clock reads, and beyond that exactly when a request is tidy.
 */
module CacheInvariant {
  import opened Common
  import opened RefCounts
  import opened BlockCache
  import opened Admission

  // ---------------------------------------------------------------- which blocks leave first

  /** Whatever left is no worse a victim than every older block that is still there. */
  ghost predicate InOrder(t0: Tables, t: Tables, loaded: set<string>, now: Time) {
    && t.unused == t0.unused - (t0.unused.Keys - t.unused.Keys)
    && forall v, j :: v in t0.unused && v !in t.unused && j in t.unused && t.unused[j] < now ==>
         t0.unused[v] < now && NoWorseVictim(t0.unused, loaded, v, j)
  }

  lemma EvictionInOrder(t0: Tables, t: Tables, loaded: set<string>, now: Time, v: BlockKey)
    requires InOrder(t0, t, loaded, now) && Picked(t.unused, loaded, now, v)
    ensures InOrder(t0, Evict(t, v), loaded, now)
  {
    var t' := Evict(t, v);
    forall w, j | w in t0.unused && w !in t'.unused && j in t'.unused && t'.unused[j] < now
      ensures t0.unused[w] < now && NoWorseVictim(t0.unused, loaded, w, j)
    {
      if w == v {
        var older := OlderThan(t.unused, now);
        assert j in older;
        assert NoWorseVictim(older, loaded, v, j);
      }
    }
  }

  lemma SameUnusedInOrder(t0: Tables, t: Tables, t': Tables, loaded: set<string>, now: Time)
    requires InOrder(t0, t, loaded, now) && t'.unused == t.unused
    ensures InOrder(t0, t', loaded, now)
  {
  }

  lemma NothingOutOfOrder(t: Tables, loaded: set<string>, now: Time)
    ensures InOrder(t, t, loaded, now)
  {
    assert t.unused.Keys - t.unused.Keys == {};
    assert t.unused == t.unused - {};
  }

  lemma {:induction false} AddAllInOrder(t: Tables, blocks: seq<NewBlock<BlockKey>>, max: nat, loaded: set<string>,
                                         now: Time, picks: seq<BlockKey>)
    requires |picks| == |blocks| && GoodPicks(t, blocks, max, loaded, now, picks)
    ensures InOrder(t, AddAll(t, blocks, max, picks), loaded, now)
  {
    if blocks == [] {
      NothingOutOfOrder(t, loaded, now);
    } else {
      var n := |blocks| - 1;
      AddAllInOrder(t, blocks[..n], max, loaded, now, picks[..n]);
      var before, after := AddAll(t, blocks[..n], max, picks[..n]), AddAll(t, blocks, max, picks);
      if Full(before, max) {
        EvictionInOrder(t, before, loaded, now, picks[n]);
        SameUnusedInOrder(t, Evict(before, picks[n]), after, loaded, now);
      } else {
        SameUnusedInOrder(t, before, after, loaded, now);
      }
    }
  }

  /**
   A block that left is of an unloaded model if any older block of one stays, and no younger than those of its kind.
   */
  lemma BestVictimsLeave(c: Cache, c': Cache, req: Request, hashes: seq<nat>, blockTokens: seq<seq<Token>>, now: Time,
                         picks: seq<BlockKey>, emitted: seq<Event>, r: StartResult, v: BlockKey, j: BlockKey)
    requires c.used.Keys !! c.unused.Keys
    requires Admitted(c, c', req, hashes, blockTokens, now, picks, emitted, r)
    requires v in c.Cached() && v !in c'.Cached() && j in c'.unused && c'.unused[j] < now
    ensures v in c.unused && j in c.unused && c.unused[v] < now && NoWorseVictim(c.unused, c.loaded, v, j)
  {
    var keys := KeysOf(req.model, hashes);
    EvictionSparesHeldBlocks(c, c', req, hashes, blockTokens, now, picks, emitted, r);
    AddAllInOrder(Known(c, keys), NewBlocks(c.Cached(), keys, blockTokens), c.maxBlocks, c.loaded, now, picks);
    assert v in Evictable(c.unused - Elems(keys), now);
    assert NoWorseVictim(c.unused - Elems(keys), c.loaded, v, j);
  }

  // ---------------------------------------------------------------- how many blocks leave

  /** Every pick removed a block. */
  ghost predicate RealPicks(t: Tables, blocks: seq<NewBlock<BlockKey>>, max: nat, picks: seq<BlockKey>)
    requires |picks| == |blocks|
  {
    blocks == []
    || var n := |blocks| - 1;
       var before := AddAll(t, blocks[..n], max, picks[..n]);
       RealPicks(t, blocks[..n], max, picks[..n]) && (Full(before, max) ==> picks[n] in before.unused)
  }

  lemma NewKeysSize<K>(used: set<K>, blocks: seq<NewBlock<K>>)
    requires Distinct(BlockKeys(blocks)) && Elems(BlockKeys(blocks)) !! used
    ensures |used + Elems(BlockKeys(blocks))| == |used| + |blocks|
  {
    DistinctCardinality(BlockKeys(blocks));
    DisjointSize(used, Elems(BlockKeys(blocks)));
  }

  lemma FrontIsNew<K>(used: set<K>, blocks: seq<NewBlock<K>>)
    requires blocks != [] && Distinct(BlockKeys(blocks)) && Elems(BlockKeys(blocks)) !! used
    ensures var n := |blocks| - 1;
            && Distinct(BlockKeys(blocks[..n])) && Elems(BlockKeys(blocks[..n])) !! used
            && blocks[n].key !in used + Elems(BlockKeys(blocks[..n]))
  {
    var n := |blocks| - 1;
    LastKey(blocks);
    assert BlockKeys(blocks[..n]) == BlockKeys(blocks)[..n];
    assert BlockKeys(blocks)[n] == blocks[n].key;
    assert blocks[n].key in Elems(BlockKeys(blocks));
  }

  /** While there is room for what is still to come, a full table has a block that can leave. */
  lemma SomeCanLeave(t: Tables, t': Tables, blocks: seq<NewBlock<BlockKey>>, gone: set<BlockKey>, max: nat, now: Time,
                     more: nat)
    requires Course(t, t', Elems(BlockKeys(blocks)), gone, max, now) && Full(t', max) && more >= 1
    requires Distinct(BlockKeys(blocks)) && Elems(BlockKeys(blocks)) !! t.used.Keys
    requires |t.used| + |t.unused| + |blocks| + more <= max + |Evictable(t.unused, now)|
    ensures Evictable(t'.unused, now) != {}
  {
    CourseSizes(t.used, t.unused, t'.used, t'.unused, Elems(BlockKeys(blocks)), gone);
    NewKeysSize(t.used.Keys, blocks);
    EvictableWithout(t.unused, gone, now);
    assert |t.used.Keys| == |t.used|;
    assert gone == Evictable(t.unused, now) <==> Evictable(t'.unused, now) == {};
  }

  /** Distinct new blocks with enough room: every pick removes a block, and only as many leave as must. */
  lemma {:induction false} EnoughIsReal(t: Tables, blocks: seq<NewBlock<BlockKey>>, max: nat, loaded: set<string>,
                                        now: Time, picks: seq<BlockKey>, more: nat)
    requires |picks| == |blocks| && GoodPicks(t, blocks, max, loaded, now, picks) && !Overfull(t, max)
    requires Distinct(BlockKeys(blocks)) && Elems(BlockKeys(blocks)) !! t.used.Keys
    requires |t.used| + |t.unused| + |blocks| + more <= max + |Evictable(t.unused, now)|
    ensures RealPicks(t, blocks, max, picks)
    ensures var t' := AddAll(t, blocks, max, picks);
            |t'.used| + |t'.unused| == Smaller(max, |t.used| + |t.unused| + |blocks|)
  {
    if blocks != [] {
      var n := |blocks| - 1;
      FrontIsNew(t.used.Keys, blocks);
      EnoughIsReal(t, blocks[..n], max, loaded, now, picks[..n], more + 1);
      var before := AddAll(t, blocks[..n], max, picks[..n]);
      var gone := AddAllCourse(t, blocks[..n], max, loaded, now, picks[..n]);
      KeysWithOnes(t.used, Elems(BlockKeys(blocks[..n])));
      EnterSize(before.used, blocks[n].key, 1);
      if Full(before, max) {
        SomeCanLeave(t, before, blocks[..n], gone, max, now, more + 1);
        PickRemovesIff(before.unused, loaded, now, picks[n]);
        DropSize(before.unused, picks[n]);
      }
    }
  }

  // ---------------------------------------------------------------- the token table

  /** Tokens are stored for the cached blocks, except perhaps for the zero key. */
  ghost predicate NearlyStored(tokens: set<BlockKey>, cached: set<BlockKey>) {
    cached - {NO_BLOCK} <= tokens <= cached
  }

  ghost predicate TokensMatch(t: Tables) {
    t.used.Keys !! t.unused.Keys && NearlyStored(t.tokens.Keys, t.used.Keys + t.unused.Keys)
  }

  lemma EvictionKeepsStored(t: Tables, v: BlockKey)
    requires TokensMatch(t) && (v in t.unused || v == NO_BLOCK)
    ensures TokensMatch(Evict(t, v))
    ensures t.tokens.Keys == t.used.Keys + t.unused.Keys && v in t.unused ==>
              Evict(t, v).tokens.Keys == Evict(t, v).used.Keys + Evict(t, v).unused.Keys
  {
    var t' := Evict(t, v);
    assert t'.tokens.Keys == t.tokens.Keys - {v} && t'.unused.Keys == t.unused.Keys - {v};
  }

  lemma EntryKeepsStored(t: Tables, b: NewBlock<BlockKey>)
    requires TokensMatch(t) && b.key !in t.unused
    ensures TokensMatch(Enter(t, b))
    ensures t.tokens.Keys == t.used.Keys + t.unused.Keys ==>
              Enter(t, b).tokens.Keys == Enter(t, b).used.Keys + Enter(t, b).unused.Keys
  {
    var t' := Enter(t, b);
    assert t'.tokens.Keys == t.tokens.Keys + {b.key} && t'.used.Keys == t.used.Keys + {b.key};
  }

  lemma {:induction false} AddAllKeepsStored(t: Tables, blocks: seq<NewBlock<BlockKey>>, max: nat, loaded: set<string>,
                                             now: Time, picks: seq<BlockKey>)
    requires |picks| == |blocks| && GoodPicks(t, blocks, max, loaded, now, picks)
    requires TokensMatch(t) && Elems(BlockKeys(blocks)) !! t.unused.Keys
    ensures TokensMatch(AddAll(t, blocks, max, picks)) && AddAll(t, blocks, max, picks).unused.Keys <= t.unused.Keys
    ensures t.tokens.Keys == t.used.Keys + t.unused.Keys && RealPicks(t, blocks, max, picks) ==>
              var t' := AddAll(t, blocks, max, picks); t'.tokens.Keys == t'.used.Keys + t'.unused.Keys
  {
    if blocks != [] {
      var n := |blocks| - 1;
      LastKey(blocks);
      AddAllKeepsStored(t, blocks[..n], max, loaded, now, picks[..n]);
      var before := AddAll(t, blocks[..n], max, picks[..n]);
      if Full(before, max) {
        PickRemovesIff(before.unused, loaded, now, picks[n]);
        EvictionKeepsStored(before, picks[n]);
        EntryKeepsStored(Evict(before, picks[n]), blocks[n]);
      } else {
        EntryKeepsStored(before, blocks[n]);
      }
    }
  }

  // ---------------------------------------------------------------- the counts

  lemma ExchangedCounts<K>(used: map<K, nat>, unused: set<K>, used': map<K, nat>, keys: seq<K>, k: K)
    requires used.Keys !! unused && used' == KnownUsed(used, unused, keys) + Ones(Elems(keys) - used.Keys - unused)
    ensures Count(used', k) == Count(used, k) + Given(used.Keys, keys)[k]
    ensures Positive(used) && k in used' ==> used'[k] >= 1
  {
    GivenAt(used.Keys, keys, k);
  }

  // ---------------------------------------------------------------- the invariants

  /** Kept by every operation, whatever the lists and the clock. */
  ghost predicate AlwaysInv(c: Cache) {
    && Positive(c.used) && c.used.Keys !! c.unused.Keys
    && CoveredBy(Mentions(c.requests), c.used)
    && NearlyStored(c.tokens.Keys, c.Cached())
  }

  /** Every mention of a block by a registered request is one reference. */
  ghost predicate Balanced(c: Cache) {
    CountedBy(Mentions(c.requests), c.used)
  }

  ghost predicate Inv(c: Cache) {
    AlwaysInv(c) && Balanced(c) && c.tokens.Keys == c.Cached() && |c.Cached()| <= c.maxBlocks
  }

  /** A request that repeats no block unless it is in use, and for which enough blocks can leave. */
  ghost predicate Tidy(c: Cache, keys: seq<BlockKey>, now: Time) {
    RepeatsInUse(c.used.Keys, keys) && EnoughRoom(c, keys, now)
  }

  /** What the request gives: a reference per mention of a block in use, one for any other block. */
  lemma AdmissionCounts(c: Cache, c': Cache, req: Request, hashes: seq<nat>, blockTokens: seq<seq<Token>>, now: Time,
                        picks: seq<BlockKey>, emitted: seq<Event>, r: StartResult)
    requires c.used.Keys !! c.unused.Keys
    requires Admitted(c, c', req, hashes, blockTokens, now, picks, emitted, r)
    ensures forall k :: Count(c'.used, k) == Count(c.used, k) + Given(c.used.Keys, KeysOf(req.model, hashes))[k]
    ensures Positive(c.used) ==> Positive(c'.used)
  {
    var keys := KeysOf(req.model, hashes);
    var _ := AdmissionExchanges(c, c', req, hashes, blockTokens, now, picks, emitted, r);
    forall k ensures Count(c'.used, k) == Count(c.used, k) + Given(c.used.Keys, keys)[k]
                     && (Positive(c.used) && k in c'.used ==> c'.used[k] >= 1) {
      ExchangedCounts(c.used, c.unused.Keys, c'.used, keys, k);
    }
  }

  /** The requests stay counted, with what each of them gave, by an admission of any list. */
  lemma AdmissionKeepsGifts(c: Cache, c': Cache, req: Request, hashes: seq<nat>, blockTokens: seq<seq<Token>>,
                            now: Time, picks: seq<BlockKey>, emitted: seq<Event>, r: StartResult,
                            gave: map<string, multiset<BlockKey>>)
    requires c.used.Keys !! c.unused.Keys && gave.Keys == c.requests.Keys && CountedBy(gave, c.used)
    requires Admitted(c, c', req, hashes, blockTokens, now, picks, emitted, r)
    ensures CountedBy(gave[req.id := Given(c.used.Keys, KeysOf(req.model, hashes))], c'.used)
  {
    AdmissionCounts(c, c', req, hashes, blockTokens, now, picks, emitted, r);
    var given := Given(c.used.Keys, KeysOf(req.model, hashes));
    RegisterIff(gave, c.used, c'.used, req.id, given, given);
  }

  /** A completion takes back what the request gave exactly if it lists each block that often or no other gave to it. */
  lemma CompletionKeepsGiftsIff(c: Cache, id: string, now: Time, gave: map<string, multiset<BlockKey>>)
    requires AlwaysInv(c) && !c.disabled && id in c.requests && gave.Keys == c.requests.Keys && CountedBy(gave, c.used)
    ensures CountedBy(gave - {id}, FinishRequestSpec(c, id, now).0.used)
            <==> forall k :: Smaller(Listed(c.requests[id], k), Count(c.used, k)) == gave[id][k]
  {
    ReleaseIff(gave, c.used, c.unused, id, c.requests[id], now);
  }

  /** An admission keeps the balance exactly if the request repeats no block that is not in use. */
  lemma AdmissionKeepsBalanceIff(c: Cache, c': Cache, req: Request, hashes: seq<nat>, blockTokens: seq<seq<Token>>,
                                 now: Time, picks: seq<BlockKey>, emitted: seq<Event>, r: StartResult)
    requires c.used.Keys !! c.unused.Keys && Balanced(c)
    requires Admitted(c, c', req, hashes, blockTokens, now, picks, emitted, r)
    ensures Balanced(c') <==> RepeatsInUse(c.used.Keys, KeysOf(req.model, hashes))
  {
    var keys := KeysOf(req.model, hashes);
    AdmissionCounts(c, c', req, hashes, blockTokens, now, picks, emitted, r);
    MentionsWith(c.requests, req.id, keys);
    GivesEveryMentionIff(c.used.Keys, keys);
    RegisterIff(Mentions(c.requests), c.used, c'.used, req.id, Given(c.used.Keys, keys), multiset(keys));
  }

  lemma AdmissionKeepsStored(c: Cache, c': Cache, req: Request, hashes: seq<nat>, blockTokens: seq<seq<Token>>,
                             now: Time, picks: seq<BlockKey>, emitted: seq<Event>, r: StartResult)
    requires c.used.Keys !! c.unused.Keys && NearlyStored(c.tokens.Keys, c.Cached())
    requires Admitted(c, c', req, hashes, blockTokens, now, picks, emitted, r)
    ensures c'.used.Keys !! c'.unused.Keys && NearlyStored(c'.tokens.Keys, c'.Cached())
    ensures var keys := KeysOf(req.model, hashes);
            RealPicks(Known(c, keys), NewBlocks(c.Cached(), keys, blockTokens), c.maxBlocks, picks) &&
                c.tokens.Keys == c.Cached() ==>
              c'.tokens.Keys == c'.Cached()
  {
    var keys := KeysOf(req.model, hashes);
    var added := NewBlocks(c.Cached(), keys, blockTokens);
    NewBlocksAreTheMissingOnes(c.Cached(), keys, blockTokens);
    KnownSizes(c.used, c.unused, keys);
    KnownKeys(c.used.Keys, c.unused.Keys, Elems(keys));
    AddAllKeepsStored(Known(c, keys), added, c.maxBlocks, c.loaded, now, picks);
  }

  lemma KnownKeys<K>(used: set<K>, unused: set<K>, held: set<K>)
    requires used !! unused
    ensures (used + held * unused) !! (unused - held) && (used + held * unused) + (unused - held) == used + unused
    ensures (held - (used + unused)) !! (unused - held) && (held - (used + unused)) !! (used + held * unused)
  {
  }

  /** Kept by admitting any request at any time. */
  lemma AdmissionKeepsAlways(c: Cache, c': Cache, req: Request, hashes: seq<nat>, blockTokens: seq<seq<Token>>,
                             now: Time, picks: seq<BlockKey>, emitted: seq<Event>, r: StartResult)
    requires AlwaysInv(c) && Admitted(c, c', req, hashes, blockTokens, now, picks, emitted, r)
    ensures AlwaysInv(c')
  {
    var keys := KeysOf(req.model, hashes);
    AdmissionKeepsStored(c, c', req, hashes, blockTokens, now, picks, emitted, r);
    AdmissionCounts(c, c', req, hashes, blockTokens, now, picks, emitted, r);
    MentionsWith(c.requests, req.id, keys);
    GivesEveryMentionIff(c.used.Keys, keys);
    RegisterKeepsCovered(Mentions(c.requests), c.used, c'.used, req.id, Given(c.used.Keys, keys), multiset(keys));
  }

  lemma {:induction false} NewBlocksDistinct<K(!new)>(used: set<K>, cached: set<K>, keys: seq<K>,
                                                      blockTokens: seq<seq<Token>>)
    requires |keys| == |blockTokens| && used <= cached && RepeatsInUse(used, keys)
    ensures Distinct(BlockKeys(NewBlocks(cached, keys, blockTokens)))
  {
    if keys != [] {
      var n := |keys| - 1;
      assert keys == keys[..n] + [keys[n]];
      forall k | Listed(keys[..n], k) > 1 ensures k in used {
        assert Listed(keys, k) > 1;
      }
      NewBlocksDistinct(used, cached, keys[..n], blockTokens[..n]);
      NewBlocksAreTheMissingOnes(cached, keys[..n], blockTokens[..n]);
      var init := NewBlocks(cached, keys[..n], blockTokens[..n]);
      if keys[n] !in cached {
        assert multiset(keys) == multiset(keys[..n]) + multiset{keys[n]};
        assert keys[n] !in multiset(keys[..n]);
        AppendDistinct(BlockKeys(init), keys[n]);
        BlockKeysAppend(init, NewBlock(keys[n], blockTokens[n]));
      }
    }
  }

  /** What the tables hold when the known blocks are referenced and distinct new ones are still to be added. */
  lemma ReadyToAdd<K>(used: map<K, nat>, unused: map<K, Time>, keys: seq<K>, blockTokens: seq<seq<Token>>)
    requires used.Keys !! unused.Keys && |keys| == |blockTokens|
    requires Distinct(BlockKeys(NewBlocks(used.Keys + unused.Keys, keys, blockTokens)))
    ensures var used1, added :=
            KnownUsed(used, unused.Keys, keys), NewBlocks(used.Keys + unused.Keys, keys, blockTokens);
            && Elems(BlockKeys(added)) !! used1.Keys
            && |used1| + |unused - Elems(keys)| == |used.Keys + unused.Keys|
            && |used1| + |unused - Elems(keys)| + |added| == |used.Keys + unused.Keys + Elems(keys)|
  {
    var used1, added := KnownUsed(used, unused.Keys, keys), NewBlocks(used.Keys + unused.Keys, keys, blockTokens);
    NewBlocksAreTheMissingOnes(used.Keys + unused.Keys, keys, blockTokens);
    MinusTwice(Elems(keys), used.Keys, unused.Keys);
    KnownSizes(used, unused, keys);
    KnownKeys(used.Keys, unused.Keys, Elems(keys));
    NewKeysSize(used1.Keys, added);
    DisjointSize(used.Keys, unused.Keys);
    assert |used1.Keys| == |used1| && |used.Keys| == |used| && |unused.Keys| == |unused|;
  }

  lemma TidyPicks(c: Cache, keys: seq<BlockKey>, blockTokens: seq<seq<Token>>, now: Time, picks: seq<BlockKey>)
    requires c.used.Keys !! c.unused.Keys && |c.Cached()| <= c.maxBlocks && Tidy(c, keys, now) &&
             |keys| == |blockTokens|
    requires var added := NewBlocks(c.Cached(), keys, blockTokens);
             |picks| == |added| && GoodPicks(Known(c, keys), added, c.maxBlocks, c.loaded, now, picks)
    ensures var added := NewBlocks(c.Cached(), keys, blockTokens);
            var t := AddAll(Known(c, keys), added, c.maxBlocks, picks);
            && Distinct(BlockKeys(added)) && RealPicks(Known(c, keys), added, c.maxBlocks, picks)
            && |t.used| + |t.unused| == Smaller(c.maxBlocks, |c.Cached() + Elems(keys)|)
  {
    NewBlocksDistinct(c.used.Keys, c.Cached(), keys, blockTokens);
    ReadyToAdd(c.used, c.unused, keys, blockTokens);
    EnoughIsReal(Known(c, keys), NewBlocks(c.Cached(), keys, blockTokens), c.maxBlocks, c.loaded, now, picks, 0);
  }

  /** A tidy request: every pick removes a block, and exactly as many blocks leave as exceed the capacity. */
  lemma TidyAdmission(c: Cache, c': Cache, req: Request, hashes: seq<nat>, blockTokens: seq<seq<Token>>, now: Time,
                      picks: seq<BlockKey>, emitted: seq<Event>, r: StartResult)
    requires c.used.Keys !! c.unused.Keys && |c.Cached()| <= c.maxBlocks
    requires Admitted(c, c', req, hashes, blockTokens, now, picks, emitted, r) &&
             Tidy(c, KeysOf(req.model, hashes), now)
    ensures var keys := KeysOf(req.model, hashes);
            && Distinct(BlockKeys(NewBlocks(c.Cached(), keys, blockTokens)))
            && RealPicks(Known(c, keys), NewBlocks(c.Cached(), keys, blockTokens), c.maxBlocks, picks)
            && |c'.used| + |c'.unused| == Smaller(c.maxBlocks, |c.Cached() + Elems(keys)|)
  {
    TidyPicks(c, KeysOf(req.model, hashes), blockTokens, now, picks);
  }

  /** The full invariant is kept by every tidy admission. */
  lemma AdmissionKeepsInvariant(c: Cache, c': Cache, req: Request, hashes: seq<nat>, blockTokens: seq<seq<Token>>,
                                now: Time, picks: seq<BlockKey>, emitted: seq<Event>, r: StartResult)
    requires Inv(c) && Admitted(c, c', req, hashes, blockTokens, now, picks, emitted, r)
    requires Tidy(c, KeysOf(req.model, hashes), now)
    ensures Inv(c')
  {
    AdmissionKeepsAlways(c, c', req, hashes, blockTokens, now, picks, emitted, r);
    AdmissionKeepsBalanceIff(c, c', req, hashes, blockTokens, now, picks, emitted, r);
    TidyAdmission(c, c', req, hashes, blockTokens, now, picks, emitted, r);
    AdmissionKeepsStored(c, c', req, hashes, blockTokens, now, picks, emitted, r);
    CapacityIsKeptIff(c, c', req, hashes, blockTokens, now, picks, emitted, r);
  }

  /** Completing any request keeps what always holds, and the cached blocks. */
  lemma FinishKeepsAlways(c: Cache, id: string, now: Time)
    requires AlwaysInv(c)
    ensures AlwaysInv(FinishRequestSpec(c, id, now).0)
    ensures FinishRequestSpec(c, id, now).0.Cached() == c.Cached()
  {
    if !c.disabled && id in c.requests {
      var keys := c.requests[id];
      var s := ReleaseAll(Released(c.used, c.unused, []), keys, now);
      ReleaseKeepsKeys(c.used, c.unused, keys, now);
      ReleasePositive(c.used, c.unused, keys, now);
      MentionsWithout(c.requests, id);
      ReleaseKeepsCovered(Mentions(c.requests), c.used, c.unused, id, keys, now);
    }
  }

  lemma ReleasePositive<K>(used: map<K, nat>, unused: map<K, nat>, keys: seq<K>, now: nat)
    requires Positive(used)
    ensures Positive(ReleaseAll(Released(used, unused, []), keys, now).used)
  {
    if k :| k in ReleaseAll(Released(used, unused, []), keys, now).used {
      ReleaseAllAt(used, unused, keys, now, k);
    }
  }

  /** A completion in balance misses no block and keeps the invariant. */
  lemma FinishKeepsInvariant(c: Cache, id: string, now: Time)
    requires Inv(c)
    ensures Inv(FinishRequestSpec(c, id, now).0) && FinishRequestSpec(c, id, now).1 == []
    ensures FinishRequestSpec(c, id, now).0.Cached() == c.Cached()
  {
    FinishKeepsAlways(c, id, now);
    if !c.disabled && id in c.requests {
      BalancedRelease(c.requests, c.used, c.unused, id, now);
    }
  }

  lemma EmptyCache(c: Cache)
    requires c.requests == map[] && c.used == map[] && c.unused == map[] && c.tokens == map[]
    ensures Inv(c)
  {
    forall k ensures Total(Mentions(c.requests), k) == 0 {
      assert Gifts(Mentions(c.requests), k) == {};
    }
    assert c.Cached() == {};
  }

  // ---------------------------------------------------------------- repeated blocks

  lemma RepeatTakesTooMuch<K(!new)>(used: map<K, nat>, used': map<K, nat>, keys: seq<K>)
    requires Positive(used) && forall k :: Count(used', k) == Count(used, k) + Given(used.Keys, keys)[k]
    ensures (exists k :: k in keys && Listed(keys, k) > Count(used', k)) <==> !RepeatsInUse(used.Keys, keys)
  {
    forall k ensures (Listed(keys, k) > Count(used', k) <==> Listed(keys, k) > 1 && k !in used) &&
        (Listed(keys, k) > 0 <==> k in keys) {
      GivenAt(used.Keys, keys, k);
    }
  }

  /**
   A request that completes right after it was admitted misses a block exactly if it repeats one that was not in use.
   */
  lemma RepeatIsMissingIff(c: Cache, c': Cache, req: Request, hashes: seq<nat>, blockTokens: seq<seq<Token>>, now: Time,
                           picks: seq<BlockKey>, emitted: seq<Event>, r: StartResult, later: Time)
    requires c.used.Keys !! c.unused.Keys && Positive(c.used)
    requires Admitted(c, c', req, hashes, blockTokens, now, picks, emitted, r)
    ensures FinishRequestSpec(c', req.id, later).1 != [] <==> !RepeatsInUse(c.used.Keys, KeysOf(req.model, hashes))
  {
    var keys := KeysOf(req.model, hashes);
    AdmissionCounts(c, c', req, hashes, blockTokens, now, picks, emitted, r);
    RepeatTakesTooMuch(c.used, c'.used, keys);
    MissingIff(c'.used, c'.unused, keys, later);
  }
}
