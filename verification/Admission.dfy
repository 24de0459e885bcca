/**
 What admitting a request does to the block cache (startRequest in pkg/kvcache/block_cache.go), for every list of hashes
 and every reading of the clock: which blocks leave, when the capacity is kept, and what happens to the counts.
 */
module Admission {
  import opened Common
  import opened BlockCache

  ghost function Ones<K>(keys: set<K>): map<K, nat> {
    map k | k in keys :: 1
  }

  // ---------------------------------------------------------------- what can be evicted

  /** The blocks that can leave: those older than the clock reads, and the zero key. */
  ghost function Evictable(unused: map<BlockKey, Time>, now: Time): set<BlockKey> {
    set k | k in unused && (unused[k] < now || k == NO_BLOCK)
  }

  /** A pick removes a block exactly if one can leave, and then one of those. */
  lemma PickRemovesIff(unused: map<BlockKey, Time>, loaded: set<string>, now: Time, v: BlockKey)
    requires Picked(unused, loaded, now, v)
    ensures v in unused <==> Evictable(unused, now) != {}
    ensures v in unused ==> v in Evictable(unused, now)
    ensures v !in unused ==> v == NO_BLOCK
  {
    var older := OlderThan(unused, now);
    if older != map[] {
      assert v in older;
      assert v in Evictable(unused, now);
    } else if k :| k in Evictable(unused, now) {
      assert k !in older;
      assert k == NO_BLOCK;
    }
    assert NO_BLOCK in unused ==> NO_BLOCK in Evictable(unused, now);
  }

  lemma EvictableWithout(unused: map<BlockKey, Time>, gone: set<BlockKey>, now: Time)
    ensures Evictable(unused - gone, now) == Evictable(unused, now) - gone
  {
  }

  // ---------------------------------------------------------------- the course of adding blocks

  predicate Overfull(t: Tables, max: nat) {
    |t.used| + |t.unused| > max
  }

  /**
   From t0 the blocks `keys` were entered and `gone` left. Tables that overran `max` at first lose nothing; others
   overrun it only when nothing is left that can leave.
   */
  ghost predicate Course(t0: Tables, t: Tables, keys: set<BlockKey>, gone: set<BlockKey>, max: nat, now: Time) {
    && t.used == t0.used + Ones(keys)
    && t.unused == t0.unused - gone && gone <= Evictable(t0.unused, now)
    && if Overfull(t0, max) then gone == {} && Overfull(t, max)
       else Overfull(t, max) ==> gone == Evictable(t0.unused, now)
  }

  lemma OnesOneMore<K>(used: map<K, nat>, keys: set<K>, k: K)
    ensures used + Ones(keys + {k}) == (used + Ones(keys))[k := 1]
  {
  }

  lemma DropTwice<K, V>(m: map<K, V>, a: set<K>, b: set<K>)
    ensures (m - a) - b == m - (a + b)
  {
  }

  lemma DropSize<K, V>(m: map<K, V>, v: K)
    ensures |m - {v}| == if v in m then |m| - 1 else |m|
    ensures v !in m ==> m - {v} == m
  {
    assert (m - {v}).Keys == m.Keys - {v};
    assert |m.Keys| == |m| && |(m - {v}).Keys| == |m - {v}|;
    if v !in m {
      assert m - {v} == m;
    }
  }

  lemma EnterSize<K, V>(m: map<K, V>, k: K, v: V)
    ensures |m| <= |m[k := v]| <= |m| + 1
    ensures k !in m ==> |m[k := v]| == |m| + 1
  {
    assert m[k := v].Keys == m.Keys + {k};
    assert |m.Keys| == |m| && |m[k := v].Keys| == |m[k := v]|;
    if k in m {
      assert m.Keys + {k} == m.Keys;
    }
  }

  lemma LeaveOneMore(unused: map<BlockKey, Time>, gone: set<BlockKey>, now: Time, v: BlockKey)
    requires gone <= Evictable(unused, now) && v in unused - gone && v in Evictable(unused - gone, now)
    ensures gone + {v} <= Evictable(unused, now) && (unused - gone) - {v} == unused - (gone + {v})
    ensures |unused - gone - {v}| == |unused - gone| - 1
  {
    EvictableWithout(unused, gone, now);
    DropTwice(unused, gone, {v});
    DropSize(unused - gone, v);
  }

  lemma NothingLeaves(unused: map<BlockKey, Time>, gone: set<BlockKey>, now: Time, v: BlockKey)
    requires gone <= Evictable(unused, now) && v !in unused - gone && Evictable(unused - gone, now) == {}
    ensures gone == Evictable(unused, now) && (unused - gone) - {v} == unused - gone
  {
    EvictableWithout(unused, gone, now);
    DropSize(unused - gone, v);
  }

  /** An eviction on full tables: one block leaves, or nothing was there to leave. */
  lemma EvictionCourse(t0: Tables, t: Tables, keys: set<BlockKey>, gone: set<BlockKey>, max: nat, loaded: set<string>,
                       now: Time, v: BlockKey)
    requires Course(t0, t, keys, gone, max, now) && Full(t, max) && Picked(t.unused, loaded, now, v)
    ensures var t', gone' := Evict(t, v), if v in t.unused then gone + {v} else gone;
            && t'.used == t.used && t'.unused == t0.unused - gone' && gone' <= Evictable(t0.unused, now)
            && (if v in t.unused then |t'.unused| == |t.unused| - 1
                else gone' == Evictable(t0.unused, now) && t'.unused == t.unused)
  {
    PickRemovesIff(t.unused, loaded, now, v);
    if v in t.unused {
      LeaveOneMore(t0.unused, gone, now, v);
    } else {
      NothingLeaves(t0.unused, gone, now, v);
    }
  }

  lemma AddOneCourse(t0: Tables, t: Tables, keys: set<BlockKey>, gone: set<BlockKey>, max: nat, loaded: set<string>,
                     now: Time, b: NewBlock<BlockKey>, v: BlockKey) returns (gone': set<BlockKey>)
    requires Course(t0, t, keys, gone, max, now) && (Full(t, max) ==> Picked(t.unused, loaded, now, v))
    ensures Course(t0, AddOne(t, b, max, v), keys + {b.key}, gone', max, now)
  {
    OnesOneMore(t0.used, keys, b.key);
    EnterSize(t.used, b.key, 1);
    if Full(t, max) {
      EvictionCourse(t0, t, keys, gone, max, loaded, now, v);
      gone' := if v in t.unused then gone + {v} else gone;
    } else {
      gone' := gone;
    }
  }

  lemma NoCourseYet(t: Tables, max: nat, now: Time)
    ensures Course(t, t, {}, {}, max, now)
  {
    assert t.used + Ones({}) == t.used;
  }

  lemma {:induction false} AddAllCourse(t: Tables, blocks: seq<NewBlock<BlockKey>>, max: nat, loaded: set<string>,
                                        now: Time, picks: seq<BlockKey>) returns (gone: set<BlockKey>)
    requires |picks| == |blocks| && GoodPicks(t, blocks, max, loaded, now, picks)
    ensures Course(t, AddAll(t, blocks, max, picks), Elems(BlockKeys(blocks)), gone, max, now)
  {
    if blocks == [] {
      NoCourseYet(t, max, now);
      gone := {};
      assert Elems(BlockKeys(blocks)) == {};
    } else {
      var n := |blocks| - 1;
      var before := AddAllCourse(t, blocks[..n], max, loaded, now, picks[..n]);
      var t', keys := AddAll(t, blocks[..n], max, picks[..n]), Elems(BlockKeys(blocks[..n]));
      LastKey(blocks);
      gone := AddOneCourse(t, t', keys, before, max, loaded, now, blocks[n], picks[n]);
    }
  }

  lemma LastKey<K>(blocks: seq<NewBlock<K>>)
    requires blocks != []
    ensures Elems(BlockKeys(blocks)) == Elems(BlockKeys(blocks[..|blocks| - 1])) + {blocks[|blocks| - 1].key}
  {
    var n := |blocks| - 1;
    assert blocks == blocks[..n] + [blocks[n]];
    BlockKeysAppend(blocks[..n], blocks[n]);
  }

  // ---------------------------------------------------------------- capacity

  lemma CourseSizes<K>(used: map<K, nat>, unused: map<K, Time>, used': map<K, nat>, unused': map<K, Time>, keys: set<K>,
                       gone: set<K>)
    requires used' == used + Ones(keys) && unused' == unused - gone && gone <= unused.Keys
    ensures used'.Keys == used.Keys + keys && unused'.Keys == unused.Keys - gone
    ensures |used'| == |used.Keys + keys| && |unused'| == |unused| - |gone|
  {
    assert used'.Keys == used.Keys + keys;
    assert unused'.Keys == unused.Keys - gone;
    assert |used'.Keys| == |used'| && |unused'.Keys| == |unused'| && |unused.Keys| == |unused|;
  }

  /** Adding blocks keeps the capacity exactly if enough blocks can leave. */
  lemma CourseFitsIff(t0: Tables, t: Tables, keys: set<BlockKey>, gone: set<BlockKey>, max: nat, now: Time)
    requires Course(t0, t, keys, gone, max, now) && !Overfull(t0, max)
    ensures |t.used| + |t.unused| <= max <==> |t0.used.Keys + keys| + |t0.unused| <= max + |Evictable(t0.unused, now)|
  {
    CourseSizes(t0.used, t0.unused, t.used, t.unused, keys, gone);
    SubsetSize(gone, Evictable(t0.unused, now));
  }

  lemma KnownSizes<K>(used: map<K, nat>, unused: map<K, Time>, keys: seq<K>)
    requires used.Keys !! unused.Keys
    ensures var used1, held := KnownUsed(used, unused.Keys, keys), Elems(keys);
            && used1.Keys == used.Keys + held * unused.Keys && (unused - held).Keys == unused.Keys - held
            && |used1| + |unused - held| == |used| + |unused|
            && |used1.Keys + (held - used.Keys - unused.Keys)| + |unused - held| == |used.Keys + unused.Keys + held|
  {
    var used1, held := KnownUsed(used, unused.Keys, keys), Elems(keys);
    var unused1 := unused - held;
    assert used1.Keys == used.Keys + held * unused.Keys;
    assert unused1.Keys == unused.Keys - held;
    KnownSetSizes(used.Keys, unused.Keys, held);
    assert |used1.Keys| == |used1| && |unused1.Keys| == |unused1| && |used.Keys| == |used| && |unused.Keys| == |unused|;
  }

  lemma KnownSetSizes<K>(used: set<K>, unused: set<K>, held: set<K>)
    requires used !! unused
    ensures |used + held * unused| + |unused - held| == |used| + |unused|
    ensures |(used + held * unused) + (held - used - unused)| + |unused - held| == |used + unused + held|
  {
    var a, b := held * unused, unused - held;
    assert unused == a + b;
    var c := (used + a) + (held - used - unused);
    assert used + unused + held == c + b;
    assert c !! b;
  }

  ghost predicate EnoughRoom(c: Cache, keys: seq<BlockKey>, now: Time) {
    |c.Cached() + Elems(keys)| <= c.maxBlocks + |Evictable(c.unused - Elems(keys), now)|
  }

  lemma DisjointSize<K>(a: set<K>, b: set<K>)
    requires a !! b
    ensures |a| + |b| == |a + b|
  {
  }

  lemma MinusNothing<K>(a: set<K>)
    ensures a - {} == a
  {
  }

  lemma MinusTwice<K>(a: set<K>, b: set<K>, c: set<K>)
    ensures a - (b + c) == a - b - c
  {
  }

  /** Which blocks are where after an admission: `gone` are unused blocks that the request does not list. */
  ghost predicate Exchanged(c: Cache, c': Cache, keys: seq<BlockKey>, gone: set<BlockKey>, now: Time) {
    && gone <= Evictable(c.unused - Elems(keys), now)
    && c'.used == KnownUsed(c.used, c.unused.Keys, keys) + Ones(Elems(keys) - c.used.Keys - c.unused.Keys)
    && c'.unused == c.unused - Elems(keys) - gone
  }

  /** Only unused blocks that the request does not list leave the cache, and the request's blocks come into use. */
  lemma AdmissionExchanges(c: Cache, c': Cache, req: Request, hashes: seq<nat>, blockTokens: seq<seq<Token>>, now: Time,
                           picks: seq<BlockKey>, emitted: seq<Event>, r: StartResult) returns (gone: set<BlockKey>)
    requires c.used.Keys !! c.unused.Keys
    requires Admitted(c, c', req, hashes, blockTokens, now, picks, emitted, r)
    ensures Exchanged(c, c', KeysOf(req.model, hashes), gone, now)
    ensures |c.used| + |c.unused| <= c.maxBlocks ==>
              (|c'.used| + |c'.unused| <= c.maxBlocks <==> EnoughRoom(c, KeysOf(req.model, hashes), now))
    ensures |c.used| + |c.unused| > c.maxBlocks ==> gone == {} && |c'.used| + |c'.unused| > c.maxBlocks
  {
    var keys := KeysOf(req.model, hashes);
    var added := NewBlocks(c.Cached(), keys, blockTokens);
    var t1 := Known(c, keys);
    NewBlocksAreTheMissingOnes(c.Cached(), keys, blockTokens);
    MinusTwice(Elems(keys), c.used.Keys, c.unused.Keys);
    KnownSizes(c.used, c.unused, keys);
    gone := AddAllCourse(t1, added, c.maxBlocks, c.loaded, now, picks);
    if !Overfull(t1, c.maxBlocks) {
      CourseFitsIff(t1, AddAll(t1, added, c.maxBlocks, picks), Elems(BlockKeys(added)), gone, c.maxBlocks, now);
    }
  }

  lemma KeysWithOnes<K>(m: map<K, nat>, keys: set<K>)
    ensures (m + Ones(keys)).Keys == m.Keys + keys
  {
  }

  lemma KeysWithoutTwo<K, V>(m: map<K, V>, a: set<K>, b: set<K>)
    ensures (m - a - b).Keys == m.Keys - a - b
  {
  }

  lemma ExchangedKeys<K>(used: map<K, nat>, unused: map<K, Time>, used': map<K, nat>, unused': map<K, Time>,
                         keys: seq<K>, gone: set<K>)
    requires used.Keys !! unused.Keys && gone <= unused.Keys - Elems(keys)
    requires used' == KnownUsed(used, unused.Keys, keys) + Ones(Elems(keys) - used.Keys - unused.Keys)
    requires unused' == unused - Elems(keys) - gone
    ensures used'.Keys == used.Keys + Elems(keys) && unused'.Keys == unused.Keys - Elems(keys) - gone
    ensures used'.Keys !! unused'.Keys && used'.Keys + unused'.Keys == (used.Keys + unused.Keys - gone) + Elems(keys)
  {
    KnownSizes(used, unused, keys);
    KeysWithOnes(KnownUsed(used, unused.Keys, keys), Elems(keys) - used.Keys - unused.Keys);
    KeysWithoutTwo(unused, Elems(keys), gone);
    SetsExchange(used.Keys, unused.Keys, Elems(keys), gone);
  }

  lemma SetsExchange<K>(used: set<K>, unused: set<K>, held: set<K>, gone: set<K>)
    requires used !! unused && gone <= unused - held
    ensures (used + held * unused) + (held - used - unused) == used + held
    ensures (used + held) !! (unused - held - gone)
    ensures (used + held) + (unused - held - gone) == (used + unused - gone) + held
  {
  }

  lemma WhoCameAndWent<K>(cached: set<K>, cached': set<K>, gone: set<K>, held: set<K>)
    requires gone <= cached - held && cached' == (cached - gone) + held
    ensures cached - cached' == gone && cached' - cached == held - cached
  {
  }

  /** The two tables after an admission, and what left. */
  lemma ExchangedCache(c: Cache, c': Cache, keys: seq<BlockKey>, gone: set<BlockKey>, now: Time)
    requires c.used.Keys !! c.unused.Keys && Exchanged(c, c', keys, gone, now)
    ensures c'.used.Keys == c.used.Keys + Elems(keys) && c'.used.Keys !! c'.unused.Keys
    ensures c.Cached() - c'.Cached() == gone && c'.Cached() - c.Cached() == Elems(keys) - c.Cached()
    ensures c'.Cached() == (c.Cached() - gone) + Elems(keys)
  {
    EvictableAreUnused(c.unused, Elems(keys), gone, now);
    ExchangedKeys(c.used, c.unused, c'.used, c'.unused, keys, gone);
    WhoCameAndWent(c.Cached(), c'.Cached(), gone, Elems(keys));
  }

  lemma EvictableAreUnused(unused: map<BlockKey, Time>, held: set<BlockKey>, gone: set<BlockKey>, now: Time)
    requires gone <= Evictable(unused - held, now)
    ensures gone <= unused.Keys - held
  {
  }

  /**
   What leaves and what comes, for any list and any clock: the blocks that leave were unused, evictable and not listed;
   the request's blocks are in use afterwards, and used and unused blocks stay apart.
   */
  lemma EvictionSparesHeldBlocks(c: Cache, c': Cache, req: Request, hashes: seq<nat>, blockTokens: seq<seq<Token>>,
                                 now: Time, picks: seq<BlockKey>, emitted: seq<Event>, r: StartResult)
    requires c.used.Keys !! c.unused.Keys
    requires Admitted(c, c', req, hashes, blockTokens, now, picks, emitted, r)
    ensures var held := Elems(KeysOf(req.model, hashes));
            && c'.used.Keys == c.used.Keys + held && c'.used.Keys !! c'.unused.Keys
            && c.Cached() - c'.Cached() <= Evictable(c.unused - held, now)
            && c'.Cached() - c.Cached() == held - c.Cached()
  {
    var gone := AdmissionExchanges(c, c', req, hashes, blockTokens, now, picks, emitted, r);
    ExchangedCache(c, c', KeysOf(req.model, hashes), gone, now);
  }

  /** The capacity is kept exactly if the blocks that can leave make up for what does not fit. */
  lemma CapacityIsKeptIff(c: Cache, c': Cache, req: Request, hashes: seq<nat>, blockTokens: seq<seq<Token>>, now: Time,
                          picks: seq<BlockKey>, emitted: seq<Event>, r: StartResult)
    requires c.used.Keys !! c.unused.Keys && |c.Cached()| <= c.maxBlocks
    requires Admitted(c, c', req, hashes, blockTokens, now, picks, emitted, r)
    ensures |c'.Cached()| <= c.maxBlocks <==> EnoughRoom(c, KeysOf(req.model, hashes), now)
  {
    var _ := AdmissionExchanges(c, c', req, hashes, blockTokens, now, picks, emitted, r);
    EvictionSparesHeldBlocks(c, c', req, hashes, blockTokens, now, picks, emitted, r);
    DisjointSize(c.used.Keys, c.unused.Keys);
    DisjointSize(c'.used.Keys, c'.unused.Keys);
  }

  /** A cache that overran its capacity never evicts again: no block leaves and it stays too large. */
  lemma OverfullStaysOverfull(c: Cache, c': Cache, req: Request, hashes: seq<nat>, blockTokens: seq<seq<Token>>,
                              now: Time, picks: seq<BlockKey>, emitted: seq<Event>, r: StartResult)
    requires c.used.Keys !! c.unused.Keys && |c.Cached()| > c.maxBlocks
    requires Admitted(c, c', req, hashes, blockTokens, now, picks, emitted, r)
    ensures c'.Cached() == c.Cached() + Elems(KeysOf(req.model, hashes)) && |c'.Cached()| > c.maxBlocks
  {
    var gone := AdmissionExchanges(c, c', req, hashes, blockTokens, now, picks, emitted, r);
    DisjointSize(c.used.Keys, c.unused.Keys);
    ExchangedCache(c, c', KeysOf(req.model, hashes), gone, now);
    MinusNothing(c.Cached());
    DisjointSize(c'.used.Keys, c'.unused.Keys);
  }
}
