/**
 Hits, parents and short runs of the block cache (pkg/kvcache/block_cache.go): when the cached blocks of a request form
 a leading prefix, and runs in which they do not, a block is missed, or the capacity is overrun.
 */
module CacheRuns {
  import opened Common
  import opened RefCounts
  import opened BlockCache
  import opened Admission

  // ---------------------------------------------------------------- capacity and hits

  lemma {:induction false} KeptSize<K>(keys: seq<K>, s: set<K>)
    requires Distinct(keys)
    ensures |s + Elems(keys)| == |s| + |keys| - |KeepIn(keys, s)|
  {
    if keys == [] {
      assert s + Elems(keys) == s;
    } else {
      var n := |keys| - 1;
      KeptSize(keys[..n], s);
      assert keys == keys[..n] + [keys[n]];
      ElemsAppend(keys[..n], keys[n]);
      assert keys[n] !in Elems(keys[..n]);
      if keys[n] in s {
        assert s + Elems(keys) == s + Elems(keys[..n]);
      } else {
        assert s + Elems(keys) == s + Elems(keys[..n]) + {keys[n]};
      }
    }
  }

  /** Distinct blocks fit exactly if they and the blocks in use are together within the capacity. */
  lemma FitsIff(c: Cache, keys: seq<BlockKey>)
    requires Distinct(keys)
    ensures Fits(c, keys) <==> |c.used.Keys + Elems(keys)| <= c.maxBlocks
  {
    KeptSize(keys, c.used.Keys);
    assert |c.used.Keys| == |c.used|;
  }

  /** The first n blocks of the request are cached, and no more in a row. */
  predicate CachedPrefix(c: Cache, model: string, hashes: seq<nat>, n: nat) {
    && n <= |hashes|
    && (forall i :: 0 <= i < n ==> BlockKey(hashes[i], model) in c.Cached())
    && (n < |hashes| ==> BlockKey(hashes[n], model) !in c.Cached())
  }

  ghost predicate NoneCachedFrom<K>(cached: set<K>, keys: seq<K>, n: nat) {
    forall i :: n <= i < |keys| ==> keys[i] !in cached
  }

  lemma {:induction false} NewBlocksBeyondPrefix<K>(cached: set<K>, keys: seq<K>, blockTokens: seq<seq<Token>>, n: nat)
    requires |keys| == |blockTokens| && n <= |keys| && forall i :: 0 <= i < n ==> keys[i] in cached
    ensures |NewBlocks(cached, keys, blockTokens)| <= |keys| - n
    ensures |NewBlocks(cached, keys, blockTokens)| == |keys| - n <==> NoneCachedFrom(cached, keys, n)
  {
    if keys != [] {
      var m := |keys| - 1;
      NewBlocksBeyondPrefix(cached, keys[..m], blockTokens[..m], if n <= m then n else m);
      if NoneCachedFrom(cached, keys, n) {
        assert NoneCachedFrom(cached, keys[..m], n);
      } else if n <= m && NoneCachedFrom(cached, keys[..m], n) {
        assert keys[m] in cached;
      }
    }
  }

  lemma {:induction false} FirstNewBlock<K>(cached: set<K>, keys: seq<K>, blockTokens: seq<seq<Token>>, n: nat)
    requires |keys| == |blockTokens| && n < |keys| && keys[n] !in cached && forall i :: 0 <= i < n ==> keys[i] in cached
    ensures NewBlocks(cached, keys, blockTokens) != [] && NewBlocks(cached, keys, blockTokens)[0].key == keys[n]
  {
    var m := |keys| - 1;
    if n < m {
      FirstNewBlock(cached, keys[..m], blockTokens[..m], n);
    } else {
      NewBlocksBeyondPrefix(cached, keys[..m], blockTokens[..m], m);
    }
  }

  /**
   The hits of a request are at least its cached prefix, and no more exactly if nothing behind the prefix is cached.
   */
  lemma HitsCoverCachedPrefix(c: Cache, c': Cache, req: Request, hashes: seq<nat>, blockTokens: seq<seq<Token>>,
                              now: Time, picks: seq<BlockKey>, emitted: seq<Event>, r: StartResult, n: nat)
    requires Admitted(c, c', req, hashes, blockTokens, now, picks, emitted, r) && CachedPrefix(c, req.model, hashes, n)
    ensures r.blocks >= n
    ensures r.blocks == n <==> NoneCachedFrom(c.Cached(), KeysOf(req.model, hashes), n)
  {
    NewBlocksBeyondPrefix(c.Cached(), KeysOf(req.model, hashes), blockTokens, n);
  }

  function Predecessor(hashes: seq<nat>, n: nat): Option<nat>
    requires n <= |hashes|
  {
    if n == 0 then None else Some(hashes[n - 1])
  }

  /**
   The parent of the store event is the block before the first new one exactly if nothing behind the cached prefix is
   cached; the position of the parent for any list, its hash for distinct ones.
   */
  lemma ParentIsPredecessorIff(c: Cache, req: Request, hashes: seq<nat>, blockTokens: seq<seq<Token>>, n: nat)
    requires CachedPrefix(c, req.model, hashes, n) && n < |hashes| == |blockTokens|
    ensures var keys := KeysOf(req.model, hashes);
            var added, last := NewBlocks(c.Cached(), keys, blockTokens), LastCached(c.Cached(), keys);
            && added != [] && added[0].key == keys[n]
            && (last + 1 == n <==> NoneCachedFrom(c.Cached(), keys, n))
            && (last + 1 == n ==> StoreEvents(added, last, req, hashes)[0].parent == Predecessor(hashes, n))
            && (Distinct(hashes) && StoreEvents(added, last, req, hashes)[0].parent == Predecessor(hashes, n) ==>
                last + 1 == n)
  {
    var keys := KeysOf(req.model, hashes);
    FirstNewBlock(c.Cached(), keys, blockTokens, n);
    var last := LastCached(c.Cached(), keys);
    if n > 0 {
      assert keys[n - 1] in c.Cached();
    }
    if last + 1 == n {
      assert NoneCachedFrom(c.Cached(), keys, n);
    } else if last >= n {
      assert keys[last] in c.Cached();
    }
  }

  // ---------------------------------------------------------------- short runs

  function Fresh(max: nat): Cache {
    Cache(map[], map[], map[], map[], {"m"}, max, false)
  }

  function Ask(id: string): Request {
    Request(id, "m", None, None)
  }

  function Block(h: nat): BlockKey {
    BlockKey(h, "m")
  }

  function StoreOf(hashes: seq<nat>, parent: Option<nat>): Event {
    Store(hashes, [], parent, None, None)
  }

  /** The cache can admit the request and then be c', emitting these events. */
  ghost predicate Admits(c: Cache, c': Cache, req: Request, hashes: seq<nat>, now: Time, emitted: seq<Event>) {
    exists toks, picks, r :: Admitted(c, c', req, hashes, toks, now, picks, emitted, r)
  }

  /** One block that is not cached, without tokens: what is added and where it goes. */
  lemma OneNewBlock(c: Cache, h: nat)
    requires Block(h) !in c.Cached()
    ensures KeysOf("m", [h]) == [Block(h)] && Elems([Block(h)]) == {Block(h)}
    ensures NewBlocks(c.Cached(), [Block(h)], [[]]) == [NewBlock(Block(h), [])]
    ensures LastCached(c.Cached(), [Block(h)]) == -1
    ensures Known(c, [Block(h)]) == Tables(c.used, c.unused, c.tokens, [])
    ensures KeepIn([Block(h)], c.used.Keys) == []
  {
    var keys := [Block(h)];
    assert KeysOf("m", [h]) == keys;
    assert NewBlocks(c.Cached(), keys[..0], [[]][..0]) == [];
    assert LastCached(c.Cached(), keys[..0]) == -1;
    assert KeepIn(keys[..0], c.used.Keys) == [];
    assert Elems(keys) == {Block(h)};
    assert KnownUsed(c.used, c.unused.Keys, keys) == c.used;
    assert c.unused - Elems(keys) == c.unused;
  }

  function TablesOf(c: Cache): Tables {
    Tables(c.used, c.unused, c.tokens, [])
  }

  function WithTables(c: Cache, id: string, keys: seq<BlockKey>, t: Tables): Cache {
    c.(requests := c.requests[id := keys], used := t.used, unused := t.unused, tokens := t.tokens)
  }

  lemma AdmittedBy(c: Cache, c': Cache, req: Request, hashes: seq<nat>, blockTokens: seq<seq<Token>>, now: Time,
                   picks: seq<BlockKey>, keys: seq<BlockKey>, added: seq<NewBlock<BlockKey>>, t1: Tables, t: Tables,
                   stored: seq<Event>, emitted: seq<Event>)
    requires !c.disabled && req.id !in c.requests && |hashes| == |blockTokens| && keys == KeysOf(req.model, hashes) &&
             Fits(c, keys)
    requires added == NewBlocks(c.Cached(), keys, blockTokens) && |picks| == |added|
    requires t1 == Known(c, keys) && GoodPicks(t1, added, c.maxBlocks, c.loaded, now, picks)
    requires t == AddAll(t1, added, c.maxBlocks, picks) && c' == WithTables(c, req.id, keys, t)
    requires stored == StoreEvents(added, LastCached(c.Cached(), keys), req, hashes) && emitted == t.removed + stored
    ensures Admits(c, c', req, hashes, now, emitted)
  {
    assert Admitted(c, c', req, hashes, blockTokens, now, picks, emitted, Hits(|keys| - |added|));
  }

  lemma AddingOne(t: Tables, a: NewBlock<BlockKey>, max: nat, loaded: set<string>, now: Time, v: BlockKey)
    requires Full(t, max) ==> Picked(t.unused, loaded, now, v)
    ensures AddAll(t, [a], max, [v]) == AddOne(t, a, max, v) && GoodPicks(t, [a], max, loaded, now, [v])
  {
    assert [a][..0] == [] && [v][..0] == [];
  }

  lemma AddingTwo(t: Tables, a: NewBlock<BlockKey>, b: NewBlock<BlockKey>, max: nat, loaded: set<string>, now: Time,
                  v: BlockKey, w: BlockKey)
    requires Full(t, max) ==> Picked(t.unused, loaded, now, v)
    requires var t1 := AddOne(t, a, max, v); Full(t1, max) ==> Picked(t1.unused, loaded, now, w)
    ensures AddAll(t, [a, b], max, [v, w]) == AddOne(AddOne(t, a, max, v), b, max, w)
    ensures GoodPicks(t, [a, b], max, loaded, now, [v, w])
  {
    AddingOne(t, a, max, loaded, now, v);
    assert [a, b][..1] == [a] && [v, w][..1] == [v];
  }

  /** Blocks without tokens are stored in one event. */
  lemma StoringBlocks(hs: seq<nat>, added: seq<NewBlock<BlockKey>>, last: int, id: string, hashes: seq<nat>)
    requires hs != [] && |added| == |hs| && last < |hashes| && forall i :: 0 <= i < |hs| ==>
             added[i] == NewBlock(Block(hs[i]), [])
    ensures StoreEvents(added, last, Ask(id), hashes) == [StoreOf(hs, if last >= 0 then Some(hashes[last]) else None)]
  {
    assert HashesOf(BlockKeys(added)) == hs;
    NoTokens(added);
  }

  lemma {:induction false} NoTokens(added: seq<NewBlock<BlockKey>>)
    requires forall i :: 0 <= i < |added| ==> added[i].tokens == []
    ensures AllTokens(added) == []
  {
    if added != [] {
      NoTokens(added[..|added| - 1]);
    }
  }

  /** Admitting one new block: with the block v picked if the cache is full. */
  lemma AdmitOne(c: Cache, id: string, h: nat, now: Time, v: BlockKey) returns (c': Cache, t: Tables)
    requires !c.disabled && id !in c.requests && Block(h) !in c.Cached() && |c.used| < c.maxBlocks
    requires Full(TablesOf(c), c.maxBlocks) ==> Picked(c.unused, c.loaded, now, v)
    ensures t == AddOne(TablesOf(c), NewBlock(Block(h), []), c.maxBlocks, v) && c' == WithTables(c, id, [Block(h)], t)
    ensures Admits(c, c', Ask(id), [h], now, t.removed + [StoreOf([h], None)])
  {
    OneNewBlock(c, h);
    var a: NewBlock<BlockKey> := NewBlock(Block(h), []);
    AddingOne(TablesOf(c), a, c.maxBlocks, c.loaded, now, v);
    StoringBlocks([h], [a], -1, id, [h]);
    t := AddOne(TablesOf(c), a, c.maxBlocks, v);
    c' := WithTables(c, id, [Block(h)], t);
    AdmittedBy(c, c', Ask(id), [h], [[]], now, [v], [Block(h)], [a], TablesOf(c), t, [StoreOf([h], None)],
               t.removed + [StoreOf([h], None)]);
  }

  lemma TwoNewBlocks(c: Cache, g: nat, h: nat)
    requires Block(g) !in c.Cached() && Block(h) !in c.Cached()
    ensures KeysOf("m", [g, h]) == [Block(g), Block(h)]
    ensures NewBlocks(c.Cached(), [Block(g), Block(h)], [[], []]) == [NewBlock(Block(g), []), NewBlock(Block(h), [])]
    ensures LastCached(c.Cached(), [Block(g), Block(h)]) == -1
    ensures Known(c, [Block(g), Block(h)]) == Tables(c.used, c.unused, c.tokens, [])
    ensures KeepIn([Block(g), Block(h)], c.used.Keys) == []
  {
    var keys := [Block(g), Block(h)];
    var toks: seq<seq<Token>> := [[], []];
    OneNewBlock(c, g);
    assert keys[..1] == [Block(g)] && toks[..1] == [[]];
    assert KeysOf("m", [g, h]) == keys;
    assert KnownUsed(c.used, c.unused.Keys, keys) == c.used;
    assert c.unused - Elems(keys) == c.unused;
  }

  /** Admitting two new blocks, which may be the same, while there is room for both. */
  lemma AdmitTwo(c: Cache, id: string, g: nat, h: nat, now: Time) returns (c': Cache, t: Tables)
    requires !c.disabled && id !in c.requests && |c.used| + |c.unused| + 2 <= c.maxBlocks
    requires Block(g) !in c.Cached() && Block(h) !in c.Cached()
    ensures t == Enter(Enter(TablesOf(c), NewBlock(Block(g), [])), NewBlock(Block(h), []))
    ensures c' == WithTables(c, id, [Block(g), Block(h)], t)
    ensures Admits(c, c', Ask(id), [g, h], now, [StoreOf([g, h], None)])
  {
    TwoNewBlocks(c, g, h);
    var a: NewBlock<BlockKey>, b: NewBlock<BlockKey> := NewBlock(Block(g), []), NewBlock(Block(h), []);
    EnterSize(c.used, a.key, 1);
    AddingTwo(TablesOf(c), a, b, c.maxBlocks, c.loaded, now, NO_BLOCK, NO_BLOCK);
    StoringBlocks([g, h], [a, b], -1, id, [g, h]);
    t := Enter(Enter(TablesOf(c), a), b);
    c' := WithTables(c, id, [Block(g), Block(h)], t);
    EmptyConcat([StoreOf([g, h], None)]);
    AdmittedBy(c, c', Ask(id), [g, h], [[], []], now, [NO_BLOCK, NO_BLOCK], [Block(g), Block(h)], [a, b], TablesOf(c),
               t, [StoreOf([g, h], None)], [StoreOf([g, h], None)]);
  }

  lemma ReleaseTwice(k: BlockKey, unused: map<BlockKey, Time>, now: Time)
    ensures ReleaseAll(Released(map[k := 1], unused, []), [k, k], now).missing == [k]
  {
    var s0: Released<BlockKey> := Released(map[k := 1], unused, []);
    assert [k, k][..1] == [k] && [k][..0] == [];
    var s1 := ReleaseAll(s0, [k], now);
    assert s1 == ReleaseOne(ReleaseAll(s0, [], now), k, now);
    assert ReleaseAll(s0, [k, k], now) == ReleaseOne(s1, k, now);
  }

  function HoldingTwice(h: nat): Cache {
    Cache(map["a" := [Block(h), Block(h)]], map[Block(h) := 1], map[], map[Block(h) := []], {"m"}, 2, false)
  }

  lemma TwiceEntered(h: nat)
    ensures Enter(Enter(TablesOf(Fresh(2)), NewBlock(Block(h), [])), NewBlock(Block(h), [])) ==
            Tables(map[Block(h) := 1], map[], map[Block(h) := []], [])
  {
  }

  lemma AdmitsTwice(h: nat, now: Time)
    ensures Admits(Fresh(2), HoldingTwice(h), Ask("a"), [h, h], now, [StoreOf([h, h], None)])
  {
    TwiceEntered(h);
    var c', t := AdmitTwo(Fresh(2), "a", h, h, now);
  }

  /** A request that lists a new block twice gets one reference for it, and its completion misses the block. */
  lemma RepeatedBlockIsMissed(h: nat, now: Time, later: Time) returns (c': Cache)
    ensures Admits(Fresh(2), c', Ask("a"), [h, h], now, [StoreOf([h, h], None)])
    ensures c'.used == map[Block(h) := 1] && FinishRequestSpec(c', "a", later).1 == [Block(h)]
  {
    c' := HoldingTwice(h);
    AdmitsTwice(h, now);
    ReleaseTwice(Block(h), map[], later);
  }

  /** One request holds one block. */
  function Holding(max: nat, id: string, h: nat): Cache {
    Cache(map[id := [Block(h)]], map[Block(h) := 1], map[], map[Block(h) := []], {"m"}, max, false)
  }

  /** One block is left, unused since `stamp`. */
  function Leaving(max: nat, h: nat, stamp: Time): Cache {
    Cache(map[], map[], map[Block(h) := stamp], map[Block(h) := []], {"m"}, max, false)
  }

  lemma AdmitsFirst(max: nat, id: string, h: nat, now: Time)
    requires max >= 1
    ensures Admits(Fresh(max), Holding(max, id, h), Ask(id), [h], now, [StoreOf([h], None)])
  {
    var c', t := AdmitOne(Fresh(max), id, h, now, NO_BLOCK);
    EmptyConcat([StoreOf([h], None)]);
    assert t.removed == [];
  }

  lemma FinishesFirst(max: nat, id: string, h: nat, now: Time)
    ensures FinishRequestSpec(Holding(max, id, h), id, now) == (Leaving(max, h, now), [])
  {
    var s0: Released<BlockKey> := Released(map[Block(h) := 1], map[], []);
    assert [Block(h)][..0] == [];
    assert ReleaseAll(s0, [Block(h)], now) == ReleaseOne(ReleaseAll(s0, [], now), Block(h), now);
    assert map[Block(h) := 1] - {Block(h)} == map[];
    assert map[id := [Block(h)]] - {id} == map[];
  }

  function Overrun(g: nat, h: nat, stamp: Time): Cache {
    Cache(map["b" := [Block(h)]], map[Block(h) := 1], map[Block(g) := stamp], map[Block(g) := [], Block(h) := []],
          {"m"}, 1, false)
  }

  lemma NothingToEvict(g: nat, h: nat, now: Time)
    requires g != h
    ensures var c := Leaving(1, g, now);
            && Picked(c.unused, c.loaded, now, NO_BLOCK) && Block(h) !in c.Cached()
            && AddOne(TablesOf(c), NewBlock(Block(h), []), 1, NO_BLOCK) ==
               Tables(map[Block(h) := 1], map[Block(g) := now], map[Block(g) := [], Block(h) := []], [Remove([0], [])])
  {
    var c := Leaving(1, g, now);
    assert OlderThan(c.unused, now) == map[];
    assert c.unused - {NO_BLOCK} == c.unused && c.tokens - {NO_BLOCK} == c.tokens;
    assert |c.unused| == 1;
    assert [] + [Remove([0], [])] == [Remove([0], [])];
  }

  lemma TwoEvents(a: Event, b: Event)
    ensures [a] + [b] == [a, b]
  {
  }

  /** Nothing is older than the clock reads, so the picked zero key is removed from tables that do not hold it. */
  lemma AdmitsWithoutEviction(g: nat, h: nat, now: Time)
    requires g != h
    ensures Admits(Leaving(1, g, now), Overrun(g, h, now), Ask("b"), [h], now, [Remove([0], []), StoreOf([h], None)])
  {
    NothingToEvict(g, h, now);
    TwoEvents(Remove([0], []), StoreOf([h], None));
    var c', t := AdmitOne(Leaving(1, g, now), "b", h, now, NO_BLOCK);
  }

  lemma OverrunSize(g: nat, h: nat, stamp: Time)
    requires g != h
    ensures Overrun(g, h, stamp).Cached() == {Block(g), Block(h)} && |Overrun(g, h, stamp).Cached()| == 2
  {
    assert Overrun(g, h, stamp).Cached() == {Block(g), Block(h)};
  }

  /** A block released in the same instant as another is admitted stays: the cache overruns its capacity. */
  lemma SameInstantOverruns(g: nat, h: nat, now: Time) returns (c1: Cache, c2: Cache, c3: Cache)
    requires g != h
    ensures Admits(Fresh(1), c1, Ask("a"), [g], now, [StoreOf([g], None)])
    ensures c2 == FinishRequestSpec(c1, "a", now).0
    ensures Admits(c2, c3, Ask("b"), [h], now, [Remove([0], []), StoreOf([h], None)])
    ensures c3.Cached() == {Block(g), Block(h)} && |c3.Cached()| > c3.maxBlocks
  {
    c1, c2, c3 := Holding(1, "a", g), Leaving(1, g, now), Overrun(g, h, now);
    AdmitsFirst(1, "a", g, now);
    FinishesFirst(1, "a", g, now);
    AdmitsWithoutEviction(g, h, now);
    OverrunSize(g, h, now);
  }

  // ---------------------------------------------------------------- a gap in front of a cached block

  /** One request holds two blocks. */
  function HoldingBoth(g: nat, h: nat): Cache {
    Cache(map["a" := [Block(g), Block(h)]], map[Block(g) := 1, Block(h) := 1], map[],
          map[Block(g) := [], Block(h) := []], {"m"}, 2, false)
  }

  function LeavingBoth(g: nat, h: nat, stamp: Time): Cache {
    Cache(map[], map[], map[Block(g) := stamp, Block(h) := stamp], map[Block(g) := [], Block(h) := []], {"m"}, 2, false)
  }

  lemma AdmitsBoth(g: nat, h: nat, now: Time)
    requires g != h
    ensures Admits(Fresh(2), HoldingBoth(g, h), Ask("a"), [g, h], now, [StoreOf([g, h], None)])
  {
    var c', t := AdmitTwo(Fresh(2), "a", g, h, now);
    assert t.used == map[Block(g) := 1, Block(h) := 1] && t.tokens == map[Block(g) := [], Block(h) := []];
  }

  lemma FinishesBoth(g: nat, h: nat, now: Time)
    requires g != h
    ensures FinishRequestSpec(HoldingBoth(g, h), "a", now) == (LeavingBoth(g, h, now), [])
  {
    var s0: Released<BlockKey> := Released(map[Block(g) := 1, Block(h) := 1], map[], []);
    var keys := [Block(g), Block(h)];
    assert keys[..1] == [Block(g)] && [Block(g)][..0] == [];
    var s1 := ReleaseOne(s0, Block(g), now);
    assert s1.used == map[Block(h) := 1];
    assert ReleaseAll(s0, [Block(g)], now) == s1;
    assert s1.used - {Block(h)} == map[];
    assert ReleaseAll(s0, keys, now) == ReleaseOne(s1, Block(h), now);
    assert map["a" := keys] - {"a"} == map[];
  }

  /** A third block pushes out one of two blocks of the same age. */
  function PushedOut(h: nat, x: nat, stamp: Time): Cache {
    Cache(map["b" := [Block(x)]], map[Block(x) := 1], map[Block(h) := stamp], map[Block(h) := [], Block(x) := []],
          {"m"}, 2, false)
  }

  lemma PairOfKeys<K, V>(a: K, b: K, u: V, v: V)
    requires a != b
    ensures var m := map[a := u, b := v]; m - {a} == map[b := v] && m - {b} == map[a := u] && |m| == 2
  {
    var m := map[a := u, b := v];
    assert m.Keys == {a, b};
    assert |m| == |m.Keys|;
  }

  lemma SameAgePick(g: nat, h: nat, stamp: Time, now: Time)
    requires stamp < now
    ensures Picked(map[Block(g) := stamp, Block(h) := stamp], {"m"}, now, Block(g))
  {
    var unused: map<BlockKey, Time> := map[Block(g) := stamp, Block(h) := stamp];
    assert OlderThan(unused, now) == unused;
    assert Block(g) in unused;
  }

  lemma FirstIsEvicted(g: nat, h: nat, x: nat, stamp: Time)
    requires g != h && x != g && x != h
    ensures AddOne(TablesOf(LeavingBoth(g, h, stamp)), NewBlock(Block(x), []), 2, Block(g)) ==
            Tables(map[Block(x) := 1], map[Block(h) := stamp], map[Block(h) := [], Block(x) := []], [Remove([g], [])])
  {
    PairOfKeys<BlockKey, Time>(Block(g), Block(h), stamp, stamp);
    PairOfKeys<BlockKey, seq<Token>>(Block(g), Block(h), [], []);
    assert [] + [Remove([g], [])] == [Remove([g], [])];
  }

  lemma AdmitsThird(g: nat, h: nat, x: nat, stamp: Time, now: Time)
    requires g != h && x != g && x != h && stamp < now
    ensures Admits(LeavingBoth(g, h, stamp), PushedOut(h, x, stamp), Ask("b"), [x], now,
                   [Remove([g], []), StoreOf([x], None)])
  {
    FirstIsEvicted(g, h, x, stamp);
    SameAgePick(g, h, stamp, now);
    TwoEvents(Remove([g], []), StoreOf([x], None));
    var c', t := AdmitOne(LeavingBoth(g, h, stamp), "b", x, now, Block(g));
  }

  function LeavingThird(h: nat, x: nat, stamp: Time, now: Time): Cache {
    Cache(map[], map[], map[Block(h) := stamp, Block(x) := now], map[Block(h) := [], Block(x) := []], {"m"}, 2, false)
  }

  lemma FinishesThird(h: nat, x: nat, stamp: Time, now: Time)
    requires h != x
    ensures FinishRequestSpec(PushedOut(h, x, stamp), "b", now) == (LeavingThird(h, x, stamp, now), [])
  {
    var s0: Released<BlockKey> := Released(map[Block(x) := 1], map[Block(h) := stamp], []);
    assert [Block(x)][..0] == [];
    assert ReleaseAll(s0, [Block(x)], now) == ReleaseOne(ReleaseAll(s0, [], now), Block(x), now);
    assert map[Block(x) := 1] - {Block(x)} == map[];
    assert map["b" := [Block(x)]] - {"b"} == map[];
  }

  /** The blocks of the first request again: only the second one is cached. */
  lemma SecondIsCached(c: Cache, g: nat, h: nat)
    requires g != h && Block(g) !in c.Cached() && Block(h) in c.unused && c.used == map[]
    ensures KeysOf("m", [g, h]) == [Block(g), Block(h)]
    ensures NewBlocks(c.Cached(), [Block(g), Block(h)], [[], []]) == [NewBlock(Block(g), [])]
    ensures LastCached(c.Cached(), [Block(g), Block(h)]) == 1
    ensures Known(c, [Block(g), Block(h)]) == Tables(map[Block(h) := 1], c.unused - {Block(h)}, c.tokens, [])
    ensures KeepIn([Block(g), Block(h)], c.used.Keys) == []
  {
    var keys := [Block(g), Block(h)];
    var toks: seq<seq<Token>> := [[], []];
    OneNewBlock(c, g);
    assert keys[..1] == [Block(g)] && toks[..1] == [[]];
    assert KeysOf("m", [g, h]) == keys;
    assert Elems(keys) == {Block(g), Block(h)};
    assert KnownUsed(c.used, c.unused.Keys, keys) == map[Block(h) := 1];
    assert c.unused - Elems(keys) == c.unused - {Block(h)};
  }

  lemma GapIsThere(g: nat, h: nat, x: nat, stamp: Time, middle: Time)
    requires g != h && x != g && x != h
    ensures CachedPrefix(LeavingThird(h, x, stamp, middle), "m", [g, h], 0)
    ensures LastCached(LeavingThird(h, x, stamp, middle).Cached(), KeysOf("m", [g, h])) == 1
  {
    SecondIsCached(LeavingThird(h, x, stamp, middle), g, h);
  }

  function Refilled(g: nat, h: nat): Cache {
    Cache(map["c" := [Block(g), Block(h)]], map[Block(h) := 1, Block(g) := 1], map[],
          map[Block(h) := [], Block(g) := []], {"m"}, 2, false)
  }

  function SecondKnown(h: nat, x: nat, middle: Time): Tables {
    Tables(map[Block(h) := 1], map[Block(x) := middle], map[Block(h) := [], Block(x) := []], [])
  }

  function FirstAdded(g: nat, h: nat, x: nat): Tables {
    Tables(map[Block(h) := 1, Block(g) := 1], map[], map[Block(h) := [], Block(g) := []], [Remove([x], [])])
  }

  lemma ThirdIsEvicted(g: nat, h: nat, x: nat, middle: Time, now: Time)
    requires g != h && x != g && x != h && middle < now
    ensures var t, a := SecondKnown(h, x, middle), NewBlock(Block(g), []);
            GoodPicks(t, [a], 2, {"m"}, now, [Block(x)]) && AddAll(t, [a], 2, [Block(x)]) == FirstAdded(g, h, x)
  {
    var t := SecondKnown(h, x, middle);
    assert OlderThan(t.unused, now) == t.unused;
    assert IsVictim(t.unused, {"m"}, Block(x));
    assert t.unused - {Block(x)} == map[];
    PairOfKeys<BlockKey, seq<Token>>(Block(h), Block(x), [], []);
    assert [] + [Remove([x], [])] == [Remove([x], [])];
    AddingOne(t, NewBlock(Block(g), []), 2, {"m"}, now, Block(x));
  }

  lemma SecondIsKnown(h: nat, x: nat, stamp: Time, middle: Time)
    requires h != x
    ensures LeavingThird(h, x, stamp, middle).unused - {Block(h)} == map[Block(x) := middle]
  {
  }

  lemma AskedAgain(g: nat, h: nat, x: nat, stamp: Time, middle: Time)
    requires g != h && x != g && x != h
    ensures var c, keys := LeavingThird(h, x, stamp, middle), [Block(g), Block(h)];
            && KeysOf("m", [g, h]) == keys && Fits(c, keys)
            && NewBlocks(c.Cached(), keys, [[], []]) == [NewBlock(Block(g), [])]
            && LastCached(c.Cached(), keys) == 1
            && Known(c, keys) == SecondKnown(h, x, middle)
            && Refilled(g, h) == WithTables(c, "c", keys, FirstAdded(g, h, x))
  {
    SecondIsCached(LeavingThird(h, x, stamp, middle), g, h);
    SecondIsKnown(h, x, stamp, middle);
  }

  lemma AnnouncedAgain(g: nat, h: nat, x: nat)
    ensures StoreEvents([NewBlock(Block(g), [])], 1, Ask("c"), [g, h]) == [StoreOf([g], Some(h))]
    ensures FirstAdded(g, h, x).removed + [StoreOf([g], Some(h))] == [Remove([x], []), StoreOf([g], Some(h))]
  {
    StoringBlocks([g], [NewBlock(Block(g), [])], 1, "c", [g, h]);
    TwoEvents(Remove([x], []), StoreOf([g], Some(h)));
  }

  lemma AdmitsAgain(g: nat, h: nat, x: nat, stamp: Time, middle: Time, now: Time)
    requires g != h && x != g && x != h && middle < now
    ensures Admits(LeavingThird(h, x, stamp, middle), Refilled(g, h), Ask("c"), [g, h], now,
                   [Remove([x], []), StoreOf([g], Some(h))])
  {
    var a: NewBlock<BlockKey> := NewBlock(Block(g), []);
    AskedAgain(g, h, x, stamp, middle);
    ThirdIsEvicted(g, h, x, middle, now);
    AnnouncedAgain(g, h, x);
    AdmittedBy(LeavingThird(h, x, stamp, middle), Refilled(g, h), Ask("c"), [g, h], [[], []], now, [Block(x)],
               [Block(g), Block(h)], [a], SecondKnown(h, x, middle), FirstAdded(g, h, x),
               [StoreOf([g], Some(h))], [Remove([x], []), StoreOf([g], Some(h))]);
  }

  /**
   The cached blocks of a request need not form a prefix: two blocks of one request are released together, a third one
   pushes out the first of them, and when the two are asked for again the new first block is announced with the second
   one, which follows it, as its parent.
   */
  lemma ParentCanFollow(g: nat, h: nat, x: nat, now: Time)
    returns (c1: Cache, c2: Cache, c3: Cache, c4: Cache, c5: Cache)
    requires g != h && x != g && x != h
    ensures Admits(Fresh(2), c1, Ask("a"), [g, h], now, [StoreOf([g, h], None)])
    ensures c2 == FinishRequestSpec(c1, "a", now + 1).0
    ensures Admits(c2, c3, Ask("b"), [x], now + 2, [Remove([g], []), StoreOf([x], None)])
    ensures c4 == FinishRequestSpec(c3, "b", now + 3).0
    ensures CachedPrefix(c4, "m", [g, h], 0) && LastCached(c4.Cached(), KeysOf("m", [g, h])) == 1
    ensures Admits(c4, c5, Ask("c"), [g, h], now + 4, [Remove([x], []), StoreOf([g], Some(h))])
  {
    c1, c2, c3 := HoldingBoth(g, h), LeavingBoth(g, h, now + 1), PushedOut(h, x, now + 1);
    c4, c5 := LeavingThird(h, x, now + 1, now + 3), Refilled(g, h);
    AdmitsBoth(g, h, now);
    FinishesBoth(g, h, now + 1);
    AdmitsThird(g, h, x, now + 1, now + 2);
    FinishesThird(h, x, now + 1, now + 3);
    AdmitsAgain(g, h, x, now + 1, now + 3, now + 4);
    GapIsThere(g, h, x, now + 1, now + 3);
  }
}
