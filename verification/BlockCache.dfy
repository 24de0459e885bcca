/**
 The reference-counted KV block cache (pkg/kvcache/block_cache.go).

 A block is in use while some registered request holds it, and unused but still cached afterwards;
 admission of a request may evict unused blocks, blocks of unloaded models first, oldest first.
 */
module BlockCache {
  import opened Common
  import opened RefCounts

  type Time = nat
  type Token = nat

  datatype BlockKey = BlockKey(hash: nat, model: string)

  datatype Request = Request(id: string, model: string, loraName: Option<string>, loraID: Option<int>)

  datatype Event =
    | Store(hashes: seq<nat>, tokens: seq<Token>, parent: Option<nat>, loraName: Option<string>, loraID: Option<int>)
    | Remove(hashes: seq<nat>, tokens: seq<Token>)
    | Cleared

  datatype StartResult = Hits(blocks: nat) | AlreadyExists | BadInput | NoCapacity

  datatype Cache = Cache(
    requests: map<string, seq<BlockKey>>,
    used: map<BlockKey, nat>,
    unused: map<BlockKey, Time>,
    tokens: map<BlockKey, seq<Token>>,
    loaded: set<string>,
    maxBlocks: nat,
    disabled: bool)
  {
    function Cached(): set<BlockKey> {
      used.Keys + unused.Keys
    }
  }

  // ---------------------------------------------------------------- eviction order

  /** Block k is at least as good a victim as j: unloaded models first, then the older time stamp. */
  predicate NoWorseVictim(unused: map<BlockKey, Time>, loaded: set<string>, k: BlockKey, j: BlockKey)
    requires k in unused && j in unused
  {
    || (k.model !in loaded && j.model in loaded)
    || ((k.model in loaded <==> j.model in loaded) && unused[k] <= unused[j])
  }

  ghost predicate IsVictim(unused: map<BlockKey, Time>, loaded: set<string>, k: BlockKey) {
    k in unused && forall j {:trigger NoWorseVictim(unused, loaded, k, j)} :: j in unused ==>
        NoWorseVictim(unused, loaded, k, j)
  }

  function OlderThan(unused: map<BlockKey, Time>, now: Time): map<BlockKey, Time> {
    map k | k in unused && unused[k] < now :: unused[k]
  }

  /** What the scan finds when no block is older than the clock reads: the zero value of a key. */
  const NO_BLOCK: BlockKey := BlockKey(0, "")

  /** A best victim among the blocks strictly older than the clock reads; without one the zero key. */
  ghost predicate Picked(unused: map<BlockKey, Time>, loaded: set<string>, now: Time, v: BlockKey) {
    if OlderThan(unused, now) != map[] then IsVictim(OlderThan(unused, now), loaded, v) else v == NO_BLOCK
  }

  /** The scan visits the unused blocks in an arbitrary order. */
  method PickBlockToEvict(unused: map<BlockKey, Time>, loaded: set<string>, now: Time) returns (victim: BlockKey)
    ensures Picked(unused, loaded, now, victim)
  {
    var bestLoaded, bestUnloaded := NO_BLOCK, NO_BLOCK;
    var bestLoadedTime, bestUnloadedTime := now, now;
    var hasUnloadedCandidate := false;
    ghost var hasLoadedCandidate := false;
    var todo := unused.Keys;
    ghost var seen: set<BlockKey> := {};
    while todo != {}
      invariant todo !! seen && todo + seen == unused.Keys
      invariant hasUnloadedCandidate ==>
                  && bestUnloaded in seen && bestUnloaded.model !in loaded
                  && unused[bestUnloaded] == bestUnloadedTime < now
      invariant !hasUnloadedCandidate ==> bestUnloadedTime == now
      invariant hasLoadedCandidate ==>
                  && bestLoaded in seen && bestLoaded.model in loaded
                  && unused[bestLoaded] == bestLoadedTime < now
      invariant !hasLoadedCandidate ==> bestLoadedTime == now && bestLoaded == NO_BLOCK
      invariant forall j :: j in seen ==> unused[j] >= if j.model in loaded then bestLoadedTime else bestUnloadedTime
      decreases todo
    {
      var k :| k in todo;
      todo := todo - {k};
      seen := seen + {k};
      var t := unused[k];
      if k.model in loaded {
        if t < bestLoadedTime {
          bestLoaded, bestLoadedTime := k, t;
          hasLoadedCandidate := true;
        }
      } else {
        if t < bestUnloadedTime {
          bestUnloaded, bestUnloadedTime := k, t;
          hasUnloadedCandidate := true;
        }
      }
    }
    ghost var older := OlderThan(unused, now);
    if hasUnloadedCandidate {
      victim := bestUnloaded;
      assert victim in older;
    } else {
      victim := bestLoaded;
      assert hasLoadedCandidate ==> victim in older;
      assert !hasLoadedCandidate ==> older.Keys == {};
    }
  }

  // ---------------------------------------------------------------- admission

  function KeysOf(model: string, hashes: seq<nat>): (keys: seq<BlockKey>)
    ensures |keys| == |hashes|
    ensures forall i :: 0 <= i < |keys| ==> keys[i] == BlockKey(hashes[i], model)
  {
    seq(|hashes|, i requires 0 <= i < |hashes| => BlockKey(hashes[i], model))
  }

  datatype NewBlock<K> = NewBlock(key: K, tokens: seq<Token>)

  /** The blocks of a request that are not cached yet, in request order, with their tokens. */
  function NewBlocks<K>(cached: set<K>, keys: seq<K>, blockTokens: seq<seq<Token>>): (added: seq<NewBlock<K>>)
    requires |keys| == |blockTokens|
    ensures |added| <= |keys|
  {
    if keys == [] then []
    else
      var n := |keys| - 1;
      var init := NewBlocks(cached, keys[..n], blockTokens[..n]);
      if keys[n] in cached then init else init + [NewBlock(keys[n], blockTokens[n])]
  }

  function BlockKeys<K>(blocks: seq<NewBlock<K>>): (keys: seq<K>)
    ensures |keys| == |blocks|
    ensures forall i :: 0 <= i < |keys| ==> keys[i] == blocks[i].key
  {
    seq(|blocks|, i requires 0 <= i < |blocks| => blocks[i].key)
  }

  function AllTokens<K>(blocks: seq<NewBlock<K>>): seq<Token> {
    if blocks == [] then []
    else AllTokens(blocks[..|blocks| - 1]) + blocks[|blocks| - 1].tokens
  }

  lemma BlockKeysAppend<K>(blocks: seq<NewBlock<K>>, b: NewBlock<K>)
    ensures BlockKeys(blocks + [b]) == BlockKeys(blocks) + [b.key]
    ensures Elems(BlockKeys(blocks + [b])) == Elems(BlockKeys(blocks)) + {b.key}
  {
    assert BlockKeys(blocks + [b]) == BlockKeys(blocks) + [b.key];
    ElemsAppend(BlockKeys(blocks), b.key);
  }

  lemma {:induction false} NewBlocksAreTheMissingOnes<K>(cached: set<K>, keys: seq<K>, blockTokens: seq<seq<Token>>)
    requires |keys| == |blockTokens|
    ensures Elems(BlockKeys(NewBlocks(cached, keys, blockTokens))) == Elems(keys) - cached
    ensures Distinct(keys) ==> Distinct(BlockKeys(NewBlocks(cached, keys, blockTokens)))
  {
    if keys != [] {
      var n := |keys| - 1;
      NewBlocksAreTheMissingOnes(cached, keys[..n], blockTokens[..n]);
      var init := NewBlocks(cached, keys[..n], blockTokens[..n]);
      assert keys == keys[..n] + [keys[n]];
      ElemsAppend(keys[..n], keys[n]);
      BlockKeysAppend(init, NewBlock(keys[n], blockTokens[n]));
      if Distinct(keys) && keys[n] !in cached {
        assert keys[n] !in Elems(keys[..n]);
        AppendDistinct(BlockKeys(init), keys[n]);
      }
    }
  }

  /** Position of the last block that was cached, -1 when all blocks are new. */
  function LastCached<K>(cached: set<K>, keys: seq<K>): (i: int)
    ensures -1 <= i < |keys|
    ensures i >= 0 ==> keys[i] in cached
    ensures forall j :: i < j < |keys| ==> keys[j] !in cached
  {
    if keys == [] then -1
    else if keys[|keys| - 1] in cached then |keys| - 1
    else LastCached(cached, keys[..|keys| - 1])
  }

  function Removal(tokens: map<BlockKey, seq<Token>>, v: BlockKey): Event {
    Remove([v.hash], if v in tokens then tokens[v] else [])
  }

  function HashesOf(keys: seq<BlockKey>): (hs: seq<nat>)
    ensures |hs| == |keys|
    ensures forall i :: 0 <= i < |hs| ==> hs[i] == keys[i].hash
  {
    seq(|keys|, i requires 0 <= i < |keys| => keys[i].hash)
  }

  /** One store event for all new blocks; its parent is the last block that was cached before. */
  function StoreEvents(added: seq<NewBlock<BlockKey>>, lastCached: int, req: Request, hashes: seq<nat>): seq<Event>
    requires lastCached < |hashes|
  {
    if added == [] then []
    else [Store(HashesOf(BlockKeys(added)), AllTokens(added),
                if lastCached >= 0 then Some(hashes[lastCached]) else None, req.loraName, req.loraID)]
  }

  // ---------------------------------------------------------------- adding blocks to the tables

  /** The tables while a request is admitted, and the remove events so far. */
  datatype Tables = Tables(used: map<BlockKey, nat>, unused: map<BlockKey, Time>, tokens: map<BlockKey, seq<Token>>,
                           removed: seq<Event>)

  predicate Full(t: Tables, max: nat) {
    |t.used| + |t.unused| == max
  }

  /** Evicts a block that was picked, whether or not it is there. */
  function Evict(t: Tables, v: BlockKey): Tables {
    t.(unused := t.unused - {v}, tokens := t.tokens - {v}, removed := t.removed + [Removal(t.tokens, v)])
  }

  function Enter(t: Tables, b: NewBlock<BlockKey>): Tables {
    t.(tokens := t.tokens[b.key := b.tokens], used := t.used[b.key := 1])
  }

  function AddOne(t: Tables, b: NewBlock<BlockKey>, max: nat, pick: BlockKey): Tables {
    Enter(if Full(t, max) then Evict(t, pick) else t, b)
  }

  /** Adds the blocks in turn; when the tables are full before block i, picks[i] is evicted. */
  function AddAll(t: Tables, blocks: seq<NewBlock<BlockKey>>, max: nat, picks: seq<BlockKey>): Tables
    requires |picks| == |blocks|
  {
    if blocks == [] then t
    else
      var n := |blocks| - 1;
      AddOne(AddAll(t, blocks[..n], max, picks[..n]), blocks[n], max, picks[n])
  }

  ghost predicate GoodPicks(t: Tables, blocks: seq<NewBlock<BlockKey>>, max: nat, loaded: set<string>, now: Time,
                            picks: seq<BlockKey>)
    requires |picks| == |blocks|
  {
    blocks == []
    || var n := |blocks| - 1;
       var before := AddAll(t, blocks[..n], max, picks[..n]);
       && GoodPicks(t, blocks[..n], max, loaded, now, picks[..n])
       && (Full(before, max) ==> Picked(before.unused, loaded, now, picks[n]))
  }

  // ---------------------------------------------------------------- startRequest

  /**
   The references once the known blocks are referenced: one more per mention in use, a first one for unused blocks.
   */
  ghost function KnownUsed<K>(used: map<K, nat>, unused: set<K>, keys: seq<K>): map<K, nat> {
    map k | k in used.Keys + Elems(keys) * unused :: if k in used then used[k] + Listed(keys, k) else 1
  }

  ghost function Known(c: Cache, keys: seq<BlockKey>): Tables {
    Tables(KnownUsed(c.used, c.unused.Keys, keys), c.unused - Elems(keys), c.tokens, [])
  }

  /** The blocks in use and the mentions of blocks that are not in use do not exceed the capacity. */
  predicate Fits(c: Cache, keys: seq<BlockKey>) {
    |c.used| + |keys| - |KeepIn(keys, c.used.Keys)| <= c.maxBlocks
  }

  /** Why a request is turned away, in the order in which the reasons are examined. */
  predicate Rejected(c: Cache, req: Request, hashes: seq<nat>, blockTokens: seq<seq<Token>>, r: StartResult) {
    if req.id in c.requests then r == AlreadyExists
    else if |hashes| != |blockTokens| then r == BadInput
    else r == NoCapacity && !Fits(c, KeysOf(req.model, hashes))
  }

  /** A request was registered, for any list of hashes and any reading of the clock. */
  ghost predicate Admitted(c: Cache, c': Cache, req: Request, hashes: seq<nat>, blockTokens: seq<seq<Token>>, now: Time,
                           picks: seq<BlockKey>, emitted: seq<Event>, r: StartResult)
  {
    var keys := KeysOf(req.model, hashes);
    && !c.disabled && req.id !in c.requests && |hashes| == |blockTokens| && Fits(c, keys)
    && var added := NewBlocks(c.Cached(), keys, blockTokens);
       && |picks| == |added| && GoodPicks(Known(c, keys), added, c.maxBlocks, c.loaded, now, picks)
       && var t := AddAll(Known(c, keys), added, c.maxBlocks, picks);
          && c' == c.(requests := c.requests[req.id := keys], used := t.used, unused := t.unused, tokens := t.tokens)
          && emitted == t.removed + StoreEvents(added, LastCached(c.Cached(), keys), req, hashes)
          && r == Hits(|keys| - |added|)
  }

  /** Every outcome of startRequest. */
  ghost predicate StartRequestSpec(c: Cache, c': Cache, req: Request, hashes: seq<nat>, blockTokens: seq<seq<Token>>,
                                   now: Time, picks: seq<BlockKey>, emitted: seq<Event>, r: StartResult)
  {
    if c.disabled then c' == c && emitted == [] && r == Hits(0)
    else if r.Hits? then Admitted(c, c', req, hashes, blockTokens, now, picks, emitted, r)
    else c' == c && emitted == [] && Rejected(c, req, hashes, blockTokens, r)
  }

  // ---------------------------------------------------------------- finishRequest and discard

  function FinishRequestSpec(c: Cache, id: string, now: Time): (Cache, seq<BlockKey>) {
    if c.disabled || id !in c.requests then (c, [])
    else
      var s := ReleaseAll(Released(c.used, c.unused, []), c.requests[id], now);
      (c.(requests := c.requests - {id}, used := s.used, unused := s.unused), s.missing)
  }

  function DiscardSpec(c: Cache): Cache {
    c.(disabled := true, requests := map[], used := map[], unused := map[], tokens := map[])
  }

  // ---------------------------------------------------------------- the event channel

  /** A bounded channel whose writes are dropped, and here counted, when it is full. */
  datatype Channel = Channel(queue: seq<Event>, capacity: nat, lost: nat)

  function Offer(ch: Channel, e: Event): Channel {
    if |ch.queue| < ch.capacity then ch.(queue := ch.queue + [e]) else ch.(lost := ch.lost + 1)
  }

  function OfferAll(ch: Channel, es: seq<Event>): Channel {
    if es == [] then ch else Offer(OfferAll(ch, es[..|es| - 1]), es[|es| - 1])
  }
}
