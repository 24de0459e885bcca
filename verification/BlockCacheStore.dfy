/** The block cache object itself: the tables updated in place, proved against module BlockCache. */
module BlockCacheStore {
  import opened Common
  import opened RefCounts
  import opened BlockCache
  import opened Admission
  import opened CacheRuns

  /** Sorts the blocks of a request into new ones, unused ones and ones in use. */
  method Classify<K(==)>(used: set<K>, unused: set<K>, keys: seq<K>, blockTokens: seq<seq<Token>>)
    returns (toAdd: seq<NewBlock<K>>, toMove: seq<K>, inUse: seq<K>, lastCached: int)
    requires used !! unused && |keys| == |blockTokens|
    ensures toAdd == NewBlocks(used + unused, keys, blockTokens)
    ensures toMove == KeepIn(keys, unused)
    ensures inUse == KeepIn(keys, used)
    ensures |toAdd| + |toMove| + |inUse| == |keys|
    ensures lastCached == LastCached(used + unused, keys)
  {
    toAdd, toMove, inUse, lastCached := [], [], [], -1;
    for i := 0 to |keys|
      invariant toAdd == NewBlocks(used + unused, keys[..i], blockTokens[..i])
      invariant toMove == KeepIn(keys[..i], unused)
      invariant inUse == KeepIn(keys[..i], used)
      invariant |toAdd| + |toMove| + |inUse| == i
      invariant lastCached == LastCached(used + unused, keys[..i])
    {
      var k := keys[i];
      TakeNext(keys, i);
      TakeNext(blockTokens, i);
      if k in unused {
        toMove := toMove + [k];
        lastCached := i;
      } else if k !in used {
        toAdd := toAdd + [NewBlock(k, blockTokens[i])];
      } else {
        inUse := inUse + [k];
        lastCached := i;
      }
    }
    TakeAll(keys);
    TakeAll(blockTokens);
  }

  /** One more reference per mention. */
  ghost function Raised<K>(used: map<K, nat>, inUse: seq<K>): map<K, nat> {
    map k | k in used :: used[k] + Listed(inUse, k)
  }

  lemma RaisedOneMore<K>(used: map<K, nat>, inUse: seq<K>, k: K)
    requires k in used
    ensures Raised(used, inUse + [k]) == Raised(used, inUse)[k := Raised(used, inUse)[k] + 1]
  {
  }

  /** Adds a reference for every mention of a block that is already in use. */
  method AddReferences<K(==)>(used: map<K, nat>, inUse: seq<K>) returns (used': map<K, nat>)
    requires forall i :: 0 <= i < |inUse| ==> inUse[i] in used
    ensures used' == Raised(used, inUse)
  {
    used' := used;
    assert Raised(used, []) == used;
    TakeAll(inUse);
    for i := 0 to |inUse|
      invariant used' == Raised(used, inUse[..i])
    {
      TakeNext(inUse, i);
      RaisedOneMore(used, inUse[..i], inUse[i]);
      used' := used'[inUse[i] := used'[inUse[i]] + 1];
    }
  }

  /** Moves unused blocks of the request back to the used table, with one reference each. */
  method MoveToUsed<K(==)>(used: map<K, nat>, unused: map<K, Time>, toMove: seq<K>)
    returns (used': map<K, nat>, unused': map<K, Time>)
    ensures used' == used + Ones(Elems(toMove))
    ensures unused' == unused - Elems(toMove)
  {
    used', unused' := used, unused;
    for i := 0 to |toMove|
      invariant used' == used + Ones(Elems(toMove[..i]))
      invariant unused' == unused - Elems(toMove[..i])
    {
      var k := toMove[i];
      TakeNext(toMove, i);
      ElemsAppend(toMove[..i], k);
      OnesOneMore(used, Elems(toMove[..i]), k);
      used' := used'[k := 1];
      unused' := unused' - {k};
    }
    TakeAll(toMove);
  }

  lemma {:induction false} KeptElems<K>(keys: seq<K>, s: set<K>)
    ensures Elems(KeepIn(keys, s)) == Elems(keys) * s
  {
    if keys != [] {
      var n := |keys| - 1;
      KeptElems(keys[..n], s);
      assert keys == keys[..n] + [keys[n]];
      ElemsAppend(keys[..n], keys[n]);
      ElemsAppend(KeepIn(keys[..n], s), keys[n]);
      if keys[n] !in s {
        EmptyConcat(KeepIn(keys[..n], s));
      }
    }
  }

  lemma DropOnlyHeld<K, V>(unused: map<K, V>, held: set<K>)
    ensures unused - held * unused.Keys == unused - held
  {
  }

  lemma SameRaise<K>(used: map<K, nat>, a: seq<K>, b: seq<K>)
    requires forall k :: k in used ==> Listed(a, k) == Listed(b, k)
    ensures Raised(used, a) == Raised(used, b)
  {
  }

  lemma RaisedIsKnown<K>(used: map<K, nat>, keys: seq<K>)
    ensures Raised(used, KeepIn(keys, used.Keys)) == Raised(used, keys)
  {
    forall k | k in used ensures Listed(KeepIn(keys, used.Keys), k) == Listed(keys, k) {
      KeptMentions(keys, used.Keys, k);
    }
    SameRaise(used, KeepIn(keys, used.Keys), keys);
  }

  /** Raising references and moving blocks in turn references all known blocks of the request. */
  lemma KnownInTurn<K>(used: map<K, nat>, unused: set<K>, keys: seq<K>)
    requires used.Keys !! unused
    ensures Raised(used, KeepIn(keys, used.Keys)) + Ones(Elems(keys) * unused) == KnownUsed(used, unused, keys)
  {
    RaisedIsKnown(used, keys);
    RaisedAndMoved(used, Elems(keys) * unused, unused, keys);
  }

  lemma RaisedAndMoved<K>(used: map<K, nat>, moved: set<K>, unused: set<K>, keys: seq<K>)
    requires used.Keys !! unused && moved == Elems(keys) * unused
    ensures Raised(used, keys) + Ones(moved) == KnownUsed(used, unused, keys)
  {
    assert (Raised(used, keys) + Ones(moved)).Keys == used.Keys + moved;
  }

  /** References the known blocks of a request: those in use once per mention, the unused ones for the first time. */
  method ReferenceKnown<K(==)>(used: map<K, nat>, unused: map<K, Time>, ghost keys: seq<K>, toMove: seq<K>,
                               inUse: seq<K>)
    returns (used': map<K, nat>, unused': map<K, Time>)
    requires used.Keys !! unused.Keys && toMove == KeepIn(keys, unused.Keys) && inUse == KeepIn(keys, used.Keys)
    ensures used' == KnownUsed(used, unused.Keys, keys) && unused' == unused - Elems(keys)
  {
    KeptElems(keys, used.Keys);
    KeptElems(keys, unused.Keys);
    forall i | 0 <= i < |inUse| ensures inUse[i] in used {
      assert inUse[i] in Elems(inUse);
    }
    KnownInTurn(used, unused.Keys, keys);
    DropOnlyHeld(unused, Elems(keys));
    var raised := AddReferences(used, inUse);
    used', unused' := MoveToUsed(raised, unused, toMove);
  }

  lemma PicksGrow(t: Tables, blocks: seq<NewBlock<BlockKey>>, i: nat, max: nat, loaded: set<string>, now: Time,
                  picks: seq<BlockKey>, v: BlockKey)
    requires i < |blocks| && |picks| == i && GoodPicks(t, blocks[..i], max, loaded, now, picks)
    requires var before := AddAll(t, blocks[..i], max, picks);
             Full(before, max) ==> Picked(before.unused, loaded, now, v)
    ensures GoodPicks(t, blocks[..i + 1], max, loaded, now, picks + [v])
    ensures AddAll(t, blocks[..i + 1], max, picks + [v]) ==
            AddOne(AddAll(t, blocks[..i], max, picks), blocks[i], max, v)
  {
    TakeNext(blocks, i);
    FrontOfConcat(picks, [v]);
    EmptyConcat(picks);
  }

  /** Adds the new blocks one by one, evicting a block whenever the tables are full. */
  method AddBlocks(t0: Tables, toAdd: seq<NewBlock<BlockKey>>, loaded: set<string>, maxBlocks: nat, now: Time)
    returns (t: Tables, ghost picks: seq<BlockKey>)
    ensures |picks| == |toAdd| && GoodPicks(t0, toAdd, maxBlocks, loaded, now, picks)
    ensures t == AddAll(t0, toAdd, maxBlocks, picks)
  {
    t, picks := t0, [];
    for i := 0 to |toAdd|
      invariant |picks| == i && GoodPicks(t0, toAdd[..i], maxBlocks, loaded, now, picks)
      invariant t == AddAll(t0, toAdd[..i], maxBlocks, picks)
    {
      ghost var v := NO_BLOCK;
      ghost var before := t;
      if |t.used| + |t.unused| == maxBlocks {
        var victim := PickBlockToEvict(t.unused, loaded, now);
        v := victim;
        t := Evict(t, victim);
      }
      t := Enter(t, toAdd[i]);
      PicksGrow(t0, toAdd, i, maxBlocks, loaded, now, picks, v);
      picks := picks + [v];
    }
    TakeAll(toAdd);
  }

  /** Takes in the blocks of a request if the blocks in use and its mentions of other blocks fit. */
  method Fill(c: Cache, keys: seq<BlockKey>, blockTokens: seq<seq<Token>>, now: Time)
    returns (fits: bool, t: Tables, toAdd: seq<NewBlock<BlockKey>>, lastCached: int, hits: nat,
             ghost picks: seq<BlockKey>)
    requires c.used.Keys !! c.unused.Keys && |keys| == |blockTokens|
    ensures fits <==> Fits(c, keys)
    ensures toAdd == NewBlocks(c.Cached(), keys, blockTokens) && lastCached == LastCached(c.Cached(), keys)
    ensures hits == |keys| - |toAdd|
    ensures fits ==> |picks| == |toAdd| && GoodPicks(Known(c, keys), toAdd, c.maxBlocks, c.loaded, now, picks)
    ensures fits ==> t == AddAll(Known(c, keys), toAdd, c.maxBlocks, picks)
  {
    var toMove, inUse;
    toAdd, toMove, inUse, lastCached := Classify(c.used.Keys, c.unused.Keys, keys, blockTokens);
    hits := |inUse| + |toMove|;
    fits := |c.used| + |toAdd| + |toMove| <= c.maxBlocks;
    t, picks := Tables(c.used, c.unused, c.tokens, []), [];
    if fits {
      var used, unused := ReferenceKnown(c.used, c.unused, keys, toMove, inUse);
      t, picks := AddBlocks(Tables(used, unused, c.tokens, []), toAdd, c.loaded, c.maxBlocks, now);
    }
  }

  /** Registers a request unless it is turned away: the whole effect on the cache and the events it causes. */
  method Admit(c: Cache, req: Request, hashes: seq<nat>, blockTokens: seq<seq<Token>>, now: Time)
    returns (r: StartResult, c': Cache, emitted: seq<Event>, ghost picks: seq<BlockKey>)
    requires c.used.Keys !! c.unused.Keys && !c.disabled
    ensures StartRequestSpec(c, c', req, hashes, blockTokens, now, picks, emitted, r)
  {
    if req.id in c.requests {
      return AlreadyExists, c, [], [];
    }
    if |hashes| != |blockTokens| {
      return BadInput, c, [], [];
    }
    var keys := KeysOf(req.model, hashes);
    var fits, t, toAdd, lastCached, hits;
    fits, t, toAdd, lastCached, hits, picks := Fill(c, keys, blockTokens, now);
    if !fits {
      return NoCapacity, c, [], picks;
    }
    emitted := t.removed + StoreEvents(toAdd, lastCached, req, hashes);
    c' := c.(requests := c.requests[req.id := keys], used := t.used, unused := t.unused, tokens := t.tokens);
    r := Hits(hits);
  }

  method CountPrefix(c: Cache, hashes: seq<nat>, model: string) returns (n: nat)
    ensures c.disabled ==> n == 0
    ensures !c.disabled ==> CachedPrefix(c, model, hashes, n)
  {
    n := 0;
    if c.disabled {
      return;
    }
    while n < |hashes|
      invariant n <= |hashes|
      invariant forall i :: 0 <= i < n ==> BlockKey(hashes[i], model) in c.Cached()
    {
      var k := BlockKey(hashes[n], model);
      if k !in c.used && k !in c.unused {
        return;
      }
      n := n + 1;
    }
  }

  /** Gives the blocks of a request back, one after the other. */
  method ReleaseBlocks<K(==)>(used: map<K, nat>, unused: map<K, Time>, keys: seq<K>, now: Time) returns (s: Released<K>)
    ensures s == ReleaseAll(Released(used, unused, []), keys, now)
  {
    s := Released(used, unused, []);
    TakeAll(keys);
    for i := 0 to |keys|
      invariant s == ReleaseAll(Released(used, unused, []), keys[..i], now)
    {
      TakeNext(keys, i);
      var k := keys[i];
      if k in s.used {
        if s.used[k] > 1 {
          s := s.(used := s.used[k := s.used[k] - 1]);
        } else {
          s := s.(unused := s.unused[k := now], used := s.used - {k});
        }
      } else {
        s := s.(missing := s.missing + [k]);
      }
    }
  }

  class Store {
    var requests: map<string, seq<BlockKey>>
    var used: map<BlockKey, nat>
    var unused: map<BlockKey, Time>
    var tokens: map<BlockKey, seq<Token>>
    var loaded: set<string>
    const maxBlocks: nat
    var disabled: bool
    var events: Channel

    constructor (capacity: nat, model: string, servedNames: set<string>)
      ensures View() == Cache(map[], map[], map[], map[], {model} + servedNames, capacity, false)
      ensures events == Channel([], 10 * capacity, 0)
    {
      requests, used, unused, tokens := map[], map[], map[], map[];
      loaded := {model} + servedNames;
      maxBlocks, disabled := capacity, false;
      events := Channel([], 10 * capacity, 0);
    }

    function View(): Cache
      reads this
    {
      Cache(requests, used, unused, tokens, loaded, maxBlocks, disabled)
    }

    /** Writes the events to the channel in order; what does not fit is lost. */
    method Emit(es: seq<Event>)
      modifies this`events
      ensures events == OfferAll(old(events), es)
    {
      TakeAll(es);
      for i := 0 to |es|
        invariant events == OfferAll(old(events), es[..i])
      {
        TakeNext(es, i);
        events := Offer(events, es[i]);
      }
    }

    method StartRequest(req: Request, hashes: seq<nat>, blockTokens: seq<seq<Token>>, now: Time)
      returns (r: StartResult, ghost picks: seq<BlockKey>, ghost emitted: seq<Event>)
      requires used.Keys !! unused.Keys
      modifies this
      ensures StartRequestSpec(old(View()), View(), req, hashes, blockTokens, now, picks, emitted, r)
      ensures events == OfferAll(old(events), emitted)
    {
      r, picks, emitted := Hits(0), [], [];
      if !disabled {
        var c', es;
        r, c', es, picks := Admit(View(), req, hashes, blockTokens, now);
        requests, used, unused, tokens := c'.requests, c'.used, c'.unused, c'.tokens;
        Emit(es);
        emitted := es;
      }
    }

    method FinishRequest(id: string, now: Time) returns (missing: seq<BlockKey>)
      modifies this
      ensures (View(), missing) == FinishRequestSpec(old(View()), id, now)
      ensures events == old(events)
    {
      if disabled || id !in requests {
        return [];
      }
      var s := ReleaseBlocks(used, unused, requests[id], now);
      used, unused := s.used, s.unused;
      requests := requests - {id};
      return s.missing;
    }

    method Discard()
      modifies this
      ensures View() == DiscardSpec(old(View()))
      ensures events == OfferAll(old(events), [Cleared])
    {
      disabled := true;
      requests, used, unused, tokens := map[], map[], map[], map[];
      Emit([Cleared]);
    }

    method Activate()
      modifies this
      ensures View() == old(View()).(disabled := false) && events == old(events)
    {
      disabled := false;
    }

    method SetModelLoaded(model: string, isLoaded: bool)
      modifies this
      ensures View() == old(View()).(loaded := if isLoaded then old(loaded) + {model} else old(loaded) - {model})
      ensures events == old(events)
    {
      loaded := if isLoaded then loaded + {model} else loaded - {model};
    }
  }
}
