/**
 A subscriber to the events of the block cache (pkg/kvcache/block_cache.go), which holds each hash as often as blocks
 with it were announced and not removed: when it keeps up with an admission, and when it does with some events lost.
 */
module Subscriber {
  import opened Common
  import opened RefCounts
  import opened BlockCache
  import opened Admission
  import opened CacheInvariant

  function Apply(bag: multiset<nat>, e: Event): multiset<nat> {
    match e
    case Store(hashes, _, _, _, _) => bag + multiset(hashes)
    case Remove(hashes, _) => bag - multiset(hashes)
    case Cleared => multiset{}
  }

  function ApplyAll(bag: multiset<nat>, es: seq<Event>): multiset<nat> {
    if es == [] then bag else Apply(ApplyAll(bag, es[..|es| - 1]), es[|es| - 1])
  }

  lemma {:induction false} ApplyInTurn(bag: multiset<nat>, a: seq<Event>, b: seq<Event>)
    ensures ApplyAll(bag, a + b) == ApplyAll(ApplyAll(bag, a), b)
  {
    if b == [] {
      EmptyConcat(a);
    } else {
      ApplyInTurn(bag, a, b[..|b| - 1]);
      FrontOfConcat(a, b);
    }
  }

  ghost function WithHash(keys: set<BlockKey>, h: nat): set<BlockKey> {
    set k | k in keys && k.hash == h
  }

  /** The bag holds each hash as often as there are cached blocks with that hash. */
  ghost predicate Reflects(bag: multiset<nat>, keys: set<BlockKey>) {
    forall h: nat :: bag[h] == |WithHash(keys, h)|
  }

  lemma EmptyReflects()
    ensures Reflects(multiset{}, {})
  {
    assert forall h: nat :: WithHash({}, h) == {};
  }

  lemma OnlyOneReflects(a: multiset<nat>, b: multiset<nat>, keys: set<BlockKey>)
    requires Reflects(a, keys)
    ensures Reflects(b, keys) <==> a == b
  {
    if Reflects(b, keys) {
      assert forall h: nat :: a[h] == |WithHash(keys, h)| && b[h] == |WithHash(keys, h)|;
      forall h: nat ensures a[h] == b[h] {
        assert a[h] == |WithHash(keys, h)|;
      }
    }
  }

  // ---------------------------------------------------------------- events that remove first and then store

  function Removed(es: seq<Event>): multiset<nat> {
    if es == [] then multiset{}
    else Removed(es[..|es| - 1]) + (var e := es[|es| - 1]; if e.Remove? then multiset(e.hashes) else multiset{})
  }

  function Stored(es: seq<Event>): multiset<nat> {
    if es == [] then multiset{}
    else Stored(es[..|es| - 1]) + (var e := es[|es| - 1]; if e.Store? then multiset(e.hashes) else multiset{})
  }

  ghost predicate Orderly(es: seq<Event>) {
    && (forall i :: 0 <= i < |es| ==> es[i].Remove? || es[i].Store?)
    && (forall i, j :: 0 <= i < j < |es| && es[j].Remove? ==> es[i].Remove?)
  }

  ghost predicate OnlyRemoves(es: seq<Event>) {
    forall i :: 0 <= i < |es| ==> es[i].Remove?
  }

  lemma {:induction false} NothingStored(es: seq<Event>)
    requires OnlyRemoves(es)
    ensures Stored(es) == multiset{}
  {
    if es != [] {
      NothingStored(es[..|es| - 1]);
    }
  }

  lemma RemoveMore(bag: multiset<nat>, r: multiset<nat>, e: multiset<nat>)
    ensures ((bag - r) + multiset{}) - e == (bag - (r + e)) + multiset{}
  {
    assert (bag - r) - e == bag - (r + e);
  }

  lemma StoreMore(bag: multiset<nat>, r: multiset<nat>, s: multiset<nat>, e: multiset<nat>)
    ensures ((bag - r) + s) + e == (bag - (r + multiset{})) + (s + e)
  {
    assert r + multiset{} == r;
  }

  lemma LastEvent(es: seq<Event>)
    requires es != [] && Orderly(es)
    ensures Orderly(es[..|es| - 1]) && (es[|es| - 1].Remove? || es[|es| - 1].Store?)
    ensures es[|es| - 1].Remove? ==> OnlyRemoves(es[..|es| - 1])
  {
  }

  lemma {:induction false} ApplyOrderly(bag: multiset<nat>, es: seq<Event>)
    requires Orderly(es)
    ensures ApplyAll(bag, es) == (bag - Removed(es)) + Stored(es)
  {
    if es == [] {
      assert (bag - multiset{}) + multiset{} == bag;
    } else {
      var front, e := es[..|es| - 1], es[|es| - 1];
      LastEvent(es);
      ApplyOrderly(bag, front);
      if e.Remove? {
        NothingStored(front);
        RemoveMore(bag, Removed(front), multiset(e.hashes));
      } else {
        StoreMore(bag, Removed(front), Stored(front), multiset(e.hashes));
      }
    }
  }

  /** The events that keep[i] selects. */
  function Select(es: seq<Event>, keep: seq<bool>, wanted: bool): seq<Event>
    requires |keep| == |es|
  {
    if es == [] then []
    else
      var n := |es| - 1;
      Select(es[..n], keep[..n], wanted) + if keep[n] == wanted then [es[n]] else []
  }

  lemma {:induction false} SelectOrderly(es: seq<Event>, keep: seq<bool>, wanted: bool)
    requires |keep| == |es| && Orderly(es)
    ensures Orderly(Select(es, keep, wanted))
    ensures OnlyRemoves(es) ==> OnlyRemoves(Select(es, keep, wanted))
  {
    if es != [] {
      var n := |es| - 1;
      SelectOrderly(es[..n], keep[..n], wanted);
    }
  }

  function RemovedBy(e: Event): multiset<nat> {
    if e.Remove? then multiset(e.hashes) else multiset{}
  }

  function StoredBy(e: Event): multiset<nat> {
    if e.Store? then multiset(e.hashes) else multiset{}
  }

  lemma AppendRemoved(es: seq<Event>, e: Event)
    ensures Removed(es + [e]) == Removed(es) + RemovedBy(e) && Stored(es + [e]) == Stored(es) + StoredBy(e)
  {
    FrontOfConcat(es, [e]);
    EmptyConcat(es);
  }

  lemma AddBetween(a: multiset<nat>, b: multiset<nat>, x: multiset<nat>)
    ensures (a + x) + b == (a + b) + x && a + (b + x) == (a + b) + x
  {
  }

  lemma SelectLast(es: seq<Event>, keep: seq<bool>)
    requires |keep| == |es| && es != []
    ensures var n := |es| - 1;
            && Select(es, keep, keep[n]) == Select(es[..n], keep[..n], keep[n]) + [es[n]]
            && Select(es, keep, !keep[n]) == Select(es[..n], keep[..n], !keep[n])
  {
    var n := |es| - 1;
    EmptyConcat(Select(es[..n], keep[..n], !keep[n]));
  }

  /** Kept and lost events together are all events. */
  lemma {:induction false} SelectSplits(es: seq<Event>, keep: seq<bool>)
    requires |keep| == |es|
    ensures Removed(Select(es, keep, true)) + Removed(Select(es, keep, false)) == Removed(es)
    ensures Stored(Select(es, keep, true)) + Stored(Select(es, keep, false)) == Stored(es)
  {
    if es != [] {
      var n := |es| - 1;
      var t, f := Select(es[..n], keep[..n], true), Select(es[..n], keep[..n], false);
      SelectSplits(es[..n], keep[..n]);
      SelectLast(es, keep);
      AppendRemoved(if keep[n] then t else f, es[n]);
      AddBetween(Removed(t), Removed(f), RemovedBy(es[n]));
      AddBetween(Stored(t), Stored(f), StoredBy(es[n]));
    }
  }

  lemma LossIsEven(bag: multiset<nat>, r: multiset<nat>, s: multiset<nat>, r': multiset<nat>, s': multiset<nat>)
    requires r + r' <= bag
    ensures (bag - r) + s == (bag - (r + r')) + (s + s') <==> r' == s'
  {
    var a, b := (bag - r) + s, (bag - (r + r')) + (s + s');
    forall h ensures a[h] + s'[h] == b[h] + r'[h] {
      assert (r + r')[h] <= bag[h];
    }
    if a == b {
      forall h ensures r'[h] == s'[h] {
        assert a[h] == b[h];
      }
    }
  }

  /**
   A subscriber that misses some of the events agrees exactly if the missed removals and the missed stores even out.
   */
  lemma MissedEventsIff(bag: multiset<nat>, es: seq<Event>, keep: seq<bool>, keys: set<BlockKey>)
    requires |keep| == |es| && Orderly(es) && Removed(es) <= bag && Reflects(ApplyAll(bag, es), keys)
    ensures Reflects(ApplyAll(bag, Select(es, keep, true)), keys)
            <==> Removed(Select(es, keep, false)) == Stored(Select(es, keep, false))
  {
    var kept, lost := Select(es, keep, true), Select(es, keep, false);
    SelectOrderly(es, keep, true);
    ApplyOrderly(bag, es);
    ApplyOrderly(bag, kept);
    SelectSplits(es, keep);
    LossIsEven(bag, Removed(kept), Stored(kept), Removed(lost), Stored(lost));
    OnlyOneReflects(ApplyAll(bag, es), ApplyAll(bag, kept), keys);
  }

  // ---------------------------------------------------------------- the events of an admission

  /** The blocks that were picked while blocks were added, in order. */
  function Evictions(t: Tables, blocks: seq<NewBlock<BlockKey>>, max: nat, picks: seq<BlockKey>): seq<BlockKey>
    requires |picks| == |blocks|
  {
    if blocks == [] then []
    else
      var n := |blocks| - 1;
      Evictions(t, blocks[..n], max, picks[..n]) +
      if Full(AddAll(t, blocks[..n], max, picks[..n]), max) then [picks[n]] else []
  }

  /** How many of them were not there to be evicted. */
  ghost function Phantoms(t: Tables, blocks: seq<NewBlock<BlockKey>>, max: nat, picks: seq<BlockKey>): nat
    requires |picks| == |blocks|
  {
    if blocks == [] then 0
    else
      var n := |blocks| - 1;
      var before := AddAll(t, blocks[..n], max, picks[..n]);
      Phantoms(t, blocks[..n], max, picks[..n]) + if Full(before, max) && picks[n] !in before.unused then 1 else 0
  }

  lemma {:induction false} RealPicksNoPhantoms(t: Tables, blocks: seq<NewBlock<BlockKey>>, max: nat,
                                               picks: seq<BlockKey>)
    requires |picks| == |blocks| && RealPicks(t, blocks, max, picks)
    ensures Phantoms(t, blocks, max, picks) == 0
  {
    if blocks != [] {
      RealPicksNoPhantoms(t, blocks[..|blocks| - 1], max, picks[..|blocks| - 1]);
    }
  }

  lemma HashesAppend(keys: seq<BlockKey>, k: BlockKey)
    ensures multiset(HashesOf(keys + [k])) == multiset(HashesOf(keys)) + multiset{k.hash}
  {
    assert HashesOf(keys + [k]) == HashesOf(keys) + [k.hash];
  }

  lemma OneMoreRemoval(es: seq<Event>, tokens: map<BlockKey, seq<Token>>, evicted: seq<BlockKey>, v: BlockKey)
    requires Removed(es) == multiset(HashesOf(evicted))
    ensures Removed(es + [Removal(tokens, v)]) == multiset(HashesOf(evicted + [v]))
  {
    AppendRemoved(es, Removal(tokens, v));
    HashesAppend(evicted, v);
  }

  lemma AddOneRemoves(t: Tables, b: NewBlock<BlockKey>, max: nat, v: BlockKey, evicted: seq<BlockKey>)
    requires OnlyRemoves(t.removed) && Removed(t.removed) == multiset(HashesOf(evicted))
    ensures var es := AddOne(t, b, max, v).removed;
            OnlyRemoves(es) && Removed(es) == multiset(HashesOf(evicted + if Full(t, max) then [v] else []))
  {
    if Full(t, max) {
      OneMoreRemoval(t.removed, t.tokens, evicted, v);
    } else {
      EmptyConcat(evicted);
    }
  }

  /** One remove event per eviction. */
  lemma {:induction false} AddAllRemoves(t: Tables, blocks: seq<NewBlock<BlockKey>>, max: nat, picks: seq<BlockKey>)
    requires |picks| == |blocks| && t.removed == []
    ensures var es := AddAll(t, blocks, max, picks).removed;
            && OnlyRemoves(es) && Removed(es) == multiset(HashesOf(Evictions(t, blocks, max, picks)))
  {
    if blocks == [] {
      assert HashesOf([]) == [];
    } else {
      var n := |blocks| - 1;
      AddAllRemoves(t, blocks[..n], max, picks[..n]);
      AddOneRemoves(AddAll(t, blocks[..n], max, picks[..n]), blocks[n], max, picks[n],
                    Evictions(t, blocks[..n], max, picks[..n]));
    }
  }

  lemma WithHashMore(keys: set<BlockKey>, k: BlockKey, h: nat)
    requires k !in keys
    ensures |WithHash(keys + {k}, h)| == |WithHash(keys, h)| + (if k.hash == h then 1 else 0)
  {
    if k.hash == h {
      assert WithHash(keys + {k}, h) == WithHash(keys, h) + {k};
    } else {
      assert WithHash(keys + {k}, h) == WithHash(keys, h);
    }
  }

  lemma WithHashUnion(a: set<BlockKey>, b: set<BlockKey>, h: nat)
    requires a !! b
    ensures |WithHash(a + b, h)| == |WithHash(a, h)| + |WithHash(b, h)|
  {
    assert WithHash(a + b, h) == WithHash(a, h) + WithHash(b, h);
  }

  lemma GoneGrows<K, V>(unused: map<K, V>, now: map<K, V>, v: K)
    requires v in now && now.Keys <= unused.Keys
    ensures unused.Keys - (now - {v}).Keys == (unused.Keys - now.Keys) + {v} && v !in unused.Keys - now.Keys
    ensures (now - {v}).Keys <= unused.Keys
  {
    assert (now - {v}).Keys == now.Keys - {v};
  }

  /** The evictions are the blocks that left, and the zero key for every pick that found nothing. */
  lemma {:induction false} EvictionsByHash(t: Tables, blocks: seq<NewBlock<BlockKey>>, max: nat, loaded: set<string>,
                                           now: Time, picks: seq<BlockKey>, h: nat)
    requires |picks| == |blocks| && GoodPicks(t, blocks, max, loaded, now, picks)
    ensures var t' := AddAll(t, blocks, max, picks);
            && t'.unused.Keys <= t.unused.Keys
            && multiset(HashesOf(Evictions(t, blocks, max, picks)))[h] ==
               |WithHash(t.unused.Keys - t'.unused.Keys, h)| + (if h == 0 then Phantoms(t, blocks, max, picks) else 0)
  {
    if blocks == [] {
      assert WithHash(t.unused.Keys - t.unused.Keys, h) == {};
    } else {
      var n := |blocks| - 1;
      EvictionsByHash(t, blocks[..n], max, loaded, now, picks[..n], h);
      var before, evicted := AddAll(t, blocks[..n], max, picks[..n]), Evictions(t, blocks[..n], max, picks[..n]);
      var v := picks[n];
      if Full(before, max) {
        HashesAppend(evicted, v);
        PickRemovesIff(before.unused, loaded, now, v);
        if v in before.unused {
          GoneGrows(t.unused, before.unused, v);
          WithHashMore(t.unused.Keys - before.unused.Keys, v, h);
        } else {
          DropSize(before.unused, v);
        }
      } else {
        EmptyConcat(evicted);
      }
    }
  }

  // ---------------------------------------------------------------- keeping up with an admission

  ghost function Announced(added: seq<NewBlock<BlockKey>>): multiset<nat> {
    multiset(HashesOf(BlockKeys(added)))
  }

  /** How often a new block with this hash is announced beyond the first time. */
  ghost function Repeats(added: seq<NewBlock<BlockKey>>, h: nat): nat {
    if Announced(added)[h] == 0 then 0 else Announced(added)[h] - 1
  }

  lemma NewByHash(added: seq<NewBlock<BlockKey>>, model: string, h: nat)
    requires OfModel(added, model)
    ensures |WithHash(Elems(BlockKeys(added)), h)| == if Announced(added)[h] == 0 then 0 else 1
  {
    var keys, k := BlockKeys(added), BlockKey(h, model);
    var hashes := HashesOf(keys);
    if h in multiset(hashes) {
      assert h in hashes;
      var i :| 0 <= i < |hashes| && hashes[i] == h;
      assert keys[i] == k;
      assert WithHash(Elems(keys), h) == {k};
    } else {
      forall x | x in Elems(keys) ensures x.hash != h {
        var i :| 0 <= i < |keys| && keys[i] == x;
        assert hashes[i] == x.hash;
        assert hashes[i] in multiset(hashes);
      }
      assert WithHash(Elems(keys), h) == {};
    }
  }

  ghost predicate OfModel(blocks: seq<NewBlock<BlockKey>>, model: string) {
    forall i :: 0 <= i < |blocks| ==> blocks[i].key.model == model
  }

  lemma OneMoreOfModel(blocks: seq<NewBlock<BlockKey>>, b: NewBlock<BlockKey>, model: string)
    requires OfModel(blocks, model) && b.key.model == model
    ensures OfModel(blocks + [b], model)
  {
  }

  lemma {:induction false} NewOfModel(cached: set<BlockKey>, keys: seq<BlockKey>, blockTokens: seq<seq<Token>>,
                                      model: string)
    requires |keys| == |blockTokens| && forall i :: 0 <= i < |keys| ==> keys[i].model == model
    ensures OfModel(NewBlocks(cached, keys, blockTokens), model)
  {
    if keys != [] {
      var n := |keys| - 1;
      NewOfModel(cached, keys[..n], blockTokens[..n], model);
      OneMoreOfModel(NewBlocks(cached, keys[..n], blockTokens[..n]), NewBlock(keys[n], blockTokens[n]), model);
    }
  }

  /** The events of an admission, as they change a bag. */
  lemma AdmissionEvents(c: Cache, c': Cache, req: Request, hashes: seq<nat>, blockTokens: seq<seq<Token>>, now: Time,
                        picks: seq<BlockKey>, emitted: seq<Event>, r: StartResult)
    requires Admitted(c, c', req, hashes, blockTokens, now, picks, emitted, r)
    ensures var keys := KeysOf(req.model, hashes);
            var added := NewBlocks(c.Cached(), keys, blockTokens);
            && Orderly(emitted) && Stored(emitted) == Announced(added)
            && Removed(emitted) == multiset(HashesOf(Evictions(Known(c, keys), added, c.maxBlocks, picks)))
  {
    var keys := KeysOf(req.model, hashes);
    var added := NewBlocks(c.Cached(), keys, blockTokens);
    AddAllRemoves(Known(c, keys), added, c.maxBlocks, picks);
    RemovesThenStore(AddAll(Known(c, keys), added, c.maxBlocks, picks).removed, added, LastCached(c.Cached(), keys),
                     req, hashes);
  }

  lemma RemovesThenStore(es: seq<Event>, added: seq<NewBlock<BlockKey>>, last: int, req: Request, hashes: seq<nat>)
    requires OnlyRemoves(es) && last < |hashes|
    ensures var all := es + StoreEvents(added, last, req, hashes);
            Orderly(all) && Stored(all) == Announced(added) && Removed(all) == Removed(es)
  {
    NothingStored(es);
    if added == [] {
      EmptyConcat(es);
      assert HashesOf(BlockKeys(added)) == [];
    } else {
      AppendRemoved(es, StoreEvents(added, last, req, hashes)[0]);
    }
  }

  lemma CountAfter(bag: multiset<nat>, removed: multiset<nat>, stored: multiset<nat>, h: nat, stay: nat, gone: nat,
                   none: nat, came: nat)
    requires bag[h] == stay + gone && removed[h] == gone + none && came == if stored[h] == 0 then 0 else 1
    ensures ((bag - removed) + stored)[h] == stay + came
            <==> (if stored[h] == 0 then 0 else stored[h] - 1) == Smaller(stay, none)
  {
  }

  lemma StayAndGo(a: set<BlockKey>, b: set<BlockKey>, gone: set<BlockKey>, held: set<BlockKey>, h: nat)
    requires gone <= a - held && b == (a - gone) + held
    ensures |WithHash(a, h)| == |WithHash(a * b, h)| + |WithHash(gone, h)|
    ensures |WithHash(b, h)| == |WithHash(a * b, h)| + |WithHash(held - a, h)|
  {
    assert a == a * b + gone;
    assert b == a * b + (held - a);
    WithHashUnion(a * b, gone, h);
    WithHashUnion(a * b, held - a, h);
  }

  /** The repeated announcements of a new block make up for the removals of blocks that were not there. */
  ghost predicate EvenAt(stay: set<BlockKey>, added: seq<NewBlock<BlockKey>>, phantoms: nat, h: nat) {
    Repeats(added, h) == Smaller(|WithHash(stay, h)|, if h == 0 then phantoms else 0)
  }

  ghost predicate Even(stay: set<BlockKey>, added: seq<NewBlock<BlockKey>>, phantoms: nat) {
    forall h: nat :: EvenAt(stay, added, phantoms, h)
  }

  lemma ReflectsAt(bag: multiset<nat>, removed: multiset<nat>, a: set<BlockKey>, b: set<BlockKey>, gone: set<BlockKey>,
                   held: set<BlockKey>, added: seq<NewBlock<BlockKey>>, model: string, phantoms: nat, h: nat)
    requires bag[h] == |WithHash(a, h)| && gone <= a - held && b == (a - gone) + held &&
             Elems(BlockKeys(added)) == held - a
    requires OfModel(added, model)
    requires removed[h] == |WithHash(gone, h)| + (if h == 0 then phantoms else 0)
    ensures ((bag - removed) + Announced(added))[h] == |WithHash(b, h)| <==> EvenAt(a * b, added, phantoms, h)
  {
    StayAndGo(a, b, gone, held, h);
    NewByHash(added, model, h);
    var none := if h == 0 then phantoms else 0;
    CountAfter(bag, removed, Announced(added), h, |WithHash(a * b, h)|, |WithHash(gone, h)|, none,
               |WithHash(held - a, h)|);
  }

  /** The events remove the hash as often as it left, and 0 once more for every eviction of nothing. */
  ghost predicate RemovesAt(emitted: seq<Event>, gone: set<BlockKey>, phantoms: nat, h: nat) {
    Removed(emitted)[h] == |WithHash(gone, h)| + (if h == 0 then phantoms else 0)
  }

  /** What an admission does, in the terms of a subscriber. */
  ghost predicate Seen(c: Cache, c': Cache, keys: seq<BlockKey>, added: seq<NewBlock<BlockKey>>, gone: set<BlockKey>,
                       emitted: seq<Event>, model: string, phantoms: nat)
  {
    && gone <= c.Cached() - Elems(keys) && c'.Cached() == (c.Cached() - gone) + Elems(keys)
    && Elems(BlockKeys(added)) == Elems(keys) - c.Cached()
    && OfModel(added, model)
    && Orderly(emitted) && Stored(emitted) == Announced(added)
    && forall h: nat :: RemovesAt(emitted, gone, phantoms, h)
  }

  ghost function PhantomsOf(c: Cache, req: Request, hashes: seq<nat>, blockTokens: seq<seq<Token>>,
                            picks: seq<BlockKey>): nat
    requires |hashes| == |blockTokens| && |picks| == |NewBlocks(c.Cached(), KeysOf(req.model, hashes), blockTokens)|
  {
    var keys := KeysOf(req.model, hashes);
    Phantoms(Known(c, keys), NewBlocks(c.Cached(), keys, blockTokens), c.maxBlocks, picks)
  }

  lemma RemovedByHash(c: Cache, c': Cache, req: Request, hashes: seq<nat>, blockTokens: seq<seq<Token>>, now: Time,
                      picks: seq<BlockKey>, emitted: seq<Event>, r: StartResult, gone: set<BlockKey>, h: nat)
    requires Admitted(c, c', req, hashes, blockTokens, now, picks, emitted, r)
    requires (c.unused - Elems(KeysOf(req.model, hashes))).Keys - c'.unused.Keys == gone
    ensures RemovesAt(emitted, gone, PhantomsOf(c, req, hashes, blockTokens, picks), h)
  {
    var keys := KeysOf(req.model, hashes);
    AdmissionEvents(c, c', req, hashes, blockTokens, now, picks, emitted, r);
    EvictionsByHash(Known(c, keys), NewBlocks(c.Cached(), keys, blockTokens), c.maxBlocks, c.loaded, now, picks, h);
  }

  lemma AddedIsSeen(c: Cache, model: string, hashes: seq<nat>, blockTokens: seq<seq<Token>>)
    requires |hashes| == |blockTokens|
    ensures var keys := KeysOf(model, hashes);
            var added := NewBlocks(c.Cached(), keys, blockTokens);
            Elems(BlockKeys(added)) == Elems(keys) - c.Cached() && OfModel(added, model)
  {
    var keys := KeysOf(model, hashes);
    NewBlocksAreTheMissingOnes(c.Cached(), keys, blockTokens);
    NewOfModel(c.Cached(), keys, blockTokens, model);
  }

  lemma GoneIsSeen(c: Cache, c': Cache, keys: seq<BlockKey>, gone: set<BlockKey>, now: Time)
    requires c.used.Keys !! c.unused.Keys && Exchanged(c, c', keys, gone, now)
    ensures gone <= c.Cached() - Elems(keys) && c'.Cached() == (c.Cached() - gone) + Elems(keys)
    ensures (c.unused - Elems(keys)).Keys - c'.unused.Keys == gone
  {
    ExchangedCache(c, c', keys, gone, now);
    EvictableAreUnused(c.unused, Elems(keys), gone, now);
    GoneIs(c.unused, Elems(keys), gone);
    WithoutUsed(c.used.Keys, c.unused.Keys, Elems(keys), gone);
  }

  lemma WithoutUsed<K>(used: set<K>, unused: set<K>, held: set<K>, gone: set<K>)
    requires gone <= unused - held
    ensures gone <= (used + unused) - held
  {
  }

  lemma AdmissionIsSeen(c: Cache, c': Cache, req: Request, hashes: seq<nat>, blockTokens: seq<seq<Token>>, now: Time,
                        picks: seq<BlockKey>, emitted: seq<Event>, r: StartResult) returns (gone: set<BlockKey>)
    requires c.used.Keys !! c.unused.Keys
    requires Admitted(c, c', req, hashes, blockTokens, now, picks, emitted, r)
    ensures var keys := KeysOf(req.model, hashes);
            Seen(c, c', keys, NewBlocks(c.Cached(), keys, blockTokens), gone, emitted, req.model,
                 PhantomsOf(c, req, hashes, blockTokens, picks))
  {
    gone := AdmissionExchanges(c, c', req, hashes, blockTokens, now, picks, emitted, r);
    GoneIsSeen(c, c', KeysOf(req.model, hashes), gone, now);
    AddedIsSeen(c, req.model, hashes, blockTokens);
    AdmissionEvents(c, c', req, hashes, blockTokens, now, picks, emitted, r);
    forall h: nat ensures RemovesAt(emitted, gone, PhantomsOf(c, req, hashes, blockTokens, picks), h) {
      RemovedByHash(c, c', req, hashes, blockTokens, now, picks, emitted, r, gone, h);
    }
  }

  lemma SeenReflectsIff(c: Cache, c': Cache, keys: seq<BlockKey>, added: seq<NewBlock<BlockKey>>, gone: set<BlockKey>,
                        emitted: seq<Event>, model: string, phantoms: nat, bag: multiset<nat>)
    requires Seen(c, c', keys, added, gone, emitted, model, phantoms) && Reflects(bag, c.Cached())
    ensures Reflects(ApplyAll(bag, emitted), c'.Cached()) <==> Even(c.Cached() * c'.Cached(), added, phantoms)
    ensures phantoms == 0 ==> Removed(emitted) <= bag
  {
    ApplyOrderly(bag, emitted);
    var stay, after := c.Cached() * c'.Cached(), ApplyAll(bag, emitted);
    forall h: nat ensures (after[h] == |WithHash(c'.Cached(), h)| <==> EvenAt(stay, added, phantoms, h))
                          && (phantoms == 0 ==> Removed(emitted)[h] <= bag[h]) {
      assert bag[h] == |WithHash(c.Cached(), h)| && RemovesAt(emitted, gone, phantoms, h);
      ReflectsAt(bag, Removed(emitted), c.Cached(), c'.Cached(), gone, Elems(keys), added, model, phantoms, h);
      assert WithHash(gone, h) <= WithHash(c.Cached(), h);
      SubsetSize(WithHash(gone, h), WithHash(c.Cached(), h));
    }
    if Reflects(after, c'.Cached()) {
      forall h: nat ensures EvenAt(stay, added, phantoms, h) {
        assert after[h] == |WithHash(c'.Cached(), h)|;
      }
    }
    if Even(stay, added, phantoms) {
      forall h: nat ensures after[h] == |WithHash(c'.Cached(), h)| {
        assert EvenAt(stay, added, phantoms, h);
      }
    }
  }

  lemma GoneIs<K, V>(unused: map<K, V>, held: set<K>, gone: set<K>)
    requires gone <= unused.Keys - held
    ensures (unused - held).Keys - (unused - held - gone).Keys == gone
  {
    assert (unused - held).Keys == unused.Keys - held;
    assert (unused - held - gone).Keys == unused.Keys - held - gone;
  }

  /**
   For any list and any clock: a subscriber that applies the events of an admission holds the cached blocks exactly if,
   for every hash, the repeated announcements of a new block make up for the removals of blocks that were not evicted.
   */
  lemma AdmissionReflectsIff(c: Cache, c': Cache, req: Request, hashes: seq<nat>, blockTokens: seq<seq<Token>>,
                             now: Time, picks: seq<BlockKey>, emitted: seq<Event>, r: StartResult, bag: multiset<nat>)
    requires c.used.Keys !! c.unused.Keys && Reflects(bag, c.Cached())
    requires Admitted(c, c', req, hashes, blockTokens, now, picks, emitted, r)
    ensures Reflects(ApplyAll(bag, emitted), c'.Cached()) <==>
            Even(c.Cached() * c'.Cached(), NewBlocks(c.Cached(), KeysOf(req.model, hashes), blockTokens),
                 PhantomsOf(c, req, hashes, blockTokens, picks))
    ensures PhantomsOf(c, req, hashes, blockTokens, picks) == 0 ==> Removed(emitted) <= bag
  {
    var keys := KeysOf(req.model, hashes);
    var gone := AdmissionIsSeen(c, c', req, hashes, blockTokens, now, picks, emitted, r);
    SeenReflectsIff(c, c', keys, NewBlocks(c.Cached(), keys, blockTokens), gone, emitted, req.model,
                    PhantomsOf(c, req, hashes, blockTokens, picks), bag);
  }

  /** A block that is not cached is announced once for every mention. */
  lemma {:induction false} AnnouncedByHash(cached: set<BlockKey>, keys: seq<BlockKey>, blockTokens: seq<seq<Token>>,
                                           model: string, h: nat)
    requires |keys| == |blockTokens| && forall i :: 0 <= i < |keys| ==> keys[i].model == model
    ensures var k := BlockKey(h, model);
            Announced(NewBlocks(cached, keys, blockTokens))[h] == if k in cached then 0 else Listed(keys, k)
  {
    if keys != [] {
      var n := |keys| - 1;
      AnnouncedByHash(cached, keys[..n], blockTokens[..n], model, h);
      assert keys == keys[..n] + [keys[n]];
      var front := NewBlocks(cached, keys[..n], blockTokens[..n]);
      BlockKeysAppend(front, NewBlock(keys[n], blockTokens[n]));
      HashesAppend(BlockKeys(front), keys[n]);
    }
  }

  lemma EvenIff(cached: set<BlockKey>, stay: set<BlockKey>, keys: seq<BlockKey>, blockTokens: seq<seq<Token>>,
                model: string, phantoms: nat)
    requires |keys| == |blockTokens| && forall i :: 0 <= i < |keys| ==> keys[i].model == model
    requires stay <= cached && forall k :: k in cached ==> k.hash != 0
    ensures Even(stay, NewBlocks(cached, keys, blockTokens), phantoms) <==> RepeatsInUse(cached, keys)
  {
    var added := NewBlocks(cached, keys, blockTokens);
    assert WithHash(stay, 0) == {};
    forall h: nat ensures EvenAt(stay, added, phantoms, h) <==>
                          (Listed(keys, BlockKey(h, model)) > 1 ==> BlockKey(h, model) in cached) {
      AnnouncedByHash(cached, keys, blockTokens, model, h);
    }
    if Even(stay, added, phantoms) {
      forall k | Listed(keys, k) > 1 ensures k in cached {
        assert k in keys;
        assert EvenAt(stay, added, phantoms, k.hash);
      }
    } else {
      var h: nat :| !EvenAt(stay, added, phantoms, h);
    }
  }

  /**
   For any clock and any victims, unless a block with hash zero is cached: the events of an admission carry a subscriber
   from the old to the new contents of the cache exactly if the request names no block twice that is not cached.
   */
  lemma RepeatsAreSeenIff(c: Cache, c': Cache, req: Request, hashes: seq<nat>, blockTokens: seq<seq<Token>>, now: Time,
                          picks: seq<BlockKey>, emitted: seq<Event>, r: StartResult, bag: multiset<nat>)
    requires c.used.Keys !! c.unused.Keys && Reflects(bag, c.Cached()) && forall k :: k in c.Cached() ==> k.hash != 0
    requires Admitted(c, c', req, hashes, blockTokens, now, picks, emitted, r)
    ensures Reflects(ApplyAll(bag, emitted), c'.Cached()) <==> RepeatsInUse(c.Cached(), KeysOf(req.model, hashes))
  {
    AdmissionReflectsIff(c, c', req, hashes, blockTokens, now, picks, emitted, r, bag);
    EvenIff(c.Cached(), c.Cached() * c'.Cached(), KeysOf(req.model, hashes), blockTokens, req.model,
            PhantomsOf(c, req, hashes, blockTokens, picks));
  }

  lemma DistinctNoRepeats(added: seq<NewBlock<BlockKey>>, model: string, h: nat)
    requires Distinct(BlockKeys(added)) && OfModel(added, model)
    ensures Repeats(added, h) == 0
  {
    var hashes := HashesOf(BlockKeys(added));
    DistinctHashes(BlockKeys(added), model);
    DistinctOnce(hashes, h);
  }

  lemma DistinctHashes(keys: seq<BlockKey>, model: string)
    requires Distinct(keys) && forall i :: 0 <= i < |keys| ==> keys[i].model == model
    ensures Distinct(HashesOf(keys))
  {
  }

  lemma {:induction false} DistinctOnce(hashes: seq<nat>, h: nat)
    requires Distinct(hashes)
    ensures multiset(hashes)[h] <= 1
  {
    if hashes != [] {
      var n := |hashes| - 1;
      DistinctOnce(hashes[..n], h);
      assert hashes == hashes[..n] + [hashes[n]];
      assert hashes[n] !in multiset(hashes[..n]);
    }
  }

  lemma EvenWithoutRepeats(stay: set<BlockKey>, added: seq<NewBlock<BlockKey>>, model: string)
    requires Distinct(BlockKeys(added)) && OfModel(added, model)
    ensures Even(stay, added, 0)
  {
    forall h: nat ensures EvenAt(stay, added, 0, h) {
      DistinctNoRepeats(added, model, h);
    }
  }

  lemma TidyIsEven(c: Cache, c': Cache, req: Request, hashes: seq<nat>, blockTokens: seq<seq<Token>>, now: Time,
                   picks: seq<BlockKey>, emitted: seq<Event>, r: StartResult)
    requires c.used.Keys !! c.unused.Keys && |c.Cached()| <= c.maxBlocks
    requires Admitted(c, c', req, hashes, blockTokens, now, picks, emitted, r) &&
             Tidy(c, KeysOf(req.model, hashes), now)
    ensures PhantomsOf(c, req, hashes, blockTokens, picks) == 0
    ensures Even(c.Cached() * c'.Cached(), NewBlocks(c.Cached(), KeysOf(req.model, hashes), blockTokens), 0)
  {
    var keys := KeysOf(req.model, hashes);
    var added := NewBlocks(c.Cached(), keys, blockTokens);
    TidyAdmission(c, c', req, hashes, blockTokens, now, picks, emitted, r);
    RealPicksNoPhantoms(Known(c, keys), added, c.maxBlocks, picks);
    AddedIsSeen(c, req.model, hashes, blockTokens);
    EvenWithoutRepeats(c.Cached() * c'.Cached(), added, req.model);
  }

  /** The events of a tidy admission carry a subscriber from the old to the new contents of the cache. */
  lemma AdmissionReflects(c: Cache, c': Cache, req: Request, hashes: seq<nat>, blockTokens: seq<seq<Token>>, now: Time,
                          picks: seq<BlockKey>, emitted: seq<Event>, r: StartResult, bag: multiset<nat>)
    requires c.used.Keys !! c.unused.Keys && |c.Cached()| <= c.maxBlocks && Reflects(bag, c.Cached())
    requires Admitted(c, c', req, hashes, blockTokens, now, picks, emitted, r) &&
             Tidy(c, KeysOf(req.model, hashes), now)
    ensures Reflects(ApplyAll(bag, emitted), c'.Cached()) && Removed(emitted) <= bag
  {
    TidyIsEven(c, c', req, hashes, blockTokens, now, picks, emitted, r);
    AdmissionReflectsIff(c, c', req, hashes, blockTokens, now, picks, emitted, r, bag);
  }

  /**
   A tidy admission of which some events are lost: a subscriber still holds the cached blocks exactly if the hashes of
   the lost removals are those of the lost store event.
   */
  lemma LostEventsIff(c: Cache, c': Cache, req: Request, hashes: seq<nat>, blockTokens: seq<seq<Token>>, now: Time,
                      picks: seq<BlockKey>, emitted: seq<Event>, r: StartResult, bag: multiset<nat>, keep: seq<bool>)
    requires c.used.Keys !! c.unused.Keys && |c.Cached()| <= c.maxBlocks && Reflects(bag, c.Cached()) &&
             |keep| == |emitted|
    requires Admitted(c, c', req, hashes, blockTokens, now, picks, emitted, r) &&
             Tidy(c, KeysOf(req.model, hashes), now)
    ensures Reflects(ApplyAll(bag, Select(emitted, keep, true)), c'.Cached())
            <==> Removed(Select(emitted, keep, false)) == Stored(Select(emitted, keep, false))
  {
    AdmissionReflects(c, c', req, hashes, blockTokens, now, picks, emitted, r, bag);
    AdmissionEvents(c, c', req, hashes, blockTokens, now, picks, emitted, r);
    MissedEventsIff(bag, emitted, keep, c'.Cached());
  }
}
