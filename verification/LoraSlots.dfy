/**
 The LoRA table of the simulator (pkg/simulator/lora.go): reference counts of the loaded adapters and the
 slots that give each loaded adapter its ID.
 */
module LoraSlots {
  import opened Common

  datatype Config = Config(workers: nat, queueCapacity: nat, maxLoras: nat, loras: set<string>) {
    /** The configuration check, for a fixed set of adapters with non-empty names. */
    predicate Valid() {
      workers >= 1 && maxLoras >= 1 && "" !in loras
    }
  }

  /** `ids[i]` names the adapter with ID i+1; the empty name is a free slot. */
  datatype Loras = Loras(loaded: map<string, int>, ids: seq<string>)

  /** Position of the first element that belongs to a set, or the length of the sequence. */
  function IndexIn(s: seq<string>, wanted: set<string>): (i: nat)
    ensures i <= |s|
    ensures i < |s| ==> s[i] in wanted
    ensures forall j :: 0 <= j < i ==> s[j] !in wanted
  {
    if s == [] then 0
    else
      var i := IndexIn(s[..|s| - 1], wanted);
      if i < |s| - 1 || s[|s| - 1] in wanted then i else |s|
  }

  /** The adapter keeps its slot or gets the first free one. */
  function Assign(ids: seq<string>, lora: string): seq<string> {
    var i := IndexIn(ids, {lora, ""});
    if i < |ids| then ids[i := lora] else ids
  }

  function Free(ids: seq<string>, lora: string): seq<string> {
    var i := IndexIn(ids, {lora});
    if i < |ids| then ids[i := ""] else ids
  }

  /** The 1-based ID of an adapter, 0 when it is not loaded. */
  function IdOf(ids: seq<string>, lora: string): nat {
    var i := IndexIn(ids, {lora});
    if i < |ids| then i + 1 else 0
  }

  function Count(loaded: map<string, int>, lora: string): int {
    if lora in loaded then loaded[lora] else 0
  }

  predicate IsIdle(t: Loras, lora: string) {
    lora in t.loaded && t.loaded[lora] == 0
  }

  /** A request for the model could be given a worker now. */
  ghost predicate Runnable(cfg: Config, t: Loras, model: string) {
    || model !in cfg.loras
    || model in t.loaded
    || |t.loaded| < cfg.maxLoras
    || exists l :: IsIdle(t, l)
  }

  /** The adapter is referenced once more, after `evicted`, if any, gave up its slot. */
  function Entered(t: Loras, model: string, evicted: Option<string>): Loras {
    var base := if evicted.Some? then Loras(t.loaded - {evicted.value}, Free(t.ids, evicted.value)) else t;
    Loras(base.loaded[model := Count(base.loaded, model) + 1], Assign(base.ids, model))
  }

  /** Which adapter a load may push out: none while there is room, else any idle one. */
  predicate MayEvict(cfg: Config, t: Loras, model: string, evicted: Option<string>) {
    if model in t.loaded || |t.loaded| < cfg.maxLoras then evicted.None?
    else evicted.Some? && IsIdle(t, evicted.value)
  }

  /** Loading a model: a no-op for base models, otherwise a new reference if there is a slot to be had. */
  ghost predicate LoadSpec(cfg: Config, t: Loras, model: string, t': Loras, ok: bool) {
    && (ok <==> Runnable(cfg, t, model))
    && (if model in cfg.loras && ok then exists e :: MayEvict(cfg, t, model, e) && t' == Entered(t, model, e)
        else t' == t)
  }

  // ---------------------------------------------------------------- slots

  /** The occupied IDs form a prefix and name each loaded adapter exactly once. */
  ghost predicate SlotsMatch(cfg: Config, t: Loras) {
    && |t.ids| == cfg.maxLoras && |t.loaded| <= cfg.maxLoras
    && t.loaded.Keys <= cfg.loras && "" !in cfg.loras
    && (forall i :: 0 <= i < |t.loaded| ==> t.ids[i] in t.loaded)
    && (forall i :: |t.loaded| <= i < |t.ids| ==> t.ids[i] == "")
    && Distinct(t.ids[..|t.loaded|])
  }

  lemma LoadedHasSlot(cfg: Config, t: Loras, lora: string)
    requires SlotsMatch(cfg, t) && lora in t.loaded
    ensures IndexIn(t.ids, {lora}) < |t.loaded|
  {
    var prefix := t.ids[..|t.loaded|];
    DistinctCardinality(prefix);
    assert Elems(prefix) <= t.loaded.Keys;
    SubsetOfSameSize(Elems(prefix), t.loaded.Keys);
    assert lora in prefix;
  }

  lemma FreshHasNoSlot(cfg: Config, t: Loras, lora: string)
    requires SlotsMatch(cfg, t) && lora !in t.loaded && lora != ""
    ensures IndexIn(t.ids, {lora}) == |t.ids|
    ensures IndexIn(t.ids, {lora, ""}) == |t.loaded|
  {
    var i := IndexIn(t.ids, {lora, ""});
    if |t.loaded| < |t.ids| {
      assert t.ids[|t.loaded|] in {lora, ""};
    }
  }

  lemma EvictionFreesOneSlot(cfg: Config, t: Loras, model: string, victim: string)
    requires SlotsMatch(cfg, t) && model in cfg.loras && model !in t.loaded
    requires |t.loaded| == cfg.maxLoras && victim in t.loaded
    ensures var j := IndexIn(t.ids, {victim});
            j < |t.ids| && Entered(t, model, Some(victim)).ids == t.ids[j := model]
  {
    LoadedHasSlot(cfg, t, victim);
    FreshHasNoSlot(cfg, t, model);
    var j := IndexIn(t.ids, {victim});
    var freed := Free(t.ids, victim);
    assert freed == t.ids[j := ""];
    assert freed[j] == "";
    assert IndexIn(freed, {model, ""}) == j;
  }

  lemma NewSlotMatches(cfg: Config, t: Loras, t': Loras, model: string)
    requires SlotsMatch(cfg, t) && model in cfg.loras && model !in t.loaded && |t.loaded| < cfg.maxLoras
    requires t'.ids == t.ids[|t.loaded| := model] && t'.loaded.Keys == t.loaded.Keys + {model}
    ensures SlotsMatch(cfg, t')
  {
    var n := |t.loaded|;
    assert |t'.loaded.Keys| == n + 1;
    assert model !in Elems(t.ids[..n]);
    AppendDistinct(t.ids[..n], model);
    assert t'.ids[..n + 1] == t.ids[..n] + [model];
  }

  lemma ReplacedSlotMatches(cfg: Config, t: Loras, t': Loras, model: string, victim: string, j: nat)
    requires SlotsMatch(cfg, t) && model in cfg.loras && model !in t.loaded && |t.loaded| == cfg.maxLoras
    requires j < |t.ids| && t.ids[j] == victim && victim in t.loaded
    requires t'.ids == t.ids[j := model] && t'.loaded.Keys == (t.loaded.Keys - {victim}) + {model}
    ensures SlotsMatch(cfg, t')
  {
    assert t.ids[..|t.loaded|] == t.ids;
    assert |t'.loaded.Keys| == |t.loaded|;
    assert t'.ids[..|t'.loaded|] == t'.ids;
    forall i | 0 <= i < |t.ids| && i != j
      ensures t'.ids[i] in t'.loaded && t'.ids[i] != model
    {
      assert t.ids[i] in t.loaded && t.ids[i] != t.ids[j];
    }
  }

  lemma KnownKeepsSlots(cfg: Config, t: Loras, model: string)
    requires SlotsMatch(cfg, t) && model in t.loaded
    ensures Entered(t, model, None).ids == t.ids
    ensures SlotsMatch(cfg, Entered(t, model, None))
  {
    LoadedHasSlot(cfg, t, model);
    assert Entered(t, model, None).loaded.Keys == t.loaded.Keys;
  }

  lemma RoomKeepsSlots(cfg: Config, t: Loras, model: string)
    requires SlotsMatch(cfg, t) && model in cfg.loras && model !in t.loaded && |t.loaded| < cfg.maxLoras
    ensures Entered(t, model, None).ids == t.ids[|t.loaded| := model]
    ensures SlotsMatch(cfg, Entered(t, model, None))
  {
    FreshHasNoSlot(cfg, t, model);
    NewSlotMatches(cfg, t, Entered(t, model, None), model);
  }

  lemma EvictionKeepsSlots(cfg: Config, t: Loras, model: string, victim: string)
    requires SlotsMatch(cfg, t) && model in cfg.loras && model !in t.loaded
    requires |t.loaded| == cfg.maxLoras && victim in t.loaded
    ensures SlotsMatch(cfg, Entered(t, model, Some(victim)))
  {
    EvictionFreesOneSlot(cfg, t, model, victim);
    ReplacedSlotMatches(cfg, t, Entered(t, model, Some(victim)), model, victim, IndexIn(t.ids, {victim}));
  }

  lemma LoadKeepsSlots(cfg: Config, t: Loras, model: string, evicted: Option<string>)
    requires SlotsMatch(cfg, t) && model in cfg.loras && MayEvict(cfg, t, model, evicted)
    ensures SlotsMatch(cfg, Entered(t, model, evicted))
  {
    if model in t.loaded {
      KnownKeepsSlots(cfg, t, model);
    } else if |t.loaded| < cfg.maxLoras {
      RoomKeepsSlots(cfg, t, model);
    } else {
      EvictionKeepsSlots(cfg, t, model, evicted.value);
    }
  }

  /** A load changes the ID of no adapter that stays loaded. */
  lemma LoadKeepsIds(cfg: Config, t: Loras, model: string, evicted: Option<string>, lora: string)
    requires SlotsMatch(cfg, t) && model in cfg.loras && MayEvict(cfg, t, model, evicted)
    requires lora in t.loaded && lora in Entered(t, model, evicted).loaded
    ensures IdOf(Entered(t, model, evicted).ids, lora) == IdOf(t.ids, lora) > 0
  {
    LoadedHasSlot(cfg, t, lora);
    if model in t.loaded {
      KnownKeepsSlots(cfg, t, model);
    } else if |t.loaded| < cfg.maxLoras {
      RoomKeepsSlots(cfg, t, model);
      SameIndex(t.ids, |t.loaded|, model, lora);
    } else {
      EvictionFreesOneSlot(cfg, t, model, evicted.value);
      SameIndex(t.ids, IndexIn(t.ids, {evicted.value}), model, lora);
    }
  }

  lemma SameIndex(ids: seq<string>, j: nat, model: string, lora: string)
    requires j < |ids| && ids[j] != lora && model != lora && IndexIn(ids, {lora}) < |ids|
    ensures IndexIn(ids[j := model], {lora}) == IndexIn(ids, {lora})
  {
    var i, i' := IndexIn(ids, {lora}), IndexIn(ids[j := model], {lora});
    assert ids[j := model][i] == lora;
  }

  /** The IDs of the loaded adapters are exactly 1 to their number; an adapter that is not loaded has none. */
  lemma IdsAreOneToLoaded(cfg: Config, t: Loras, lora: string, id: nat)
    requires SlotsMatch(cfg, t)
    ensures lora in t.loaded ==> 1 <= IdOf(t.ids, lora) <= |t.loaded| && t.ids[IdOf(t.ids, lora) - 1] == lora
    ensures lora !in t.loaded && lora != "" ==> IdOf(t.ids, lora) == 0
    ensures 1 <= id <= |t.loaded| ==> t.ids[id - 1] in t.loaded && IdOf(t.ids, t.ids[id - 1]) == id
  {
    if lora in t.loaded {
      LoadedHasSlot(cfg, t, lora);
    } else if lora != "" {
      FreshHasNoSlot(cfg, t, lora);
    }
    if 1 <= id <= |t.loaded| {
      var other := t.ids[id - 1];
      LoadedHasSlot(cfg, t, other);
      var prefix := t.ids[..|t.loaded|];
      assert prefix[id - 1] == other && prefix[IndexIn(t.ids, {other})] == other;
    }
  }

  /** No two loaded adapters share an ID. */
  lemma IdsDoNotCollide(cfg: Config, t: Loras, a: string, b: string)
    requires SlotsMatch(cfg, t) && a in t.loaded && b in t.loaded && a != b
    ensures IdOf(t.ids, a) != IdOf(t.ids, b)
  {
    LoadedHasSlot(cfg, t, a);
    LoadedHasSlot(cfg, t, b);
  }
}
