/**
 The dispatcher object: the queue, the workers and the LoRA table updated in place, proved against module Dispatcher.
 */
module DispatcherLoop {
  import opened Common
  import opened LoraSlots
  import opened Dispatcher

  ghost predicate ScanTrace(cfg: Config, trace: seq<State>) {
    trace != [] && forall i :: 0 <= i < |trace| - 1 ==> Step(cfg, trace[i], Scan, trace[i + 1])
  }

  lemma {:induction false} ScansKeepInvariant(cfg: Config, trace: seq<State>, i: nat)
    requires ScanTrace(cfg, trace) && Inv(cfg, trace[0]) && i < |trace|
    ensures Inv(cfg, trace[i])
  {
    if i > 0 {
      ScansKeepInvariant(cfg, trace, i - 1);
      StepKeepsInvariant(cfg, trace[i - 1], Scan, trace[i]);
    }
  }

  class Loop {
    const cfg: Config
    const loraIDs: array<string>
    var freeWorkers: seq<nat>
    var busy: map<nat, Request>
    var finished: seq<nat>
    var waiting: seq<Request>
    var loadedLoras: map<string, int>
    var signals: nat
    ghost var enqueued: seq<Request>
    ghost var dequeued: seq<Request>

    ghost function Table(): Loras
      reads this, loraIDs
    {
      Loras(loadedLoras, loraIDs[..])
    }

    ghost function View(): State
      reads this, loraIDs
    {
      State(freeWorkers, busy, finished, waiting, Table(), signals, false, enqueued, dequeued)
    }

    constructor (config: Config)
      requires config.Valid()
      ensures cfg == config && Initial(cfg, View()) && fresh(loraIDs)
    {
      cfg := config;
      loraIDs := new string[config.maxLoras](_ => "");
      busy, finished, waiting, loadedLoras, signals := map[], [], [], map[], 0;
      enqueued, dequeued := [], [];
      freeWorkers := [];
      new;
      for i := 0 to config.workers
        invariant Distinct(freeWorkers) && Elems(freeWorkers) == AllWorkers(i)
        invariant forall w :: w in freeWorkers ==> w < i
        invariant busy == map[] && finished == [] && waiting == [] && loadedLoras == map[] && signals == 0
        invariant enqueued == [] && dequeued == [] && forall j :: 0 <= j < loraIDs.Length ==> loraIDs[j] == ""
      {
        AppendDistinct(freeWorkers, i);
        ElemsAppend(freeWorkers, i);
        freeWorkers := freeWorkers + [i];
      }
    }

    method AssignLoraID(lora: string)
      modifies loraIDs
      ensures loraIDs[..] == Assign(old(loraIDs[..]), lora)
    {
      for i := 0 to loraIDs.Length
        invariant forall j :: 0 <= j < i ==> loraIDs[j] !in {lora, ""}
        invariant loraIDs[..] == old(loraIDs[..])
      {
        if loraIDs[i] == lora {
          assert IndexIn(old(loraIDs[..]), {lora, ""}) == i;
          return;
        }
        if loraIDs[i] == "" {
          assert IndexIn(old(loraIDs[..]), {lora, ""}) == i;
          loraIDs[i] := lora;
          return;
        }
      }
    }

    method FreeLoraID(lora: string)
      modifies loraIDs
      ensures loraIDs[..] == Free(old(loraIDs[..]), lora)
    {
      for i := 0 to loraIDs.Length
        invariant forall j :: 0 <= j < i ==> loraIDs[j] != lora
        invariant loraIDs[..] == old(loraIDs[..])
      {
        if loraIDs[i] == lora {
          assert IndexIn(old(loraIDs[..]), {lora}) == i;
          loraIDs[i] := "";
          return;
        }
      }
    }

    method GetLoraID(lora: string) returns (id: nat)
      ensures id == IdOf(loraIDs[..], lora)
    {
      for i := 0 to loraIDs.Length
        invariant forall j :: 0 <= j < i ==> loraIDs[j] != lora
      {
        if loraIDs[i] == lora {
          assert IndexIn(loraIDs[..], {lora}) == i;
          return i + 1;
        }
      }
      return 0;
    }

    /** Looks through the loaded LoRAs, in no particular order, for one that is not in use. */
    method FindIdle() returns (idle: Option<string>)
      ensures idle.Some? ==> IsIdle(Table(), idle.value)
      ensures idle.None? ==> forall l :: !IsIdle(Table(), l)
    {
      var todo := loadedLoras.Keys;
      while todo != {}
        invariant todo <= loadedLoras.Keys
        invariant forall l :: l in loadedLoras.Keys - todo ==> loadedLoras[l] != 0
        decreases todo
      {
        var lora :| lora in todo;
        if loadedLoras[lora] == 0 {
          return Some(lora);
        }
        todo := todo - {lora};
      }
      return None;
    }

    method LoadLora(model: string) returns (ok: bool)
      modifies this`loadedLoras, loraIDs
      ensures LoadSpec(cfg, old(Table()), model, Table(), ok)
    {
      if model !in cfg.loras {
        return true;
      }
      ok := model in loadedLoras || |loadedLoras| < cfg.maxLoras;
      ghost var evicted: Option<string> := None;
      if !ok {
        var idle := FindIdle();
        if idle.Some? {
          evicted := idle;
          FreeLoraID(idle.value);
          loadedLoras := loadedLoras - {idle.value};
          ok := true;
        }
      }
      if ok {
        assert MayEvict(cfg, old(Table()), model, evicted);
        loadedLoras := loadedLoras[model := Count(loadedLoras, model) + 1];
        AssignLoraID(model);
        assert Table() == Entered(old(Table()), model, evicted);
      }
    }

    method IncrementLora(model: string)
      modifies this`loadedLoras
      ensures Table() == Incremented(cfg, old(Table()), model)
    {
      if model in cfg.loras {
        loadedLoras := loadedLoras[model := Count(loadedLoras, model) + 1];
      }
    }

    method DecrementLora(model: string)
      modifies this`loadedLoras, this`signals
      ensures Table() == Decremented(cfg, old(Table()), model)
      ensures signals == Signalled(cfg, Table(), model, old(signals))
    {
      if model == "" || model !in cfg.loras {
        return;
      }
      loadedLoras := loadedLoras[model := Count(loadedLoras, model) - 1];
      if loadedLoras[model] <= 0 && signals < cfg.workers {
        signals := signals + 1;
      }
    }

    /** Parks a request, or reports that the queue is full. */
    method Enqueue(req: Request) returns (ok: bool)
      modifies this`waiting, this`enqueued
      ensures View() == Enqueued(cfg, old(View()), req)
      ensures ok <==> |old(waiting)| < cfg.queueCapacity
    {
      ok := |waiting| < cfg.queueCapacity;
      if ok {
        waiting := waiting + [req];
        enqueued := enqueued + [req];
      }
    }

    /** Position of the first queued request whose LoRA is loaded, if any. */
    method FirstLoaded() returns (i: nat)
      ensures i <= |waiting|
      ensures i < |waiting| ==> IsLoaded(cfg, Table(), waiting[i].model)
      ensures forall j :: 0 <= j < i ==> !IsLoaded(cfg, Table(), waiting[j].model)
    {
      i := 0;
      while i < |waiting|
        invariant i <= |waiting|
        invariant forall j :: 0 <= j < i ==> !IsLoaded(cfg, Table(), waiting[j].model)
      {
        if waiting[i].model !in cfg.loras || waiting[i].model in loadedLoras {
          return;
        }
        i := i + 1;
      }
    }

    /** Loads the LoRA of the first queued request for which that is possible, if any. */
    method FirstLoadable() returns (i: nat)
      modifies this`loadedLoras, loraIDs
      ensures i <= |waiting|
      ensures i < |waiting| ==> LoadSpec(cfg, old(Table()), waiting[i].model, Table(), true)
      ensures i == |waiting| ==> Table() == old(Table())
      ensures forall j :: 0 <= j < i ==> !Runnable(cfg, old(Table()), waiting[j].model)
    {
      i := 0;
      while i < |waiting|
        invariant i <= |waiting|
        invariant Table() == old(Table())
        invariant forall j :: 0 <= j < i ==> !Runnable(cfg, old(Table()), waiting[j].model)
      {
        var ok := LoadLora(waiting[i].model);
        if ok {
          return;
        }
        i := i + 1;
      }
    }

    /** Takes the request that may run next out of the queue and references its LoRA. */
    method Dequeue() returns (r: Option<Request>, ghost i: nat)
      modifies this`waiting, this`loadedLoras, this`dequeued, loraIDs
      ensures r.Some? ==>
                && Leaves(cfg, old(Table()), old(waiting), i, Table())
                && r.value == old(waiting)[i]
                && waiting == Without(old(waiting), i) && dequeued == old(dequeued) + [r.value]
      ensures r.None? ==> NoneCanRun(cfg, old(Table()), waiting) && View() == old(View())
    {
      var k := FirstLoaded();
      if k == |waiting| {
        k := FirstLoadable();
        if k == |waiting| {
          return None, k;
        }
      } else {
        IncrementLora(waiting[k].model);
      }
      r, i := Some(waiting[k]), k;
      waiting := Without(waiting, k);
      dequeued := dequeued + [r.value];
    }

    /** Finds work for a worker or returns it to the free ones. */
    method FindRequestAndSendToProcess(w: nat) returns (found: bool)
      modifies this, loraIDs
      ensures FindSpec(cfg, old(View()), w, View(), found)
    {
      ghost var i;
      var r;
      r, i := Dequeue();
      found := r.Some?;
      if found {
        busy := busy[w := r.value];
        assert View() == Dispatched(old(View()), w, i, Table());
      } else {
        freeWorkers := freeWorkers + [w];
      }
    }

    method HandleNewRequest(req: Request) returns (refused: bool)
      modifies this, loraIDs
      ensures Step(cfg, old(View()), NewRequest(req), View())
      ensures refused ==> View().waiting == old(View()).waiting && View().busy == old(View()).busy
    {
      refused := false;
      if freeWorkers == [] {
        var ok := Enqueue(req);
        return !ok;
      }
      var w := freeWorkers[0];
      freeWorkers := freeWorkers[1..];
      var ok := LoadLora(req.model);
      ghost var t' := Table();
      if !ok {
        freeWorkers := freeWorkers + [w];
        var queued := Enqueue(req);
        refused := !queued;
        assert LoadSpec(cfg, old(Table()), req.model, t', false);
        return;
      }
      busy := busy[w := req];
      assert LoadSpec(cfg, old(Table()), req.model, t', true);
    }

    method HandleCompleted()
      requires finished != [] && finished[0] in busy
      modifies this, loraIDs
      ensures Step(cfg, old(View()), Collect, View())
    {
      var w := finished[0];
      var model := busy[w].model;
      finished, busy := finished[1..], busy - {w};
      DecrementLora(model);
      assert View() == Collected(cfg, old(View()));
      var found := FindRequestAndSendToProcess(w);
    }

    /** A LoRA fell idle: gives free workers to queued requests until one of the two runs out. */
    method HandleLoraRemovable() returns (ghost trace: seq<State>)
      requires signals > 0
      modifies this, loraIDs
      ensures ScanTrace(cfg, trace)
      ensures Step(cfg, old(View()), Wake, trace[0]) && View() == trace[|trace| - 1]
    {
      signals := signals - 1;
      trace := [View().(scanning := true)];
      while true
        invariant ScanTrace(cfg, trace) && trace[|trace| - 1] == View().(scanning := true)
        invariant Step(cfg, old(View()), Wake, trace[0])
        decreases |freeWorkers|
      {
        ghost var s := View().(scanning := true);
        if freeWorkers == [] {
          assert Step(cfg, s, Scan, View());
          trace := trace + [View()];
          return;
        }
        var w := freeWorkers[0];
        freeWorkers := freeWorkers[1..];
        label Before:
        var found := FindRequestAndSendToProcess(w);
        ScanningIsImmaterial(cfg, old@Before(View()), w, View(), found, found);
        assert Step(cfg, s, Scan, View().(scanning := found));
        trace := trace + [View().(scanning := found)];
        if !found {
          return;
        }
      }
    }
  }

  lemma ScanningIsImmaterial(cfg: Config, s: State, w: nat, s': State, found: bool, scanning: bool)
    requires FindSpec(cfg, s, w, s', found)
    ensures FindSpec(cfg, s.(scanning := scanning), w, s'.(scanning := scanning), found)
    ensures found ==> s'.freeWorkers == s.freeWorkers
  {
  }
}
