/**
 The request dispatcher (pkg/simulator/simulator.go, worker.go): one loop hands requests to free workers,
 parks those that cannot run in a bounded queue, and is woken when a LoRA falls idle.

 A step is one turn of the loop, one iteration of its wake-up scan, or a worker finishing its request.
 */
module Dispatcher {
  import opened Common
  import opened LoraSlots

  datatype Request = Request(id: nat, model: string)

  /**
   `busy` lists workers from dispatch until the loop collects them, `finished` those of them waiting to be
   collected. `signals` counts the pending wake-ups. `enqueued` and `dequeued` record the history of the queue.
   */
  datatype State = State(
    freeWorkers: seq<nat>,
    busy: map<nat, Request>,
    finished: seq<nat>,
    waiting: seq<Request>,
    loras: Loras,
    signals: nat,
    scanning: bool,
    enqueued: seq<Request>,
    dequeued: seq<Request>)

  // ---------------------------------------------------------------- operations

  predicate IsLoaded(cfg: Config, t: Loras, model: string) {
    model !in cfg.loras || model in t.loaded
  }

  function Incremented(cfg: Config, t: Loras, model: string): Loras {
    if model in cfg.loras then t.(loaded := t.loaded[model := Count(t.loaded, model) + 1]) else t
  }

  function Decremented(cfg: Config, t: Loras, model: string): Loras {
    if model != "" && model in cfg.loras then t.(loaded := t.loaded[model := Count(t.loaded, model) - 1]) else t
  }

  /** A wake-up is written when the last use of a LoRA ends; it is dropped when the channel is full. */
  function Signalled(cfg: Config, t: Loras, model: string, signals: nat): nat {
    if model != "" && model in cfg.loras && Count(t.loaded, model) <= 0 && signals < cfg.workers then signals + 1
        else signals
  }

  function Without<T>(s: seq<T>, i: nat): seq<T>
    requires i < |s|
  {
    s[..i] + s[i + 1..]
  }

  /** The queued request that leaves: the first whose LoRA is loaded, else the first whose LoRA can be loaded. */
  ghost predicate Leaves(cfg: Config, t: Loras, waiting: seq<Request>, i: nat, t': Loras) {
    && i < |waiting|
    && if exists j :: 0 <= j < |waiting| && IsLoaded(cfg, t, waiting[j].model) then
         && IsLoaded(cfg, t, waiting[i].model)
         && (forall j :: 0 <= j < i ==> !IsLoaded(cfg, t, waiting[j].model))
         && t' == Incremented(cfg, t, waiting[i].model)
       else
         && (forall j :: 0 <= j < i ==> !Runnable(cfg, t, waiting[j].model))
         && LoadSpec(cfg, t, waiting[i].model, t', true)
  }

  ghost predicate NoneCanRun(cfg: Config, t: Loras, waiting: seq<Request>) {
    forall j :: 0 <= j < |waiting| ==> !Runnable(cfg, t, waiting[j].model)
  }

  function Dispatched(s: State, w: nat, i: nat, t': Loras): State
    requires i < |s.waiting|
  {
    s.(waiting := Without(s.waiting, i), loras := t', busy := s.busy[w := s.waiting[i]],
       dequeued := s.dequeued + [s.waiting[i]])
  }

  /** Finds work for worker w or returns it to the free workers. */
  ghost predicate FindSpec(cfg: Config, s: State, w: nat, s': State, found: bool) {
    if found then exists i: nat, t': Loras :: Leaves(cfg, s.loras, s.waiting, i, t') && s' == Dispatched(s, w, i, t')
    else NoneCanRun(cfg, s.loras, s.waiting) && s' == s.(freeWorkers := s.freeWorkers + [w])
  }

  /** Parks a request at the end of the queue; it is refused when the queue is full. */
  function Enqueued(cfg: Config, s: State, req: Request): State {
    if |s.waiting| >= cfg.queueCapacity then s
    else s.(waiting := s.waiting + [req], enqueued := s.enqueued + [req])
  }

  ghost predicate NewRequestSpec(cfg: Config, s: State, req: Request, s': State) {
    if s.freeWorkers == [] then s' == Enqueued(cfg, s, req)
    else
      exists t', ok ::
        && LoadSpec(cfg, s.loras, req.model, t', ok)
        && s' == if ok then s.(freeWorkers := s.freeWorkers[1..], busy := s.busy[s.freeWorkers[0] := req], loras := t')
                 else Enqueued(cfg, s.(freeWorkers := s.freeWorkers[1..] + [s.freeWorkers[0]]), req)
  }

  /** The loop takes a finished worker out of the channel and gives up its reference to the LoRA. */
  function Collected(cfg: Config, s: State): State
    requires s.finished != [] && s.finished[0] in s.busy
  {
    var w := s.finished[0];
    var model := s.busy[w].model;
    var t := Decremented(cfg, s.loras, model);
    s.(finished := s.finished[1..], busy := s.busy - {w}, loras := t,
       signals := Signalled(cfg, t, model, s.signals))
  }

  datatype Label = NewRequest(req: Request) | WorkerDone(worker: nat) | Collect | Wake | Scan

  ghost predicate Step(cfg: Config, s: State, l: Label, s': State) {
    match l
    case NewRequest(req) => !s.scanning && NewRequestSpec(cfg, s, req, s')
    case WorkerDone(w) => w in s.busy && w !in s.finished && s' == s.(finished := s.finished + [w])
    case Collect =>
      && !s.scanning && s.finished != [] && s.finished[0] in s.busy
      && exists found :: FindSpec(cfg, Collected(cfg, s), s.finished[0], s', found)
    case Wake => !s.scanning && s.signals > 0 && s' == s.(signals := s.signals - 1, scanning := true)
    case Scan =>
      && s.scanning
      && if s.freeWorkers == [] then s' == s.(scanning := false)
         else exists found ::
             FindSpec(cfg, s.(freeWorkers := s.freeWorkers[1..], scanning := found), s.freeWorkers[0], s', found)
  }

  // ---------------------------------------------------------------- invariant

  ghost function Users(busy: map<nat, Request>, lora: string): set<nat> {
    set w | w in busy && busy[w].model == lora
  }

  /** Each loaded LoRA is counted once per worker that was given a request for it and not yet collected. */
  ghost predicate Counted(cfg: Config, busy: map<nat, Request>, t: Loras) {
    && (forall l :: l in t.loaded ==> t.loaded[l] == |Users(busy, l)|)
    && (forall w :: w in busy && busy[w].model in cfg.loras ==> busy[w].model in t.loaded)
  }

  ghost function AllWorkers(n: nat): set<nat> {
    if n == 0 then {} else AllWorkers(n - 1) + {n - 1}
  }

  ghost predicate WorkersConserved(cfg: Config, s: State) {
    && Distinct(s.freeWorkers) && Elems(s.freeWorkers) !! s.busy.Keys
    && Elems(s.freeWorkers) + s.busy.Keys == AllWorkers(cfg.workers)
    && Distinct(s.finished) && Elems(s.finished) <= s.busy.Keys
  }

  function OfModel(reqs: seq<Request>, model: string): seq<Request> {
    if reqs == [] then []
    else
      var r := reqs[|reqs| - 1];
      OfModel(reqs[..|reqs| - 1], model) + (if r.model == model then [r] else [])
  }

  /** Queued requests of one model have left, and will leave, in the order in which they came. */
  ghost predicate Fifo(s: State) {
    forall m :: OfModel(s.dequeued, m) + OfModel(s.waiting, m) == OfModel(s.enqueued, m)
  }

  /** With no wake-up pending, a free worker means that no queued request can run. */
  ghost predicate WorkConserving(cfg: Config, s: State) {
    !s.scanning && s.signals == 0 ==> s.freeWorkers == [] || NoneCanRun(cfg, s.loras, s.waiting)
  }

  ghost predicate Inv(cfg: Config, s: State) {
    && cfg.Valid()
    && SlotsMatch(cfg, s.loras)
    && Counted(cfg, s.busy, s.loras)
    && WorkersConserved(cfg, s)
    && s.signals <= cfg.workers
    && |s.waiting| <= cfg.queueCapacity
    && Fifo(s)
    && WorkConserving(cfg, s)
  }

  // ---------------------------------------------------------------- loads and counts

  lemma LeavingLoads(cfg: Config, t: Loras, waiting: seq<Request>, i: nat, t': Loras)
    requires SlotsMatch(cfg, t) && Leaves(cfg, t, waiting, i, t')
    ensures LoadSpec(cfg, t, waiting[i].model, t', true)
  {
    var m := waiting[i].model;
    if m in t.loaded {
      KnownKeepsSlots(cfg, t, m);
      assert MayEvict(cfg, t, m, None);
    }
  }

  /** An idle LoRA that is pushed out was used by nobody. */
  lemma LoadCountsAt(cfg: Config, busy: map<nat, Request>, t: Loras, w: nat, req: Request, e: Option<string>, l: string)
    requires Counted(cfg, busy, t) && w !in busy && req.model in cfg.loras
    requires MayEvict(cfg, t, req.model, e) && l in Entered(t, req.model, e).loaded
    ensures Entered(t, req.model, e).loaded[l] == |Users(busy[w := req], l)|
  {
    LoadCounts(busy, w, req, l);
    if l !in t.loaded {
      assert Users(busy, l) == {};
    }
  }

  lemma NobodyUsesEvicted(cfg: Config, busy: map<nat, Request>, t: Loras, victim: string, v: nat)
    requires Counted(cfg, busy, t) && IsIdle(t, victim) && v in busy
    ensures busy[v].model != victim
  {
    assert v in Users(busy, busy[v].model);
  }

  lemma LoraLoadKeepsCounts(cfg: Config, busy: map<nat, Request>, t: Loras, w: nat, req: Request, e: Option<string>)
    requires Counted(cfg, busy, t) && w !in busy && req.model in cfg.loras && MayEvict(cfg, t, req.model, e)
    ensures Counted(cfg, busy[w := req], Entered(t, req.model, e))
  {
    var busy', t' := busy[w := req], Entered(t, req.model, e);
    forall l | l in t'.loaded
      ensures t'.loaded[l] == |Users(busy', l)|
    {
      LoadCountsAt(cfg, busy, t, w, req, e, l);
    }
    forall v | v in busy' && busy'[v].model in cfg.loras
      ensures busy'[v].model in t'.loaded
    {
      if v != w && e.Some? {
        NobodyUsesEvicted(cfg, busy, t, e.value, v);
      }
    }
  }

  lemma LoadKeepsCounts(cfg: Config, busy: map<nat, Request>, t: Loras, w: nat, req: Request, t': Loras)
    requires SlotsMatch(cfg, t) && Counted(cfg, busy, t) && w !in busy
    requires LoadSpec(cfg, t, req.model, t', true)
    ensures SlotsMatch(cfg, t') && Counted(cfg, busy[w := req], t')
  {
    if req.model in cfg.loras {
      var e :| MayEvict(cfg, t, req.model, e) && t' == Entered(t, req.model, e);
      LoadKeepsSlots(cfg, t, req.model, e);
      LoraLoadKeepsCounts(cfg, busy, t, w, req, e);
    } else {
      forall l | l in t.loaded
        ensures t.loaded[l] == |Users(busy[w := req], l)|
      {
        LoadCounts(busy, w, req, l);
      }
    }
  }

  lemma LoadCounts(busy: map<nat, Request>, w: nat, req: Request, l: string)
    requires w !in busy
    ensures |Users(busy[w := req], l)| == |Users(busy, l)| + (if req.model == l then 1 else 0)
  {
    if req.model == l {
      assert Users(busy[w := req], l) == Users(busy, l) + {w};
    } else {
      assert Users(busy[w := req], l) == Users(busy, l);
    }
  }

  lemma CollectCounts(busy: map<nat, Request>, w: nat, l: string)
    requires w in busy
    ensures |Users(busy - {w}, l)| == |Users(busy, l)| - (if busy[w].model == l then 1 else 0)
  {
    if busy[w].model == l {
      assert Users(busy, l) == Users(busy - {w}, l) + {w};
    } else {
      assert Users(busy - {w}, l) == Users(busy, l);
    }
  }

  lemma CollectKeepsCounts(cfg: Config, busy: map<nat, Request>, t: Loras, w: nat)
    requires SlotsMatch(cfg, t) && Counted(cfg, busy, t) && w in busy
    ensures var t' := Decremented(cfg, t, busy[w].model);
            SlotsMatch(cfg, t') && Counted(cfg, busy - {w}, t')
  {
    var m := busy[w].model;
    var t' := Decremented(cfg, t, m);
    assert t'.loaded.Keys == t.loaded.Keys;
    forall l | l in t'.loaded
      ensures t'.loaded[l] == |Users(busy - {w}, l)|
    {
      CollectCounts(busy, w, l);
    }
  }

  // ---------------------------------------------------------------- blocked queues

  /** While something is blocked, loading a model unblocks nothing. */
  lemma BlockedStaysBlocked(cfg: Config, t: Loras, model: string, t': Loras, waiting: seq<Request>)
    requires SlotsMatch(cfg, t) && (forall l :: l in t.loaded ==> t.loaded[l] >= 0)
    requires LoadSpec(cfg, t, model, t', true) && NoneCanRun(cfg, t, waiting)
    ensures NoneCanRun(cfg, t', waiting)
  {
    if waiting != [] && model in cfg.loras {
      assert !Runnable(cfg, t, waiting[0].model);
      var e :| MayEvict(cfg, t, model, e) && t' == Entered(t, model, e);
      assert model in t.loaded;
      assert t'.loaded.Keys == t.loaded.Keys;
      forall l
        ensures !IsIdle(t', l)
      {
        assert !IsIdle(t, l);
      }
    }
  }

  /** Giving up a reference that is not the last one unblocks nothing. */
  lemma StillInUse(cfg: Config, t: Loras, model: string, waiting: seq<Request>)
    requires model in cfg.loras ==> model in t.loaded && t.loaded[model] > 1
    requires NoneCanRun(cfg, t, waiting)
    ensures NoneCanRun(cfg, Decremented(cfg, t, model), waiting)
  {
    var t' := Decremented(cfg, t, model);
    assert t'.loaded.Keys == t.loaded.Keys;
    forall l | IsIdle(t', l)
      ensures IsIdle(t, l)
    {
    }
  }

  // ---------------------------------------------------------------- queue order

  lemma OfModelAppend(reqs: seq<Request>, r: Request, m: string)
    ensures OfModel(reqs + [r], m) == OfModel(reqs, m) + (if r.model == m then [r] else [])
  {
    assert (reqs + [r])[..|reqs|] == reqs;
  }

  lemma {:induction false} OfModelConcat(a: seq<Request>, b: seq<Request>, m: string)
    ensures OfModel(a + b, m) == OfModel(a, m) + OfModel(b, m)
  {
    if b == [] {
      EmptyConcat(a);
      EmptyConcat(OfModel(a, m));
    } else {
      FrontOfConcat(a, b);
      OfModelConcat(a, b[..|b| - 1], m);
      Associative(OfModel(a, m), OfModel(b[..|b| - 1], m), if b[|b| - 1].model == m then [b[|b| - 1]] else []);
    }
  }

  lemma {:induction false} NoneOfModel(reqs: seq<Request>, m: string)
    requires forall j :: 0 <= j < |reqs| ==> reqs[j].model != m
    ensures OfModel(reqs, m) == []
  {
    if reqs != [] {
      NoneOfModel(reqs[..|reqs| - 1], m);
    }
  }

  /** Removing the first request of its model takes it off the front of that model's queue only. */
  lemma RemoveFirstOfModel(reqs: seq<Request>, i: nat, m: string)
    requires i < |reqs|
    requires forall j :: 0 <= j < i ==> reqs[j].model != reqs[i].model
    ensures OfModel(reqs, m) == (if reqs[i].model == m then [reqs[i]] else []) + OfModel(Without(reqs, i), m)
  {
    var a, r, b := reqs[..i], reqs[i], reqs[i + 1..];
    assert reqs == (a + [r]) + b;
    OfModelConcat(a + [r], b, m);
    OfModelConcat(a, b, m);
    OfModelAppend(a, r, m);
    if r.model == m {
      NoneOfModel(a, m);
      EmptyConcat(OfModel(b, m));
      EmptyConcat([r]);
    } else {
      EmptyConcat(OfModel(a, m));
      EmptyConcat(OfModel(a, m) + OfModel(b, m));
    }
  }

  lemma LeavesFirstOfItsModel(cfg: Config, t: Loras, waiting: seq<Request>, i: nat, t': Loras)
    requires Leaves(cfg, t, waiting, i, t')
    ensures forall j :: 0 <= j < i ==> waiting[j].model != waiting[i].model
  {
    forall j | 0 <= j < i
      ensures waiting[j].model != waiting[i].model
    {
      var loaded, runnable := IsLoaded(cfg, t, waiting[j].model), Runnable(cfg, t, waiting[j].model);
    }
  }

  lemma DispatchKeepsFifo(cfg: Config, s: State, w: nat, i: nat, t': Loras)
    requires Fifo(s) && Leaves(cfg, s.loras, s.waiting, i, t')
    ensures Fifo(Dispatched(s, w, i, t'))
  {
    LeavesFirstOfItsModel(cfg, s.loras, s.waiting, i, t');
    var s' := Dispatched(s, w, i, t');
    var r := s.waiting[i];
    forall m
      ensures OfModel(s'.dequeued, m) + OfModel(s'.waiting, m) == OfModel(s'.enqueued, m)
    {
      assert OfModel(s.dequeued, m) + OfModel(s.waiting, m) == OfModel(s.enqueued, m);
      RemoveFirstOfModel(s.waiting, i, m);
      OfModelAppend(s.dequeued, r, m);
      Associative(OfModel(s.dequeued, m), if r.model == m then [r] else [], OfModel(s'.waiting, m));
    }
  }

  lemma EnqueueKeepsFifo(cfg: Config, s: State, req: Request)
    requires Fifo(s)
    ensures Fifo(Enqueued(cfg, s, req))
  {
    if |s.waiting| < cfg.queueCapacity {
      var s' := Enqueued(cfg, s, req);
      forall m
        ensures OfModel(s'.dequeued, m) + OfModel(s'.waiting, m) == OfModel(s'.enqueued, m)
      {
        assert OfModel(s.dequeued, m) + OfModel(s.waiting, m) == OfModel(s.enqueued, m);
        OfModelAppend(s.waiting, req, m);
        OfModelAppend(s.enqueued, req, m);
        Associative(OfModel(s.dequeued, m), OfModel(s.waiting, m), if req.model == m then [req] else []);
      }
    }
  }

  // ---------------------------------------------------------------- workers

  lemma HeadLeaves<T>(s: seq<T>)
    requires s != [] && Distinct(s)
    ensures Distinct(s[1..]) && s[0] !in Elems(s[1..]) && Elems(s) == Elems(s[1..]) + {s[0]}
  {
    forall x | x in s
      ensures x in s[1..] || x == s[0]
    {
      var i :| 0 <= i < |s| && s[i] == x;
      if i > 0 {
        assert s[1..][i - 1] == x;
      }
    }
  }

  /** One worker in hand: neither free nor busy, everyone else accounted for. */
  ghost predicate InHand(cfg: Config, s: State, w: nat) {
    && Distinct(s.freeWorkers) && Elems(s.freeWorkers) !! s.busy.Keys
    && w !in Elems(s.freeWorkers) && w !in s.busy
    && Elems(s.freeWorkers) + s.busy.Keys + {w} == AllWorkers(cfg.workers)
    && Distinct(s.finished) && Elems(s.finished) <= s.busy.Keys
  }

  lemma GiveBack(cfg: Config, s: State, w: nat)
    requires InHand(cfg, s, w)
    ensures WorkersConserved(cfg, s.(freeWorkers := s.freeWorkers + [w]))
  {
    AppendDistinct(s.freeWorkers, w);
    ElemsAppend(s.freeWorkers, w);
  }

  lemma PutToWork(cfg: Config, s: State, w: nat, req: Request, s': State)
    requires InHand(cfg, s, w)
    requires s'.freeWorkers == s.freeWorkers && s'.busy == s.busy[w := req] && s'.finished == s.finished
    ensures WorkersConserved(cfg, s')
  {
    assert s'.busy.Keys == s.busy.Keys + {w};
  }

  lemma TakeFree(cfg: Config, s: State, s': State)
    requires WorkersConserved(cfg, s) && s.freeWorkers != []
    requires s'.freeWorkers == s.freeWorkers[1..] && s'.busy == s.busy && s'.finished == s.finished
    ensures InHand(cfg, s', s.freeWorkers[0])
  {
    HeadLeaves(s.freeWorkers);
  }

  lemma TakeFinished(cfg: Config, s: State, s': State)
    requires WorkersConserved(cfg, s) && s.finished != []
    requires s'.freeWorkers == s.freeWorkers && s'.finished == s.finished[1..] && s'.busy == s.busy - {s.finished[0]}
    ensures s.finished[0] in s.busy && InHand(cfg, s', s.finished[0])
  {
    HeadLeaves(s.finished);
    assert s'.busy.Keys == s.busy.Keys - {s.finished[0]};
  }

  // ---------------------------------------------------------------- steps

  /** What holds while the loop looks for work for worker w. */
  ghost predicate Searching(cfg: Config, s: State, w: nat) {
    && cfg.Valid() && SlotsMatch(cfg, s.loras) && Counted(cfg, s.busy, s.loras) && InHand(cfg, s, w)
    && s.signals <= cfg.workers && |s.waiting| <= cfg.queueCapacity && Fifo(s)
  }

  ghost predicate InvButConserving(cfg: Config, s: State) {
    && cfg.Valid() && SlotsMatch(cfg, s.loras) && Counted(cfg, s.busy, s.loras) && WorkersConserved(cfg, s)
    && s.signals <= cfg.workers && |s.waiting| <= cfg.queueCapacity && Fifo(s)
  }

  lemma DispatchKeepsInvariant(cfg: Config, s: State, w: nat, i: nat, t': Loras)
    requires Searching(cfg, s, w) && Leaves(cfg, s.loras, s.waiting, i, t')
    ensures InvButConserving(cfg, Dispatched(s, w, i, t'))
    ensures Runnable(cfg, s.loras, s.waiting[i].model)
  {
    LeavingLoads(cfg, s.loras, s.waiting, i, t');
    LoadKeepsCounts(cfg, s.busy, s.loras, w, s.waiting[i], t');
    DispatchKeepsFifo(cfg, s, w, i, t');
    PutToWork(cfg, s, w, s.waiting[i], Dispatched(s, w, i, t'));
  }

  lemma SearchEnds(cfg: Config, s: State, w: nat, s': State, found: bool)
    requires Searching(cfg, s, w) && FindSpec(cfg, s, w, s', found)
    ensures InvButConserving(cfg, s')
    ensures found ==> s'.freeWorkers == s.freeWorkers && !NoneCanRun(cfg, s.loras, s.waiting)
    ensures !found ==> NoneCanRun(cfg, s'.loras, s'.waiting)
    ensures s'.signals == s.signals && s'.scanning == s.scanning
  {
    if found {
      var i: nat, t': Loras :| Leaves(cfg, s.loras, s.waiting, i, t') && s' == Dispatched(s, w, i, t');
      DispatchKeepsInvariant(cfg, s, w, i, t');
    } else {
      GiveBack(cfg, s, w);
    }
  }

  /** A new request goes straight to a worker. */
  lemma DirectDispatchKeepsInvariant(cfg: Config, s: State, req: Request, t': Loras)
    requires Inv(cfg, s) && s.freeWorkers != [] && LoadSpec(cfg, s.loras, req.model, t', true)
    ensures Inv(cfg, s.(freeWorkers := s.freeWorkers[1..], busy := s.busy[s.freeWorkers[0] := req], loras := t'))
  {
    var w := s.freeWorkers[0];
    var s1 := s.(freeWorkers := s.freeWorkers[1..]);
    var s' := s.(freeWorkers := s.freeWorkers[1..], busy := s.busy[w := req], loras := t');
    TakeFree(cfg, s, s1);
    LoadKeepsCounts(cfg, s.busy, s.loras, w, req, t');
    PutToWork(cfg, s1, w, req, s');
    if !s.scanning && s.signals == 0 {
      BlockedStaysBlocked(cfg, s.loras, req.model, t', s.waiting);
    }
  }

  /** A new request that cannot run is parked and its worker freed again. */
  lemma ParkingKeepsInvariant(cfg: Config, s: State, req: Request)
    requires Inv(cfg, s) && s.freeWorkers != [] && !Runnable(cfg, s.loras, req.model)
    ensures Inv(cfg, Enqueued(cfg, s.(freeWorkers := s.freeWorkers[1..] + [s.freeWorkers[0]]), req))
  {
    var w := s.freeWorkers[0];
    var s1 := s.(freeWorkers := s.freeWorkers[1..]);
    TakeFree(cfg, s, s1);
    GiveBack(cfg, s1, w);
    EnqueueKeepsFifo(cfg, s.(freeWorkers := s.freeWorkers[1..] + [w]), req);
  }

  lemma NewRequestKeepsInvariant(cfg: Config, s: State, req: Request, s': State)
    requires Inv(cfg, s) && NewRequestSpec(cfg, s, req, s')
    ensures Inv(cfg, s')
  {
    if s.freeWorkers == [] {
      EnqueueKeepsFifo(cfg, s, req);
    } else {
      var t', ok :|
        && LoadSpec(cfg, s.loras, req.model, t', ok)
        && s' == if ok then s.(freeWorkers := s.freeWorkers[1..], busy := s.busy[s.freeWorkers[0] := req], loras := t')
                 else Enqueued(cfg, s.(freeWorkers := s.freeWorkers[1..] + [s.freeWorkers[0]]), req);
      if ok {
        DirectDispatchKeepsInvariant(cfg, s, req, t');
      } else {
        ParkingKeepsInvariant(cfg, s, req);
      }
    }
  }

  lemma CollectKeepsInvariant(cfg: Config, s: State, s': State, found: bool)
    requires Inv(cfg, s) && !s.scanning && s.finished != [] && s.finished[0] in s.busy
    requires FindSpec(cfg, Collected(cfg, s), s.finished[0], s', found)
    ensures Inv(cfg, s')
  {
    var w := s.finished[0];
    var m := s.busy[w].model;
    var s1 := Collected(cfg, s);
    CollectKeepsCounts(cfg, s.busy, s.loras, w);
    TakeFinished(cfg, s, s1);
    SearchEnds(cfg, s1, w, s', found);
    if s1.signals == 0 && found && s.freeWorkers != [] {
      StillInUse(cfg, s.loras, m, s.waiting);
    }
  }

  lemma ScanKeepsInvariant(cfg: Config, s: State, s': State, found: bool)
    requires Inv(cfg, s) && s.scanning && s.freeWorkers != []
    requires FindSpec(cfg, s.(freeWorkers := s.freeWorkers[1..], scanning := found), s.freeWorkers[0], s', found)
    ensures Inv(cfg, s')
  {
    var s1 := s.(freeWorkers := s.freeWorkers[1..], scanning := found);
    TakeFree(cfg, s, s1);
    SearchEnds(cfg, s1, s.freeWorkers[0], s', found);
  }

  lemma WorkerDoneKeepsInvariant(cfg: Config, s: State, w: nat)
    requires Inv(cfg, s) && w in s.busy && w !in s.finished
    ensures Inv(cfg, s.(finished := s.finished + [w]))
  {
    AppendDistinct(s.finished, w);
    ElemsAppend(s.finished, w);
  }

  lemma StepKeepsInvariant(cfg: Config, s: State, l: Label, s': State)
    requires Inv(cfg, s) && Step(cfg, s, l, s')
    ensures Inv(cfg, s')
  {
    match l
    case NewRequest(req) => NewRequestKeepsInvariant(cfg, s, req, s');
    case WorkerDone(w) => WorkerDoneKeepsInvariant(cfg, s, w);
    case Collect =>
      var found :| FindSpec(cfg, Collected(cfg, s), s.finished[0], s', found);
      CollectKeepsInvariant(cfg, s, s', found);
    case Wake =>
    case Scan =>
      if s.freeWorkers != [] {
        var found :| FindSpec(cfg, s.(freeWorkers := s.freeWorkers[1..], scanning := found), s.freeWorkers[0], s',
                              found);
        ScanKeepsInvariant(cfg, s, s', found);
      }
  }

  // ---------------------------------------------------------------- runs

  ghost predicate Initial(cfg: Config, s: State) {
    && cfg.Valid()
    && Distinct(s.freeWorkers) && Elems(s.freeWorkers) == AllWorkers(cfg.workers)
    && s.busy == map[] && s.finished == [] && s.waiting == []
    && s.loras.loaded == map[] && |s.loras.ids| == cfg.maxLoras &&
       (forall i :: 0 <= i < cfg.maxLoras ==> s.loras.ids[i] == "")
    && s.signals == 0 && !s.scanning && s.enqueued == [] && s.dequeued == []
  }

  ghost predicate IsRun(cfg: Config, states: seq<State>, labels: seq<Label>) {
    && |states| == |labels| + 1
    && Initial(cfg, states[0])
    && forall i :: 0 <= i < |labels| ==> Step(cfg, states[i], labels[i], states[i + 1])
  }

  /** Every state of every run satisfies the invariant; in particular the dispatcher is work-conserving. */
  lemma {:induction false} RunKeepsInvariant(cfg: Config, states: seq<State>, labels: seq<Label>, i: nat)
    requires IsRun(cfg, states, labels) && i < |states|
    ensures Inv(cfg, states[i])
  {
    if i > 0 {
      RunKeepsInvariant(cfg, states, labels, i - 1);
      StepKeepsInvariant(cfg, states[i - 1], labels[i - 1], states[i]);
    } else {
      assert forall m :: OfModel([], m) == [];
    }
  }

  /** No request is left behind: once every worker is free and no wake-up is pending, the queue is empty. */
  lemma QuietMeansEmptyQueue(cfg: Config, s: State)
    requires Inv(cfg, s) && s.busy == map[] && s.signals == 0 && !s.scanning
    ensures s.waiting == []
  {
    assert 0 in AllWorkers(1);
    WorkersExist(cfg.workers);
    assert s.freeWorkers != [];
    if s.waiting != [] {
      var q := s.waiting[0];
      assert !Runnable(cfg, s.loras, q.model);
      assert s.loras.loaded != map[];
      var l :| l in s.loras.loaded;
      assert Users(s.busy, l) == {};
      assert IsIdle(s.loras, l);
    }
  }

  lemma {:induction false} WorkersExist(n: nat)
    requires n >= 1
    ensures 0 in AllWorkers(n)
  {
    if n > 1 {
      WorkersExist(n - 1);
    }
  }

  /** Across a step, a LoRA that was and stays loaded keeps its ID. */
  lemma StepKeepsIds(cfg: Config, s: State, l: Label, s': State, lora: string)
    requires Inv(cfg, s) && Step(cfg, s, l, s')
    requires lora in s.loras.loaded && lora in s'.loras.loaded
    ensures IdOf(s'.loras.ids, lora) == IdOf(s.loras.ids, lora) > 0
  {
    LoadedHasSlot(cfg, s.loras, lora);
    match l
    case NewRequest(req) =>
      if s.freeWorkers != [] {
        var t', ok :|
          && LoadSpec(cfg, s.loras, req.model, t', ok)
          && s' == if ok then
             s.(freeWorkers := s.freeWorkers[1..], busy := s.busy[s.freeWorkers[0] := req], loras := t')
                   else Enqueued(cfg, s.(freeWorkers := s.freeWorkers[1..] + [s.freeWorkers[0]]), req);
        LoadSpecKeepsIds(cfg, s.loras, req.model, t', ok, lora);
      }
    case Collect =>
      var found :| FindSpec(cfg, Collected(cfg, s), s.finished[0], s', found);
      CollectKeepsCounts(cfg, s.busy, s.loras, s.finished[0]);
      FindKeepsIds(cfg, Collected(cfg, s), s.finished[0], s', found, lora);
    case Scan =>
      if s.freeWorkers != [] {
        var found :| FindSpec(cfg, s.(freeWorkers := s.freeWorkers[1..], scanning := found), s.freeWorkers[0], s',
                              found);
        FindKeepsIds(cfg, s.(freeWorkers := s.freeWorkers[1..], scanning := found), s.freeWorkers[0], s', found, lora);
      }
    case _ =>
  }

  lemma LoadSpecKeepsIds(cfg: Config, t: Loras, model: string, t': Loras, ok: bool, lora: string)
    requires SlotsMatch(cfg, t) && LoadSpec(cfg, t, model, t', ok) && lora in t.loaded && lora in t'.loaded
    ensures IdOf(t'.ids, lora) == IdOf(t.ids, lora)
  {
    if model in cfg.loras && ok {
      var e :| MayEvict(cfg, t, model, e) && t' == Entered(t, model, e);
      LoadKeepsIds(cfg, t, model, e, lora);
    }
  }

  lemma FindKeepsIds(cfg: Config, s: State, w: nat, s': State, found: bool, lora: string)
    requires SlotsMatch(cfg, s.loras) && FindSpec(cfg, s, w, s', found)
    requires lora in s.loras.loaded && lora in s'.loras.loaded
    ensures IdOf(s'.loras.ids, lora) == IdOf(s.loras.ids, lora)
  {
    if found {
      var i: nat, t': Loras :| Leaves(cfg, s.loras, s.waiting, i, t') && s' == Dispatched(s, w, i, t');
      LeavingLoads(cfg, s.loras, s.waiting, i, t');
      LoadSpecKeepsIds(cfg, s.loras, s.waiting[i].model, t', true, lora);
    }
  }
}
