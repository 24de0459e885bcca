/**
 What becomes of a request (pkg/simulator/simulator.go:250-456): over every run of the dispatcher it is refused or it
 is completed, once for every time it came, and until then it is in the queue or with a worker.
 */
module RequestFlow {
  import opened Common
  import opened Dispatcher
  import opened LoraSlots

  // ---------------------------------------------------------------- where a request is

  ghost function Carrying(busy: map<nat, Request>, r: Request): set<nat> {
    set w | w in busy && busy[w] == r
  }

  /** How often a request is in the queue or with a worker. */
  ghost function Held(s: State, r: Request): nat {
    multiset(s.waiting)[r] + |Carrying(s.busy, r)|
  }

  /** No worker can take the request, and there is no room to wait. */
  ghost predicate IsRefused(cfg: Config, s: State, req: Request) {
    |s.waiting| == cfg.queueCapacity && (s.freeWorkers == [] || !Runnable(cfg, s.loras, req.model))
  }

  ghost predicate Refuses(cfg: Config, s: State, l: Label, r: Request) {
    l == NewRequest(r) && IsRefused(cfg, s, r)
  }

  ghost predicate Completes(s: State, l: Label, r: Request) {
    l.Collect? && s.finished != [] && s.finished[0] in s.busy && s.busy[s.finished[0]] == r
  }

  ghost function Bit(b: bool): nat {
    if b then 1 else 0
  }

  // ---------------------------------------------------------------- one step

  lemma CarryOneMore(busy: map<nat, Request>, w: nat, req: Request, r: Request)
    requires w !in busy
    ensures |Carrying(busy[w := req], r)| == |Carrying(busy, r)| + Bit(req == r)
  {
    var before, after := Carrying(busy, r), Carrying(busy[w := req], r);
    if req == r {
      assert after == before + {w};
    } else {
      assert after == before;
    }
  }

  lemma CarryOneLess(busy: map<nat, Request>, w: nat, r: Request)
    requires w in busy
    ensures |Carrying(busy, r)| == |Carrying(busy - {w}, r)| + Bit(busy[w] == r)
  {
    assert (busy - {w})[w := busy[w]] == busy;
    CarryOneMore(busy - {w}, w, busy[w], r);
  }

  lemma WaitingWithout(waiting: seq<Request>, i: nat, r: Request)
    requires i < |waiting|
    ensures multiset(waiting)[r] == multiset(Without(waiting, i))[r] + Bit(waiting[i] == r)
  {
    assert waiting == waiting[..i] + [waiting[i]] + waiting[i + 1..];
  }

  lemma DispatchHolds(s: State, w: nat, i: nat, t': Loras, r: Request)
    requires i < |s.waiting| && w !in s.busy
    ensures Held(Dispatched(s, w, i, t'), r) == Held(s, r)
  {
    WaitingWithout(s.waiting, i, r);
    CarryOneMore(s.busy, w, s.waiting[i], r);
  }

  lemma FindKeepsHeld(cfg: Config, s: State, w: nat, s': State, found: bool, r: Request)
    requires FindSpec(cfg, s, w, s', found) && w !in s.busy
    ensures Held(s', r) == Held(s, r)
  {
    if found {
      var i: nat, t' :| Leaves(cfg, s.loras, s.waiting, i, t') && s' == Dispatched(s, w, i, t');
      DispatchHolds(s, w, i, t', r);
    }
  }

  lemma ParkingHolds(cfg: Config, s: State, req: Request, r: Request)
    ensures Held(Enqueued(cfg, s, req), r) == Held(s, r) + Bit(req == r && |s.waiting| < cfg.queueCapacity)
  {
  }

  lemma NewRequestIsHeld(cfg: Config, s: State, req: Request, s': State, r: Request)
    requires Inv(cfg, s) && NewRequestSpec(cfg, s, req, s')
    ensures Held(s', r) + Bit(req == r && IsRefused(cfg, s, req)) == Held(s, r) + Bit(req == r)
  {
    if s.freeWorkers == [] {
      ParkingHolds(cfg, s, req, r);
    } else {
      var t', ok :|
        && LoadSpec(cfg, s.loras, req.model, t', ok)
        && s' == if ok then s.(freeWorkers := s.freeWorkers[1..], busy := s.busy[s.freeWorkers[0] := req], loras := t')
                 else Enqueued(cfg, s.(freeWorkers := s.freeWorkers[1..] + [s.freeWorkers[0]]), req);
      if ok {
        assert s.freeWorkers[0] in Elems(s.freeWorkers);
        CarryOneMore(s.busy, s.freeWorkers[0], req, r);
      } else {
        ParkingHolds(cfg, s.(freeWorkers := s.freeWorkers[1..] + [s.freeWorkers[0]]), req, r);
      }
    }
  }

  /** A step that is not an arrival, a refusal or a completion of the request leaves it where it is held. */
  lemma StepConserves(cfg: Config, s: State, l: Label, s': State, r: Request)
    requires Inv(cfg, s) && Step(cfg, s, l, s')
    ensures Held(s', r) + Bit(Refuses(cfg, s, l, r)) + Bit(Completes(s, l, r)) == Held(s, r) + Bit(l == NewRequest(r))
  {
    match l
    case NewRequest(req) => NewRequestIsHeld(cfg, s, req, s', r);
    case WorkerDone(w) =>
    case Collect =>
      var found :| FindSpec(cfg, Collected(cfg, s), s.finished[0], s', found);
      CarryOneLess(s.busy, s.finished[0], r);
      FindKeepsHeld(cfg, Collected(cfg, s), s.finished[0], s', found, r);
    case Wake =>
    case Scan =>
      if s.freeWorkers != [] {
        var w := s.freeWorkers[0];
        assert w in Elems(s.freeWorkers);
        var found :| FindSpec(cfg, s.(freeWorkers := s.freeWorkers[1..], scanning := found), w, s', found);
        FindKeepsHeld(cfg, s.(freeWorkers := s.freeWorkers[1..], scanning := found), w, s', found, r);
      }
  }

  // ---------------------------------------------------------------- whole runs

  ghost function Arrivals(labels: seq<Label>, r: Request): nat {
    multiset(labels)[NewRequest(r)]
  }

  ghost function Refusals(cfg: Config, states: seq<State>, labels: seq<Label>, r: Request): nat
    requires |labels| <= |states|
  {
    if labels == [] then 0
    else
      var n := |labels| - 1;
      Refusals(cfg, states, labels[..n], r) + Bit(Refuses(cfg, states[n], labels[n], r))
  }

  ghost function Completions(states: seq<State>, labels: seq<Label>, r: Request): nat
    requires |labels| <= |states|
  {
    if labels == [] then 0
    else
      var n := |labels| - 1;
      Completions(states, labels[..n], r) + Bit(Completes(states[n], labels[n], r))
  }

  lemma CountsNext(cfg: Config, states: seq<State>, labels: seq<Label>, i: nat, r: Request)
    requires i < |labels| <= |states|
    ensures Arrivals(labels[..i + 1], r) == Arrivals(labels[..i], r) + Bit(labels[i] == NewRequest(r))
    ensures Refusals(cfg, states, labels[..i + 1], r) ==
            Refusals(cfg, states, labels[..i], r) + Bit(Refuses(cfg, states[i], labels[i], r))
    ensures Completions(states, labels[..i + 1], r) ==
            Completions(states, labels[..i], r) + Bit(Completes(states[i], labels[i], r))
  {
    TakeNext(labels, i);
  }

  ghost predicate ConservesAt(cfg: Config, states: seq<State>, labels: seq<Label>, i: nat, r: Request)
    requires i < |labels| < |states|
  {
    Held(states[i + 1], r) + Bit(Refuses(cfg, states[i], labels[i], r)) + Bit(Completes(states[i], labels[i], r)) ==
    Held(states[i], r) + Bit(labels[i] == NewRequest(r))
  }

  lemma RunConserves(cfg: Config, states: seq<State>, labels: seq<Label>, i: nat, r: Request)
    requires IsRun(cfg, states, labels) && i < |labels|
    ensures ConservesAt(cfg, states, labels, i, r)
  {
    RunKeepsInvariant(cfg, states, labels, i);
    StepConserves(cfg, states[i], labels[i], states[i + 1], r);
  }

  lemma {:induction false} StepsAddUp(cfg: Config, states: seq<State>, labels: seq<Label>, i: nat, r: Request)
    requires |states| == |labels| + 1 && i < |states| && Held(states[0], r) == 0
    requires forall k :: 0 <= k < |labels| ==> ConservesAt(cfg, states, labels, k, r)
    ensures Arrivals(labels[..i], r) ==
            Refusals(cfg, states, labels[..i], r) + Completions(states, labels[..i], r) + Held(states[i], r)
  {
    if i > 0 {
      StepsAddUp(cfg, states, labels, i - 1, r);
      assert ConservesAt(cfg, states, labels, i - 1, r);
      CountsNext(cfg, states, labels, i - 1, r);
    }
  }

  /** In every run, a request came as often as it was refused, was completed, or is still in the queue or at work. */
  lemma RequestsAreConserved(cfg: Config, states: seq<State>, labels: seq<Label>, i: nat, r: Request)
    requires IsRun(cfg, states, labels) && i < |states|
    ensures Arrivals(labels[..i], r) ==
            Refusals(cfg, states, labels[..i], r) + Completions(states, labels[..i], r) + Held(states[i], r)
  {
    forall k | 0 <= k < |labels| ensures ConservesAt(cfg, states, labels, k, r) {
      RunConserves(cfg, states, labels, k, r);
    }
    StepsAddUp(cfg, states, labels, i, r);
  }

  /** When all workers are free and no wake-up is pending, every request that was not refused is completed. */
  lemma QuietMeansCompleted(cfg: Config, states: seq<State>, labels: seq<Label>, i: nat, r: Request)
    requires IsRun(cfg, states, labels) && i < |states|
    requires states[i].busy == map[] && states[i].signals == 0 && !states[i].scanning
    ensures Arrivals(labels[..i], r) == Refusals(cfg, states, labels[..i], r) + Completions(states, labels[..i], r)
  {
    RequestsAreConserved(cfg, states, labels, i, r);
    RunKeepsInvariant(cfg, states, labels, i);
    QuietMeansEmptyQueue(cfg, states[i]);
  }

  // ---------------------------------------------------------------- what a new request meets

  /** A request starts at once exactly if a worker is free and its model can run; else it waits if there is room. */
  lemma NewRequestStartsIff(cfg: Config, s: State, req: Request, s': State)
    requires Inv(cfg, s) && Step(cfg, s, NewRequest(req), s')
    ensures s'.busy != s.busy <==> s.freeWorkers != [] && Runnable(cfg, s.loras, req.model)
    ensures s'.busy != s.busy ==> s'.busy == s.busy[s.freeWorkers[0] := req] && s'.waiting == s.waiting
    ensures s'.busy == s.busy ==> s'.waiting == if |s.waiting| < cfg.queueCapacity then s.waiting + [req] else s.waiting
  {
    if s.freeWorkers != [] {
      assert s.freeWorkers[0] in Elems(s.freeWorkers);
      assert s.freeWorkers[0] in s.busy[s.freeWorkers[0] := req];
    }
  }

  /** While some queued request can run with a loaded adapter, no adapter is pushed out. */
  lemma WantedStays(cfg: Config, t: Loras, waiting: seq<Request>, i: nat, t': Loras, j: nat)
    requires Leaves(cfg, t, waiting, i, t') && j < |waiting| && IsLoaded(cfg, t, waiting[j].model)
    ensures t.loaded.Keys <= t'.loaded.Keys
  {
  }

  /**
   An adapter is pushed out for a queued request only if it is idle, all slots are taken, and no queued request can run
   with a loaded adapter; so none that a queued request wants is.
   */
  lemma EvictedIsUnwanted(cfg: Config, s: State, w: nat, s': State, lora: string)
    requires SlotsMatch(cfg, s.loras) && FindSpec(cfg, s, w, s', true)
    ensures lora in s.loras.loaded && lora !in s'.loras.loaded ==>
              && IsIdle(s.loras, lora) && |s.loras.loaded| == cfg.maxLoras
              && forall j :: 0 <= j < |s.waiting| ==> !IsLoaded(cfg, s.loras, s.waiting[j].model)
  {
    var i: nat, t' :| Leaves(cfg, s.loras, s.waiting, i, t') && s' == Dispatched(s, w, i, t');
    forall j | 0 <= j < |s.waiting| && IsLoaded(cfg, s.loras, s.waiting[j].model)
      ensures s.loras.loaded.Keys <= t'.loaded.Keys
    {
      WantedStays(cfg, s.loras, s.waiting, i, t', j);
    }
  }
}
