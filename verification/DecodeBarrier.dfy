/**
 The decode barrier (traceActiveRegistry in pkg/simulator/moe_trace_runtime.go): all active trace requests share
 one model forward. The first request to arrive starts a generation for every active request; the next generation
 starts only after each of them completed this one or left.

 The request goroutines are modelled as threads that take atomic steps in any order. Requests are numbered, so
 that their IDs are unique.
 */
module DecodeBarrier {
  import opened Common
  import opened Sums

  type Id = nat

  datatype Active = Active(outputTokens: nat, position: nat)

  datatype Timing = Timing(generation: nat, latency: real, finishAt: real)

  /**
   A generation: who takes part and with which decode position, who has still to complete it, who completed it
   with which timing and who left instead. The channels are represented by how often they were closed.
   */
  datatype Generation = Generation(
    leader: Id,
    participants: map<Id, nat>,
    remaining: set<Id>,
    completed: map<Id, Timing>,
    left: set<Id>,
    startedAt: real,
    timing: Option<Timing>,
    readyCloses: nat,
    doneCloses: nat)

  /** `steps` lists every generation started so far; its length is the next generation number. */
  datatype Registry = Registry(requests: map<Id, Active>, steps: seq<Generation>, current: Option<nat>)

  // ---------------------------------------------------------------- the registry operations

  function Activated(r: Registry, id: Id, outputTokens: nat): Registry {
    if outputTokens <= 1 then r else r.(requests := r.requests[id := Active(outputTokens, 0)])
  }

  /** The generation loses a pending participant; when it was the last one the generation is over. */
  function Departed(r: Registry, g: Generation): Registry
    requires r.current.Some? && r.current.value < |r.steps|
  {
    if g.remaining == {} then
        r.(steps := r.steps[r.current.value := g.(doneCloses := g.doneCloses + 1)], current := None)
    else r.(steps := r.steps[r.current.value := g])
  }

  function Deactivated(r: Registry, id: Id): Registry
    requires r.current.Some? ==> r.current.value < |r.steps|
  {
    var r' := r.(requests := r.requests - {id});
    if r.current.None? then r'
    else
      var g := r.steps[r.current.value];
      if id !in g.remaining then r'
      else Departed(r', g.(remaining := g.remaining - {id}, left := g.left + {id}))
  }

  function Completed(r: Registry, id: Id, t: Timing): Registry
    requires r.current.Some? ==> r.current.value < |r.steps|
  {
    if r.current.None? || r.current.value != t.generation then r
    else
      var g := r.steps[r.current.value];
      if id !in g.remaining then r
      else
        var r' :=
          if id !in r.requests then r
          else
            var a := r.requests[id].(position := r.requests[id].position + 1);
            r.(requests := if a.position >= a.outputTokens - 1 then r.requests - {id} else r.requests[id := a]);
        Departed(r', g.(remaining := g.remaining - {id}, completed := g.completed[id := t]))
  }

  /** The requests that still have a position to decode, with that position. */
  function Participants(r: Registry): map<Id, nat> {
    map id | id in r.requests && r.requests[id].position < r.requests[id].outputTokens - 1 :: r.requests[id].position
  }

  datatype Outcome = NotActive | AwaitReady(generation: nat) | AwaitDone(generation: nat) | Lead

  /** What a request finds when it asks for its next decode step. */
  function Acquire(r: Registry, id: Id): Outcome
    requires r.current.Some? ==> r.current.value < |r.steps|
  {
    if id !in r.requests then NotActive
    else if r.current.Some? then
      var g := r.steps[r.current.value];
      if id in g.participants && id in g.remaining then AwaitReady(r.current.value) else AwaitDone(r.current.value)
    else if Participants(r) == map[] then NotActive
    else Lead
  }

  function Led(r: Registry, id: Id, now: real): Registry {
    var ps := Participants(r);
    r.(steps := r.steps + [Generation(id, ps, ps.Keys, map[], {}, now, None, 0, 0)], current := Some(|r.steps|))
  }

  /** The leader publishes the modelled latency and releases those waiting for it. */
  function Published(r: Registry, g: nat, latency: real): Registry
    requires g < |r.steps|
  {
    var s := r.steps[g];
    var timing := Some(Timing(g, latency, s.startedAt + latency));
    r.(steps := r.steps[g := s.(timing := timing, readyCloses := s.readyCloses + 1)])
  }

  // ---------------------------------------------------------------- request threads

  datatype Pc =
    | NotStarted
    | Running
    | WaitReady(generation: nat)
    | WaitDone(generation: nat)
    | Leading(generation: nat)
    | Holding(timing: Timing)
    | Finished

  /** A request with its number of output tokens and the decode steps it has completed. */
  datatype Thread = Thread(tokens: nat, done: nat, pc: Pc)

  datatype System = System(reg: Registry, threads: seq<Thread>)

  datatype Label =
    | Activate(id: Id)
    | Ask(id: Id, now: real)
    | Publish(id: Id, latency: real)
    | WakeReady(id: Id)
    | WakeDone(id: Id)
    | Complete(id: Id)
    | Quit(id: Id)

  function Moved(s: System, id: Id, pc: Pc): System
    requires id < |s.threads|
  {
    s.(threads := s.threads[id := s.threads[id].(pc := pc)])
  }

  predicate Sound(s: System) {
    s.reg.current.Some? ==> s.reg.current.value < |s.reg.steps|
  }

  predicate Enabled(s: System, l: Label) {
    && Sound(s) && l.id < |s.threads|
    && var th := s.threads[l.id];
       match l
       case Activate(_) => th.pc.NotStarted?
       case Ask(_, _) => th.pc.Running? && th.done + 1 < th.tokens && !Acquire(s.reg, l.id).NotActive?
       case Publish(_, _) => th.pc.Leading? && th.pc.generation < |s.reg.steps|
       case WakeReady(_) => th.pc.WaitReady? && th.pc.generation < |s.reg.steps| &&
           s.reg.steps[th.pc.generation].timing.Some?
       case WakeDone(_) => th.pc.WaitDone? && th.pc.generation < |s.reg.steps| &&
           s.reg.steps[th.pc.generation].doneCloses > 0
       case Complete(_) => th.pc.Holding?
       case Quit(_) => th.pc.Running?
  }

  /** A thread waits only for channels: every step is one critical section or one channel receive. */
  function Next(s: System, l: Label): System
    requires Enabled(s, l)
  {
    var th := s.threads[l.id];
    match l
    case Activate(id) => Moved(s.(reg := Activated(s.reg, id, th.tokens)), id, Running)
    case Ask(id, now) =>
      (match Acquire(s.reg, id)
       case AwaitReady(g) => Moved(s, id, WaitReady(g))
       case AwaitDone(g) => Moved(s, id, WaitDone(g))
       case Lead => Moved(s.(reg := Led(s.reg, id, now)), id, Leading(|s.reg.steps|))
       case NotActive => s)
    case Publish(id, latency) =>
      var reg := Published(s.reg, th.pc.generation, latency);
      Moved(s.(reg := reg), id, Holding(reg.steps[th.pc.generation].timing.value))
    case WakeReady(id) => Moved(s, id, Holding(s.reg.steps[th.pc.generation].timing.value))
    case WakeDone(id) => Moved(s, id, Running)
    case Complete(id) =>
      System(Completed(s.reg, id, th.pc.timing), s.threads[id := th.(done := th.done + 1, pc := Running)])
    case Quit(id) => Moved(s.(reg := Deactivated(s.reg, id)), id, Finished)
  }

  // ---------------------------------------------------------------- invariant

  /** The positions a request contributed to the shared counts, generation by generation. */
  function Contributed(steps: seq<Generation>, id: Id): seq<nat> {
    if steps == [] then []
    else
      var g := steps[|steps| - 1];
      Contributed(steps[..|steps| - 1], id) + (if id in g.participants then [g.participants[id]] else [])
  }

  /** In how many generations a request completed the shared forward. */
  function Completions(steps: seq<Generation>, id: Id): nat {
    if steps == [] then 0
    else Completions(steps[..|steps| - 1], id) + (if id in steps[|steps| - 1].completed then 1 else 0)
  }

  predicate Pending(r: Registry, id: Id)
    requires r.current.Some? ==> r.current.value < |r.steps|
  {
    r.current.Some? && id in r.steps[r.current.value].remaining
  }

  ghost predicate GenerationInv(g: Generation, gen: nat) {
    && g.remaining <= g.participants.Keys
    && g.completed.Keys <= g.participants.Keys && g.left <= g.participants.Keys
    && g.remaining !! g.completed.Keys && g.remaining !! g.left && g.completed.Keys !! g.left
    && g.participants.Keys == g.remaining + g.completed.Keys + g.left
    && g.leader in g.participants
    && (forall id :: id in g.completed ==> g.timing == Some(g.completed[id]))
    && (g.timing.Some? ==>
        g.timing.value.generation == gen && g.timing.value.finishAt == g.startedAt + g.timing.value.latency)
    && g.readyCloses == (if g.timing.Some? then 1 else 0)
    && g.doneCloses == (if g.remaining == {} then 1 else 0)
  }

  /** Where a thread stands agrees with the registry. */
  ghost predicate ThreadInv(r: Registry, id: Id, th: Thread)
    requires r.current.Some? ==> r.current.value < |r.steps|
  {
    && (id in r.requests <==> !th.pc.NotStarted? && !th.pc.Finished? && th.done + 1 < th.tokens)
    && (id in r.requests ==> r.requests[id] == Active(th.tokens, th.done))
    && (Pending(r, id) ==> id in r.requests)
    && match th.pc
       case NotStarted => th.done == 0
       case Running => true
       case WaitReady(g) => r.current == Some(g) && Pending(r, id)
       case WaitDone(g) => g < |r.steps| && id in r.requests && (r.current == Some(g) ==> !Pending(r, id))
       case Leading(g) => r.current == Some(g) && Pending(r, id) && r.steps[g].timing.None? && r.steps[g].leader == id
       case Holding(t) => r.current == Some(t.generation) && Pending(r, id) && r.steps[t.generation].timing == Some(t)
       case Finished => true
  }

  /** Each position is contributed once, in order. */
  ghost predicate AccountInv(r: Registry, id: Id, th: Thread)
    requires r.current.Some? ==> r.current.value < |r.steps|
  {
    var c := Contributed(r.steps, id);
    && c == UpTo(|c|)
    && Completions(r.steps, id) == th.done
    && (!th.pc.Finished? ==> |c| == th.done + (if Pending(r, id) then 1 else 0))
    && th.done <= |c| <= th.done + 1
    && (|c| > 0 ==> |c| + 1 <= th.tokens)
  }

  ghost predicate RegistryInv(r: Registry, n: nat) {
    && (r.current.Some? ==> r.current.value == |r.steps| - 1)
    && (forall g :: 0 <= g < |r.steps| ==> GenerationInv(r.steps[g], g))
    && (forall g :: 0 <= g < |r.steps| ==> (r.steps[g].remaining == {} <==> r.current != Some(g)))
    && (forall id :: id in r.requests ==> id < n)
    && (forall g, id :: 0 <= g < |r.steps| && id in r.steps[g].participants ==> id < n)
  }

  ghost predicate Inv(s: System) {
    && RegistryInv(s.reg, |s.threads|)
    && (forall id :: 0 <= id < |s.threads| ==> ThreadInv(s.reg, id, s.threads[id]))
    && (forall id :: 0 <= id < |s.threads| ==> AccountInv(s.reg, id, s.threads[id]))
    && (s.reg.current.Some? && s.reg.steps[s.reg.current.value].timing.None? ==>
          var leader := s.reg.steps[s.reg.current.value].leader;
          leader < |s.threads| && s.threads[leader].pc == Leading(s.reg.current.value))
  }

  // ---------------------------------------------------------------- contributions

  lemma {:induction false} SameContributions(steps: seq<Generation>, g: nat, gen: Generation, id: Id)
    requires g < |steps| && gen.participants == steps[g].participants
    ensures Contributed(steps[g := gen], id) == Contributed(steps, id)
  {
    var n := |steps| - 1;
    if g == n {
      assert steps[g := gen][..n] == steps[..n];
    } else {
      assert steps[g := gen][..n] == steps[..n][g := gen];
      SameContributions(steps[..n], g, gen, id);
    }
  }

  lemma {:induction false} CompletionsUpdate(steps: seq<Generation>, g: nat, gen: Generation, id: Id)
    requires g < |steps|
    ensures Completions(steps[g := gen], id) ==
            Completions(steps, id) - (if id in steps[g].completed then 1 else 0) +
                (if id in gen.completed then 1 else 0)
  {
    var n := |steps| - 1;
    if g == n {
      assert steps[g := gen][..n] == steps[..n];
    } else {
      assert steps[g := gen][..n] == steps[..n][g := gen];
      CompletionsUpdate(steps[..n], g, gen, id);
    }
  }

  lemma OneMoreContribution(steps: seq<Generation>, gen: Generation, id: Id)
    ensures Contributed(steps + [gen], id) ==
            Contributed(steps, id) + (if id in gen.participants then [gen.participants[id]] else [])
    ensures Completions(steps + [gen], id) == Completions(steps, id) + (if id in gen.completed then 1 else 0)
  {
    assert (steps + [gen])[..|steps|] == steps;
  }

  lemma UpToNext(n: nat)
    ensures UpTo(n) + [n] == UpTo(n + 1)
  {
  }

  // ---------------------------------------------------------------- every step keeps the invariant

  lemma ActivateKeepsInv(s: System, id: Id)
    requires Inv(s) && Enabled(s, Activate(id))
    ensures Inv(Next(s, Activate(id)))
  {
    var s' := Next(s, Activate(id));
    forall i | 0 <= i < |s'.threads|
      ensures ThreadInv(s'.reg, i, s'.threads[i]) && AccountInv(s'.reg, i, s'.threads[i])
    {
      assert ThreadInv(s.reg, i, s.threads[i]) && AccountInv(s.reg, i, s.threads[i]);
    }
  }

  /** The requests of the registry are exactly those with a position left: all of them take part. */
  lemma AllActiveTakePart(s: System)
    requires Inv(s)
    ensures Participants(s.reg).Keys == s.reg.requests.Keys
    ensures forall id :: id in s.reg.requests ==> Participants(s.reg)[id] == s.threads[id].done
  {
    forall id | id in s.reg.requests
      ensures s.reg.requests[id].position < s.reg.requests[id].outputTokens - 1
      ensures s.reg.requests[id].position == s.threads[id].done
    {
      assert ThreadInv(s.reg, id, s.threads[id]);
    }
  }

  lemma LeadAccount(s: System, id: Id, now: real, i: Id)
    requires Inv(s) && s.reg.current.None? && i < |s.threads|
    ensures AccountInv(Led(s.reg, id, now), i, s.threads[i])
  {
    AllActiveTakePart(s);
    assert ThreadInv(s.reg, i, s.threads[i]) && AccountInv(s.reg, i, s.threads[i]);
    var r' := Led(s.reg, id, now);
    OneMoreContribution(s.reg.steps, r'.steps[|s.reg.steps|], i);
    UpToNext(s.threads[i].done);
  }

  lemma LeadThread(s: System, id: Id, now: real, i: Id)
    requires Inv(s) && s.reg.current.None? && i < |s.threads|
    ensures ThreadInv(Led(s.reg, id, now), i, s.threads[i])
  {
    AllActiveTakePart(s);
    assert ThreadInv(s.reg, i, s.threads[i]);
  }

  lemma LeadKeepsRegistry(s: System, id: Id, now: real)
    requires Inv(s) && Acquire(s.reg, id).Lead?
    ensures RegistryInv(Led(s.reg, id, now), |s.threads|)
    ensures Led(s.reg, id, now).steps[|s.reg.steps|].participants.Keys == s.reg.requests.Keys
    ensures id in s.reg.requests
  {
    AllActiveTakePart(s);
    var r, r' := s.reg, Led(s.reg, id, now);
    forall g | 0 <= g < |r'.steps|
      ensures GenerationInv(r'.steps[g], g)
      ensures r'.steps[g].remaining == {} <==> r'.current != Some(g)
    {
      if g < |r.steps| {
        assert r'.steps[g] == r.steps[g] && GenerationInv(r.steps[g], g);
      }
    }
  }

  lemma LeadingKeepsInv(s: System, id: Id, now: real)
    requires Inv(s) && Enabled(s, Ask(id, now)) && Acquire(s.reg, id).Lead?
    ensures Inv(Next(s, Ask(id, now)))
  {
    var s' := Next(s, Ask(id, now));
    LeadKeepsRegistry(s, id, now);
    forall i | 0 <= i < |s'.threads|
      ensures ThreadInv(s'.reg, i, s'.threads[i]) && AccountInv(s'.reg, i, s'.threads[i])
    {
      LeadAccount(s, id, now, i);
      LeadThread(s, id, now, i);
    }
  }

  lemma WaitingKeepsInv(s: System, id: Id, now: real)
    requires Inv(s) && Enabled(s, Ask(id, now)) && !Acquire(s.reg, id).Lead?
    ensures Inv(Next(s, Ask(id, now)))
  {
    var s' := Next(s, Ask(id, now));
    forall i | 0 <= i < |s'.threads|
      ensures ThreadInv(s'.reg, i, s'.threads[i]) && AccountInv(s'.reg, i, s'.threads[i])
    {
      assert ThreadInv(s.reg, i, s.threads[i]) && AccountInv(s.reg, i, s.threads[i]);
    }
  }

  lemma PublishKeepsInv(s: System, id: Id, latency: real)
    requires Inv(s) && Enabled(s, Publish(id, latency))
    ensures Inv(Next(s, Publish(id, latency)))
  {
    var s' := Next(s, Publish(id, latency));
    var g := s.threads[id].pc.generation;
    assert ThreadInv(s.reg, id, s.threads[id]);
    assert GenerationInv(s.reg.steps[g], g);
    forall i | 0 <= i < |s'.threads|
      ensures ThreadInv(s'.reg, i, s'.threads[i]) && AccountInv(s'.reg, i, s'.threads[i])
    {
      assert ThreadInv(s.reg, i, s.threads[i]) && AccountInv(s.reg, i, s.threads[i]);
      SameContributions(s.reg.steps, g, s'.reg.steps[g], i);
      CompletionsUpdate(s.reg.steps, g, s'.reg.steps[g], i);
    }
  }

  lemma WakeKeepsInv(s: System, l: Label)
    requires Inv(s) && (l.WakeReady? || l.WakeDone?) && Enabled(s, l)
    ensures Inv(Next(s, l))
  {
    var s' := Next(s, l);
    assert ThreadInv(s.reg, l.id, s.threads[l.id]);
    var g := s.threads[l.id].pc.generation;
    assert GenerationInv(s.reg.steps[g], g);
    forall i | 0 <= i < |s'.threads|
      ensures ThreadInv(s'.reg, i, s'.threads[i]) && AccountInv(s'.reg, i, s'.threads[i])
    {
      assert ThreadInv(s.reg, i, s.threads[i]) && AccountInv(s.reg, i, s.threads[i]);
    }
  }

  /** A pending participant of the current generation departs, and `requests` is what remains registered. */
  ghost predicate Departure(r: Registry, r': Registry, id: Id, g': Generation) {
    && r.current.Some? && r.current.value < |r.steps|
    && (var g := r.steps[r.current.value];
        && id in g.remaining && g'.remaining == g.remaining - {id}
        && g'.participants == g.participants && g'.leader == g.leader && g'.timing == g.timing
        && g'.readyCloses == g.readyCloses && g'.startedAt == g.startedAt
        && g'.doneCloses == (if g'.remaining == {} then 1 else 0)
        && g'.completed.Keys - {id} == g.completed.Keys)
    && r'.steps == r.steps[r.current.value := g']
    && r'.current == (if g'.remaining == {} then None else r.current)
    && r'.requests.Keys <= r.requests.Keys
    && (forall i :: i in r.requests && i != id ==> i in r'.requests && r'.requests[i] == r.requests[i])
  }

  lemma DepartureKeepsRegistry(r: Registry, r': Registry, id: Id, g': Generation, n: nat)
    requires RegistryInv(r, n) && Departure(r, r', id, g') && GenerationInv(g', r.current.value)
    ensures RegistryInv(r', n)
  {
    forall g | 0 <= g < |r'.steps|
      ensures GenerationInv(r'.steps[g], g)
      ensures r'.steps[g].remaining == {} <==> r'.current != Some(g)
    {
      assert GenerationInv(r.steps[g], g);
      assert r.steps[g].remaining == {} <==> r.current != Some(g);
    }
    forall g, i | 0 <= g < |r'.steps| && i in r'.steps[g].participants
      ensures i < n
    {
      assert i in r.steps[g].participants;
    }
  }

  lemma DepartureKeepsThread(r: Registry, r': Registry, id: Id, g': Generation, i: Id, th: Thread)
    requires Departure(r, r', id, g') && i != id && ThreadInv(r, i, th)
    ensures ThreadInv(r', i, th)
  {
  }

  lemma DepartureKeepsAccount(r: Registry, r': Registry, id: Id, g': Generation, i: Id, th: Thread)
    requires Departure(r, r', id, g') && i != id && AccountInv(r, i, th)
    ensures AccountInv(r', i, th)
  {
    SameContributions(r.steps, r.current.value, g', i);
    CompletionsUpdate(r.steps, r.current.value, g', i);
  }

  lemma CompletionDeparts(s: System, id: Id)
    requires Inv(s) && Enabled(s, Complete(id))
    ensures var t := s.threads[id].pc.timing;
            var r' := Completed(s.reg, id, t);
            && s.reg.current == Some(t.generation)
            && Departure(s.reg, r', id, r'.steps[t.generation])
            && GenerationInv(r'.steps[t.generation], t.generation)
            && id in r'.steps[t.generation].completed && id !in s.reg.steps[t.generation].completed
            && (id in r'.requests <==> s.threads[id].done + 2 < s.threads[id].tokens)
            && (id in r'.requests ==> r'.requests[id] == Active(s.threads[id].tokens, s.threads[id].done + 1))
  {
    assert ThreadInv(s.reg, id, s.threads[id]);
    var t := s.threads[id].pc.timing;
    assert GenerationInv(s.reg.steps[t.generation], t.generation);
  }

  lemma CompleteKeepsInv(s: System, id: Id)
    requires Inv(s) && Enabled(s, Complete(id))
    ensures Inv(Next(s, Complete(id)))
  {
    var s' := Next(s, Complete(id));
    var g := s.threads[id].pc.timing.generation;
    var g' := s'.reg.steps[g];
    CompletionDeparts(s, id);
    DepartureKeepsRegistry(s.reg, s'.reg, id, g', |s.threads|);
    assert ThreadInv(s.reg, id, s.threads[id]) && AccountInv(s.reg, id, s.threads[id]);
    SameContributions(s.reg.steps, g, g', id);
    CompletionsUpdate(s.reg.steps, g, g', id);
    forall i | 0 <= i < |s'.threads| && i != id
      ensures ThreadInv(s'.reg, i, s'.threads[i]) && AccountInv(s'.reg, i, s'.threads[i])
    {
      DepartureKeepsThread(s.reg, s'.reg, id, g', i, s.threads[i]);
      DepartureKeepsAccount(s.reg, s'.reg, id, g', i, s.threads[i]);
    }
    assert ThreadInv(s'.reg, id, s'.threads[id]) && AccountInv(s'.reg, id, s'.threads[id]);
  }

  lemma QuitDeparts(s: System, id: Id)
    requires Inv(s) && Enabled(s, Quit(id)) && Pending(s.reg, id)
    ensures var r', g := Deactivated(s.reg, id), s.reg.current.value;
            && Departure(s.reg, r', id, r'.steps[g])
            && GenerationInv(r'.steps[g], g)
            && r'.steps[g].completed == s.reg.steps[g].completed
            && id !in r'.requests
  {
    assert GenerationInv(s.reg.steps[s.reg.current.value], s.reg.current.value);
  }

  /** The thread of a request that leaves. */
  lemma QuitThread(s: System, id: Id)
    requires Inv(s) && Enabled(s, Quit(id)) && Pending(s.reg, id)
    ensures var s' := Next(s, Quit(id));
            && (s'.reg.current.Some? ==> s'.reg.current.value < |s'.reg.steps|)
            && ThreadInv(s'.reg, id, s'.threads[id]) && AccountInv(s'.reg, id, s'.threads[id])
  {
    var s' := Next(s, Quit(id));
    var g := s.reg.current.value;
    QuitDeparts(s, id);
    assert ThreadInv(s.reg, id, s.threads[id]) && AccountInv(s.reg, id, s.threads[id]);
    SameContributions(s.reg.steps, g, s'.reg.steps[g], id);
    CompletionsUpdate(s.reg.steps, g, s'.reg.steps[g], id);
  }

  lemma QuitPending(s: System, id: Id)
    requires Inv(s) && Enabled(s, Quit(id)) && Pending(s.reg, id)
    ensures Inv(Next(s, Quit(id)))
  {
    var s' := Next(s, Quit(id));
    var g := s.reg.current.value;
    var g' := s'.reg.steps[g];
    QuitDeparts(s, id);
    DepartureKeepsRegistry(s.reg, s'.reg, id, g', |s.threads|);
    QuitThread(s, id);
    forall i | 0 <= i < |s'.threads| && i != id
      ensures ThreadInv(s'.reg, i, s'.threads[i]) && AccountInv(s'.reg, i, s'.threads[i])
    {
      DepartureKeepsThread(s.reg, s'.reg, id, g', i, s.threads[i]);
      DepartureKeepsAccount(s.reg, s'.reg, id, g', i, s.threads[i]);
    }
  }

  lemma QuitKeepsInv(s: System, id: Id)
    requires Inv(s) && Enabled(s, Quit(id))
    ensures Inv(Next(s, Quit(id)))
  {
    if Pending(s.reg, id) {
      QuitPending(s, id);
    } else {
      QuitUnnoticed(s, id);
    }
  }

  lemma QuitUnnoticed(s: System, id: Id)
    requires Inv(s) && Enabled(s, Quit(id)) && !Pending(s.reg, id)
    ensures Inv(Next(s, Quit(id)))
  {
    var s' := Next(s, Quit(id));
    assert s'.reg == s.reg.(requests := s.reg.requests - {id});
    forall i | 0 <= i < |s'.threads|
      ensures ThreadInv(s'.reg, i, s'.threads[i]) && AccountInv(s'.reg, i, s'.threads[i])
    {
      assert ThreadInv(s.reg, i, s.threads[i]) && AccountInv(s.reg, i, s.threads[i]);
    }
  }

  lemma NextKeepsInv(s: System, l: Label)
    requires Inv(s) && Enabled(s, l)
    ensures Inv(Next(s, l))
  {
    match l
    case Activate(id) => ActivateKeepsInv(s, id);
    case Ask(id, now) => if Acquire(s.reg, id).Lead? { LeadingKeepsInv(s, id, now); }
        else { WaitingKeepsInv(s, id, now); }
    case Publish(id, latency) => PublishKeepsInv(s, id, latency);
    case WakeReady(_) => WakeKeepsInv(s, l);
    case WakeDone(_) => WakeKeepsInv(s, l);
    case Complete(id) => CompleteKeepsInv(s, id);
    case Quit(id) => QuitKeepsInv(s, id);
  }

  // ---------------------------------------------------------------- safety in every run

  ghost predicate Initial(s: System) {
    && s.reg == Registry(map[], [], None)
    && forall i :: 0 <= i < |s.threads| ==> s.threads[i].done == 0 && s.threads[i].pc.NotStarted?
  }

  ghost predicate IsRun(states: seq<System>, labels: seq<Label>) {
    && |states| == |labels| + 1
    && Initial(states[0])
    && forall i :: 0 <= i < |labels| ==> Enabled(states[i], labels[i]) && states[i + 1] == Next(states[i], labels[i])
  }

  /** Every interleaving of any number of requests keeps the invariant. */
  lemma {:induction false} RunKeepsInv(states: seq<System>, labels: seq<Label>, i: nat)
    requires IsRun(states, labels) && i < |states|
    ensures Inv(states[i])
  {
    if i > 0 {
      RunKeepsInv(states, labels, i - 1);
      NextKeepsInv(states[i - 1], labels[i - 1]);
    } else {
      assert forall id :: UpTo(0) == Contributed([], id);
    }
  }

  /** A new generation starts only when every earlier one is over, and it takes in all active requests. */
  lemma NewGenerationIsExact(s: System, id: Id, now: real)
    requires Inv(s) && Enabled(s, Ask(id, now)) && Acquire(s.reg, id).Lead?
    ensures var g := Next(s, Ask(id, now)).reg.steps[|s.reg.steps|];
            && g.participants.Keys == g.remaining == s.reg.requests.Keys && id in g.participants
            && g.leader == id && g.startedAt == now && g.timing.None?
    ensures forall k :: 0 <= k < |s.reg.steps| ==>
              && s.reg.steps[k].participants.Keys == s.reg.steps[k].completed.Keys + s.reg.steps[k].left
              && s.reg.steps[k].readyCloses <= 1 && s.reg.steps[k].doneCloses == 1
  {
    LeadKeepsRegistry(s, id, now);
    forall k | 0 <= k < |s.reg.steps|
      ensures s.reg.steps[k].participants.Keys == s.reg.steps[k].completed.Keys + s.reg.steps[k].left
      ensures s.reg.steps[k].readyCloses <= 1 && s.reg.steps[k].doneCloses == 1
    {
      assert GenerationInv(s.reg.steps[k], k);
    }
  }

  /** All requests that completed a generation were given the same latency and finish time. */
  lemma OneTimingPerGeneration(s: System, g: nat, a: Id, b: Id)
    requires Inv(s) && g < |s.reg.steps| && a in s.reg.steps[g].completed && b in s.reg.steps[g].completed
    ensures s.reg.steps[g].completed[a] == s.reg.steps[g].completed[b]
    ensures s.reg.steps[g].completed[a].generation == g
  {
    assert GenerationInv(s.reg.steps[g], g);
  }

  /** A request that still has tokens to decode is never sent to the untraced path. */
  lemma NeverFallsBack(s: System, id: Id)
    requires Inv(s) && id < |s.threads| && s.threads[id].pc.Running? && s.threads[id].done + 1 < s.threads[id].tokens
    ensures !Acquire(s.reg, id).NotActive?
  {
    assert ThreadInv(s.reg, id, s.threads[id]);
    AllActiveTakePart(s);
    assert id in Participants(s.reg);
  }

  /** A request that ran to its end completed one generation per decode step and contributed each position once. */
  lemma FinishedAccount(s: System, id: Id)
    requires Inv(s) && id < |s.threads| && s.threads[id].pc.Finished? &&
             s.threads[id].done + 1 >= s.threads[id].tokens > 0
    ensures Completions(s.reg.steps, id) == s.threads[id].tokens - 1
    ensures Contributed(s.reg.steps, id) == UpTo(s.threads[id].tokens - 1)
  {
    assert AccountInv(s.reg, id, s.threads[id]);
  }

  // ---------------------------------------------------------------- progress and termination

  /** The request leaves with tokens still to decode. */
  predicate QuitsEarly(s: System, l: Label)
    requires l.id < |s.threads|
  {
    l.Quit? && s.threads[l.id].done + 1 < s.threads[l.id].tokens
  }

  /** Whom the system waits for: a pending participant if a generation is open, any unfinished request otherwise. */
  lemma UnfinishedCanMove(s: System, id: Id) returns (l: Label)
    requires Inv(s) && id < |s.threads| && !s.threads[id].pc.Finished?
    requires s.reg.current.Some? ==> Pending(s.reg, id)
    ensures Enabled(s, l) && !QuitsEarly(s, l)
  {
    var th := s.threads[id];
    assert ThreadInv(s.reg, id, th);
    match th.pc
    case NotStarted => l := Activate(id);
    case Running =>
      if th.done + 1 < th.tokens {
        NeverFallsBack(s, id);
        l := Ask(id, 0.0);
      } else {
        l := Quit(id);
      }
    case Leading(_) => l := Publish(id, 0.0);
    case Holding(_) => l := Complete(id);
    case WaitReady(g) =>
      if s.reg.steps[g].timing.Some? {
        l := WakeReady(id);
      } else {
        l := Publish(s.reg.steps[g].leader, 0.0);
      }
    case WaitDone(g) =>
      assert GenerationInv(s.reg.steps[g], g);
      assert s.reg.steps[g].remaining == {} <==> s.reg.current != Some(g);
      l := WakeDone(id);
  }

  /** No deadlock: while a request is unfinished, some step is enabled. */
  lemma SomeStepIsEnabled(s: System, id: Id) returns (l: Label)
    requires Inv(s) && id < |s.threads| && !s.threads[id].pc.Finished?
    ensures Enabled(s, l) && !QuitsEarly(s, l)
  {
    if s.reg.current.Some? {
      var g := s.reg.current.value;
      assert s.reg.steps[g].remaining != {};
      var p :| p in s.reg.steps[g].remaining;
      assert GenerationInv(s.reg.steps[g], g);
      assert p in s.reg.steps[g].participants;
      assert ThreadInv(s.reg, p, s.threads[p]);
      l := UnfinishedCanMove(s, p);
    } else {
      l := UnfinishedCanMove(s, id);
    }
  }

  /** The decode steps a request can still take, plus its start and its end. */
  function Work(th: Thread): nat {
    match th.pc
    case NotStarted => th.tokens + 2
    case Finished => 0
    case _ => 1 + (if th.tokens > th.done then th.tokens - th.done else 0)
  }

  function Rank(r: Registry, pc: Pc): nat {
    match pc
    case Running => 3
    case WaitReady(_) => 2
    case Leading(_) => 2
    case Holding(_) => 1
    case WaitDone(g) => if g < |r.steps| && r.steps[g].doneCloses > 0 then 4 else 0
    case _ => 0
  }

  function Works(threads: seq<Thread>): (w: seq<int>)
    ensures |w| == |threads| && forall i :: 0 <= i < |w| ==> w[i] == Work(threads[i])
  {
    seq(|threads|, i requires 0 <= i < |threads| => Work(threads[i]))
  }

  function Ranks(s: System): (w: seq<int>)
    ensures |w| == |s.threads| && forall i :: 0 <= i < |w| ==> w[i] == Rank(s.reg, s.threads[i].pc)
  {
    seq(|s.threads|, i requires 0 <= i < |s.threads| => Rank(s.reg, s.threads[i].pc))
  }

  /** Work left, then whether a generation may still be opened, then how far the threads are from moving. */
  predicate Smaller(s': System, s: System) {
    var (w', w) := (Sum(Works(s'.threads)), Sum(Works(s.threads)));
    var (b', b) := (if s'.reg.current.None? then 1 else 0, if s.reg.current.None? then 1 else 0);
    w' < w || (w' == w && (b' < b || (b' == b && Sum(Ranks(s')) < Sum(Ranks(s)))))
  }

  lemma WorkAfter(s: System, id: Id, th: Thread)
    requires id < |s.threads|
    ensures Sum(Works(s.threads[id := th])) == Sum(Works(s.threads)) - Work(s.threads[id]) + Work(th)
  {
    assert Works(s.threads[id := th]) == Works(s.threads)[id := Work(th)];
    SumUpdate(Works(s.threads), id, Work(th));
  }

  lemma RanksAfter(s: System, s': System, id: Id, th: Thread)
    requires id < |s.threads| && s'.threads == s.threads[id := th]
    requires |s'.reg.steps| == |s.reg.steps|
    requires forall g :: 0 <= g < |s.reg.steps| ==> s'.reg.steps[g].doneCloses == s.reg.steps[g].doneCloses
    ensures Sum(Ranks(s')) == Sum(Ranks(s)) - Rank(s.reg, s.threads[id].pc) + Rank(s.reg, th.pc)
  {
    assert Ranks(s') == Ranks(s)[id := Rank(s.reg, th.pc)];
    SumUpdate(Ranks(s), id, Rank(s.reg, th.pc));
  }

  lemma WorkShrinks(s: System, l: Label)
    requires Enabled(s, l) && (l.Activate? || l.Complete? || l.Quit?)
    requires l.Complete? ==> s.threads[l.id].done < s.threads[l.id].tokens
    ensures Sum(Works(Next(s, l).threads)) < Sum(Works(s.threads))
  {
    WorkAfter(s, l.id, Next(s, l).threads[l.id]);
  }

  lemma WorkStays(s: System, l: Label)
    requires Enabled(s, l) && !l.Activate? && !l.Complete? && !l.Quit?
    ensures Sum(Works(Next(s, l).threads)) == Sum(Works(s.threads))
  {
    WorkAfter(s, l.id, Next(s, l).threads[l.id]);
  }

  lemma RanksShrink(s: System, l: Label)
    requires Enabled(s, l)
    requires l.Publish? || l.WakeReady? || l.WakeDone? || (l.Ask? && !Acquire(s.reg, l.id).Lead?)
    requires l.Ask? && s.reg.current.Some? ==> s.reg.steps[s.reg.current.value].doneCloses == 0
    ensures Sum(Ranks(Next(s, l))) < Sum(Ranks(s))
    ensures Next(s, l).reg.current == s.reg.current
  {
    RanksAfter(s, Next(s, l), l.id, Next(s, l).threads[l.id]);
  }

  /** Every step brings the system closer to its end, so every run is finite. */
  lemma NextIsSmaller(s: System, l: Label)
    requires Inv(s) && Enabled(s, l)
    ensures Smaller(Next(s, l), s)
  {
    assert ThreadInv(s.reg, l.id, s.threads[l.id]);
    if l.Activate? || l.Complete? || l.Quit? {
      WorkShrinks(s, l);
    } else {
      WorkStays(s, l);
      if !(l.Ask? && Acquire(s.reg, l.id).Lead?) {
        if s.reg.current.Some? {
          assert GenerationInv(s.reg.steps[s.reg.current.value], s.reg.current.value);
        }
        RanksShrink(s, l);
      }
    }
  }

  /** The order in which steps descend is well-founded: its components are natural numbers. */
  lemma MeasureIsNatural(s: System)
    ensures Sum(Works(s.threads)) >= 0 && Sum(Ranks(s)) >= 0
  {
    SumIsNatural(Works(s.threads));
    SumIsNatural(Ranks(s));
  }

  lemma {:induction false} NobodyQuitEarly(states: seq<System>, labels: seq<Label>, i: nat, id: Id)
    requires IsRun(states, labels) && i < |states|
    requires forall k :: 0 <= k < |labels| ==> !QuitsEarly(states[k], labels[k])
    requires id < |states[i].threads| && states[i].threads[id].pc.Finished?
    ensures states[i].threads[id].done + 1 >= states[i].threads[id].tokens
  {
    if i > 0 {
      assert states[i] == Next(states[i - 1], labels[i - 1]);
      assert !QuitsEarly(states[i - 1], labels[i - 1]);
      if states[i - 1].threads[id].pc.Finished? {
        NobodyQuitEarly(states, labels, i - 1, id);
      }
    }
  }

  /**
   A run in which no request leaves early and that cannot go on has served every request: it completed
   tokens-1 generations and contributed the positions 0 .. tokens-2 once each, in order.
   */
  lemma EveryRequestIsServed(states: seq<System>, labels: seq<Label>, id: Id)
    requires IsRun(states, labels)
    requires forall k :: 0 <= k < |labels| ==> !QuitsEarly(states[k], labels[k])
    requires forall l :: Enabled(states[|labels|], l) ==> QuitsEarly(states[|labels|], l)
    requires id < |states[|labels|].threads| && states[|labels|].threads[id].tokens > 0
    ensures var s := states[|labels|];
            && s.threads[id].pc.Finished?
            && Completions(s.reg.steps, id) == s.threads[id].tokens - 1
            && Contributed(s.reg.steps, id) == UpTo(s.threads[id].tokens - 1)
  {
    var s := states[|labels|];
    RunKeepsInv(states, labels, |labels|);
    if !s.threads[id].pc.Finished? {
      var l := SomeStepIsEnabled(s, id);
    }
    NobodyQuitEarly(states, labels, |labels|, id);
    FinishedAccount(s, id);
  }

  // ---------------------------------------------------------------- where the timing comes from

  /** A step keeps the leader and the start of every generation, and its timing once there is one. */
  lemma StepKeepsTiming(s: System, l: Label, g: nat)
    requires Inv(s) && Enabled(s, l) && g < |s.reg.steps|
    ensures var a, b := s.reg.steps[g], Next(s, l).reg.steps;
            && g < |b| && b[g].leader == a.leader && b[g].startedAt == a.startedAt
            && (a.timing.Some? ==> b[g].timing == a.timing)
            && (a.timing.None? && b[g].timing.Some? ==>
                  l.Publish? && l.id == a.leader &&
                  b[g].timing.value == Timing(g, l.latency, a.startedAt + l.latency))
  {
    assert ThreadInv(s.reg, l.id, s.threads[l.id]);
  }

  /** A generation that a step adds begins with the request that asked, at the time it asked. */
  lemma StepStartsGeneration(s: System, l: Label, g: nat)
    requires Inv(s) && Enabled(s, l) && |s.reg.steps| <= g < |Next(s, l).reg.steps|
    ensures var b := Next(s, l).reg.steps[g];
            && g == |s.reg.steps| && b.timing.None?
            && l.Ask? && l.id == b.leader && l.now == b.startedAt && Acquire(s.reg, l.id).Lead?
  {
  }

  /** Generation g starts when its leader asks; its timing is the latency that the leader publishes, from that start. */
  ghost predicate LedBy(gen: Generation, g: nat, labels: seq<Label>) {
    && Ask(gen.leader, gen.startedAt) in labels
    && (gen.timing.Some? ==>
          && gen.timing.value.generation == g
          && gen.timing.value.finishAt == gen.startedAt + gen.timing.value.latency
          && Publish(gen.leader, gen.timing.value.latency) in labels)
  }

  lemma LedLonger(a: Generation, b: Generation, g: nat, labels: seq<Label>, l: Label)
    requires LedBy(a, g, labels) && b.leader == a.leader && b.startedAt == a.startedAt
    requires a.timing.Some? ==> b.timing == a.timing
    requires a.timing.None? && b.timing.Some? ==>
               l == Publish(a.leader, b.timing.value.latency) &&
               b.timing.value == Timing(g, l.latency, a.startedAt + l.latency)
    ensures LedBy(b, g, labels + [l])
  {
  }

  lemma StepKeepsLed(s: System, l: Label, g: nat, labels: seq<Label>)
    requires Inv(s) && Enabled(s, l) && g < |Next(s, l).reg.steps|
    requires g < |s.reg.steps| ==> LedBy(s.reg.steps[g], g, labels)
    ensures LedBy(Next(s, l).reg.steps[g], g, labels + [l])
  {
    if g < |s.reg.steps| {
      StepKeepsTiming(s, l, g);
      LedLonger(s.reg.steps[g], Next(s, l).reg.steps[g], g, labels, l);
    } else {
      StepStartsGeneration(s, l, g);
    }
  }

  lemma RunKeepsLed(states: seq<System>, labels: seq<Label>, i: nat, g: nat)
    requires IsRun(states, labels) && i < |labels| && g < |states[i + 1].reg.steps|
    requires g < |states[i].reg.steps| ==> LedBy(states[i].reg.steps[g], g, labels[..i])
    ensures LedBy(states[i + 1].reg.steps[g], g, labels[..i + 1])
  {
    TakeNext(labels, i);
    RunKeepsInv(states, labels, i);
    StepKeepsLed(states[i], labels[i], g, labels[..i]);
  }

  /**
   In every run, a generation starts when its leader asks, and its timing is the latency that the leader publishes,
   counted from that start.
   */
  lemma {:induction false} TimingIsTheLeaders(states: seq<System>, labels: seq<Label>, i: nat, g: nat)
    requires IsRun(states, labels) && i < |states| && g < |states[i].reg.steps|
    ensures LedBy(states[i].reg.steps[g], g, labels[..i])
  {
    if i > 0 {
      if g < |states[i - 1].reg.steps| {
        TimingIsTheLeaders(states, labels, i - 1, g);
      }
      RunKeepsLed(states, labels, i - 1, g);
    }
  }
}
