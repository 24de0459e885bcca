/** The registry object of the decode barrier: its critical sections as methods, proved against module DecodeBarrier. */
module TraceRegistry {
  import opened Common
  import opened DecodeBarrier

  class ActiveRegistry {
    var requests: map<Id, Active>
    var current: Option<nat>
    var nextGeneration: nat
    /** Every step object created so far, by generation. */
    var steps: seq<Generation>

    ghost predicate Valid()
      reads this
    {
      nextGeneration == |steps| && (current.Some? ==> current.value < |steps|)
    }

    ghost function View(): Registry
      reads this
    {
      Registry(requests, steps, current)
    }

    constructor ()
      ensures Valid() && View() == Registry(map[], [], None)
    {
      requests, current, nextGeneration, steps := map[], None, 0, [];
    }

    method Activate(id: Id, outputTokens: nat)
      requires Valid()
      modifies this
      ensures Valid() && View() == Activated(old(View()), id, outputTokens)
    {
      if outputTokens <= 1 {
        return;
      }
      requests := requests[id := Active(outputTokens, 0)];
    }

    /** Ends the current step when nobody remains in it. */
    method CloseIfDone()
      requires Valid() && current.Some?
      modifies this
      ensures Valid() && View() == Departed(old(View()), old(steps)[old(current.value)])
    {
      var g := steps[current.value];
      if g.remaining == {} {
        steps := steps[current.value := g.(doneCloses := g.doneCloses + 1)];
        current := None;
      }
    }

    method Deactivate(id: Id)
      requires Valid()
      modifies this
      ensures Valid() && View() == Deactivated(old(View()), id)
    {
      requests := requests - {id};
      if current.None? {
        return;
      }
      var g := steps[current.value];
      if id !in g.remaining {
        return;
      }
      steps := steps[current.value := g.(remaining := g.remaining - {id}, left := g.left + {id})];
      CloseIfDone();
    }

    /** The critical section of a request asking for its next decode step; it leads a new step if there is none. */
    method TryAcquire(id: Id, now: real) returns (outcome: Outcome)
      requires Valid()
      modifies this
      ensures Valid() && outcome == Acquire(old(View()), id)
      ensures View() == if outcome.Lead? then Led(old(View()), id, now) else old(View())
    {
      if id !in requests {
        return NotActive;
      }
      if current.Some? {
        var g := steps[current.value];
        if id in g.participants && id in g.remaining {
          return AwaitReady(current.value);
        }
        return AwaitDone(current.value);
      }
      var participants := Participants(Registry(requests, steps, current));
      if participants == map[] {
        return NotActive;
      }
      steps := steps + [Generation(id, participants, participants.Keys, map[], {}, now, None, 0, 0)];
      current := Some(nextGeneration);
      nextGeneration := nextGeneration + 1;
      return Lead;
    }

    method PublishReady(g: nat, latency: real) returns (timing: Timing)
      requires Valid() && g < |steps|
      modifies this
      ensures Valid() && View() == Published(old(View()), g, latency)
      ensures steps[g].timing == Some(timing)
    {
      var s := steps[g];
      timing := Timing(g, latency, s.startedAt + latency);
      steps := steps[g := s.(timing := Some(timing), readyCloses := s.readyCloses + 1)];
    }

    method CompleteDecodeStep(id: Id, timing: Timing)
      requires Valid()
      modifies this
      ensures Valid() && View() == Completed(old(View()), id, timing)
    {
      if current.None? || current.value != timing.generation {
        return;
      }
      var g := steps[current.value];
      if id !in g.remaining {
        return;
      }
      steps := steps[current.value := g.(remaining := g.remaining - {id}, completed := g.completed[id := timing])];
      if id in requests {
        var a := requests[id].(position := requests[id].position + 1);
        if a.position >= a.outputTokens - 1 {
          requests := requests - {id};
        } else {
          requests := requests[id := a];
        }
      }
      CloseIfDone();
    }
  }
}
