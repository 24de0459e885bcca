/** A run of the cache and its sender in which the channel loses a store event (pkg/kvcache/block_cache.go). */
module EventRuns {
  import opened Common
  import opened BlockCache
  import opened CacheRuns
  import opened Subscriber
  import opened EventLog

  function Clears(n: nat): (es: seq<Event>)
    ensures |es| == n && forall i :: 0 <= i < n ==> es[i] == Cleared
  {
    seq(n, _ => Cleared)
  }

  /** After n discards whose events were written and not delivered. */
  function Filled(max: nat, cap: nat, n: nat): System {
    var cache := if n == 0 then Fresh(max) else DiscardSpec(Fresh(max));
    System(cache, [], Channel(Clears(n), cap, 0), Sender([], 0, [], [], false), true, true)
  }

  ghost predicate Ends(states: seq<System>, last: System) {
    states != [] && states[|states| - 1] == last
  }

  lemma EntryOfLonger<T>(s: seq<T>, x: T, i: nat)
    requires i <= |s|
    ensures (s + [x])[i] == if i < |s| then s[i] else x
  {
  }

  lemma StepOfLonger(
    cfg: Config, states: seq<System>, labels: seq<Label>, last: System, l: Label, next: System, i: nat)
    requires IsRun(cfg, states, labels) && Ends(states, last) && Step(cfg, last, l, next) && i <= |labels|
    ensures Step(cfg, (states + [next])[i], (labels + [l])[i], (states + [next])[i + 1])
  {
    EntryOfLonger(states, next, i);
    EntryOfLonger(states, next, i + 1);
    EntryOfLonger(labels, l, i);
  }

  lemma RunGrows(cfg: Config, states: seq<System>, labels: seq<Label>, last: System, l: Label, next: System)
    requires IsRun(cfg, states, labels) && Ends(states, last) && Step(cfg, last, l, next)
    ensures IsRun(cfg, states + [next], labels + [l]) && Ends(states + [next], next)
  {
    var states', labels' := states + [next], labels + [l];
    forall i | 0 <= i < |labels'| ensures Step(cfg, states'[i], labels'[i], states'[i + 1]) {
      StepOfLonger(cfg, states, labels, last, l, next, i);
    }
  }

  lemma DiscardAndWrite(cfg: Config, max: nat, cap: nat, n: nat) returns (mid: System)
    requires cfg.Valid() && n < cap
    ensures Step(cfg, Filled(max, cap, n), Discard, mid) && Step(cfg, mid, Write, Filled(max, cap, n + 1))
  {
    mid := Filled(max, cap, n).(cache := DiscardSpec(Fresh(max)), unwritten := [Cleared]);
    assert Clears(n) + [Cleared] == Clears(n + 1);
    assert [Cleared][1..] == [];
  }

  lemma {:induction false} FillByDiscards(cfg: Config, max: nat, cap: nat, n: nat)
    returns (states: seq<System>, labels: seq<Label>)
    requires cfg.Valid() && n <= cap
    ensures IsRun(cfg, states, labels) && Ends(states, Filled(max, cap, n)) && states[0] == Filled(max, cap, 0)
  {
    if n == 0 {
      states, labels := [Filled(max, cap, 0)], [];
    } else {
      states, labels := FillByDiscards(cfg, max, cap, n - 1);
      var mid := DiscardAndWrite(cfg, max, cap, n - 1);
      RunGrows(cfg, states, labels, Filled(max, cap, n - 1), Discard, mid);
      RunGrows(cfg, states + [mid], labels + [Discard], mid, Write, Filled(max, cap, n));
      states, labels := states + [mid] + [Filled(max, cap, n)], labels + [Discard] + [Write];
    }
  }

  /** Activating the cache and admitting a block: its store event waits to be written. */
  lemma AdmitOnFull(cfg: Config, max: nat, cap: nat, h: nat, now: Time)
    returns (awake: System, l: Label, waiting: System)
    requires cfg.Valid() && max >= 1
    ensures Step(cfg, Filled(max, cap, cap), Activate, awake) && Step(cfg, awake, l, waiting)
    ensures waiting ==
            Filled(max, cap, cap).(cache := Holding(max, "a", h), unwritten := [StoreOf([h], None)],
                                   tidy := waiting.tidy)
  {
    awake := Filled(max, cap, cap).(cache := Fresh(max));
    AdmitsFirst(max, "a", h, now);
    var es := [StoreOf([h], None)];
    var toks, picks, r :| Admitted(Fresh(max), Holding(max, "a", h), Ask("a"), [h], toks, now, picks, es, r);
    l := Start(Ask("a"), [h], toks, now, picks, es, r);
    waiting := System(Holding(max, "a", h), es, awake.channel, awake.sender,
                      awake.tidy && StaysTidy(awake.cache, l), true);
  }

  lemma {:induction false} ClearsApplied(n: nat)
    ensures ApplyAll(multiset{}, Clears(n)) == multiset{}
  {
    if n > 0 {
      assert Clears(n)[n - 1] == Cleared;
    }
  }

  lemma MissesTheBlock(max: nat, h: nat)
    ensures !Reflects(multiset{}, Holding(max, "a", h).Cached())
  {
    assert Holding(max, "a", h).Cached() == {Block(h)};
    assert WithHash({Block(h)}, h) == {Block(h)};
    assert multiset{}[h] == 0;
  }

  lemma WriteIsLost(cfg: Config, max: nat, cap: nat, h: nat, waiting: System) returns (last: System)
    requires cfg.Valid()
    requires waiting ==
             Filled(max, cap, cap).(cache := Holding(max, "a", h), unwritten := [StoreOf([h], None)],
                                    tidy := waiting.tidy)
    ensures Step(cfg, waiting, Write, last)
    ensures last.channel.lost == 1 && last.unwritten == [] && last.cache.Cached() == {Block(h)}
    ensures !Reflects(ApplyAll(multiset{}, Stream(last)), last.cache.Cached())
  {
    last := waiting.(unwritten := [], channel := Channel(Clears(cap), cap, 1), intact := false);
    assert [StoreOf([h], None)][1..] == [];
    ClearsApplied(cap);
    MissesTheBlock(max, h);
    assert Stream(last) == Clears(cap);
    assert last.cache.Cached() == {Block(h)};
  }

  lemma RunGrowsByThree(cfg: Config, states: seq<System>, labels: seq<Label>, s0: System, l1: Label, s1: System,
                        l2: Label, s2: System,
                        l3: Label, s3: System) returns (states': seq<System>, labels': seq<Label>)
    requires IsRun(cfg, states, labels) && Ends(states, s0)
    requires Step(cfg, s0, l1, s1) && Step(cfg, s1, l2, s2) && Step(cfg, s2, l3, s3)
    ensures IsRun(cfg, states', labels') && Ends(states', s3) && states'[0] == states[0]
  {
    RunGrows(cfg, states, labels, s0, l1, s1);
    RunGrows(cfg, states + [s1], labels + [l1], s1, l2, s2);
    RunGrows(cfg, states + [s1] + [s2], labels + [l1] + [l2], s2, l3, s3);
    states', labels' := states + [s1] + [s2] + [s3], labels + [l1] + [l2] + [l3];
  }

  /**
   Whatever the capacity of the channel, discards fill it while nothing is delivered; the store event of the next
   admission is then lost, and the stream misses the block that was admitted.
   */
  lemma StoreCanBeLost(cfg: Config, max: nat, cap: nat, h: nat, now: Time)
    returns (states: seq<System>, labels: seq<Label>, last: System)
    requires cfg.Valid() && max >= 1
    ensures IsRun(cfg, states, labels) && Ends(states, last) && states[0] == Filled(max, cap, 0)
    ensures last.channel.lost == 1 && last.unwritten == [] && last.cache.Cached() == {Block(h)}
    ensures !Reflects(ApplyAll(multiset{}, Stream(last)), last.cache.Cached())
  {
    states, labels := FillByDiscards(cfg, max, cap, cap);
    var awake, l, waiting := AdmitOnFull(cfg, max, cap, h, now);
    last := WriteIsLost(cfg, max, cap, h, waiting);
    states, labels :=
        RunGrowsByThree(cfg, states, labels, Filled(max, cap, cap), Activate, awake, l, waiting, Write, last);
  }
}
