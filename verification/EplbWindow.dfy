/**
 The load window of the expert load balancer (pkg/simulator/moe.go): which forwards a rebalance sees. Forwards are
 recorded only when at most WINDOW of them are left before the next rebalance, in a ring of WINDOW slots.
 */
module EplbWindow {
  import opened Arithmetic
  import opened Common
  import opened Sums

  const WINDOW: nat := 1000
  const INTERVAL: nat := 3000
  const FIRST: nat := 750

  /** The rearrangement counter, which starts at three quarters of the interval, after n forwards. */
  function Counter(n: nat): nat {
    if n < FIRST then INTERVAL - FIRST + n else (n - FIRST) % INTERVAL
  }

  predicate Rebalances(n: nat) {
    n >= FIRST && (n - FIRST) % INTERVAL == 0
  }

  predicate Records(counter: nat) {
    INTERVAL - counter <= WINDOW
  }

  /** How many forwards were recorded since the last rebalance, and the slot where that began. */
  function Recorded(n: nat): nat {
    if n < FIRST then n else if Counter(n) <= INTERVAL - WINDOW then 0 else Counter(n) - (INTERVAL - WINDOW)
  }

  function Start(n: nat): nat {
    if n < FIRST then 0 else FIRST
  }

  /** The slot i places behind another one in the ring. */
  function Slot(start: nat, i: nat): nat {
    if start + i < WINDOW then start + i else start + i - WINDOW
  }

  function Position(n: nat): nat {
    Slot(Start(n), Recorded(n))
  }

  lemma CounterSteps(n: nat)
    ensures Counter(n) < INTERVAL
    ensures Counter(n + 1) == if Counter(n) + 1 < INTERVAL then Counter(n) + 1 else 0
    ensures Rebalances(n + 1) <==> Counter(n) + 1 == INTERVAL
  {
    if n >= FIRST {
      var k := n - FIRST;
      var q, r := k / INTERVAL, k % INTERVAL;
      DivModDef(k, INTERVAL);
      if r + 1 < INTERVAL {
        DivModUnique(k + 1, INTERVAL, q, r + 1);
      } else {
        DivModUnique(k + 1, INTERVAL, q + 1, 0);
      }
    }
  }

  lemma PositionSteps(n: nat)
    ensures Position(n) < WINDOW
    ensures Position(n + 1) == if Records(Counter(n)) then Slot(Position(n), 1) else Position(n)
  {
    CounterSteps(n);
  }

  // ---------------------------------------------------------------- the ring

  predicate InRing<T(==)>(ring: seq<T>, history: seq<T>, start: nat, recorded: nat, i: nat)
    requires |ring| == WINDOW && start <= WINDOW && recorded <= |history| && i < recorded <= WINDOW
  {
    ring[Slot(start, i)] == history[|history| - recorded + i]
  }

  /** The slots since the last rebalance hold its forwards in order; before the first one the rest is still empty. */
  ghost predicate RingInv<T>(ring: seq<T>, history: seq<T>, empty: T) {
    var n := |history|;
    && |ring| == WINDOW && Recorded(n) <= n && Recorded(n) <= WINDOW
    && (forall i: nat :: i < Recorded(n) ==> InRing(ring, history, Start(n), Recorded(n), i))
    && (n < FIRST ==> forall i :: n <= i < WINDOW ==> ring[i] == empty)
  }

  function Recording<T>(ring: seq<T>, n: nat, v: T): (r: seq<T>)
    requires |ring| == WINDOW
    ensures |r| == WINDOW
  {
    PositionSteps(n);
    if Records(Counter(n)) then ring[Position(n) := v] else ring
  }

  /** What the ring holds when a rebalance reads it. */
  ghost predicate Complete<T>(ring: seq<T>, history: seq<T>, empty: T) {
    var n := |history|;
    && |ring| == WINDOW
    && (n == FIRST ==> forall i :: 0 <= i < WINDOW ==> ring[i] == if i < FIRST then history[i] else empty)
    && (n > FIRST ==> n >= WINDOW && forall i: nat :: i < WINDOW ==> InRing(ring, history, FIRST, WINDOW, i))
  }

  lemma RecordedSteps(n: nat)
    ensures Recorded(n) <= n && Recorded(n) <= WINDOW
    ensures Records(Counter(n)) && !Rebalances(n + 1) ==> Recorded(n + 1) == Recorded(n) + 1 && Start(n + 1) == Start(n)
    ensures !Records(Counter(n)) ==> !Rebalances(n + 1) && Recorded(n + 1) == Recorded(n) == 0 && n >= FIRST
    ensures Rebalances(n + 1) ==>
              && Records(Counter(n)) && Recorded(n + 1) == 0 && n + 1 >= FIRST
              && Recorded(n) + 1 == if n + 1 == FIRST then FIRST else WINDOW
    ensures Rebalances(n + 1) && n + 1 != FIRST ==> n >= FIRST + WINDOW
  {
    CounterSteps(n);
    if n >= FIRST {
      DivModDef(n - FIRST, INTERVAL);
      if Rebalances(n + 1) {
        DivModDef(n + 1 - FIRST, INTERVAL);
      }
    }
  }

  lemma RecordKeepsSlots<T>(ring: seq<T>, history: seq<T>, v: T, start: nat, recorded: nat, i: nat)
    requires |ring| == WINDOW && start <= WINDOW && recorded <= |history| && recorded < WINDOW && i <= recorded
    requires i < recorded ==> InRing(ring, history, start, recorded, i)
    ensures InRing(ring[Slot(start, recorded) := v], history + [v], start, recorded + 1, i)
  {
  }

  /** A forward keeps the invariant, and the ring is complete when it triggers a rebalance. */
  lemma RecordingKeepsRing<T>(ring: seq<T>, history: seq<T>, empty: T, v: T)
    requires RingInv(ring, history, empty)
    ensures var ring' := Recording(ring, |history|, v);
            && RingInv(ring', history + [v], empty)
            && (Rebalances(|history| + 1) ==> Complete(ring', history + [v], empty))
  {
    var n := |history|;
    var ring', history' := Recording(ring, n, v), history + [v];
    var start, recorded := Start(n), Recorded(n);
    var next := recorded + 1;
    RecordedSteps(n);
    if Records(Counter(n)) {
      forall i: nat | i < next ensures InRing(ring', history', start, next, i) {
        RecordKeepsSlots(ring, history, v, start, recorded, i);
      }
      if n + 1 == FIRST {
        forall i | 0 <= i < WINDOW ensures ring'[i] == if i < FIRST then history'[i] else empty {
          if i < FIRST {
            assert InRing(ring', history', start, next, i);
          }
        }
      }
    }
  }

  // ---------------------------------------------------------------- what a rebalance sums

  /** One entry of every vector. */
  function Entries(vectors: seq<seq<real>>, x: nat): (r: seq<real>)
    ensures |r| == |vectors| && forall i :: 0 <= i < |r| ==> r[i] == if x < |vectors[i]| then vectors[i][x] else 0.0
  {
    seq(|vectors|, i requires 0 <= i < |vectors| => if x < |vectors[i]| then vectors[i][x] else 0.0)
  }

  /** The forwards that a rebalance after this history must see. */
  function Seen(history: seq<seq<real>>): seq<seq<real>>
    requires Rebalances(|history|)
  {
    if |history| < WINDOW then history else history[|history| - WINDOW..]
  }

  lemma {:induction false} SumRConcat(a: seq<real>, b: seq<real>)
    ensures SumR(a + b) == SumR(a) + SumR(b)
  {
    if b == [] {
      EmptyConcat(a);
    } else {
      FrontOfConcat(a, b);
      SumRConcat(a, b[..|b| - 1]);
    }
  }

  lemma RotatedSum(ring: seq<real>, straight: seq<real>, start: nat)
    requires |ring| == |straight| == WINDOW && start <= WINDOW
    requires forall i: nat :: i < WINDOW ==> straight[i] == ring[Slot(start, i)]
    ensures SumR(ring) == SumR(straight)
  {
    assert straight == ring[start..] + ring[..start];
    SumRConcat(ring[start..], ring[..start]);
    assert ring == ring[..start] + ring[start..];
    SumRConcat(ring[..start], ring[start..]);
  }

  /** The first rebalance sums exactly the forwards so far, every later one exactly the last WINDOW forwards. */
  lemma RebalanceSumsSeen(ring: seq<seq<real>>, history: seq<seq<real>>, empty: seq<real>, x: nat)
    requires Rebalances(|history|) && Complete(ring, history, empty)
    requires forall k :: 0 <= k < |empty| ==> empty[k] == 0.0
    ensures SumR(Entries(ring, x)) == SumR(Entries(Seen(history), x))
    ensures |Seen(history)| == if |history| == FIRST then FIRST else WINDOW
  {
    var n := |history|;
    if n == FIRST {
      var tail := seq(WINDOW - FIRST, _ => 0.0);
      assert Entries(ring, x) == Entries(history, x) + tail;
      SumRZeros(tail);
      SumRConcat(Entries(history, x), tail);
    } else {
      LaterRebalance(n);
      var ringX, seenX := Entries(ring, x), Entries(Seen(history), x);
      forall i: nat | i < WINDOW ensures seenX[i] == ringX[Slot(FIRST, i)] {
        assert InRing(ring, history, FIRST, WINDOW, i);
      }
      RotatedSum(ringX, seenX, FIRST);
    }
  }

  lemma LaterRebalance(n: nat)
    requires Rebalances(n) && n != FIRST
    ensures n > FIRST && n >= WINDOW
  {
    DivModDef(n - FIRST, INTERVAL);
  }
}
