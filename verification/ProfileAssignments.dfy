/**
 Giving the tokens of a forward to the GPUs that the routing chose for their experts
 (distributeTraceProfileAssignments in pkg/simulator/moe_trace_fidelity.go).
 */
module ProfileAssignments {
  import opened Common
  import opened Distributed
  import opened Routing

  type Held = seq<map<nat, real>>

  function AtId(m: map<nat, real>, e: int): real {
    if e >= 0 && e in m then m[e] else 0.0
  }

  /** The first GPU with at least so much of an expert. */
  function FirstWith(m: Held, e: int, least: real, n: nat): (g: Option<nat>)
    requires n <= |m|
    ensures g.Some? ==> g.value < n && AtId(m[g.value], e) >= least
    ensures forall k :: 0 <= k < (if g.Some? then g.value else n) ==> AtId(m[k], e) < least
  {
    if n == 0 then None
    else
      var g := FirstWith(m, e, least, n - 1);
      if g.Some? then g else if AtId(m[n - 1], e) >= least then Some(n - 1) else None
  }

  /** The first GPU with the most of an expert, if any has some. */
  function MostOf(m: Held, e: int, n: nat): (g: Option<nat>)
    requires n <= |m|
    ensures g.Some? ==> g.value < n && AtId(m[g.value], e) > 0.0 && forall k :: 0 <= k < n ==>
            AtId(m[k], e) <= AtId(m[g.value], e)
    ensures g.Some? ==> forall k :: 0 <= k < g.value ==> AtId(m[k], e) < AtId(m[g.value], e)
    ensures g == None ==> forall k :: 0 <= k < n ==> AtId(m[k], e) <= 0.0
  {
    if n == 0 then None
    else
      var g := MostOf(m, e, n - 1);
      var best := if g.Some? then AtId(m[g.value], e) else 0.0;
      if AtId(m[n - 1], e) > best then Some(n - 1) else g
  }

  function FirstHolder(held: Held, e: int, n: nat): (g: Option<nat>)
    requires n <= |held|
    ensures g.Some? ==> g.value < n && AtId(held[g.value], e) > 0.0
    ensures forall k :: 0 <= k < (if g.Some? then g.value else n) ==> AtId(held[k], e) <= 0.0
  {
    if n == 0 then None
    else
      var g := FirstHolder(held, e, n - 1);
      if g.Some? then g else if AtId(held[n - 1], e) > 0.0 then Some(n - 1) else None
  }

  /** A whole token's room first, then the most room, then any GPU with the expert. */
  function Choose(held: Held, remaining: Held, e: int): (g: Option<nat>)
    requires |held| == |remaining|
    ensures g.Some? ==> g.value < |held|
  {
    var first := FirstWith(remaining, e, 1.0 - EPSILON, |remaining|);
    if first.Some? then first
    else
      var most := MostOf(remaining, e, |remaining|);
      if most.Some? then most else FirstHolder(held, e, |held|)
  }

  datatype Spread = Spread(result: seq<seq<Assignment>>, remaining: Held)

  function Give(held: Held, sp: Spread, a: Assignment): (sp': Spread)
    requires |held| == |sp.result| == |sp.remaining|
    ensures |sp'.result| == |sp'.remaining| == |held|
  {
    var g := Choose(held, sp.remaining, a.expert);
    if g == None || a.expert < 0 then sp
    else
      var m: map<nat, real> := sp.remaining[g.value][a.expert := AtId(sp.remaining[g.value], a.expert) - 1.0];
      Spread(sp.result[g.value := sp.result[g.value] + [a]], sp.remaining[g.value := m])
  }

  function GiveAll(held: Held, assignments: seq<Assignment>): (sp: Spread)
    ensures |sp.result| == |sp.remaining| == |held|
  {
    if assignments == [] then Spread(seq(|held|, _ => []), held)
    else Give(held, GiveAll(held, assignments[..|assignments| - 1]), assignments[|assignments| - 1])
  }

  method DistributeAssignments(held: Held, assignments: seq<Assignment>) returns (result: seq<seq<Assignment>>)
    ensures result == GiveAll(held, assignments).result
    ensures exists chosen :: SpreadInTurn(held, assignments, chosen, result)
  {
    ghost var chosen := GivesInTurn(held, assignments);
    result := seq(|held|, _ => []);
    if |assignments| == 0 {
      return;
    }
    var remaining: Held := held;
    TakeAll(assignments);
    for i := 0 to |assignments|
      invariant Spread(result, remaining) == GiveAll(held, assignments[..i])
    {
      TakeNext(assignments, i);
      var a := assignments[i];
      var best := Choose(held, remaining, a.expert);
      if best.Some? && a.expert >= 0 {
        var m: map<nat, real> := remaining[best.value][a.expert := AtId(remaining[best.value], a.expert) - 1.0];
        result, remaining := result[best.value := result[best.value] + [a]], remaining[best.value := m];
      }
    }
  }

  // ---------------------------------------------------------------- quotas

  function CountOf(assignments: seq<Assignment>, e: nat): nat {
    if assignments == [] then 0
    else CountOf(assignments[..|assignments| - 1], e) + if assignments[|assignments| - 1].expert == e then 1 else 0
  }

  lemma CountOfAppend(assignments: seq<Assignment>, a: Assignment, e: nat)
    ensures CountOf(assignments + [a], e) == CountOf(assignments, e) + if a.expert == e then 1 else 0
  {
  }

  /** What a GPU got and what it still has room for are what the routing gave it. */
  lemma {:induction false} RoomIsKept(held: Held, assignments: seq<Assignment>, g: nat, e: nat)
    requires g < |held|
    ensures var sp := GiveAll(held, assignments);
            At(sp.remaining[g], e) + CountOf(sp.result[g], e) as real == At(held[g], e)
  {
    if assignments != [] {
      var n := |assignments| - 1;
      RoomIsKept(held, assignments[..n], g, e);
      CountOfAppend(GiveAll(held, assignments[..n]).result[g], assignments[n], e);
    }
  }

  /** A token is left out exactly when no GPU has its expert. */
  lemma LeftOutIffNobodyHolds(held: Held, assignments: seq<Assignment>, e: nat)
    requires forall g :: 0 <= g < |held| ==> At(held[g], e) >= 0.0
    ensures Choose(held, GiveAll(held, assignments).remaining, e) == None <==>
            forall g :: 0 <= g < |held| ==> At(held[g], e) == 0.0
  {
    var remaining := GiveAll(held, assignments).remaining;
    forall g | 0 <= g < |held| ensures AtId(remaining[g], e) <= AtId(held[g], e) {
      RoomIsKept(held, assignments, g, e);
    }
  }

  predicate Whole(x: real) {
    x.Floor as real == x >= 0.0
  }

  /** Whole quotas that add up to the tokens not yet given. */
  ghost predicate RoomFor(remaining: Held, e: nat, left: int) {
    && (forall g :: 0 <= g < |remaining| ==> Whole(At(remaining[g], e)))
    && ExpertTotal(remaining, e) == left as real
  }

  lemma {:induction false} NoRoom(remaining: Held, e: nat)
    requires forall g :: 0 <= g < |remaining| ==> At(remaining[g], e) >= 0.0
    ensures ExpertTotal(remaining, e) >= 0.0
    ensures ExpertTotal(remaining, e) == 0.0 <==> forall g :: 0 <= g < |remaining| ==> At(remaining[g], e) == 0.0
  {
    if remaining != [] {
      NoRoom(remaining[..|remaining| - 1], e);
    }
  }

  lemma GiveKeepsRoom(held: Held, sp: Spread, a: Assignment, e: nat, left: int)
    requires |held| == |sp.result| == |sp.remaining| && RoomFor(sp.remaining, e, left) &&
             left >= (if a.expert == e then 1 else 0)
    ensures RoomFor(Give(held, sp, a).remaining, e, left - if a.expert == e then 1 else 0)
  {
    var g := Choose(held, sp.remaining, a.expert);
    if g.Some? && a.expert >= 0 {
      var m: map<nat, real> := sp.remaining[g.value][a.expert := AtId(sp.remaining[g.value], a.expert) - 1.0];
      ExpertTotalUpdate(sp.remaining, g.value, m, e);
    }
    if a.expert == e {
      NoRoom(sp.remaining, e);
      RoomMeansWhole(held, sp.remaining, e);
    }
  }

  /** With whole quotas and a token's room left, the chosen GPU has room for a whole token. */
  lemma RoomMeansWhole(held: Held, remaining: Held, e: nat)
    requires |held| == |remaining| && (forall g :: 0 <= g < |remaining| ==> Whole(At(remaining[g], e)))
    requires exists g :: 0 <= g < |remaining| && At(remaining[g], e) != 0.0
    ensures var g := Choose(held, remaining, e); g.Some? && Whole(At(remaining[g.value], e) - 1.0)
  {
  }

  lemma {:induction false} RoomShrinks(held: Held, assignments: seq<Assignment>, e: nat, total: nat)
    requires RoomFor(held, e, total) && CountOf(assignments, e) <= total
    ensures RoomFor(GiveAll(held, assignments).remaining, e, total - CountOf(assignments, e))
  {
    if assignments != [] {
      var n := |assignments| - 1;
      RoomShrinks(held, assignments[..n], e, total);
      GiveKeepsRoom(held, GiveAll(held, assignments[..n]), assignments[n], e, total - CountOf(assignments[..n], e));
    }
  }

  /** Whole quotas that match the assignments are met exactly on every GPU. */
  lemma QuotasAreMet(held: Held, assignments: seq<Assignment>, g: nat, e: nat)
    requires g < |held| && RoomFor(held, e, CountOf(assignments, e))
    ensures CountOf(GiveAll(held, assignments).result[g], e) as real == At(held[g], e)
  {
    RoomShrinks(held, assignments, e, CountOf(assignments, e));
    NoRoom(GiveAll(held, assignments).remaining, e);
    RoomIsKept(held, assignments, g, e);
  }

  // ---------------------------------------------------------------- which GPU gets which token

  /** The tokens that were given to a GPU, in their order. */
  function GivenTo(assignments: seq<Assignment>, chosen: seq<int>, g: int): seq<Assignment>
    requires |chosen| == |assignments|
  {
    if assignments == [] then []
    else
      var n := |assignments| - 1;
      GivenTo(assignments[..n], chosen[..n], g) + if chosen[n] == g then [assignments[n]] else []
  }

  /** The tokens of an expert that a GPU was given. */
  ghost function Taken(assignments: seq<Assignment>, chosen: seq<int>, g: int, e: int): set<nat>
    requires |chosen| == |assignments|
  {
    set j: nat | j < |assignments| && chosen[j] == g && assignments[j].expert == e
  }

  /** The room of each GPU for an expert: what the routing gave it, less the tokens it was given. */
  ghost function Rooms(held: Held, assignments: seq<Assignment>, chosen: seq<int>, e: int): (r: seq<real>)
    requires |chosen| == |assignments|
    ensures |r| == |held|
  {
    seq(|held|, g requires 0 <= g < |held| => AtId(held[g], e) - |Taken(assignments, chosen, g, e)| as real)
  }

  /**
   The first GPU with room for a whole token; if there is none, the first of those with the most room; if no GPU has
   room, the first that holds the expert at all; -1 if none does.
   */
  ghost predicate RightChoice(room: seq<real>, holds: seq<real>, g: int)
    requires |room| == |holds|
  {
    if exists k :: 0 <= k < |room| && room[k] >= 1.0 - EPSILON then
      && 0 <= g < |room| && room[g] >= 1.0 - EPSILON
      && forall k :: 0 <= k < g ==> room[k] < 1.0 - EPSILON
    else if exists k :: 0 <= k < |room| && room[k] > 0.0 then
      && 0 <= g < |room| && (forall k :: 0 <= k < |room| ==> room[k] <= room[g])
      && forall k :: 0 <= k < g ==> room[k] < room[g]
    else if exists k :: 0 <= k < |holds| && holds[k] > 0.0 then
      && 0 <= g < |holds| && holds[g] > 0.0
      && forall k :: 0 <= k < g ==> holds[k] <= 0.0
    else g == -1
  }

  ghost function Amounts(held: Held, e: int): (r: seq<real>)
    ensures |r| == |held| && forall g :: 0 <= g < |r| ==> r[g] == AtId(held[g], e)
  {
    seq(|held|, g requires 0 <= g < |held| => AtId(held[g], e))
  }

  lemma ChooseIsRight(held: Held, remaining: Held, e: int)
    requires |held| == |remaining|
    ensures var g := Choose(held, remaining, e);
            RightChoice(Amounts(remaining, e), Amounts(held, e), if g.Some? then g.value else -1)
  {
    var room, holds := Amounts(remaining, e), Amounts(held, e);
    assert forall k :: 0 <= k < |room| ==> room[k] == AtId(remaining[k], e);
    assert forall k :: 0 <= k < |holds| ==> holds[k] == AtId(held[k], e);
  }

  lemma {:induction false} TakenIsCount(assignments: seq<Assignment>, chosen: seq<int>, g: int, e: nat)
    requires |chosen| == |assignments|
    ensures |Taken(assignments, chosen, g, e)| == CountOf(GivenTo(assignments, chosen, g), e)
  {
    if assignments != [] {
      var n := |assignments| - 1;
      TakenIsCount(assignments[..n], chosen[..n], g, e);
      var front := GivenTo(assignments[..n], chosen[..n], g);
      CountOfAppend(front, assignments[n], e);
      EmptyConcat(front);
      TakenNext(assignments, chosen, g, e);
    }
  }

  lemma TakenNext(assignments: seq<Assignment>, chosen: seq<int>, g: int, e: int)
    requires |chosen| == |assignments| > 0
    ensures var n := |assignments| - 1;
            |Taken(assignments, chosen, g, e)| ==
            |Taken(assignments[..n], chosen[..n], g, e)| + if chosen[n] == g && assignments[n].expert == e then 1 else 0
  {
    var n := |assignments| - 1;
    var before, after := Taken(assignments[..n], chosen[..n], g, e), Taken(assignments, chosen, g, e);
    if chosen[n] == g && assignments[n].expert == e {
      assert after == before + {n};
    } else {
      assert after == before;
    }
  }

  /** The tokens go to the GPUs one after the other, each to the right one given those before it. */
  ghost predicate SpreadInTurn(held: Held, assignments: seq<Assignment>, chosen: seq<int>,
                               result: seq<seq<Assignment>>)
  {
    && |chosen| == |assignments| && |result| == |held|
    && (forall i :: 0 <= i < |assignments| ==> RightAt(held, assignments, chosen, i))
    && (forall g :: 0 <= g < |held| ==> result[g] == GivenTo(assignments, chosen, g))
  }

  ghost predicate RightAt(held: Held, assignments: seq<Assignment>, chosen: seq<int>, i: nat)
    requires |chosen| == |assignments| && i < |assignments|
  {
    var e := assignments[i].expert;
    RightChoice(Rooms(held, assignments[..i], chosen[..i], e), Amounts(held, e), chosen[i])
  }

  lemma RoomsAreRemaining(held: Held, assignments: seq<Assignment>, chosen: seq<int>, e: int)
    requires SpreadInTurn(held, assignments, chosen, GiveAll(held, assignments).result)
    ensures Rooms(held, assignments, chosen, e) == Amounts(GiveAll(held, assignments).remaining, e)
  {
    var room, left := Rooms(held, assignments, chosen, e), Amounts(GiveAll(held, assignments).remaining, e);
    forall g | 0 <= g < |held| ensures room[g] == left[g] {
      if e >= 0 {
        RoomIsKept(held, assignments, g, e);
        TakenIsCount(assignments, chosen, g, e);
      } else {
        NoneTaken(held, assignments, chosen, g, e);
      }
    }
  }

  lemma NoneTaken(held: Held, assignments: seq<Assignment>, chosen: seq<int>, g: nat, e: int)
    requires SpreadInTurn(held, assignments, chosen, GiveAll(held, assignments).result) && e < 0 && g < |held|
    ensures Taken(assignments, chosen, g, e) == {}
  {
    forall j: nat | j < |assignments| && assignments[j].expert == e ensures chosen[j] != g {
      NobodyRight(held, assignments, chosen, j);
    }
  }

  lemma {:induction false} NobodyRight(held: Held, assignments: seq<Assignment>, chosen: seq<int>, j: nat)
    requires |chosen| == |assignments| && j < |assignments| && assignments[j].expert < 0
    requires RightAt(held, assignments, chosen, j)
    ensures chosen[j] == -1
  {
    var e := assignments[j].expert;
    var room := Rooms(held, assignments[..j], chosen[..j], e);
    assert forall k :: 0 <= k < |room| ==> room[k] <= 0.0;
  }

  lemma {:induction false} GivesInTurn(held: Held, assignments: seq<Assignment>) returns (chosen: seq<int>)
    ensures SpreadInTurn(held, assignments, chosen, GiveAll(held, assignments).result)
  {
    if assignments == [] {
      chosen := [];
    } else {
      var n := |assignments| - 1;
      var before := GivesInTurn(held, assignments[..n]);
      var sp, e := GiveAll(held, assignments[..n]), assignments[n].expert;
      var g := Choose(held, sp.remaining, e);
      chosen := before + [if g.Some? then g.value else -1];
      assert chosen[..n] == before;
      RoomsAreRemaining(held, assignments[..n], before, e);
      ChooseIsRight(held, sp.remaining, e);
      OneMoreRight(held, assignments, chosen);
    }
  }

  lemma OneMoreRight(held: Held, assignments: seq<Assignment>, chosen: seq<int>)
    requires assignments != [] && |chosen| == |assignments|
    requires var n := |assignments| - 1;
             && RightAt(held, assignments, chosen, n)
             && forall i :: 0 <= i < n ==> RightAt(held, assignments[..n], chosen[..n], i)
    ensures forall i :: 0 <= i < |assignments| ==> RightAt(held, assignments, chosen, i)
  {
    var n := |assignments| - 1;
    forall i | 0 <= i < n ensures RightAt(held, assignments, chosen, i) {
      assert RightAt(held, assignments[..n], chosen[..n], i);
      assert assignments[..n][..i] == assignments[..i] && chosen[..n][..i] == chosen[..i];
    }
  }
}
