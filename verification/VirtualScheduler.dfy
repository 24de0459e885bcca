/**
 The scheduling loop of the offline trace benchmark (pkg/simulator/moe_trace_virtual.go): sequences are admitted up
 to a maximum, every active decode contributes one token to a forward, and prefill chunks fill the rest of the token
 budget. The latency model does not influence the schedule and is left out.
 */
module VirtualScheduler {
  import opened Arithmetic
  import opened Common

  datatype Phase = Waiting | Prefill | Decode | Done

  /** A prompt of `input` prompt tokens and `decode` output tokens, and how far it has got. */
  datatype Sequence = Sequence(input: nat, decode: nat, phase: Phase, prefillPos: nat, decodePos: nat)

  datatype Prompt = Prompt(input: nat, decode: nat)

  predicate HasWork(p: Prompt) {
    p.input > 0 || p.decode > 1
  }

  function Forwards(q: Sequence): nat {
    if q.decode > 1 then q.decode - 1 else 0
  }

  // ---------------------------------------------------------------- totals over sequences

  function Total(seqs: seq<Sequence>, f: Sequence -> int): int {
    if seqs == [] then 0 else Total(seqs[..|seqs| - 1], f) + f(seqs[|seqs| - 1])
  }

  lemma TotalAppend(seqs: seq<Sequence>, q: Sequence, f: Sequence -> int)
    ensures Total(seqs + [q], f) == Total(seqs, f) + f(q)
  {
    FrontOfConcat(seqs, [q]);
    EmptyConcat(seqs);
  }

  function IsActive(q: Sequence): int {
    if q.phase == Prefill || q.phase == Decode then 1 else 0
  }

  function IsDecode(q: Sequence): int {
    if q.phase == Decode then 1 else 0
  }

  function PrefillPos(q: Sequence): int {
    q.prefillPos
  }

  function DecodePos(q: Sequence): int {
    q.decodePos
  }

  function Input(q: Sequence): int {
    q.input
  }

  function DecodeForwards(q: Sequence): int {
    Forwards(q)
  }

  // ---------------------------------------------------------------- the phases of one iteration

  datatype Admission = Admission(seqs: seq<Sequence>, active: int)

  function AdmitOne(q: Sequence): Sequence {
    q.(phase := if q.input > 0 then Prefill else if q.decode > 1 then Decode else Done)
  }

  /** Waiting sequences get a slot in order while there is one; those without work are done at once. */
  function Admit(seqs: seq<Sequence>, active: int, max: int): (a: Admission)
    ensures |a.seqs| == |seqs|
  {
    if seqs == [] then Admission([], active)
    else
      var a := Admit(seqs[..|seqs| - 1], active, max);
      var q := seqs[|seqs| - 1];
      if a.active >= max || q.phase != Waiting then Admission(a.seqs + [q], a.active)
      else Admission(a.seqs + [AdmitOne(q)], a.active + IsActive(AdmitOne(q)))
  }

  /** A decode that has no forward left is done. */
  function ScanOne(q: Sequence): Sequence {
    if q.phase == Decode && q.decodePos >= q.decode - 1 then q.(phase := Done) else q
  }

  function Scan(seqs: seq<Sequence>): (r: seq<Sequence>)
    ensures |r| == |seqs|
  {
    if seqs == [] then [] else Scan(seqs[..|seqs| - 1]) + [ScanOne(seqs[|seqs| - 1])]
  }

  function FinishPrefill(q: Sequence): Sequence {
    if q.decode > 1 then q.(phase := Decode) else q.(phase := Done)
  }

  datatype Filling = Filling(seqs: seq<Sequence>, budget: nat)

  /** Prefill chunks fill the remaining budget in order. */
  function Fill(seqs: seq<Sequence>, budget: nat): (r: Filling)
    ensures |r.seqs| == |seqs| && r.budget <= budget
  {
    if seqs == [] then Filling([], budget)
    else
      var r := Fill(seqs[..|seqs| - 1], budget);
      var q := seqs[|seqs| - 1];
      if r.budget == 0 || q.phase != Prefill then Filling(r.seqs + [q], r.budget)
      else if q.input - q.prefillPos <= 0 then Filling(r.seqs + [FinishPrefill(q)], r.budget)
      else
        var take := if q.input - q.prefillPos > r.budget then r.budget else q.input - q.prefillPos;
        Filling(r.seqs + [q.(prefillPos := q.prefillPos + take)], r.budget - take)
  }

  function AdvanceDecode(filled: Sequence): Sequence {
    var q := filled.(decodePos := filled.decodePos + 1);
    if q.decodePos >= q.decode - 1 then q.(phase := Done) else q
  }

  /** After the forward: decodes advance by one, and the prefills it touched that are complete leave that phase. */
  function AdvanceOne(scanned: Sequence, filled: Sequence): Sequence {
    if scanned.phase == Decode then AdvanceDecode(filled)
    else if filled.prefillPos != scanned.prefillPos && filled.prefillPos >= filled.input then FinishPrefill(filled)
    else filled
  }

  function Advance(scanned: seq<Sequence>, filled: seq<Sequence>): (r: seq<Sequence>)
    requires |scanned| == |filled|
    ensures |r| == |scanned|
  {
    if scanned == [] then []
    else
      var n := |scanned| - 1;
      Advance(scanned[..n], filled[..n]) + [AdvanceOne(scanned[n], filled[n])]
  }

  datatype Forward = Forward(decodes: nat, prefill: nat)

  datatype Outcome = Ran(seqs: seq<Sequence>, forward: Forward) | Retry(seqs: seq<Sequence>) | Overfull | Stuck

  function Scheduled(seqs: seq<Sequence>, max: int): seq<Sequence> {
    Scan(Admit(seqs, Total(seqs, IsActive), max).seqs)
  }

  /** The way out when a forward would be empty: admit once more and see whether anything became active. */
  function AdmitAgain(seqs: seq<Sequence>, max: int): Outcome {
    var before := Total(seqs, IsActive);
    var again := Admit(seqs, before, max).seqs;
    if Total(again, IsActive) != before then Retry(again) else Stuck
  }

  /** The forward of the scheduled sequences, of which `decodes` decode, when filling the `rest` gave `filled`. */
  function ForwardWith(scanned: seq<Sequence>, decodes: nat, rest: nat, filled: Filling, max: int): Outcome
    requires |filled.seqs| == |scanned| && filled.budget <= rest
  {
    if decodes + (rest - filled.budget) == 0 then AdmitAgain(filled.seqs, max)
    else Ran(Advance(scanned, filled.seqs), Forward(decodes, rest - filled.budget))
  }

  function ForwardOf(scanned: seq<Sequence>, budget: nat, max: int): Outcome {
    var decodes := Total(scanned, IsDecode);
    if decodes > budget || decodes < 0 then Overfull
    else ForwardWith(scanned, decodes, budget - decodes, Fill(scanned, budget - decodes), max)
  }

  /** One iteration of the scheduling loop. */
  function Iterate(seqs: seq<Sequence>, budget: nat, max: int): Outcome {
    ForwardOf(Scheduled(seqs, max), budget, max)
  }

  // ---------------------------------------------------------------- the invariant of a sequence

  predicate Good(q: Sequence) {
    match q.phase
    case Waiting => q.prefillPos == 0 && q.decodePos == 0
    case Prefill => q.prefillPos < q.input && q.decodePos == 0
    case Decode => q.prefillPos == q.input && q.decodePos < q.decode - 1
    case Done => q.prefillPos == q.input && q.decodePos == Forwards(q)
  }

  predicate AllGood(seqs: seq<Sequence>) {
    forall i :: 0 <= i < |seqs| ==> Good(seqs[i])
  }

  /** The sequences that still wait are the last ones. */
  predicate WaitingLast(seqs: seq<Sequence>) {
    forall i, j :: 0 <= i < j < |seqs| && seqs[i].phase == Waiting ==> seqs[j].phase == Waiting
  }

  /** The same prompts, in the same order. */
  predicate SamePrompts(a: seq<Sequence>, b: seq<Sequence>) {
    |a| == |b| && forall i :: 0 <= i < |a| ==> a[i].input == b[i].input && a[i].decode == b[i].decode
  }

  // ---------------------------------------------------------------- admission

  /** What admission may do to one sequence. */
  predicate AdmittedFrom(q: Sequence, q': Sequence) {
    q' == q || (q.phase == Waiting && q' == AdmitOne(q))
  }

  lemma {:induction false} AdmitAt(seqs: seq<Sequence>, active: int, max: int, i: nat)
    requires i < |seqs|
    ensures var a := Admit(seqs, active, max);
            AdmittedFrom(seqs[i], a.seqs[i]) && (a.active < max ==> a.seqs[i].phase != Waiting)
  {
    if i < |seqs| - 1 {
      AdmitAt(seqs[..|seqs| - 1], active, max, i);
    }
  }

  lemma {:induction false} AdmitCounts(seqs: seq<Sequence>, active: int, max: int)
    ensures var a := Admit(seqs, active, max);
            && active <= a.active && (a.active <= active || a.active <= max)
            && Total(a.seqs, IsActive) - Total(seqs, IsActive) == a.active - active
  {
    if seqs != [] {
      var n := |seqs| - 1;
      AdmitCounts(seqs[..n], active, max);
      TotalAppend(Admit(seqs[..n], active, max).seqs, Admit(seqs, active, max).seqs[n], IsActive);
    }
  }

  lemma {:induction false} SameTotal(a: seq<Sequence>, b: seq<Sequence>, f: Sequence -> int)
    requires |a| == |b| && forall i :: 0 <= i < |a| ==> f(a[i]) == f(b[i])
    ensures Total(a, f) == Total(b, f)
  {
    if a != [] {
      SameTotal(a[..|a| - 1], b[..|b| - 1], f);
    }
  }

  /** What one iteration leaves as it was before the forward. */
  predicate Unmoved(a: seq<Sequence>, b: seq<Sequence>) {
    |a| == |b| && forall i :: 0 <= i < |a| ==> AdmittedFrom(a[i], b[i])
  }

  lemma UnmovedFacts(a: seq<Sequence>, b: seq<Sequence>)
    requires Unmoved(a, b) && AllGood(a)
    ensures AllGood(b) && SamePrompts(a, b)
    ensures Total(a, PrefillPos) == Total(b, PrefillPos) && Total(a, DecodePos) == Total(b, DecodePos)
  {
    assert forall i :: 0 <= i < |a| ==> AdmittedFrom(a[i], b[i]);
    SameTotal(a, b, PrefillPos);
    SameTotal(a, b, DecodePos);
  }

  /** Admission fills the slots as far as there are waiting sequences with work, and keeps the others in order. */
  lemma AdmitFacts(seqs: seq<Sequence>, max: int)
    requires AllGood(seqs) && WaitingLast(seqs) && Total(seqs, IsActive) <= max
    ensures var a := Admit(seqs, Total(seqs, IsActive), max).seqs;
            && Unmoved(seqs, a)
            && Total(a, IsActive) <= max
            && (Total(a, IsActive) < max ==> forall i :: 0 <= i < |a| ==> a[i].phase != Waiting)
  {
    var active := Total(seqs, IsActive);
    AdmitCounts(seqs, active, max);
    var a := Admit(seqs, active, max).seqs;
    forall i | 0 <= i < |a|
      ensures AdmittedFrom(seqs[i], a[i]) && (Total(a, IsActive) < max ==> a[i].phase != Waiting)
    {
      AdmitAt(seqs, active, max, i);
    }
  }

  lemma {:induction false} AdmitKeepsOrder(seqs: seq<Sequence>, active: int, max: int, i: nat, j: nat)
    requires WaitingLast(seqs) && i < j < |seqs|
    requires Admit(seqs, active, max).seqs[i].phase == Waiting
    ensures Admit(seqs, active, max).seqs[j].phase == Waiting
  {
    var n := |seqs| - 1;
    AdmitAt(seqs[..n], active, max, i);
    if j < n {
      AdmitKeepsOrder(seqs[..n], active, max, i, j);
    }
  }

  lemma {:induction false} ScanIsIdle(seqs: seq<Sequence>)
    requires AllGood(seqs)
    ensures Scan(seqs) == seqs
  {
    if seqs != [] {
      ScanIsIdle(seqs[..|seqs| - 1]);
    }
  }

  // ---------------------------------------------------------------- the forward

  /** What filling may do to one sequence: advance its prefill, and only leave some of it when the budget is gone. */
  predicate FilledFrom(q: Sequence, q': Sequence, budget: nat) {
    if q.phase == Prefill then
      && q' == q.(prefillPos := q'.prefillPos)
      && q.prefillPos <= q'.prefillPos <= q.input
      && (budget > 0 ==> q'.prefillPos == q.input)
    else
      q' == q
  }

  lemma {:induction false} FillAt(seqs: seq<Sequence>, budget: nat, i: nat)
    requires AllGood(seqs) && i < |seqs|
    ensures FilledFrom(seqs[i], Fill(seqs, budget).seqs[i], Fill(seqs, budget).budget)
  {
    if i < |seqs| - 1 {
      FillAt(seqs[..|seqs| - 1], budget, i);
    } else {
      assert Good(seqs[i]);
    }
  }

  /** A sequence is given prefill tokens only when every earlier one has all of its own. */
  lemma {:induction false} FillInOrder(seqs: seq<Sequence>, budget: nat, i: nat, j: nat)
    requires AllGood(seqs) && i < j < |seqs| && seqs[i].phase == Prefill
    requires Fill(seqs, budget).seqs[j] != seqs[j]
    ensures Fill(seqs, budget).seqs[i].prefillPos == seqs[i].input
  {
    var n := |seqs| - 1;
    if j < n {
      FillInOrder(seqs[..n], budget, i, j);
    } else {
      FillAt(seqs[..n], budget, i);
    }
  }

  lemma {:induction false} FillTakesBudget(seqs: seq<Sequence>, budget: nat)
    requires AllGood(seqs)
    ensures var r := Fill(seqs, budget); Total(r.seqs, PrefillPos) - Total(seqs, PrefillPos) == budget - r.budget
  {
    if seqs != [] {
      var n := |seqs| - 1;
      assert Good(seqs[n]);
      FillTakesBudget(seqs[..n], budget);
      TotalAppend(Fill(seqs[..n], budget).seqs, Fill(seqs, budget).seqs[n], PrefillPos);
    }
  }

  lemma {:induction false} AdvanceAt(scanned: seq<Sequence>, filled: seq<Sequence>, i: nat)
    requires |scanned| == |filled| && i < |scanned|
    ensures Advance(scanned, filled)[i] == AdvanceOne(scanned[i], filled[i])
  {
    var n := |scanned| - 1;
    if i < n {
      AdvanceAt(scanned[..n], filled[..n], i);
    }
  }

  lemma {:induction false} AdvanceCountsDecodes(scanned: seq<Sequence>, filled: seq<Sequence>)
    requires |scanned| == |filled|
    requires forall i :: 0 <= i < |scanned| ==> filled[i].decodePos == scanned[i].decodePos
    ensures Total(Advance(scanned, filled), DecodePos) == Total(scanned, DecodePos) + Total(scanned, IsDecode)
  {
    if scanned != [] {
      var n := |scanned| - 1;
      AdvanceCountsDecodes(scanned[..n], filled[..n]);
      TotalAppend(Advance(scanned[..n], filled[..n]), AdvanceOne(scanned[n], filled[n]), DecodePos);
    }
  }

  /** One sequence over a whole forward. */
  lemma ForwardKeepsGood(q: Sequence, q': Sequence, budget: nat)
    requires Good(q) && FilledFrom(q, q', budget)
    ensures Good(AdvanceOne(q, q')) && AdvanceOne(q, q').prefillPos == q'.prefillPos
    ensures AdvanceOne(q, q').input == q.input && AdvanceOne(q, q').decode == q.decode
    ensures AdvanceOne(q, q').phase == Waiting <==> q.phase == Waiting
    ensures IsActive(AdvanceOne(q, q')) <= IsActive(q)
  {
  }

  lemma {:induction false} SmallerTotal(a: seq<Sequence>, b: seq<Sequence>, f: Sequence -> int)
    requires |a| == |b| && forall i :: 0 <= i < |a| ==> f(a[i]) <= f(b[i])
    ensures Total(a, f) <= Total(b, f)
  {
    if a != [] {
      SmallerTotal(a[..|a| - 1], b[..|b| - 1], f);
    }
  }

  // ---------------------------------------------------------------- one iteration

  predicate Inv(seqs: seq<Sequence>, max: int) {
    AllGood(seqs) && WaitingLast(seqs) && Total(seqs, IsActive) <= max
  }

  lemma ScheduledFacts(seqs: seq<Sequence>, max: int)
    requires Inv(seqs, max)
    ensures var t := Scheduled(seqs, max);
            && Inv(t, max) && Unmoved(seqs, t)
            && (Total(t, IsActive) < max ==> forall i :: 0 <= i < |t| ==> t[i].phase != Waiting)
  {
    var active := Total(seqs, IsActive);
    var a := Admit(seqs, active, max).seqs;
    AdmitFacts(seqs, max);
    UnmovedFacts(seqs, a);
    ScanIsIdle(a);
    forall i, j | 0 <= i < j < |a| && a[i].phase == Waiting ensures a[j].phase == Waiting {
      AdmitKeepsOrder(seqs, active, max, i, j);
    }
  }

  lemma {:induction false} DecodesAreActive(seqs: seq<Sequence>)
    ensures 0 <= Total(seqs, IsDecode) <= Total(seqs, IsActive)
  {
    if seqs != [] {
      DecodesAreActive(seqs[..|seqs| - 1]);
    }
  }

  lemma ForwardFacts(t: seq<Sequence>, budget: nat, max: int)
    requires Inv(t, max)
    ensures var filled := Fill(t, budget);
            var after := Advance(t, filled.seqs);
            && Inv(after, max) && SamePrompts(t, after)
            && Total(after, PrefillPos) == Total(t, PrefillPos) + budget - filled.budget
            && Total(after, DecodePos) == Total(t, DecodePos) + Total(t, IsDecode)
  {
    var filled := Fill(t, budget);
    var after := Advance(t, filled.seqs);
    forall i | 0 <= i < |t|
      ensures FilledFrom(t[i], filled.seqs[i], filled.budget) && after[i] == AdvanceOne(t[i], filled.seqs[i])
      ensures Good(after[i]) && after[i].prefillPos == filled.seqs[i].prefillPos && IsActive(after[i]) <= IsActive(t[i])
      ensures after[i].input == t[i].input && after[i].decode == t[i].decode
      ensures after[i].phase == Waiting <==> t[i].phase == Waiting
    {
      FillAt(t, budget, i);
      AdvanceAt(t, filled.seqs, i);
      ForwardKeepsGood(t[i], filled.seqs[i], filled.budget);
    }
    SmallerTotal(after, t, IsActive);
    FillTakesBudget(t, budget);
    SameTotal(after, filled.seqs, PrefillPos);
    AdvanceCountsDecodes(t, filled.seqs);
  }

  lemma {:induction false} NoActiveLeft(t: seq<Sequence>, budget: nat)
    requires AllGood(t) && budget > 0 && Fill(t, budget).budget == budget && Total(t, IsDecode) == 0
    ensures Total(t, IsActive) == 0
    ensures forall i :: 0 <= i < |t| ==> IsActive(t[i]) == 0
  {
    if t != [] {
      var n := |t| - 1;
      assert Good(t[n]);
      DecodesAreActive(t[..n]);
      NoActiveLeft(t[..n], budget);
    }
  }

  predicate Finished(seqs: seq<Sequence>) {
    forall i :: 0 <= i < |seqs| ==> seqs[i].phase == Done
  }

  /** A forward without tokens: everything is done after admission, and admitting again changes nothing. */
  lemma IdleIsFinished(t: seq<Sequence>, budget: nat, max: int)
    requires Inv(t, max) && 1 <= max && 1 <= budget
    requires Total(t, IsActive) < max ==> forall i :: 0 <= i < |t| ==> t[i].phase != Waiting
    requires Fill(t, budget).budget == budget && Total(t, IsDecode) == 0
    ensures Finished(t)
    ensures var f := Fill(t, budget).seqs; Admit(f, Total(f, IsActive), max).seqs == f
  {
    NoActiveLeft(t, budget);
    var f := Fill(t, budget).seqs;
    assert f == t by {
      forall i | 0 <= i < |t| ensures f[i] == t[i] {
        FillAt(t, budget, i);
        assert IsActive(t[i]) == 0;
      }
    }
    var again := Admit(f, Total(f, IsActive), max).seqs;
    forall i | 0 <= i < |t| ensures again[i] == t[i] && t[i].phase == Done {
      AdmitAt(f, Total(f, IsActive), max, i);
      assert IsActive(t[i]) == 0;
    }
  }

  predicate RanWell(seqs: seq<Sequence>, o: Outcome, budget: nat, max: int)
    requires o.Ran?
  {
    && Inv(o.seqs, max) && SamePrompts(seqs, o.seqs)
    && 1 <= o.forward.decodes + o.forward.prefill <= budget
    && Total(o.seqs, PrefillPos) == Total(seqs, PrefillPos) + o.forward.prefill
    && Total(o.seqs, DecodePos) == Total(seqs, DecodePos) + o.forward.decodes
  }

  lemma NobodyToAdmitIsStuck(f: seq<Sequence>, max: int)
    requires Admit(f, Total(f, IsActive), max).seqs == f
    ensures AdmitAgain(f, max) == Stuck
  {
  }

  lemma EmptyForwardIsStuck(t: seq<Sequence>, budget: nat, max: int, decodes: nat, rest: nat)
    requires decodes == Total(t, IsDecode) && rest + decodes == budget
    requires decodes + (rest - Fill(t, rest).budget) == 0
    requires var f := Fill(t, rest).seqs; Admit(f, Total(f, IsActive), max).seqs == f
    ensures ForwardOf(t, budget, max) == Stuck
  {
    NobodyToAdmitIsStuck(Fill(t, rest).seqs, max);
  }

  lemma NonEmptyForwardRuns(t: seq<Sequence>, budget: nat, max: int, decodes: nat, rest: nat)
    requires decodes == Total(t, IsDecode) && rest + decodes == budget
    requires decodes + (rest - Fill(t, rest).budget) > 0
    ensures ForwardOf(t, budget, max) ==
            Ran(Advance(t, Fill(t, rest).seqs), Forward(decodes, rest - Fill(t, rest).budget))
  {
  }

  lemma RanOutcome(t: seq<Sequence>, o: Outcome, budget: nat, max: int, decodes: nat, rest: nat)
    requires Inv(t, max) && decodes == Total(t, IsDecode) && rest + decodes == budget
    requires decodes + (rest - Fill(t, rest).budget) > 0
    requires o == Ran(Advance(t, Fill(t, rest).seqs), Forward(decodes, rest - Fill(t, rest).budget))
    ensures RanWell(t, o, budget, max)
  {
    ForwardFacts(t, rest, max);
  }

  predicate GoodOutcome(t: seq<Sequence>, o: Outcome, budget: nat, max: int) {
    if o.Ran? then RanWell(t, o, budget, max) else o.Stuck? && Finished(t)
  }

  lemma ForwardOfFacts(t: seq<Sequence>, budget: nat, max: int, o: Outcome)
    requires Inv(t, max) && 1 <= max <= budget
    requires Total(t, IsActive) < max ==> forall i :: 0 <= i < |t| ==> t[i].phase != Waiting
    requires o == ForwardOf(t, budget, max)
    ensures GoodOutcome(t, o, budget, max)
  {
    DecodesAreActive(t);
    var decodes: nat := Total(t, IsDecode);
    var rest: nat := budget - decodes;
    if decodes + (rest - Fill(t, rest).budget) == 0 {
      assert decodes == 0 && rest == budget;
      assert Fill(t, budget).budget == budget;
      assert Total(t, IsDecode) == 0;
      IdleIsFinished(t, budget, max);
      EmptyForwardIsStuck(t, budget, max, decodes, rest);
    } else {
      NonEmptyForwardRuns(t, budget, max, decodes, rest);
      RanOutcome(t, o, budget, max, decodes, rest);
    }
  }

  lemma SamePromptsTrans(a: seq<Sequence>, b: seq<Sequence>, c: seq<Sequence>)
    requires SamePrompts(a, b) && SamePrompts(b, c)
    ensures SamePrompts(a, c)
  {
  }

  /** One iteration runs a forward within the budget, or admission just found that nothing is left to do. */
  lemma IterateFacts(seqs: seq<Sequence>, budget: nat, max: int)
    requires Inv(seqs, max) && 1 <= max <= budget
    ensures var o := Iterate(seqs, budget, max);
            if o.Ran? then RanWell(seqs, o, budget, max) else o.Stuck? && Finished(Scheduled(seqs, max))
  {
    var t := Scheduled(seqs, max);
    ScheduledFacts(seqs, max);
    UnmovedFacts(seqs, t);
    var o := Iterate(seqs, budget, max);
    ForwardOfFacts(t, budget, max, o);
    if o.Ran? {
      SamePromptsTrans(seqs, t, o.seqs);
    }
  }

  lemma LeftoverAt(t: seq<Sequence>, rest: nat, i: nat)
    requires AllGood(t) && i < |t| && Advance(t, Fill(t, rest).seqs)[i].phase == Prefill
    ensures Fill(t, rest).budget == 0
  {
    FillAt(t, rest, i);
    AdvanceAt(t, Fill(t, rest).seqs, i);
    ForwardKeepsGood(t[i], Fill(t, rest).seqs[i], Fill(t, rest).budget);
  }

  lemma LeftoverOf(t: seq<Sequence>, rest: nat, after: seq<Sequence>)
    requires AllGood(t) && after == Advance(t, Fill(t, rest).seqs)
    ensures (exists i :: 0 <= i < |after| && after[i].phase == Prefill) ==> Fill(t, rest).budget == 0
  {
    if i :| 0 <= i < |after| && after[i].phase == Prefill {
      LeftoverAt(t, rest, i);
    }
  }

  lemma RanForward(t: seq<Sequence>, decodes: nat, rest: nat, filled: Filling, max: int)
    requires |filled.seqs| == |t| && filled.budget <= rest && ForwardWith(t, decodes, rest, filled, max).Ran?
    ensures ForwardWith(t, decodes, rest, filled, max) ==
            Ran(Advance(t, filled.seqs), Forward(decodes, rest - filled.budget))
  {
  }

  /** Prefill work of an admitted sequence is left over only when the forward used the whole budget. */
  lemma LeftoverMeansFullForward(seqs: seq<Sequence>, budget: nat, max: int)
    requires Inv(seqs, max) && 1 <= max <= budget && Iterate(seqs, budget, max).Ran?
    ensures var o := Iterate(seqs, budget, max);
            (exists i :: 0 <= i < |o.seqs| && o.seqs[i].phase == Prefill) ==>
                o.forward.decodes + o.forward.prefill == budget
  {
    var t := Scheduled(seqs, max);
    ScheduledFacts(seqs, max);
    DecodesAreActive(t);
    var decodes: nat := Total(t, IsDecode);
    var rest: nat := budget - decodes;
    RanForward(t, decodes, rest, Fill(t, rest), max);
    assert Iterate(seqs, budget, max) == ForwardWith(t, decodes, rest, Fill(t, rest), max);
    LeftoverOf(t, rest, Advance(t, Fill(t, rest).seqs));
  }

  // ---------------------------------------------------------------- whole runs

  /** The tokens and decode forwards still to come. */
  function Remaining(seqs: seq<Sequence>): int {
    Total(seqs, Input) - Total(seqs, PrefillPos) + Total(seqs, DecodeForwards) - Total(seqs, DecodePos)
  }

  lemma {:induction false} RemainingIsNatural(seqs: seq<Sequence>)
    requires AllGood(seqs)
    ensures Remaining(seqs) >= 0
  {
    if seqs != [] {
      assert Good(seqs[|seqs| - 1]);
      RemainingIsNatural(seqs[..|seqs| - 1]);
    }
  }

  lemma SamePromptsTotals(a: seq<Sequence>, b: seq<Sequence>)
    requires SamePrompts(a, b)
    ensures Total(a, Input) == Total(b, Input) && Total(a, DecodeForwards) == Total(b, DecodeForwards)
  {
    SameTotal(a, b, Input);
    SameTotal(a, b, DecodeForwards);
  }

  datatype Result = Completed(log: seq<Forward>) | Failed

  /**
   The scheduling loop; an iteration without a forward ends it with an error. By IterateFacts the budget error and the
   retry after a second admission never come about: that admission finds nobody to admit.
   */
  function Run(seqs: seq<Sequence>, budget: nat, max: int, log: seq<Forward>): Result
    requires Inv(seqs, max) && 1 <= max <= budget
    decreases Remaining(seqs)
  {
    RemainingIsNatural(seqs);
    IterateFacts(seqs, budget, max);
    var o := Iterate(seqs, budget, max);
    if Finished(seqs) then Completed(log)
    else if o.Ran? then
      SamePromptsTotals(seqs, o.seqs);
      RemainingIsNatural(o.seqs);
      Run(o.seqs, budget, max, log + [o.forward])
    else Failed
  }

  function StartOf(prompts: seq<Prompt>): seq<Sequence> {
    seq(|prompts|, i requires 0 <= i < |prompts| => Sequence(prompts[i].input, prompts[i].decode, Waiting, 0, 0))
  }

  lemma {:induction false} NothingActive(seqs: seq<Sequence>)
    requires forall i :: 0 <= i < |seqs| ==>
             seqs[i].phase == Waiting && seqs[i].prefillPos == 0 && seqs[i].decodePos == 0
    ensures Total(seqs, IsActive) == 0 && Total(seqs, PrefillPos) == 0 && Total(seqs, DecodePos) == 0
  {
    if seqs != [] {
      NothingActive(seqs[..|seqs| - 1]);
    }
  }

  lemma StartInv(prompts: seq<Prompt>, max: int)
    requires 1 <= max
    ensures Inv(StartOf(prompts), max)
    ensures Total(StartOf(prompts), PrefillPos) == 0 && Total(StartOf(prompts), DecodePos) == 0
  {
    NothingActive(StartOf(prompts));
  }

  function PrefillIn(log: seq<Forward>): nat {
    if log == [] then 0 else PrefillIn(log[..|log| - 1]) + log[|log| - 1].prefill
  }

  function DecodesIn(log: seq<Forward>): nat {
    if log == [] then 0 else DecodesIn(log[..|log| - 1]) + log[|log| - 1].decodes
  }

  lemma LogGrows(log: seq<Forward>, f: Forward)
    ensures PrefillIn(log + [f]) == PrefillIn(log) + f.prefill && DecodesIn(log + [f]) == DecodesIn(log) + f.decodes
  {
    FrontOfConcat(log, [f]);
    EmptyConcat(log);
  }

  predicate WithinBudget(log: seq<Forward>, budget: nat) {
    forall i :: 0 <= i < |log| ==> 1 <= log[i].decodes + log[i].prefill <= budget
  }

  lemma FinishedTotals(seqs: seq<Sequence>)
    requires AllGood(seqs) && Finished(seqs)
    ensures Total(seqs, PrefillPos) == Total(seqs, Input) && Total(seqs, DecodePos) == Total(seqs, DecodeForwards)
  {
    assert forall i :: 0 <= i < |seqs| ==> Good(seqs[i]);
    FinishedBy(seqs, PrefillPos, Input);
    FinishedBy(seqs, DecodePos, DecodeForwards);
  }

  lemma {:induction false} FinishedBy(seqs: seq<Sequence>, f: Sequence -> int, g: Sequence -> int)
    requires forall i :: 0 <= i < |seqs| ==> f(seqs[i]) == g(seqs[i])
    ensures Total(seqs, f) == Total(seqs, g)
  {
    if seqs != [] {
      FinishedBy(seqs[..|seqs| - 1], f, g);
    }
  }

  /** Every forward is within the budget, and a completed run did all the prefill and decode work exactly once. */
  lemma {:induction false} RunDoesAllWork(seqs: seq<Sequence>, budget: nat, max: int, log: seq<Forward>)
    requires Inv(seqs, max) && 1 <= max <= budget && WithinBudget(log, budget)
    requires PrefillIn(log) == Total(seqs, PrefillPos) && DecodesIn(log) == Total(seqs, DecodePos)
    ensures var r := Run(seqs, budget, max, log);
            r.Completed? ==>
              && WithinBudget(r.log, budget)
              && PrefillIn(r.log) == Total(seqs, Input)
              && DecodesIn(r.log) == Total(seqs, DecodeForwards)
    decreases Remaining(seqs)
  {
    RemainingIsNatural(seqs);
    IterateFacts(seqs, budget, max);
    var o := Iterate(seqs, budget, max);
    if Finished(seqs) {
      FinishedTotals(seqs);
    } else if o.Ran? {
      SamePromptsTotals(seqs, o.seqs);
      RemainingIsNatural(o.seqs);
      LogGrows(log, o.forward);
      RunDoesAllWork(o.seqs, budget, max, log + [o.forward]);
    }
  }

  /** With work in the last prompt the loop never gets stuck, whatever the limits. */
  lemma {:induction false} NeverStuck(seqs: seq<Sequence>, budget: nat, max: int, log: seq<Forward>)
    requires Inv(seqs, max) && 1 <= max <= budget
    requires seqs != [] && (seqs[|seqs| - 1].input > 0 || seqs[|seqs| - 1].decode > 1)
    ensures Run(seqs, budget, max, log).Completed?
    decreases Remaining(seqs)
  {
    RemainingIsNatural(seqs);
    IterateFacts(seqs, budget, max);
    var o := Iterate(seqs, budget, max);
    if !Finished(seqs) {
      if o.Ran? {
        SamePromptsTotals(seqs, o.seqs);
        RemainingIsNatural(o.seqs);
        NeverStuck(o.seqs, budget, max, log + [o.forward]);
      } else {
        StuckMeansWorkless(seqs, max);
      }
    }
  }

  /** An empty forward can only come about when the last prompt was waiting and had no work. */
  lemma StuckMeansWorkless(seqs: seq<Sequence>, max: int)
    requires Inv(seqs, max) && !Finished(seqs) && Finished(Scheduled(seqs, max))
    ensures var q := seqs[|seqs| - 1]; q.phase == Waiting && q.input == 0 && q.decode <= 1
  {
    ScheduledFacts(seqs, max);
    var t := Scheduled(seqs, max);
    var i :| 0 <= i < |seqs| && seqs[i].phase != Done;
    assert AdmittedFrom(seqs[i], t[i]);
    var n := |seqs| - 1;
    assert AdmittedFrom(seqs[n], t[n]);
  }

  lemma {:induction false} NoneActive(seqs: seq<Sequence>, i: nat)
    requires Total(seqs, IsActive) == 0 && i < |seqs|
    ensures IsActive(seqs[i]) == 0
  {
    var n := |seqs| - 1;
    DecodesAreActive(seqs[..n]);
    if i < n {
      NoneActive(seqs[..n], i);
    }
  }

  lemma FinishedMeansEmptyForward(t: seq<Sequence>, budget: nat, max: int)
    requires AllGood(t) && Total(t, IsActive) == 0
    ensures !ForwardOf(t, budget, max).Ran?
  {
    DecodesAreActive(t);
    var f := Fill(t, budget);
    FillTakesBudget(t, budget);
    forall i | 0 <= i < |t| ensures f.seqs[i] == t[i] {
      NoneActive(t, i);
      FillAt(t, budget, i);
    }
    SameTotal(f.seqs, t, PrefillPos);
  }

  /** The last sequence gets past admission without a slot only when one is free to the end. */
  lemma WorklessLastSeesFreeSlot(seqs: seq<Sequence>, max: int)
    requires Inv(seqs, max) && seqs != []
    requires var q := seqs[|seqs| - 1]; q.phase == Waiting && q.input == 0 && q.decode <= 1
    ensures var t := Scheduled(seqs, max); t[|t| - 1].phase == Waiting || Total(t, IsActive) < max
  {
    var active := Total(seqs, IsActive);
    AdmitFacts(seqs, max);
    UnmovedFacts(seqs, Admit(seqs, active, max).seqs);
    ScanIsIdle(Admit(seqs, active, max).seqs);
    AdmitCounts(seqs, active, max);
  }

  lemma ForwardKeepsWaiting(t: seq<Sequence>, budget: nat, max: int, i: nat)
    requires Inv(t, max) && ForwardOf(t, budget, max).Ran? && i < |t|
    ensures var after := ForwardOf(t, budget, max).seqs;
            |after| == |t| && (after[i].phase == Waiting <==> t[i].phase == Waiting)
  {
    var decodes := Total(t, IsDecode);
    var filled := Fill(t, budget - decodes);
    FillAt(t, budget - decodes, i);
    AdvanceAt(t, filled.seqs, i);
  }

  /**
   A forward, sequence by sequence: every decoding one advances by one token, and of the others only those take prompt
   tokens before which no prompt is left unfinished.
   */
  lemma ForwardAt(t: seq<Sequence>, budget: nat, max: int, i: nat)
    requires Inv(t, max) && ForwardOf(t, budget, max).Ran? && i < |t|
    ensures var after := ForwardOf(t, budget, max).seqs;
            && |after| == |t| && after[i].decodePos == t[i].decodePos + IsDecode(t[i])
            && t[i].prefillPos <= after[i].prefillPos &&
               (t[i].phase != Prefill ==> after[i].prefillPos == t[i].prefillPos)
    ensures var after := ForwardOf(t, budget, max).seqs;
            forall j :: i < j < |t| && t[i].phase == Prefill && after[j].prefillPos != t[j].prefillPos ==>
              after[i].prefillPos == t[i].input
  {
    var rest: nat := budget - Total(t, IsDecode);
    var filled := Fill(t, rest).seqs;
    FillAt(t, rest, i);
    AdvanceAt(t, filled, i);
    var after := ForwardOf(t, budget, max).seqs;
    forall j | i < j < |t| && t[i].phase == Prefill && after[j].prefillPos != t[j].prefillPos
      ensures after[i].prefillPos == t[i].input
    {
      FillAt(t, rest, j);
      AdvanceAt(t, filled, j);
      FillInOrder(t, rest, i, j);
    }
  }

  predicate WorklessLast(seqs: seq<Sequence>) {
    seqs != [] && (var q := seqs[|seqs| - 1]; q.phase == Waiting && q.input == 0 && q.decode <= 1)
  }

  lemma OneSlotKeepsLastWaiting(seqs: seq<Sequence>, budget: nat)
    requires Inv(seqs, 1) && 1 <= budget && WorklessLast(seqs)
    ensures var o := Iterate(seqs, budget, 1); o.Ran? ==> |o.seqs| == |seqs| && o.seqs[|seqs| - 1].phase == Waiting
  {
    var t := Scheduled(seqs, 1);
    ScheduledFacts(seqs, 1);
    WorklessLastSeesFreeSlot(seqs, 1);
    DecodesAreActive(t);
    if Iterate(seqs, budget, 1).Ran? {
      if t[|t| - 1].phase != Waiting {
        FinishedMeansEmptyForward(t, budget, 1);
      }
      ForwardKeepsWaiting(t, budget, 1, |t| - 1);
    }
  }

  /** With a single slot, a last prompt without work always ends in the no-progress error. */
  lemma {:induction false} AlwaysStuck(seqs: seq<Sequence>, budget: nat, log: seq<Forward>)
    requires Inv(seqs, 1) && 1 <= budget && WorklessLast(seqs)
    ensures Run(seqs, budget, 1, log) == Failed
    decreases Remaining(seqs)
  {
    RemainingIsNatural(seqs);
    IterateFacts(seqs, budget, 1);
    OneSlotKeepsLastWaiting(seqs, budget);
    var o := Iterate(seqs, budget, 1);
    assert seqs[|seqs| - 1].phase == Waiting;
    if o.Ran? {
      SamePromptsTotals(seqs, o.seqs);
      RemainingIsNatural(o.seqs);
      AlwaysStuck(o.seqs, budget, log + [o.forward]);
    }
  }

  // ---------------------------------------------------------------- with a slot to spare

  function IsWorking(q: Sequence): int {
    if q.input > 0 || q.decode > 1 then 1 else 0
  }

  predicate NobodyWaits(seqs: seq<Sequence>) {
    forall i :: 0 <= i < |seqs| ==> seqs[i].phase != Waiting
  }

  lemma {:induction false} ActiveAreWorking(seqs: seq<Sequence>)
    requires AllGood(seqs)
    ensures Total(seqs, IsActive) <= Total(seqs, IsWorking)
  {
    if seqs != [] {
      assert Good(seqs[|seqs| - 1]);
      ActiveAreWorking(seqs[..|seqs| - 1]);
    }
  }

  lemma {:induction false} WorkersExistIff(seqs: seq<Sequence>)
    ensures Total(seqs, IsWorking) >= 0
    ensures Total(seqs, IsWorking) == 0 <==> forall i :: 0 <= i < |seqs| ==> IsWorking(seqs[i]) == 0
  {
    if seqs != [] {
      WorkersExistIff(seqs[..|seqs| - 1]);
      assert forall i :: 0 <= i < |seqs| - 1 ==> seqs[..|seqs| - 1][i] == seqs[i];
    }
  }

  lemma ForwardLetsNobodyWait(seqs: seq<Sequence>, budget: nat, max: int)
    requires Inv(seqs, max) && NobodyWaits(Scheduled(seqs, max)) && Iterate(seqs, budget, max).Ran?
    ensures NobodyWaits(Iterate(seqs, budget, max).seqs)
  {
    var t := Scheduled(seqs, max);
    ScheduledFacts(seqs, max);
    if t != [] {
      ForwardKeepsWaiting(t, budget, max, 0);
    }
    forall i | 0 <= i < |Iterate(seqs, budget, max).seqs| ensures Iterate(seqs, budget, max).seqs[i].phase != Waiting {
      ForwardKeepsWaiting(t, budget, max, i);
    }
  }

  lemma ScheduledWithoutWaiting(seqs: seq<Sequence>, max: int)
    requires Inv(seqs, max) && NobodyWaits(seqs)
    ensures Scheduled(seqs, max) == seqs
  {
    ScheduledFacts(seqs, max);
    var t := Scheduled(seqs, max);
    forall i | 0 <= i < |seqs| ensures t[i] == seqs[i] {
      assert AdmittedFrom(seqs[i], t[i]);
    }
  }

  /** Once nobody waits for a slot the loop completes. */
  lemma {:induction false} AdmittedComplete(seqs: seq<Sequence>, budget: nat, max: int, log: seq<Forward>)
    requires Inv(seqs, max) && 1 <= max <= budget && NobodyWaits(seqs)
    ensures Run(seqs, budget, max, log).Completed?
    decreases Remaining(seqs)
  {
    RemainingIsNatural(seqs);
    IterateFacts(seqs, budget, max);
    ScheduledWithoutWaiting(seqs, max);
    var o := Iterate(seqs, budget, max);
    if !Finished(seqs) {
      SamePromptsTotals(seqs, o.seqs);
      RemainingIsNatural(o.seqs);
      ForwardLetsNobodyWait(seqs, budget, max);
      AdmittedComplete(o.seqs, budget, max, log + [o.forward]);
    }
  }

  lemma SpareSlotAdmitsAll(seqs: seq<Sequence>, max: int)
    requires Inv(seqs, max) && Total(seqs, IsWorking) < max
    ensures NobodyWaits(Scheduled(seqs, max))
  {
    var t := Scheduled(seqs, max);
    ScheduledFacts(seqs, max);
    UnmovedFacts(seqs, t);
    SameTotal(seqs, t, IsWorking);
    ActiveAreWorking(t);
  }

  lemma NoForwardWithoutWork(seqs: seq<Sequence>, budget: nat, max: int)
    requires Inv(seqs, max) && 1 <= max <= budget && Total(seqs, IsWorking) == 0
    ensures !Iterate(seqs, budget, max).Ran?
  {
    var o := Iterate(seqs, budget, max);
    IterateFacts(seqs, budget, max);
    if o.Ran? {
      WorkersExistIff(seqs);
      SameTotal(seqs, o.seqs, IsWorking);
      WorkersExistIff(o.seqs);
      WithoutWork(seqs);
      WithoutWork(o.seqs);
    }
  }

  lemma {:induction false} WithoutWork(seqs: seq<Sequence>)
    requires AllGood(seqs) && forall i :: 0 <= i < |seqs| ==> IsWorking(seqs[i]) == 0
    ensures Total(seqs, PrefillPos) == 0 && Total(seqs, DecodePos) == 0
  {
    if seqs != [] {
      assert Good(seqs[|seqs| - 1]) && IsWorking(seqs[|seqs| - 1]) == 0;
      WithoutWork(seqs[..|seqs| - 1]);
    }
  }

  /** With a slot more than there are prompts with work, the loop fails only when there are none of these at all. */
  lemma SpareSlotRun(seqs: seq<Sequence>, budget: nat, max: int)
    requires Inv(seqs, max) && 1 <= max <= budget && Total(seqs, IsWorking) < max
    requires forall i :: 0 <= i < |seqs| ==> seqs[i].phase == Waiting
    ensures Run(seqs, budget, max, []).Completed? <==> (seqs == [] || Total(seqs, IsWorking) > 0)
  {
    var o := Iterate(seqs, budget, max);
    RemainingIsNatural(seqs);
    IterateFacts(seqs, budget, max);
    WorkersExistIff(seqs);
    if Total(seqs, IsWorking) == 0 {
      NoForwardWithoutWork(seqs, budget, max);
    } else {
      WorkStartsForward(seqs, budget, max);
      SpareSlotAdmitsAll(seqs, max);
      ForwardLetsNobodyWait(seqs, budget, max);
      SamePromptsTotals(seqs, o.seqs);
      RemainingIsNatural(o.seqs);
      AdmittedComplete(o.seqs, budget, max, [] + [o.forward]);
    }
  }

  lemma AdmittedIsNotDone(seqs: seq<Sequence>, t: seq<Sequence>)
    requires Unmoved(seqs, t) && Total(seqs, IsWorking) > 0
    requires forall i :: 0 <= i < |seqs| ==> seqs[i].phase == Waiting
    ensures !Finished(t)
  {
    WorkersExistIff(seqs);
    var i :| 0 <= i < |seqs| && IsWorking(seqs[i]) != 0;
    assert AdmittedFrom(seqs[i], t[i]);
  }

  lemma WorkIsNotDone(seqs: seq<Sequence>, max: int)
    requires Inv(seqs, max) && Total(seqs, IsWorking) > 0
    requires forall i :: 0 <= i < |seqs| ==> seqs[i].phase == Waiting
    ensures !Finished(Scheduled(seqs, max))
  {
    ScheduledFacts(seqs, max);
    AdmittedIsNotDone(seqs, Scheduled(seqs, max));
  }

  lemma WorkStartsForward(seqs: seq<Sequence>, budget: nat, max: int)
    requires Inv(seqs, max) && 1 <= max <= budget && Total(seqs, IsWorking) > 0
    requires forall i :: 0 <= i < |seqs| ==> seqs[i].phase == Waiting
    ensures Iterate(seqs, budget, max).Ran?
  {
    IterateFacts(seqs, budget, max);
    WorkIsNotDone(seqs, max);
  }

  // ---------------------------------------------------------------- the benchmark

  datatype Options = Options(tokenBudget: int, prefillBatchTokens: int, maxNumSeqs: int, copies: int)

  function BudgetOf(o: Options): (b: nat)
    ensures b >= 1
  {
    if o.tokenBudget > 0 then o.tokenBudget else if o.prefillBatchTokens > 0 then o.prefillBatchTokens else 1024
  }

  function MaxOf(o: Options): (m: nat)
    ensures m >= 1
  {
    if o.maxNumSeqs > 0 then o.maxNumSeqs else 32
  }

  function Repeat(prompts: seq<Prompt>, copies: nat): seq<Prompt> {
    if copies == 0 then [] else Repeat(prompts, copies - 1) + prompts
  }

  function Copies(o: Options): (c: nat)
    ensures c >= 1
  {
    if o.copies > 0 then o.copies else 1
  }

  function Sequences(prompts: seq<Prompt>, o: Options): seq<Sequence> {
    StartOf(Repeat(prompts, Copies(o)))
  }

  /** The benchmark: None when the limits are refused. */
  function Benchmark(prompts: seq<Prompt>, o: Options): Option<Result> {
    if MaxOf(o) > BudgetOf(o) then None
    else
      StartInv(Repeat(prompts, Copies(o)), MaxOf(o));
      Some(Run(Sequences(prompts, o), BudgetOf(o), MaxOf(o), []))
  }

  lemma {:induction false} LastOfRepeat(prompts: seq<Prompt>, copies: nat)
    requires copies >= 1
    ensures var r := Repeat(prompts, copies);
            if prompts == [] then r == [] else r != [] && r[|r| - 1] == prompts[|prompts| - 1]
  {
    if copies > 1 {
      LastOfRepeat(prompts, copies - 1);
    }
  }

  function InputTokens(prompts: seq<Prompt>): nat {
    if prompts == [] then 0 else InputTokens(prompts[..|prompts| - 1]) + prompts[|prompts| - 1].input
  }

  /** The decode forwards of the prompts: one less than the tokens of each that decodes. */
  function DecodeSteps(prompts: seq<Prompt>): nat {
    if prompts == [] then 0
    else
      var p := prompts[|prompts| - 1];
      DecodeSteps(prompts[..|prompts| - 1]) + if p.decode > 1 then p.decode - 1 else 0
  }

  lemma {:induction false} TotalsOfStart(prompts: seq<Prompt>)
    ensures Total(StartOf(prompts), Input) == InputTokens(prompts)
    ensures Total(StartOf(prompts), DecodeForwards) == DecodeSteps(prompts)
  {
    if prompts != [] {
      var n := |prompts| - 1;
      TotalsOfStart(prompts[..n]);
      assert StartOf(prompts)[..n] == StartOf(prompts[..n]);
    }
  }

  lemma {:induction false} TotalsOfConcat(a: seq<Prompt>, b: seq<Prompt>)
    ensures InputTokens(a + b) == InputTokens(a) + InputTokens(b)
    ensures DecodeSteps(a + b) == DecodeSteps(a) + DecodeSteps(b)
  {
    if b == [] {
      EmptyConcat(a);
    } else {
      FrontOfConcat(a, b);
      TotalsOfConcat(a, b[..|b| - 1]);
    }
  }

  lemma {:induction false} TotalsOfRepeat(prompts: seq<Prompt>, copies: nat)
    ensures InputTokens(Repeat(prompts, copies)) == copies * InputTokens(prompts)
    ensures DecodeSteps(Repeat(prompts, copies)) == copies * DecodeSteps(prompts)
  {
    if copies > 0 {
      TotalsOfRepeat(prompts, copies - 1);
      TotalsOfConcat(Repeat(prompts, copies - 1), prompts);
      MulDistributes(copies, 1, InputTokens(prompts));
      MulDistributes(copies, 1, DecodeSteps(prompts));
    }
  }

  /** A completed benchmark prefilled every prompt token and ran decode - 1 forwards of every prompt that decodes. */
  lemma BenchmarkDoesAllWork(prompts: seq<Prompt>, o: Options)
    requires Benchmark(prompts, o).Some? && Benchmark(prompts, o).value.Completed?
    ensures var log := Benchmark(prompts, o).value.log;
            && WithinBudget(log, BudgetOf(o))
            && PrefillIn(log) == Total(Sequences(prompts, o), Input) == Copies(o) * InputTokens(prompts)
            && DecodesIn(log) == Total(Sequences(prompts, o), DecodeForwards) == Copies(o) * DecodeSteps(prompts)
  {
    TotalsOfRepeat(prompts, Copies(o));
    TotalsOfStart(Repeat(prompts, Copies(o)));
    StartInv(Repeat(prompts, Copies(o)), MaxOf(o));
    RunDoesAllWork(Sequences(prompts, o), BudgetOf(o), MaxOf(o), []);
  }

  lemma BenchmarkCompletes(prompts: seq<Prompt>, o: Options)
    requires prompts == [] || HasWork(prompts[|prompts| - 1])
    ensures Benchmark(prompts, o).Some? ==> Benchmark(prompts, o).value.Completed?
  {
    var copies: nat := Copies(o);
    LastOfRepeat(prompts, copies);
    if MaxOf(o) <= BudgetOf(o) {
      StartInv(Repeat(prompts, copies), MaxOf(o));
      if prompts != [] {
        NeverStuck(Sequences(prompts, o), BudgetOf(o), MaxOf(o), []);
      }
    }
  }

  /** The benchmark completes under all limits exactly when there is no last prompt without work. */
  lemma CompletesForAllLimitsIff(prompts: seq<Prompt>)
    ensures (forall o :: Benchmark(prompts, o).Some? ==> Benchmark(prompts, o).value.Completed?) <==>
            (prompts == [] || HasWork(prompts[|prompts| - 1]))
  {
    if prompts == [] || HasWork(prompts[|prompts| - 1]) {
      forall o ensures Benchmark(prompts, o).Some? ==> Benchmark(prompts, o).value.Completed? {
        BenchmarkCompletes(prompts, o);
      }
    } else {
      var o := Options(1, 0, 1, 1);
      LastOfRepeat(prompts, 1);
      StartInv(Repeat(prompts, 1), 1);
      AlwaysStuck(Sequences(prompts, o), 1, []);
      assert Benchmark(prompts, o) == Some(Failed);
    }
  }

  function Working(prompts: seq<Prompt>): nat {
    if prompts == [] then 0
    else Working(prompts[..|prompts| - 1]) + (if HasWork(prompts[|prompts| - 1]) then 1 else 0)
  }

  lemma {:induction false} WorkingOfStart(prompts: seq<Prompt>)
    ensures Total(StartOf(prompts), IsWorking) == Working(prompts)
  {
    if prompts != [] {
      var n := |prompts| - 1;
      WorkingOfStart(prompts[..n]);
      assert StartOf(prompts)[..n] == StartOf(prompts[..n]);
    }
  }

  lemma {:induction false} WorkingOfConcat(a: seq<Prompt>, b: seq<Prompt>)
    ensures Working(a + b) == Working(a) + Working(b)
  {
    if b == [] {
      EmptyConcat(a);
    } else {
      FrontOfConcat(a, b);
      WorkingOfConcat(a, b[..|b| - 1]);
    }
  }

  lemma {:induction false} WorkingOfRepeat(prompts: seq<Prompt>, copies: nat)
    ensures Working(Repeat(prompts, copies)) == copies * Working(prompts)
  {
    if copies > 0 {
      WorkingOfRepeat(prompts, copies - 1);
      WorkingOfConcat(Repeat(prompts, copies - 1), prompts);
      MulDistributes(copies, 1, Working(prompts));
    }
  }

  lemma SomeoneWorksIff(prompts: seq<Prompt>, copies: nat)
    requires copies >= 1
    ensures Working(Repeat(prompts, copies)) > 0 <==> Working(prompts) > 0
  {
    WorkingOfRepeat(prompts, copies);
  }

  lemma SpareSlotFromStart(prompts: seq<Prompt>, budget: nat, max: int)
    requires 1 <= max <= budget && Working(prompts) < max && Inv(StartOf(prompts), max)
    ensures Run(StartOf(prompts), budget, max, []).Completed? <==> (prompts == [] || Working(prompts) > 0)
  {
    WorkingOfStart(prompts);
    SpareSlotRun(StartOf(prompts), budget, max);
  }

  /**
   With more slots than prompts with work, counting every copy, the benchmark completes exactly when there are no
   prompts or one has work: then everyone is admitted before the first forward.
   */
  lemma SpareSlotCompletesIff(prompts: seq<Prompt>, o: Options)
    requires Copies(o) * Working(prompts) < MaxOf(o) <= BudgetOf(o)
    ensures Benchmark(prompts, o).value.Completed? <==> (prompts == [] || Working(prompts) > 0)
  {
    WorkingOfRepeat(prompts, Copies(o));
    SomeoneWorksIff(prompts, Copies(o));
    LastOfRepeat(prompts, Copies(o));
    StartInv(Repeat(prompts, Copies(o)), MaxOf(o));
    SpareSlotFromStart(Repeat(prompts, Copies(o)), BudgetOf(o), MaxOf(o));
  }
}
