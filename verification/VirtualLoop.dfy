/** The scheduling loop as the program runs it: in place, over an array of sequences. */
module VirtualLoop {
  import opened Common
  import opened VirtualScheduler

  /** The first |done| sequences have become `done`, the others are still as in `was`. */
  ghost predicate Passed(sequences: array<Sequence>, done: seq<Sequence>, was: seq<Sequence>)
    reads sequences
  {
    && |done| <= sequences.Length == |was|
    && (forall k :: 0 <= k < |done| ==> sequences[k] == done[k])
    && (forall k :: |done| <= k < |was| ==> sequences[k] == was[k])
  }

  lemma PassedAll(sequences: array<Sequence>, done: seq<Sequence>, was: seq<Sequence>)
    requires Passed(sequences, done, was)
    ensures sequences[..] == done + was[|done|..]
    ensures |done| == |was| ==> sequences[..] == done
  {
  }

  method Put(sequences: array<Sequence>, i: nat, q: Sequence, ghost done: seq<Sequence>, ghost was: seq<Sequence>)
    requires Passed(sequences, done, was) && |done| == i < |was|
    modifies sequences
    ensures Passed(sequences, done + [q], was)
  {
    sequences[i] := q;
  }

  method CountActive(sequences: array<Sequence>) returns (active: int)
    ensures active == Total(sequences[..], IsActive)
  {
    active := 0;
    ghost var was := sequences[..];
    for i := 0 to sequences.Length
      invariant active == Total(was[..i], IsActive)
    {
      TakeNext(was, i);
      TotalAppend(was[..i], was[i], IsActive);
      if sequences[i].phase == Prefill || sequences[i].phase == Decode {
        active := active + 1;
      }
    }
    TakeAll(was);
  }

  lemma {:induction false} AdmitFull(seqs: seq<Sequence>, active: int, max: int, i: nat)
    requires i <= |seqs| && Admit(seqs[..i], active, max).active >= max
    ensures Admit(seqs, active, max).seqs == Admit(seqs[..i], active, max).seqs + seqs[i..]
    ensures Admit(seqs, active, max).active >= max
  {
    var n := |seqs| - 1;
    if i == |seqs| {
      TakeAll(seqs);
    } else {
      assert seqs[..n][..i] == seqs[..i];
      AdmitFull(seqs[..n], active, max, i);
      assert seqs[i..] == seqs[..n][i..] + [seqs[n]];
    }
  }

  method AdmitSequences(sequences: array<Sequence>, max: int)
    modifies sequences
    ensures sequences[..] == Admit(old(sequences[..]), Total(old(sequences[..]), IsActive), max).seqs
  {
    var active := CountActive(sequences);
    ghost var was, active0 := sequences[..], active;
    var i := 0;
    while i < sequences.Length && active < max
      invariant 0 <= i <= sequences.Length
      invariant Passed(sequences, Admit(was[..i], active0, max).seqs, was)
      invariant active == Admit(was[..i], active0, max).active
    {
      TakeNext(was, i);
      ghost var done := Admit(was[..i], active0, max).seqs;
      var q := sequences[i];
      if q.phase == Waiting {
        if q.input > 0 {
          q := q.(phase := Prefill);
          active := active + 1;
        } else if q.decode > 1 {
          q := q.(phase := Decode);
          active := active + 1;
        } else {
          q := q.(phase := Done);
        }
      }
      Put(sequences, i, q, done, was);
      i := i + 1;
    }
    PassedAll(sequences, Admit(was[..i], active0, max).seqs, was);
    if i < sequences.Length {
      AdmitFull(was, active0, max, i);
    } else {
      TakeAll(was);
    }
  }

  /** The positions of the decoding sequences, in order. */
  function DecodeIndices(seqs: seq<Sequence>): seq<nat> {
    if seqs == [] then []
    else
      var n := |seqs| - 1;
      DecodeIndices(seqs[..n]) + (if seqs[n].phase == Decode then [n] else [])
  }

  lemma DecodeIndicesNext(seqs: seq<Sequence>, q: Sequence)
    ensures DecodeIndices(seqs + [q]) == if q.phase == Decode then DecodeIndices(seqs) + [|seqs|]
            else DecodeIndices(seqs)
  {
  }

  lemma {:induction false} DecodeIndicesCount(seqs: seq<Sequence>)
    ensures |DecodeIndices(seqs)| == Total(seqs, IsDecode)
  {
    if seqs != [] {
      DecodeIndicesCount(seqs[..|seqs| - 1]);
    }
  }

  lemma {:induction false} DecodeIndicesAre(seqs: seq<Sequence>, k: nat)
    ensures k in DecodeIndices(seqs) <==> k < |seqs| && seqs[k].phase == Decode
  {
    if seqs != [] {
      DecodeIndicesAre(seqs[..|seqs| - 1], k);
    }
  }

  method ScanDecodes(sequences: array<Sequence>) returns (indices: seq<nat>)
    modifies sequences
    ensures sequences[..] == Scan(old(sequences[..])) && indices == DecodeIndices(sequences[..])
  {
    indices := [];
    ghost var was := sequences[..];
    for i := 0 to sequences.Length
      invariant Passed(sequences, Scan(was[..i]), was) && indices == DecodeIndices(Scan(was[..i]))
    {
      TakeNext(was, i);
      ghost var done := Scan(was[..i]);
      var q := sequences[i];
      DecodeIndicesNext(done, ScanOne(q));
      if q.phase == Decode {
        if q.decodePos >= q.decode - 1 {
          q := q.(phase := Done);
        } else {
          indices := indices + [i];
        }
      }
      Put(sequences, i, q, done, was);
    }
    TakeAll(was);
    PassedAll(sequences, Scan(was), was);
  }

  /** The positions whose prefill moved, in order. */
  function TouchedIndices(before: seq<Sequence>, after: seq<Sequence>): seq<nat>
    requires |before| == |after|
  {
    if before == [] then []
    else
      var n := |before| - 1;
      TouchedIndices(before[..n], after[..n]) + (if after[n].prefillPos != before[n].prefillPos then [n] else [])
  }

  lemma {:induction false} TouchedIndicesAre(before: seq<Sequence>, after: seq<Sequence>, k: nat)
    requires |before| == |after|
    ensures k in TouchedIndices(before, after) <==> k < |before| && after[k].prefillPos != before[k].prefillPos
  {
    if before != [] {
      TouchedIndicesAre(before[..|before| - 1], after[..|before| - 1], k);
    }
  }

  lemma TouchedNext(before: seq<Sequence>, after: seq<Sequence>, q: Sequence, q': Sequence)
    requires |before| == |after|
    ensures TouchedIndices(before + [q], after + [q']) ==
            TouchedIndices(before, after) + (if q'.prefillPos != q.prefillPos then [|before|] else [])
  {
  }

  lemma {:induction false} FillFull(seqs: seq<Sequence>, budget: nat, i: nat)
    requires i <= |seqs| && Fill(seqs[..i], budget).budget == 0
    ensures Fill(seqs, budget) == Filling(Fill(seqs[..i], budget).seqs + seqs[i..], 0)
  {
    var n := |seqs| - 1;
    if i == |seqs| {
      TakeAll(seqs);
      EmptyConcat(Fill(seqs, budget).seqs);
    } else {
      assert seqs[..n][..i] == seqs[..i];
      FillFull(seqs[..n], budget, i);
      assert seqs[i..] == seqs[..n][i..] + [seqs[n]];
    }
  }

  lemma {:induction false} NotTouched(before: seq<Sequence>, after: seq<Sequence>, rest: seq<Sequence>)
    requires |before| == |after|
    ensures TouchedIndices(before + rest, after + rest) == TouchedIndices(before, after)
  {
    if rest == [] {
      EmptyConcat(before);
      EmptyConcat(after);
    } else {
      var n := |rest| - 1;
      NotTouched(before, after, rest[..n]);
      FrontOfConcat(before, rest);
      FrontOfConcat(after, rest);
    }
  }

  lemma FillStops(seqs: seq<Sequence>, budget: nat, i: nat)
    requires i <= |seqs| && (i < |seqs| ==> Fill(seqs[..i], budget).budget == 0)
    ensures var r := Fill(seqs[..i], budget);
            && Fill(seqs, budget) == Filling(r.seqs + seqs[i..], r.budget)
            && TouchedIndices(seqs, Fill(seqs, budget).seqs) == TouchedIndices(seqs[..i], r.seqs)
  {
    var r := Fill(seqs[..i], budget);
    if i < |seqs| {
      FillFull(seqs, budget, i);
      NotTouched(seqs[..i], r.seqs, seqs[i..]);
      assert seqs == seqs[..i] + seqs[i..];
    } else {
      TakeAll(seqs);
      EmptyConcat(r.seqs);
    }
  }

  lemma FillNext(seqs: seq<Sequence>, budget: nat, i: nat)
    requires i < |seqs|
    ensures var r, r' := Fill(seqs[..i], budget), Fill(seqs[..i + 1], budget);
            && r'.seqs == r.seqs + [r'.seqs[i]]
            && TouchedIndices(seqs[..i + 1], r'.seqs) == TouchedIndices(seqs[..i], r.seqs) +
               (if r'.seqs[i].prefillPos != seqs[i].prefillPos then [i] else [])
  {
    TakeNext(seqs, i);
    TouchedNext(seqs[..i], Fill(seqs[..i], budget).seqs, seqs[i], Fill(seqs[..i + 1], budget).seqs[i]);
  }

  method FillPrefill(sequences: array<Sequence>, budget: nat) returns (left: nat, touched: seq<nat>)
    modifies sequences
    ensures var r := Fill(old(sequences[..]), budget);
            sequences[..] == r.seqs && left == r.budget && touched == TouchedIndices(old(sequences[..]), r.seqs)
  {
    left, touched := budget, [];
    ghost var was := sequences[..];
    var i := 0;
    while i < sequences.Length && left != 0
      invariant 0 <= i <= sequences.Length
      invariant Passed(sequences, Fill(was[..i], budget).seqs, was) && left == Fill(was[..i], budget).budget
      invariant touched == TouchedIndices(was[..i], Fill(was[..i], budget).seqs)
    {
      TakeNext(was, i);
      FillNext(was, budget, i);
      ghost var done := Fill(was[..i], budget).seqs;
      var q := sequences[i];
      if q.phase == Prefill {
        var remaining := q.input - q.prefillPos;
        if remaining <= 0 {
          q := FinishPrefill(q);
        } else {
          var take := if remaining > left then left else remaining;
          q := q.(prefillPos := q.prefillPos + take);
          left := left - take;
          touched := touched + [i];
        }
      }
      Put(sequences, i, q, done, was);
      i := i + 1;
    }
    PassedAll(sequences, Fill(was[..i], budget).seqs, was);
    FillStops(was, budget, i);
  }

  /** One update at each of a list of distinct positions. */
  ghost predicate UpdatedAt(sequences: array<Sequence>, was: seq<Sequence>, at: seq<nat>, f: Sequence -> Sequence)
    reads sequences
  {
    sequences.Length == |was| &&
    forall k :: 0 <= k < |was| ==> sequences[k] == if k in at then f(was[k]) else was[k]
  }

  method AdvanceDecodes(sequences: array<Sequence>, indices: seq<nat>)
    requires Distinct(indices) && forall i :: 0 <= i < |indices| ==> indices[i] < sequences.Length
    modifies sequences
    ensures UpdatedAt(sequences, old(sequences[..]), indices, AdvanceDecode)
  {
    ghost var was := sequences[..];
    TakeAll(indices);
    for n := 0 to |indices|
      invariant UpdatedAt(sequences, was, indices[..n], AdvanceDecode)
    {
      TakeNext(indices, n);
      var q := sequences[indices[n]];
      q := q.(decodePos := q.decodePos + 1);
      if q.decodePos >= q.decode - 1 {
        q := q.(phase := Done);
      }
      sequences[indices[n]] := q;
    }
  }

  function FinishIfComplete(q: Sequence): Sequence {
    if q.prefillPos >= q.input then FinishPrefill(q) else q
  }

  method FinishTouched(sequences: array<Sequence>, touched: seq<nat>)
    requires Distinct(touched) && forall i :: 0 <= i < |touched| ==> touched[i] < sequences.Length
    modifies sequences
    ensures UpdatedAt(sequences, old(sequences[..]), touched, FinishIfComplete)
  {
    ghost var was := sequences[..];
    TakeAll(touched);
    for n := 0 to |touched|
      invariant UpdatedAt(sequences, was, touched[..n], FinishIfComplete)
    {
      TakeNext(touched, n);
      var q := sequences[touched[n]];
      if q.prefillPos >= q.input {
        sequences[touched[n]] := FinishPrefill(q);
      }
    }
  }

  lemma {:induction false} DecodeIndicesDistinct(seqs: seq<Sequence>)
    ensures Distinct(DecodeIndices(seqs))
    ensures forall i :: 0 <= i < |DecodeIndices(seqs)| ==> DecodeIndices(seqs)[i] < |seqs|
  {
    if seqs != [] {
      DecodeIndicesDistinct(seqs[..|seqs| - 1]);
    }
  }

  lemma {:induction false} TouchedDistinct(before: seq<Sequence>, after: seq<Sequence>)
    requires |before| == |after|
    ensures Distinct(TouchedIndices(before, after))
    ensures forall i :: 0 <= i < |TouchedIndices(before, after)| ==> TouchedIndices(before, after)[i] < |before|
  {
    if before != [] {
      TouchedDistinct(before[..|before| - 1], after[..|before| - 1]);
    }
  }

  /** Filling leaves decoding sequences alone. */
  lemma {:induction false} FillSparesDecodes(seqs: seq<Sequence>, budget: nat, k: nat)
    requires k < |seqs| && seqs[k].phase != Prefill
    ensures Fill(seqs, budget).seqs[k] == seqs[k]
  {
    if k < |seqs| - 1 {
      FillSparesDecodes(seqs[..|seqs| - 1], budget, k);
    }
  }

  lemma AdvancedAt(scanned: seq<Sequence>, budget: nat, k: nat, mid: Sequence, end: Sequence)
    requires k < |scanned|
    requires var q := Fill(scanned, budget).seqs[k];
             mid == if k in DecodeIndices(scanned) then AdvanceDecode(q) else q
    requires end == if k in TouchedIndices(scanned, Fill(scanned, budget).seqs) then FinishIfComplete(mid) else mid
    ensures end == Advance(scanned, Fill(scanned, budget).seqs)[k]
  {
    DecodeIndicesAre(scanned, k);
    TouchedIndicesAre(scanned, Fill(scanned, budget).seqs, k);
    AdvanceAt(scanned, Fill(scanned, budget).seqs, k);
    if scanned[k].phase == Decode {
      FillSparesDecodes(scanned, budget, k);
    }
  }

  method AdvanceAll(sequences: array<Sequence>, indices: seq<nat>, touched: seq<nat>, ghost scanned: seq<Sequence>,
                    ghost budget: nat)
    requires sequences[..] == Fill(scanned, budget).seqs
    requires indices == DecodeIndices(scanned) && touched == TouchedIndices(scanned, sequences[..])
    modifies sequences
    ensures sequences[..] == Advance(scanned, old(sequences[..]))
  {
    ghost var filled := sequences[..];
    DecodeIndicesDistinct(scanned);
    TouchedDistinct(scanned, filled);
    AdvanceDecodes(sequences, indices);
    ghost var mid := sequences[..];
    FinishTouched(sequences, touched);
    forall k | 0 <= k < |scanned| ensures sequences[k] == Advance(scanned, filled)[k] {
      AdvancedAt(scanned, budget, k, mid[k], sequences[k]);
    }
  }

  method HasVirtualWork(sequences: array<Sequence>) returns (work: bool)
    ensures work <==> !Finished(sequences[..])
  {
    for i := 0 to sequences.Length
      invariant forall k :: 0 <= k < i ==> sequences[k].phase == Done
    {
      if sequences[i].phase != Done {
        assert sequences[..][i].phase != Done;
        return true;
      }
    }
    return false;
  }

  /** Admits once more when a forward would be empty. */
  method AdmitOnceMore(sequences: array<Sequence>, max: int) returns (o: Outcome)
    modifies sequences
    ensures o == AdmitAgain(old(sequences[..]), max)
    ensures o.Retry? ==> sequences[..] == o.seqs
  {
    var before := CountActive(sequences);
    AdmitSequences(sequences, max);
    var after := CountActive(sequences);
    return if after != before then Retry(sequences[..]) else Stuck;
  }

  /** The forward of the scheduled sequences; `indices` are the decoding ones. */
  method RunForward(sequences: array<Sequence>, indices: seq<nat>, rest: nat, max: int) returns (o: Outcome)
    requires indices == DecodeIndices(sequences[..])
    modifies sequences
    ensures o == ForwardWith(old(sequences[..]), |indices|, rest, Fill(old(sequences[..]), rest), max)
    ensures o.Ran? || o.Retry? ==> sequences[..] == o.seqs
  {
    ghost var scanned := sequences[..];
    var left, touched := FillPrefill(sequences, rest);
    if |indices| + (rest - left) == 0 {
      o := AdmitOnceMore(sequences, max);
    } else {
      AdvanceAll(sequences, indices, touched, scanned, rest);
      o := Ran(sequences[..], Forward(|indices|, rest - left));
    }
  }

  /** One pass through the body of the loop; the array ends up as the outcome says. */
  method Step(sequences: array<Sequence>, budget: nat, max: int) returns (o: Outcome)
    modifies sequences
    ensures o == Iterate(old(sequences[..]), budget, max)
    ensures o.Ran? || o.Retry? ==> sequences[..] == o.seqs
  {
    ghost var was := sequences[..];
    AdmitSequences(sequences, max);
    var indices := ScanDecodes(sequences);
    ghost var scanned := sequences[..];
    assert scanned == Scheduled(was, max);
    DecodeIndicesCount(scanned);
    if |indices| > budget {
      return Overfull;
    }
    o := RunForward(sequences, indices, budget - |indices|, max);
  }

  /** The counters of the benchmark's report. */
  datatype Counters = Counters(decodeForwards: nat, steps: nat, prefillSteps: nat, decodeOnlySteps: nat,
                               mixedSteps: nat)

  predicate HasDecodes(f: Forward) {
    f.decodes > 0
  }

  predicate HasPrefill(f: Forward) {
    f.prefill > 0
  }

  /** How many forwards of the log have the property p. */
  function HowMany(log: seq<Forward>, p: Forward -> bool): nat {
    if log == [] then 0 else HowMany(log[..|log| - 1], p) + (if p(log[|log| - 1]) then 1 else 0)
  }

  predicate CountersOf(c: Counters, log: seq<Forward>) {
    && c.steps == |log| == c.prefillSteps + c.decodeOnlySteps + c.mixedSteps
    && c.decodeForwards == DecodesIn(log)
    && c.decodeOnlySteps + c.mixedSteps == HowMany(log, HasDecodes)
    && c.prefillSteps + c.mixedSteps == HowMany(log, HasPrefill)
  }

  lemma CountersGrow(c: Counters, c': Counters, log: seq<Forward>, f: Forward)
    requires CountersOf(c, log) && f.decodes + f.prefill > 0
    requires c'.steps == c.steps + 1 && c'.decodeForwards == c.decodeForwards + f.decodes
    requires c'.mixedSteps == c.mixedSteps + (if f.prefill > 0 && f.decodes > 0 then 1 else 0)
    requires c'.prefillSteps == c.prefillSteps + (if f.prefill > 0 && f.decodes == 0 then 1 else 0)
    requires c'.decodeOnlySteps == c.decodeOnlySteps + (if f.prefill == 0 then 1 else 0)
    ensures CountersOf(c', log + [f])
  {
  }

  /** The whole loop: exactly the run of the scheduler, with counters that describe its forwards. */
  method RunLoop(sequences: array<Sequence>, budget: nat, max: int) returns (r: Result, c: Counters)
    requires Inv(sequences[..], max) && 1 <= max <= budget
    modifies sequences
    ensures r == Run(old(sequences[..]), budget, max, [])
    ensures r.Completed? ==> CountersOf(c, r.log)
  {
    ghost var start := sequences[..];
    var log := [];
    c := Counters(0, 0, 0, 0, 0);
    var work := HasVirtualWork(sequences);
    while work
      invariant Inv(sequences[..], max) && (work <==> !Finished(sequences[..]))
      invariant Run(sequences[..], budget, max, log) == Run(start, budget, max, [])
      invariant CountersOf(c, log)
      decreases Remaining(sequences[..]), work
    {
      ghost var was := sequences[..];
      IterateFacts(was, budget, max);
      var o := Step(sequences, budget, max);
      if !o.Ran? {
        assert o.Stuck?;
        return Failed, c;
      }
      SamePromptsTotals(was, o.seqs);
      RemainingIsNatural(was);
      var f := o.forward;
      ghost var c0 := c;
      c := c.(steps := c.steps + 1, decodeForwards := c.decodeForwards + f.decodes);
      if f.prefill > 0 && f.decodes > 0 {
        c := c.(mixedSteps := c.mixedSteps + 1);
      } else if f.prefill > 0 {
        c := c.(prefillSteps := c.prefillSteps + 1);
      } else {
        c := c.(decodeOnlySteps := c.decodeOnlySteps + 1);
      }
      CountersGrow(c0, c, log, f);
      log := log + [f];
      work := HasVirtualWork(sequences);
    }
    return Completed(log), c;
  }
}
