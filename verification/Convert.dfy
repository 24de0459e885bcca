/**
 Converting a list of trace records into prompts (convertTraceArray in pkg/moetrace/source.go): the records must come
 grouped by prompt, every prompt must be complete, and prompts without records must not need any.
 */
module Convert {
  import opened Accumulated
  import opened Accumulator
  import opened Common
  import opened RouteCounts

  datatype Tokens = Tokens(input: nat, decode: nat)

  /** The checked source metadata; `fits` says whether the block length of a prompt can be computed in 64 bits. */
  datatype Source = Source(shape: Shape, slots: map<int, nat>, prompts: seq<Tokens>, fits: nat -> bool)

  predicate GoodSource(src: Source) {
    && src.shape.layers >= 1 && (forall l :: l in src.slots ==> src.slots[l] < src.shape.layers)
    && forall i :: 0 <= i < |src.prompts| ==> src.prompts[i].input <= MAX_UINT32
  }

  function PlanOf(src: Source, i: nat): Plan
    requires i < |src.prompts|
  {
    Plan(src.shape, src.prompts[i].input, src.prompts[i].decode, src.slots)
  }

  datatype Current = Current(id: nat, acc: Acc)

  /** The prompts written so far, and the one whose records are coming in. */
  datatype State = State(written: seq<Acc>, current: Option<Current>)

  predicate Proper(src: Source, st: State) {
    st.current.Some? ==>
        st.current.value.id < |src.prompts| && Fits(PlanOf(src, st.current.value.id), st.current.value.acc)
  }

  // ---------------------------------------------------------------- the loop

  function Write(src: Source, written: seq<Acc>, id: nat, acc: Acc): Option<seq<Acc>> {
    if Complete(acc) && id == |written| && src.fits(id) then Some(written + [acc]) else None
  }

  /** Writes prompts without records up to a prompt; None when one of them should have records. */
  function FillEmpty(src: Source, written: seq<Acc>, upTo: nat): (r: Option<seq<Acc>>)
    requires upTo <= |src.prompts|
    decreases upTo - |written|
  {
    if |written| >= upTo then Some(written)
    else if ExpectedRecords(PlanOf(src, |written|)) != 0 then None
    else
      var w := Write(src, written, |written|, Start(PlanOf(src, |written|)));
      if w == None then None else FillEmpty(src, w.value, upTo)
  }

  function Close(src: Source, st: State): Option<seq<Acc>> {
    if st.current == None then Some(st.written) else Write(src, st.written, st.current.value.id, st.current.value.acc)
  }

  /** Turns to another prompt. */
  function Enter(src: Source, st: State, q: nat): (r: Option<State>)
    requires q < |src.prompts|
    ensures r.Some? ==> Proper(src, r.value) && r.value.current.Some? && r.value.current.value.id == q
  {
    if st.current.Some? && q < st.current.value.id then None
    else
      var w := Close(src, st);
      if w == None then None
      else
        var f := FillEmpty(src, w.value, q);
        if f == None || |f.value| != q then None else Some(State(f.value, Some(Current(q, Start(PlanOf(src, q))))))
  }

  function Take(src: Source, st: State, r: Record): (st': Option<State>)
    requires GoodSource(src) && Proper(src, st)
    ensures st'.Some? ==> Proper(src, st'.value) && st'.value.current.Some?
  {
    if r.prompt < 0 || r.prompt >= |src.prompts| then None
    else
      var entered := if st.current == None || r.prompt != st.current.value.id then Enter(src, st, r.prompt)
          else Some(st);
      if entered == None then None
      else
        var c := entered.value.current.value;
        var a := Add(PlanOf(src, c.id), c.acc, r);
        if a == None then None else Some(entered.value.(current := Some(Current(c.id, a.value))))
  }

  function TakeRecords(src: Source, records: seq<Record>): (st: Option<State>)
    requires GoodSource(src)
    ensures st.Some? ==> Proper(src, st.value)
  {
    if records == [] then Some(State([], None))
    else
      var st := TakeRecords(src, records[..|records| - 1]);
      if st == None then None else Take(src, st.value, records[|records| - 1])
  }

  function TotalExpected(src: Source, n: nat): nat
    requires n <= |src.prompts|
  {
    if n == 0 then 0 else TotalExpected(src, n - 1) + ExpectedRecords(PlanOf(src, n - 1))
  }

  datatype Outcome = Converted(prompts: seq<Acc>) | Failed | CountMismatch

  function Finish(src: Source, st: State): Option<seq<Acc>> {
    var w := Close(src, st);
    if w == None then None else FillEmpty(src, w.value, |src.prompts|)
  }

  function ConvertRecords(src: Source, records: seq<Record>): Outcome
    requires GoodSource(src)
  {
    var st := TakeRecords(src, records);
    if st == None then Failed
    else
      var all := Finish(src, st.value);
      if all == None then Failed
      else if |records| != TotalExpected(src, |src.prompts|) then CountMismatch
      else Converted(all.value)
  }

  method FillPrompts(src: Source, from: seq<Acc>, upTo: nat) returns (r: Option<seq<Acc>>)
    requires upTo <= |src.prompts|
    ensures r == FillEmpty(src, from, upTo)
  {
    var written := from;
    while |written| < upTo
      invariant FillEmpty(src, written, upTo) == FillEmpty(src, from, upTo)
      decreases upTo - |written|
    {
      var p := PlanOf(src, |written|);
      if ExpectedRecords(p) != 0 {
        return None;
      }
      var w := Write(src, written, |written|, Start(p));
      if w == None {
        return None;
      }
      written := w.value;
    }
    return Some(written);
  }

  lemma FailedFront(src: Source, records: seq<Record>)
    requires GoodSource(src) && records != [] && TakeRecords(src, records[..|records| - 1]) == None
    ensures TakeRecords(src, records) == None
  {
  }

  lemma {:induction false} StaysFailed(src: Source, records: seq<Record>, n: nat)
    requires GoodSource(src) && n <= |records| && TakeRecords(src, records[..n]) == None
    ensures TakeRecords(src, records) == None
  {
    if n < |records| {
      var front := records[..|records| - 1];
      assert front[..n] == records[..n];
      StaysFailed(src, front, n);
      FailedFront(src, records);
    } else {
      TakeAll(records);
    }
  }

  /** The loop over the records, with the current prompt and the prompts written so far. */
  method TakeLoop(src: Source, records: seq<Record>) returns (r: Option<State>)
    requires GoodSource(src)
    ensures r == TakeRecords(src, records)
  {
    var st := State([], None);
    TakeAll(records);
    for k := 0 to |records|
      invariant TakeRecords(src, records[..k]) == Some(st) && Proper(src, st)
    {
      TakeNext(records, k);
      var next := TakeRecord(src, st, records[k]);
      if next == None {
        StaysFailed(src, records, k + 1);
        return None;
      }
      st := next.value;
    }
    return Some(st);
  }

  method CountExpected(src: Source) returns (expected: nat)
    ensures expected == TotalExpected(src, |src.prompts|)
  {
    expected := 0;
    for i := 0 to |src.prompts|
      invariant expected == TotalExpected(src, i)
    {
      expected := expected + (src.prompts[i].input + src.prompts[i].decode) * src.shape.layers;
    }
  }

  method ConvertTrace(src: Source, records: seq<Record>) returns (o: Outcome)
    requires GoodSource(src)
    ensures o == ConvertRecords(src, records)
  {
    var st := TakeLoop(src, records);
    if st == None {
      return Failed;
    }
    var w := Close(src, st.value);
    if w == None {
      return Failed;
    }
    var all := FillPrompts(src, w.value, |src.prompts|);
    if all == None {
      return Failed;
    }
    var expected := CountExpected(src);
    return if |records| != expected then CountMismatch else Converted(all.value);
  }

  method TakeRecord(src: Source, st: State, r: Record) returns (next: Option<State>)
    requires GoodSource(src) && Proper(src, st)
    ensures next == Take(src, st, r)
  {
    if r.prompt < 0 || r.prompt >= |src.prompts| {
      return None;
    }
    var cur := st;
    if st.current == None || r.prompt != st.current.value.id {
      if st.current.Some? && r.prompt < st.current.value.id {
        return None;
      }
      var w := Close(src, st);
      if w == None {
        return None;
      }
      var f := FillPrompts(src, w.value, r.prompt);
      if f == None || |f.value| != r.prompt {
        return None;
      }
      cur := State(f.value, Some(Current(r.prompt, Start(PlanOf(src, r.prompt)))));
    }
    var c := cur.current.value;
    var a := Add(PlanOf(src, c.id), c.acc, r);
    if a == None {
      return None;
    }
    return Some(cur.(current := Some(Current(c.id, a.value))));
  }

  // ---------------------------------------------------------------- the records of one prompt

  function Group(records: seq<Record>, i: nat): seq<Record> {
    if records == [] then []
    else
      var n := |records| - 1;
      if records[n].prompt == i then Group(records[..n], i) + [records[n]] else Group(records[..n], i)
  }

  lemma GroupAppend(records: seq<Record>, r: Record, i: nat)
    ensures Group(records + [r], i) == if r.prompt == i then Group(records, i) + [r] else Group(records, i)
  {
    FrontOfConcat(records, [r]);
    EmptyConcat(records);
  }

  lemma {:induction false} NoGroup(records: seq<Record>, i: nat)
    requires forall k :: 0 <= k < |records| ==> records[k].prompt != i
    ensures Group(records, i) == []
  {
    if records != [] {
      NoGroup(records[..|records| - 1], i);
    }
  }

  predicate InRange(src: Source, records: seq<Record>) {
    forall k :: 0 <= k < |records| ==> 0 <= records[k].prompt < |src.prompts|
  }

  predicate Grouped(records: seq<Record>) {
    forall j, k :: 0 <= j < k < |records| ==> records[j].prompt <= records[k].prompt
  }

  /** The accumulator of a prompt is what its own records make of it. */
  ghost predicate Done(src: Source, records: seq<Record>, i: nat, acc: Acc)
    requires GoodSource(src) && i < |src.prompts|
  {
    AddAll(PlanOf(src, i), Start(PlanOf(src, i)), Group(records, i)) == Some(acc)
  }

  /** What has happened after some records. */
  ghost predicate Inv(src: Source, records: seq<Record>, st: State)
    requires GoodSource(src)
  {
    && InRange(src, records) && Grouped(records) && |st.written| <= |src.prompts|
    && (forall i :: 0 <= i < |st.written| ==>
        Done(src, records, i, st.written[i]) && Complete(st.written[i]) && src.fits(i))
    && (st.current == None ==> records == [] && st.written == [])
    && (st.current.Some? ==>
          && st.current.value.id == |st.written| < |src.prompts| &&
             Done(src, records, |st.written|, st.current.value.acc)
          && records != [] && records[|records| - 1].prompt == |st.written|)
  }

  lemma AddAllAppend(p: Plan, records: seq<Record>, r: Record)
    requires GoodPlan(p)
    ensures AddAll(p, Start(p), records + [r]) ==
            var b := AddAll(p, Start(p), records); if b == None then None else Add(p, b.value, r)
  {
    FrontOfConcat(records, [r]);
    EmptyConcat(records);
  }

  // ---------------------------------------------------------------- empty prompts

  /** Prompt i was filled in without records. */
  ghost predicate Empty(src: Source, i: nat, acc: Acc)
    requires i < |src.prompts|
  {
    acc == Start(PlanOf(src, i)) && Complete(acc) && src.fits(i) && ExpectedRecords(PlanOf(src, i)) == 0
  }

  lemma {:induction false} FilledFacts(src: Source, written: seq<Acc>, upTo: nat, i: nat)
    requires upTo <= |src.prompts| && FillEmpty(src, written, upTo).Some?
    ensures var f := FillEmpty(src, written, upTo).value;
            && |f| == (if |written| >= upTo then |written| else upTo)
            && (i < |written| ==> f[i] == written[i])
            && (|written| <= i < upTo ==> Empty(src, i, f[i]))
    decreases upTo - |written|
  {
    if |written| < upTo {
      FilledFacts(src, written + [Start(PlanOf(src, |written|))], upTo, i);
    }
  }

  /** Prompts that need no records can be filled in. */
  lemma {:induction false} FillSucceeds(src: Source, written: seq<Acc>, upTo: nat)
    requires GoodSource(src) && upTo <= |src.prompts|
    requires forall i :: |written| <= i < upTo ==> ExpectedRecords(PlanOf(src, i)) == 0 && src.fits(i)
    ensures FillEmpty(src, written, upTo).Some?
    decreases upTo - |written|
  {
    if |written| < upTo {
      var p := PlanOf(src, |written|);
      CompleteIff(p, []);
      FillSucceeds(src, written + [Start(p)], upTo);
    }
  }

  // ---------------------------------------------------------------- the invariant is kept

  lemma DoneStays(src: Source, records: seq<Record>, r: Record, i: nat, acc: Acc)
    requires GoodSource(src) && i < |src.prompts| && Done(src, records, i, acc) && r.prompt != i
    ensures Done(src, records + [r], i, acc)
  {
    GroupAppend(records, r, i);
  }

  /** A record of the current prompt. */
  lemma SamePromptKeepsInv(src: Source, records: seq<Record>, st: State, r: Record)
    requires GoodSource(src) && Inv(src, records, st) && Proper(src, st) && st.current.Some? &&
             r.prompt == st.current.value.id
    requires Take(src, st, r).Some?
    ensures Inv(src, records + [r], Take(src, st, r).value)
  {
    var c := st.current.value;
    var p := PlanOf(src, c.id);
    GroupAppend(records, r, c.id);
    AddAllAppend(p, Group(records, c.id), r);
    forall i | 0 <= i < |st.written| ensures Done(src, records + [r], i, st.written[i]) {
      DoneStays(src, records, r, i, st.written[i]);
    }
  }

  lemma OrderedAppend(src: Source, records: seq<Record>, r: Record)
    requires InRange(src, records) && Grouped(records) && 0 <= r.prompt < |src.prompts|
    requires records == [] || records[|records| - 1].prompt <= r.prompt
    ensures InRange(src, records + [r]) && Grouped(records + [r])
  {
  }

  /** The written prompts once the loop has turned to prompt q. */
  lemma EnteredPrompt(src: Source, records: seq<Record>, st: State, r: Record, i: nat)
    requires GoodSource(src) && Inv(src, records, st) && 0 <= r.prompt < |src.prompts| && Enter(src, st, r.prompt).Some?
    requires st.current == None || r.prompt != st.current.value.id
    requires i < r.prompt
    ensures var w := Enter(src, st, r.prompt).value.written;
            && |w| == r.prompt && Done(src, records + [r], i, w[i]) && Complete(w[i]) && src.fits(i)
  {
    var closed := Close(src, st).value;
    FilledFacts(src, closed, r.prompt, i);
    var w := FillEmpty(src, closed, r.prompt).value;
    if i < |closed| {
      assert closed[i] == if i < |st.written| then st.written[i] else st.current.value.acc;
      DoneStays(src, records, r, i, w[i]);
    } else {
      NothingYet(records, st, i);
      GroupAppend(records, r, i);
    }
  }

  lemma NothingYet(records: seq<Record>, st: State, i: nat)
    requires Grouped(records) && (st.current == None ==> records == [])
    requires st.current.Some? ==> records != [] && records[|records| - 1].prompt == |st.written|
    requires i > |st.written| || st.current == None
    ensures Group(records, i) == []
  {
    forall k | 0 <= k < |records| ensures records[k].prompt != i {
      assert records[k].prompt <= records[|records| - 1].prompt;
    }
    NoGroup(records, i);
  }

  /** The state after the first record of another prompt. */
  lemma NewPromptState(src: Source, st: State, r: Record) returns (w: seq<Acc>, a: Acc)
    requires GoodSource(src) && Proper(src, st) && Take(src, st, r).Some?
    requires st.current == None || r.prompt != st.current.value.id
    ensures 0 <= r.prompt < |src.prompts| && Enter(src, st, r.prompt).Some?
    ensures w == Enter(src, st, r.prompt).value.written && |w| == r.prompt
    ensures Add(PlanOf(src, r.prompt), Start(PlanOf(src, r.prompt)), r) == Some(a)
    ensures Take(src, st, r) == Some(State(w, Some(Current(r.prompt, a))))
  {
    w, a := Enter(src, st, r.prompt).value.written, Take(src, st, r).value.current.value.acc;
  }

  lemma InvOf(src: Source, records: seq<Record>, w: seq<Acc>, a: Acc)
    requires GoodSource(src) && InRange(src, records) && Grouped(records) && |w| < |src.prompts|
    requires forall i :: 0 <= i < |w| ==> Done(src, records, i, w[i]) && Complete(w[i]) && src.fits(i)
    requires Done(src, records, |w|, a) && records != [] && records[|records| - 1].prompt == |w|
    ensures Inv(src, records, State(w, Some(Current(|w|, a))))
  {
  }

  /** The first record of another prompt. */
  lemma NewPromptKeepsInv(src: Source, records: seq<Record>, st: State, r: Record)
    requires GoodSource(src) && Inv(src, records, st) && Proper(src, st) && Take(src, st, r).Some?
    requires st.current == None || r.prompt != st.current.value.id
    ensures Inv(src, records + [r], Take(src, st, r).value)
  {
    var w, a := NewPromptState(src, st, r);
    OrderedAppend(src, records, r);
    forall i | 0 <= i < |w| ensures Done(src, records + [r], i, w[i]) && Complete(w[i]) && src.fits(i) {
      EnteredPrompt(src, records, st, r, i);
    }
    NothingYet(records, st, r.prompt);
    FirstRecord(src, records, r);
    InvOf(src, records + [r], w, a);
  }

  /** The first record of a prompt makes its accumulator. */
  lemma FirstRecord(src: Source, records: seq<Record>, r: Record)
    requires GoodSource(src) && 0 <= r.prompt < |src.prompts| && Group(records, r.prompt) == []
    requires Add(PlanOf(src, r.prompt), Start(PlanOf(src, r.prompt)), r).Some?
    ensures Done(src, records + [r], r.prompt, Add(PlanOf(src, r.prompt), Start(PlanOf(src, r.prompt)), r).value)
  {
    GroupAppend(records, r, r.prompt);
    AddAllAppend(PlanOf(src, r.prompt), [], r);
  }

  lemma TakeKeepsInv(src: Source, records: seq<Record>, st: State, r: Record, next: Option<State>, all: seq<Record>)
    requires GoodSource(src) && Inv(src, records, st) && Proper(src, st)
    requires next == Take(src, st, r) && next.Some? && all == records + [r]
    ensures Inv(src, all, next.value)
  {
    if st.current == None || r.prompt != st.current.value.id {
      NewPromptKeepsInv(src, records, st, r);
    } else {
      SamePromptKeepsInv(src, records, st, r);
    }
  }

  /** The state before the last record. */
  lemma LastTaken(src: Source, records: seq<Record>) returns (st: State)
    requires GoodSource(src) && records != [] && TakeRecords(src, records).Some?
    ensures TakeRecords(src, records[..|records| - 1]) == Some(st) && Proper(src, st)
    ensures TakeRecords(src, records) == Take(src, st, records[|records| - 1])
  {
    st := TakeRecords(src, records[..|records| - 1]).value;
  }

  lemma {:induction false} TakenInv(src: Source, records: seq<Record>)
    requires GoodSource(src) && TakeRecords(src, records).Some?
    ensures Inv(src, records, TakeRecords(src, records).value)
  {
    if records != [] {
      var n := |records| - 1;
      var st := LastTaken(src, records);
      TakenInv(src, records[..n]);
      TakeKeepsInv(src, records[..n], st, records[n], TakeRecords(src, records), records);
    }
  }

  // ---------------------------------------------------------------- what a finished conversion has done

  /** One prompt of a finished conversion. */
  lemma FinishedPrompt(src: Source, records: seq<Record>, i: nat)
    requires GoodSource(src) && TakeRecords(src, records).Some? && Finish(src, TakeRecords(src, records).value).Some?
    requires i < |src.prompts|
    ensures var all := Finish(src, TakeRecords(src, records).value).value;
            && |all| == |src.prompts| && Done(src, records, i, all[i]) && Complete(all[i]) && src.fits(i)
  {
    TakenInv(src, records);
    var st := TakeRecords(src, records).value;
    var closed := Close(src, st).value;
    FilledFacts(src, closed, |src.prompts|, i);
    if i < |closed| {
      assert closed[i] == if i < |st.written| then st.written[i] else st.current.value.acc;
    } else {
      NothingYet(records, st, i);
    }
  }

  function GroupSizes(records: seq<Record>, n: nat): nat {
    if n == 0 then 0 else GroupSizes(records, n - 1) + |Group(records, n - 1)|
  }

  lemma {:induction false} GroupSizesAppend(records: seq<Record>, r: Record, n: nat)
    ensures GroupSizes(records + [r], n) == GroupSizes(records, n) + if 0 <= r.prompt < n then 1 else 0
  {
    if n > 0 {
      GroupSizesAppend(records, r, n - 1);
      GroupAppend(records, r, n - 1);
    }
  }

  lemma {:induction false} NoGroups(n: nat)
    ensures GroupSizes([], n) == 0
  {
    if n > 0 {
      NoGroups(n - 1);
    }
  }

  /** Every record belongs to exactly one prompt. */
  lemma {:induction false} GroupsCoverRecords(src: Source, records: seq<Record>)
    requires InRange(src, records)
    ensures GroupSizes(records, |src.prompts|) == |records|
  {
    if records == [] {
      NoGroups(|src.prompts|);
    } else {
      var n := |records| - 1;
      GroupsCoverRecords(src, records[..n]);
      assert records == records[..n] + [records[n]];
      GroupSizesAppend(records[..n], records[n], |src.prompts|);
    }
  }

  lemma PlanIsGood(src: Source, i: nat)
    requires GoodSource(src) && i < |src.prompts|
    ensures GoodPlan(PlanOf(src, i)) && PlanOf(src, i).input <= MAX_UINT32 && PlanOf(src, i).shape.layers >= 1
  {
  }

  lemma CompleteGroup(src: Source, records: seq<Record>, i: nat, acc: Acc)
    requires GoodSource(src) && i < |src.prompts| && Done(src, records, i, acc)
    ensures Complete(acc) <==> |Group(records, i)| == ExpectedRecords(PlanOf(src, i))
  {
    PlanIsGood(src, i);
    CompleteIff(PlanOf(src, i), Group(records, i));
  }

  lemma {:induction false} GroupsAreExpected(src: Source, records: seq<Record>, n: nat)
    requires n <= |src.prompts| && forall i :: 0 <= i < n ==> |Group(records, i)| == ExpectedRecords(PlanOf(src, i))
    ensures GroupSizes(records, n) == TotalExpected(src, n)
  {
    if n > 0 {
      GroupsAreExpected(src, records, n - 1);
    }
  }

  /** The final check of the number of records never fails. */
  lemma CountNeverMismatches(src: Source, records: seq<Record>)
    requires GoodSource(src)
    ensures !ConvertRecords(src, records).CountMismatch?
  {
    var st := TakeRecords(src, records);
    if st.Some? && Finish(src, st.value).Some? {
      TakenInv(src, records);
      forall i | 0 <= i < |src.prompts| ensures |Group(records, i)| == ExpectedRecords(PlanOf(src, i)) {
        FinishedPrompt(src, records, i);
        CompleteGroup(src, records, i, Finish(src, st.value).value[i]);
      }
      GroupsAreExpected(src, records, |src.prompts|);
      GroupsCoverRecords(src, records);
    }
  }

  // ---------------------------------------------------------------- which records can be converted

  /** The records come grouped by prompt, and those of each prompt are exactly the ones it needs. */
  ghost predicate Convertible(src: Source, records: seq<Record>)
    requires GoodSource(src)
  {
    && InRange(src, records) && Grouped(records)
    && forall i :: 0 <= i < |src.prompts| ==> ConvertiblePrompt(src, records, i)
  }

  ghost predicate ConvertiblePrompt(src: Source, records: seq<Record>, i: nat)
    requires GoodSource(src) && i < |src.prompts|
  {
    && Acceptable(PlanOf(src, i), Group(records, i))
    && |Group(records, i)| == ExpectedRecords(PlanOf(src, i)) && src.fits(i)
  }

  /** A group only grows, at its end. */
  lemma {:induction false} GroupPrefix(records: seq<Record>, n: nat, i: nat)
    requires n <= |records|
    ensures Group(records[..n], i) <= Group(records, i)
  {
    if n < |records| {
      var m := |records| - 1;
      GroupPrefix(records[..m], n, i);
      assert records[..m][..n] == records[..n];
    } else {
      TakeAll(records);
    }
  }

  /** The group of a prompt is complete once the records have passed it. */
  lemma {:induction false} GroupIsOver(records: seq<Record>, n: nat, i: nat)
    requires n <= |records| && forall k :: n <= k < |records| ==> records[k].prompt != i
    ensures Group(records[..n], i) == Group(records, i)
  {
    if n < |records| {
      var m := |records| - 1;
      GroupIsOver(records[..m], n, i);
      assert records[..m][..n] == records[..n];
    } else {
      TakeAll(records);
    }
  }

  lemma AcceptablePrefix(p: Plan, records: seq<Record>, part: seq<Record>)
    requires Acceptable(p, records) && part <= records
    ensures Acceptable(p, part)
  {
    forall i | 0 <= i < |part| ensures ValidRecord(p, part[i]) {
      assert part[i] == records[i];
    }
    forall i, j | 0 <= i < j < |part| ensures Compatible(p, part[i], part[j]) {
      assert part[i] == records[i] && part[j] == records[j];
    }
  }

  /** The records of a convertible prompt so far are accepted. */
  lemma PartIsAccepted(src: Source, records: seq<Record>, n: nat, i: nat)
    requires GoodSource(src) && n <= |records| && i < |src.prompts| && ConvertiblePrompt(src, records, i)
    ensures AddAll(PlanOf(src, i), Start(PlanOf(src, i)), Group(records[..n], i)).Some?
  {
    PlanIsGood(src, i);
    GroupPrefix(records, n, i);
    AcceptablePrefix(PlanOf(src, i), Group(records, i), Group(records[..n], i));
    AcceptedIff(PlanOf(src, i), Group(records[..n], i));
  }

  /** When the records have passed the current prompt it can be written, and so can the empty ones up to the next. */
  lemma CloseAndFill(src: Source, records: seq<Record>, n: nat, st: State, q: nat)
    requires GoodSource(src) && Convertible(src, records) && n <= |records| && Inv(src, records[..n], st)
    requires q <= |src.prompts| && (st.current.Some? ==> |st.written| < q)
    requires forall k :: n <= k < |records| ==> records[k].prompt >= q
    ensures Close(src, st).Some? && FillEmpty(src, Close(src, st).value, q).Some?
    ensures |FillEmpty(src, Close(src, st).value, q).value| == q
  {
    if st.current.Some? {
      var id := |st.written|;
      assert ConvertiblePrompt(src, records, id);
      GroupIsOver(records, n, id);
      CompleteGroup(src, records[..n], id, st.current.value.acc);
    }
    var closed := Close(src, st).value;
    forall i | |closed| <= i < q ensures ExpectedRecords(PlanOf(src, i)) == 0 && src.fits(i) {
      assert ConvertiblePrompt(src, records, i);
      NothingYet(records[..n], st, i);
      GroupIsOver(records, n, i);
    }
    FillSucceeds(src, closed, q);
    FilledFacts(src, closed, q, 0);
  }

  lemma NextRecordIsAccepted(src: Source, records: seq<Record>, n: nat, acc: Acc)
    requires GoodSource(src) && Convertible(src, records) && n < |records|
    requires Done(src, records[..n], records[n].prompt, acc)
    ensures Add(PlanOf(src, records[n].prompt), acc, records[n]).Some?
  {
    var q := records[n].prompt;
    assert ConvertiblePrompt(src, records, q);
    PartIsAccepted(src, records, n + 1, q);
    TakeNext(records, n);
    GroupAppend(records[..n], records[n], q);
    PlanIsGood(src, q);
    AddAllAppend(PlanOf(src, q), Group(records[..n], q), records[n]);
  }

  lemma NextIsTaken(src: Source, records: seq<Record>, n: nat, st: State)
    requires GoodSource(src) && Convertible(src, records) && n < |records| && Inv(src, records[..n], st) &&
             Proper(src, st)
    ensures Take(src, st, records[n]).Some?
  {
    var q := records[n].prompt;
    if st.current == None || q != st.current.value.id {
      if st.current.Some? {
        assert records[..n][n - 1] == records[n - 1];
      }
      CloseAndFill(src, records, n, st, q);
      NothingYet(records[..n], st, q);
      NextRecordIsAccepted(src, records, n, Start(PlanOf(src, q)));
    } else {
      NextRecordIsAccepted(src, records, n, st.current.value.acc);
    }
  }

  lemma {:induction false} AllAreTaken(src: Source, records: seq<Record>, n: nat)
    requires GoodSource(src) && Convertible(src, records) && n <= |records|
    ensures TakeRecords(src, records[..n]).Some?
  {
    if n > 0 {
      AllAreTaken(src, records, n - 1);
      TakenInv(src, records[..n - 1]);
      NextIsTaken(src, records, n - 1, TakeRecords(src, records[..n - 1]).value);
      TakeNext(records, n - 1);
    }
  }

  /** A conversion that finishes was given convertible records. */
  lemma ConvertedWasConvertible(src: Source, records: seq<Record>)
    requires GoodSource(src) && ConvertRecords(src, records).Converted?
    ensures Convertible(src, records)
  {
    TakenInv(src, records);
    forall i | 0 <= i < |src.prompts| ensures ConvertiblePrompt(src, records, i) {
      FinishedPrompt(src, records, i);
      CompleteGroup(src, records, i, Finish(src, TakeRecords(src, records).value).value[i]);
      PlanIsGood(src, i);
      AcceptedIff(PlanOf(src, i), Group(records, i));
    }
  }

  /** Conversion succeeds exactly on convertible records, and then every prompt is made of its own records. */
  lemma ConvertedIff(src: Source, records: seq<Record>)
    requires GoodSource(src)
    ensures ConvertRecords(src, records).Converted? <==> Convertible(src, records)
    ensures ConvertRecords(src, records).Converted? ==>
              var ps := ConvertRecords(src, records).prompts;
              |ps| == |src.prompts| && forall i :: 0 <= i < |ps| ==> Done(src, records, i, ps[i]) && Complete(ps[i])
  {
    CountNeverMismatches(src, records);
    if Convertible(src, records) {
      AllAreTaken(src, records, |records|);
      TakeAll(records);
      TakenInv(src, records);
      CloseAndFill(src, records, |records|, TakeRecords(src, records).value, |src.prompts|);
    }
    if ConvertRecords(src, records).Converted? {
      ConvertedWasConvertible(src, records);
      var all := Finish(src, TakeRecords(src, records).value).value;
      FinishedLength(src, TakeRecords(src, records).value);
      forall i | 0 <= i < |all| ensures Done(src, records, i, all[i]) && Complete(all[i]) {
        FinishedPrompt(src, records, i);
      }
    }
  }

  lemma FinishedLength(src: Source, st: State)
    requires Finish(src, st).Some? && Close(src, st).Some? && |Close(src, st).value| <= |src.prompts|
    ensures |Finish(src, st).value| == |src.prompts|
  {
    FilledFacts(src, Close(src, st).value, |src.prompts|, 0);
  }
}
