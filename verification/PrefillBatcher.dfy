/**
 The leader-elected prefill batcher (tracePrefillBatcher in pkg/simulator/moe_trace_fidelity.go). Requests submit jobs
 for ranges of prompt positions; whoever finds no processor running starts one, which serves the pending jobs in
 rounds of at most a fixed number of tokens until none is left.

 Submitting, taking a snapshot, computing a round and publishing it are separate steps that interleave freely.
 */
module PrefillBatcher {
  import opened Common
  import opened Sums
  import opened RouteCounts

  type JobId = nat

  /** `answers` lists what was sent on the job's result channel. */
  datatype Job = Job(start: nat, position: nat, end: nat, elapsed: real, answers: seq<real>)

  datatype Range = Range(job: JobId, from: nat, to: nat)

  /** One model forward: the jobs it was computed for, the positions it took from them, its latency. */
  datatype Forward = Forward(snapshot: seq<JobId>, ranges: seq<Range>, latency: real)

  datatype Proc = Top | Have(snapshot: seq<JobId>) | Computed(snapshot: seq<JobId>, completed: set<JobId>) | Exited

  datatype System = System(
    jobs: seq<Job>, pending: seq<JobId>, running: bool, procs: seq<Proc>, maxTokens: int, history: seq<Forward>)

  const DEFAULT_BATCH_TOKENS := 1024

  function Budget(maxTokens: int): (b: nat)
    ensures b >= 1
  {
    if maxTokens < 1 then DEFAULT_BATCH_TOKENS else maxTokens
  }

  // ---------------------------------------------------------------- one round

  datatype Round = Round(jobs: seq<Job>, budget: nat, completed: set<JobId>, ranges: seq<Range>)

  function Left(j: Job): int {
    j.end - j.position
  }

  /** Gives the next job of the snapshot its part of the remaining budget. */
  function Serve(r: Round, id: JobId): (r': Round)
    requires id < |r.jobs|
    ensures |r'.jobs| == |r.jobs|
  {
    var j := r.jobs[id];
    if r.budget == 0 then r
    else if Left(j) <= 0 then r.(completed := r.completed + {id})
    else
      var take := if Left(j) > r.budget then r.budget else Left(j);
      var j' := j.(position := j.position + take);
      Round(r.jobs[id := j'], r.budget - take,
            if j'.position >= j'.end then r.completed + {id} else r.completed,
            r.ranges + [Range(id, j.position, j'.position)])
  }

  function ServeAll(r: Round, snapshot: seq<JobId>): (r': Round)
    requires forall i :: 0 <= i < |snapshot| ==> snapshot[i] < |r.jobs|
    ensures |r'.jobs| == |r.jobs|
  {
    if snapshot == [] then r
    else Serve(ServeAll(r, snapshot[..|snapshot| - 1]), snapshot[|snapshot| - 1])
  }

  /** The serving loop of a round, with its early exit when the budget is used up. */
  method ServeRound(jobs: seq<Job>, snapshot: seq<JobId>, budget: nat) returns (r: Round)
    requires forall i :: 0 <= i < |snapshot| ==> snapshot[i] < |jobs|
    ensures r == ServeAll(Round(jobs, budget, {}, []), snapshot)
  {
    r := Round(jobs, budget, {}, []);
    ghost var r0 := r;
    TakeAll(snapshot);
    for i := 0 to |snapshot|
      invariant r == ServeAll(r0, snapshot[..i]) && |r.jobs| == |jobs|
    {
      if r.budget == 0 {
        BudgetGone(r0, snapshot, i);
        return;
      }
      TakeNext(snapshot, i);
      var id := snapshot[i];
      var j := r.jobs[id];
      var remaining := j.end - j.position;
      if remaining <= 0 {
        r := r.(completed := r.completed + {id});
      } else {
        var take := if remaining > r.budget then r.budget else remaining;
        var j' := j.(position := j.position + take);
        r := Round(r.jobs[id := j'], r.budget - take,
                   if j'.position >= j'.end then r.completed + {id} else r.completed,
                   r.ranges + [Range(id, j.position, j.position + take)]);
      }
    }
  }

  lemma {:induction false} BudgetGone(r: Round, snapshot: seq<JobId>, i: nat)
    requires forall k :: 0 <= k < |snapshot| ==> snapshot[k] < |r.jobs|
    requires i <= |snapshot| && ServeAll(r, snapshot[..i]).budget == 0
    ensures ServeAll(r, snapshot) == ServeAll(r, snapshot[..i])
  {
    if i == |snapshot| {
      TakeAll(snapshot);
    } else {
      var n := |snapshot| - 1;
      assert snapshot[..n][..i] == snapshot[..i];
      BudgetGone(r, snapshot[..n], i);
    }
  }

  // ---------------------------------------------------------------- steps

  datatype Label = Submit(cached: int, inputTokens: nat) | Snapshot(p: nat) | Compute(p: nat, latency: real) |
      Publish(p: nat)

  predicate Enabled(s: System, l: Label) {
    match l
    case Submit(_, _) => true
    case Snapshot(p) => p < |s.procs| && s.procs[p].Top?
    case Compute(p, _) =>
      && p < |s.procs| && s.procs[p].Have?
      && forall i :: 0 <= i < |s.procs[p].snapshot| ==> s.procs[p].snapshot[i] < |s.jobs|
    case Publish(p) =>
      && p < |s.procs| && s.procs[p].Computed?
      && forall i :: 0 <= i < |s.pending| ==> s.pending[i] < |s.jobs|
  }

  /** A request hands in its uncached positions; without any it is answered at once with no latency. */
  function Submitted(s: System, cached: int, inputTokens: nat): System {
    var from := if cached < 0 then 0 else cached;
    if from >= inputTokens then s
    else
      s.(jobs := s.jobs + [Job(from, from, inputTokens, 0.0, [])],
         pending := s.pending + [|s.jobs|],
         running := true,
         procs := if s.running then s.procs else s.procs + [Top])
  }

  function Aged(jobs: seq<Job>, snapshot: seq<JobId>, latency: real): (js: seq<Job>)
    ensures |js| == |jobs|
    ensures forall i :: 0 <= i < |jobs| ==> js[i] == if i in snapshot then
            jobs[i].(elapsed := jobs[i].elapsed + latency) else jobs[i]
  {
    seq(|jobs|, i requires 0 <= i < |jobs| =>
      if i in snapshot then jobs[i].(elapsed := jobs[i].elapsed + latency) else jobs[i])
  }

  function Answered(jobs: seq<Job>, pending: seq<JobId>, completed: set<JobId>): (js: seq<Job>)
    ensures |js| == |jobs|
    ensures forall i :: 0 <= i < |jobs| ==>
              js[i] == if i in pending && i in completed then jobs[i].(answers := jobs[i].answers + [jobs[i].elapsed])
                  else jobs[i]
  {
    seq(|jobs|, i requires 0 <= i < |jobs| =>
      if i in pending && i in completed then jobs[i].(answers := jobs[i].answers + [jobs[i].elapsed]) else jobs[i])
  }

  function Unfinished(pending: seq<JobId>, completed: set<JobId>): seq<JobId> {
    if pending == [] then []
    else
      var n := |pending| - 1;
      Unfinished(pending[..n], completed) + (if pending[n] in completed then [] else [pending[n]])
  }

  function Next(s: System, l: Label): System
    requires Enabled(s, l)
  {
    match l
    case Submit(cached, inputTokens) => Submitted(s, cached, inputTokens)
    case Snapshot(p) =>
      if s.pending == [] then s.(running := false, procs := s.procs[p := Exited])
      else s.(procs := s.procs[p := Have(s.pending)])
    case Compute(p, latency) =>
      var snapshot := s.procs[p].snapshot;
      var r := ServeAll(Round(s.jobs, Budget(s.maxTokens), {}, []), snapshot);
      s.(jobs := Aged(r.jobs, snapshot, latency),
         procs := s.procs[p := Computed(snapshot, r.completed)],
         history := s.history + [Forward(snapshot, r.ranges, latency)])
    case Publish(p) =>
      var completed := s.procs[p].completed;
      s.(jobs := Answered(s.jobs, s.pending, completed),
         pending := Unfinished(s.pending, completed),
         procs := s.procs[p := Top])
  }

  // ---------------------------------------------------------------- what a round does to each job

  ghost predicate Waiting(jobs: seq<Job>, snapshot: seq<JobId>) {
    && Distinct(snapshot)
    && forall i :: 0 <= i < |snapshot| ==> snapshot[i] < |jobs| && Left(jobs[snapshot[i]]) >= 1
  }

  /** The tokens that the first n jobs of the snapshot still need. */
  ghost function Ahead(jobs: seq<Job>, snapshot: seq<JobId>, n: nat): nat
    requires Waiting(jobs, snapshot) && n <= |snapshot|
  {
    if n == 0 then 0 else Ahead(jobs, snapshot, n - 1) + Left(jobs[snapshot[n - 1]])
  }

  lemma {:induction false} AheadGrows(jobs: seq<Job>, snapshot: seq<JobId>, i: nat, n: nat)
    requires Waiting(jobs, snapshot) && i < n <= |snapshot|
    ensures Ahead(jobs, snapshot, i) + Left(jobs[snapshot[i]]) <= Ahead(jobs, snapshot, n)
    decreases n
  {
    if i < n - 1 {
      AheadGrows(jobs, snapshot, i, n - 1);
    }
  }

  function Min(a: int, b: int): int {
    if a < b then a else b
  }

  function Max0(a: int): nat {
    if a < 0 then 0 else a
  }

  /** What the i-th job of the snapshot gets: whatever the jobs before it leave, up to its need. */
  ghost function Share(jobs: seq<Job>, snapshot: seq<JobId>, budget: nat, i: nat): nat
    requires Waiting(jobs, snapshot) && i < |snapshot|
  {
    Min(Left(jobs[snapshot[i]]), Max0(budget - Ahead(jobs, snapshot, i)))
  }

  ghost predicate ServedAt(jobs: seq<Job>, snapshot: seq<JobId>, budget: nat, r: Round, i: nat)
    requires Waiting(jobs, snapshot) && i < |snapshot| && |r.jobs| == |jobs|
  {
    var id := snapshot[i];
    var take := Share(jobs, snapshot, budget, i);
    && r.jobs[id] == jobs[id].(position := jobs[id].position + take)
    && (id in r.completed <==> Ahead(jobs, snapshot, i) + Left(jobs[id]) <= budget)
    && RangesOf(r.ranges, id) == (if take == 0 then [] else [Range(id, jobs[id].position, jobs[id].position + take)])
  }

  ghost predicate UntouchedAt(jobs: seq<Job>, r: Round, id: JobId)
    requires |r.jobs| == |jobs|
  {
    && (id < |jobs| ==> r.jobs[id] == jobs[id])
    && id !in r.completed
    && RangesOf(r.ranges, id) == []
  }

  /** The ranges of one job, in order. */
  function RangesOf(ranges: seq<Range>, id: JobId): seq<Range> {
    if ranges == [] then []
    else
      var n := |ranges| - 1;
      RangesOf(ranges[..n], id) + (if ranges[n].job == id then [ranges[n]] else [])
  }

  lemma RangesOfAppend(ranges: seq<Range>, r: Range, id: JobId)
    ensures RangesOf(ranges + [r], id) == RangesOf(ranges, id) + (if r.job == id then [r] else [])
  {
    FrontOfConcat(ranges, [r]);
    EmptyConcat(ranges);
  }

  lemma ServeKeepsOthers(jobs: seq<Job>, snapshot: seq<JobId>, budget: nat, r: Round, n: nat, i: nat)
    requires Waiting(jobs, snapshot) && i < n < |snapshot| && |r.jobs| == |jobs|
    requires ServedAt(jobs, snapshot, budget, r, i)
    ensures ServedAt(jobs, snapshot, budget, Serve(r, snapshot[n]), i)
  {
    var id := snapshot[n];
    var j := r.jobs[id];
    if r.budget > 0 && Left(j) > 0 {
      var take := if Left(j) > r.budget then r.budget else Left(j);
      RangesOfAppend(r.ranges, Range(id, j.position, j.position + take), snapshot[i]);
      EmptyConcat(RangesOf(r.ranges, snapshot[i]));
    }
  }

  lemma ServeKeepsUntouched(jobs: seq<Job>, r: Round, id: JobId, other: JobId)
    requires |r.jobs| == |jobs| && id < |jobs| && other != id
    requires UntouchedAt(jobs, r, other)
    ensures UntouchedAt(jobs, Serve(r, id), other)
  {
    var j := r.jobs[id];
    if r.budget > 0 && Left(j) > 0 {
      var take := if Left(j) > r.budget then r.budget else Left(j);
      RangesOfAppend(r.ranges, Range(id, j.position, j.position + take), other);
    }
  }

  lemma ServeOne(jobs: seq<Job>, snapshot: seq<JobId>, budget: nat, r: Round, n: nat)
    requires Waiting(jobs, snapshot) && n < |snapshot| && |r.jobs| == |jobs|
    requires r.budget == Max0(budget - Ahead(jobs, snapshot, n))
    requires UntouchedAt(jobs, r, snapshot[n])
    ensures ServedAt(jobs, snapshot, budget, Serve(r, snapshot[n]), n)
  {
    var id := snapshot[n];
    var j := r.jobs[id];
    var take := Share(jobs, snapshot, budget, n);
    var range := Range(id, j.position, j.position + take);
    RangesOfAppend(r.ranges, range, id);
    EmptyConcat([range]);
  }

  /** Serving the first n jobs uses up what they need, as far as the budget goes. */
  lemma {:induction false} BudgetLeft(jobs: seq<Job>, snapshot: seq<JobId>, budget: nat, n: nat)
    requires Waiting(jobs, snapshot) && n <= |snapshot|
    ensures ServeAll(Round(jobs, budget, {}, []), snapshot[..n]).budget == Max0(budget - Ahead(jobs, snapshot, n))
    ensures n < |snapshot| ==> UntouchedAt(jobs, ServeAll(Round(jobs, budget, {}, []), snapshot[..n]), snapshot[n])
  {
    if n < |snapshot| {
      NotYetServed(jobs, snapshot, budget, n, snapshot[n]);
    }
    if n > 0 {
      TakeNext(snapshot, n - 1);
      BudgetLeft(jobs, snapshot, budget, n - 1);
    }
  }

  lemma {:induction false} NotYetServed(jobs: seq<Job>, snapshot: seq<JobId>, budget: nat, n: nat, id: JobId)
    requires Waiting(jobs, snapshot) && n <= |snapshot|
    requires forall i :: 0 <= i < n ==> snapshot[i] != id
    ensures UntouchedAt(jobs, ServeAll(Round(jobs, budget, {}, []), snapshot[..n]), id)
  {
    if n > 0 {
      TakeNext(snapshot, n - 1);
      NotYetServed(jobs, snapshot, budget, n - 1, id);
      ServeKeepsUntouched(jobs, ServeAll(Round(jobs, budget, {}, []), snapshot[..n - 1]), snapshot[n - 1], id);
    }
  }

  lemma {:induction false} AlreadyServed(jobs: seq<Job>, snapshot: seq<JobId>, budget: nat, n: nat, i: nat)
    requires Waiting(jobs, snapshot) && i < n <= |snapshot|
    ensures ServedAt(jobs, snapshot, budget, ServeAll(Round(jobs, budget, {}, []), snapshot[..n]), i)
  {
    TakeNext(snapshot, n - 1);
    var r := ServeAll(Round(jobs, budget, {}, []), snapshot[..n - 1]);
    if i < n - 1 {
      AlreadyServed(jobs, snapshot, budget, n - 1, i);
      ServeKeepsOthers(jobs, snapshot, budget, r, n - 1, i);
    } else {
      BudgetLeft(jobs, snapshot, budget, i);
      ServeOne(jobs, snapshot, budget, r, i);
    }
  }

  lemma AllServed(jobs: seq<Job>, snapshot: seq<JobId>, budget: nat, id: JobId)
    requires Waiting(jobs, snapshot)
    ensures var r := ServeAll(Round(jobs, budget, {}, []), snapshot);
            if id in snapshot then
                exists i: nat :: i < |snapshot| && snapshot[i] == id && ServedAt(jobs, snapshot, budget, r, i)
            else UntouchedAt(jobs, r, id)
  {
    TakeAll(snapshot);
    if id in snapshot {
      var i: nat :| i < |snapshot| && snapshot[i] == id;
      AlreadyServed(jobs, snapshot, budget, |snapshot|, i);
    } else {
      NotYetServed(jobs, snapshot, budget, |snapshot|, id);
    }
  }

  /** The tokens of a list of ranges. */
  function Taken(ranges: seq<Range>): int {
    if ranges == [] then 0 else Taken(ranges[..|ranges| - 1]) + ranges[|ranges| - 1].to - ranges[|ranges| - 1].from
  }

  lemma {:induction false} TakenFromBudget(r: Round, snapshot: seq<JobId>)
    requires forall i :: 0 <= i < |snapshot| ==> snapshot[i] < |r.jobs|
    ensures Taken(ServeAll(r, snapshot).ranges) + ServeAll(r, snapshot).budget == Taken(r.ranges) + r.budget
  {
    if snapshot != [] {
      var n := |snapshot| - 1;
      TakenFromBudget(r, snapshot[..n]);
      var q := ServeAll(r, snapshot[..n]);
      var q' := Serve(q, snapshot[n]);
      if q'.ranges != q.ranges {
        FrontOfConcat(q.ranges, [q'.ranges[|q.ranges|]]);
        EmptyConcat(q.ranges);
      }
    }
  }

  /** Every round takes the whole budget or everything its snapshot still needs, whichever is less. */
  lemma RoundTakesAllItCan(jobs: seq<Job>, snapshot: seq<JobId>, budget: nat)
    requires Waiting(jobs, snapshot)
    ensures var r := ServeAll(Round(jobs, budget, {}, []), snapshot);
            Taken(r.ranges) == budget - r.budget == Min(budget, Ahead(jobs, snapshot, |snapshot|))
  {
    TakeAll(snapshot);
    BudgetLeft(jobs, snapshot, budget, |snapshot|);
    TakenFromBudget(Round(jobs, budget, {}, []), snapshot);
  }

  // ---------------------------------------------------------------- the account of a job over the history

  function RangesIn(history: seq<Forward>, id: JobId): seq<Range> {
    if history == [] then []
    else RangesIn(history[..|history| - 1], id) + RangesOf(history[|history| - 1].ranges, id)
  }

  /** The latency of all forwards that the job was waiting in. */
  function Waited(history: seq<Forward>, id: JobId): real {
    if history == [] then 0.0
    else
      var f := history[|history| - 1];
      Waited(history[..|history| - 1], id) + (if id in f.snapshot then f.latency else 0.0)
  }

  lemma HistoryGrows(history: seq<Forward>, f: Forward, id: JobId)
    ensures RangesIn(history + [f], id) == RangesIn(history, id) + RangesOf(f.ranges, id)
    ensures Waited(history + [f], id) == Waited(history, id) + (if id in f.snapshot then f.latency else 0.0)
  {
    FrontOfConcat(history, [f]);
    EmptyConcat(history);
  }

  /** The ranges are non-empty and follow one another from `from` to `to`. */
  predicate Contiguous(ranges: seq<Range>, from: nat, to: nat) {
    if ranges == [] then from == to
    else
      var last := ranges[|ranges| - 1];
      last.from < last.to == to && Contiguous(ranges[..|ranges| - 1], from, last.from)
  }

  lemma ContiguousGrows(ranges: seq<Range>, from: nat, to: nat, r: Range)
    requires Contiguous(ranges, from, to) && r.from == to && r.from < r.to
    ensures Contiguous(ranges + [r], from, r.to)
  {
    FrontOfConcat(ranges, [r]);
    EmptyConcat(ranges);
  }

  /** How many ranges cover a position. */
  function Covers(ranges: seq<Range>, position: nat): nat {
    if ranges == [] then 0
    else
      var last := ranges[|ranges| - 1];
      Covers(ranges[..|ranges| - 1], position) + (if last.from <= position < last.to then 1 else 0)
  }

  lemma {:induction false} ContiguousCoversOnce(ranges: seq<Range>, from: nat, to: nat, position: nat)
    requires Contiguous(ranges, from, to)
    ensures from <= to && Covers(ranges, position) == if from <= position < to then 1 else 0
  {
    if ranges != [] {
      ContiguousCoversOnce(ranges[..|ranges| - 1], from, ranges[|ranges| - 1].from, position);
    }
  }

  ghost predicate AccountAt(s: System, id: JobId) {
    if id < |s.jobs| then
      var j := s.jobs[id];
      && Contiguous(RangesIn(s.history, id), j.start, j.position)
      && j.elapsed == Waited(s.history, id)
      && (id !in s.pending ==> j.position == j.end && j.answers == [j.elapsed])
    else
      RangesIn(s.history, id) == [] && Waited(s.history, id) == 0.0
  }

  // ---------------------------------------------------------------- the invariant

  /** The first k pending jobs are complete, the next may be partly done, the rest are untouched. */
  predicate QueuedAt(j: Job, i: nat, k: nat) {
    && j.answers == []
    && j.start <= j.position
    && (if i < k then j.position == j.end else j.position < j.end)
    && (i > k ==> j.position == j.start)
  }

  ghost predicate QueueShape(jobs: seq<Job>, pending: seq<JobId>, k: nat) {
    && k <= |pending|
    && Distinct(pending)
    && forall i :: 0 <= i < |pending| ==> pending[i] < |jobs| && QueuedAt(jobs[pending[i]], i, k)
  }

  ghost predicate CompletedPrefix(pending: seq<JobId>, completed: set<JobId>, k: nat) {
    forall i :: 0 <= i < |pending| ==> (pending[i] in completed <==> i < k)
  }

  ghost predicate ProcInv(s: System, p: Proc) {
    match p
    case Exited => true
    case Top => QueueShape(s.jobs, s.pending, 0)
    case Have(snapshot) => snapshot != [] && snapshot <= s.pending && QueueShape(s.jobs, s.pending, 0)
    case Computed(snapshot, completed) =>
      && snapshot <= s.pending
      && (forall id :: id in completed ==> id in snapshot)
      && exists k: nat ::
         k <= |snapshot| && QueueShape(s.jobs, s.pending, k) && CompletedPrefix(s.pending, completed, k)
  }

  predicate Active(s: System, p: nat) {
    p < |s.procs| && s.procs[p] != Exited
  }

  ghost predicate OneProcessor(s: System) {
    && (forall p, q :: Active(s, p) && Active(s, q) ==> p == q)
    && (s.running <==> exists p :: Active(s, p))
    && (s.pending != [] ==> s.running)
  }

  ghost predicate Inv(s: System) {
    && OneProcessor(s)
    && (forall p :: 0 <= p < |s.procs| ==> ProcInv(s, s.procs[p]))
    && (forall id: nat {:trigger RangesIn(s.history, id)} :: AccountAt(s, id))
  }

  lemma SubmitKeepsOneProcessor(s: System, cached: int, inputTokens: nat)
    requires OneProcessor(s)
    ensures OneProcessor(Submitted(s, cached, inputTokens))
  {
    var s' := Submitted(s, cached, inputTokens);
    if s' != s {
      assert forall p :: Active(s, p) ==> Active(s', p);
      if !s.running {
        assert Active(s', |s.procs|);
        assert forall p :: Active(s', p) ==> p == |s.procs| || Active(s, p);
      } else {
        assert forall p :: Active(s', p) ==> Active(s, p);
      }
    }
  }

  lemma SubmitKeepsQueue(jobs: seq<Job>, pending: seq<JobId>, k: nat, j: Job)
    requires QueueShape(jobs, pending, k)
    requires j.answers == [] && j.start == j.position < j.end
    ensures QueueShape(jobs + [j], pending + [|jobs|], k)
  {
    var jobs', pending' := jobs + [j], pending + [|jobs|];
    forall i | 0 <= i < |pending'| ensures pending'[i] < |jobs'| && QueuedAt(jobs'[pending'[i]], i, k) {
      if i < |pending| {
        assert pending'[i] == pending[i];
      }
    }
    forall a, b | 0 <= a < b < |pending'| ensures pending'[a] != pending'[b] {
      assert pending'[a] == pending[a];
    }
  }

  lemma CompletedStays(pending: seq<JobId>, completed: set<JobId>, k: nat, id: JobId)
    requires CompletedPrefix(pending, completed, k) && k <= |pending| && id !in completed
    ensures CompletedPrefix(pending + [id], completed, k)
  {
  }

  lemma SubmitKeepsProc(s: System, cached: int, inputTokens: nat, p: Proc)
    requires ProcInv(s, p)
    ensures ProcInv(Submitted(s, cached, inputTokens), p)
  {
    var s' := Submitted(s, cached, inputTokens);
    if s' != s && p != Exited {
      var j := s'.jobs[|s.jobs|];
      if p.Computed? {
        var k: nat :| k <= |p.snapshot| && QueueShape(s.jobs, s.pending, k) &&
            CompletedPrefix(s.pending, p.completed, k);
        SubmitKeepsQueue(s.jobs, s.pending, k, j);
        CompletedStays(s.pending, p.completed, k, |s.jobs|);
      } else {
        SubmitKeepsQueue(s.jobs, s.pending, 0, j);
      }
    }
  }

  lemma SubmitKeepsInv(s: System, cached: int, inputTokens: nat)
    requires Inv(s)
    ensures Inv(Submitted(s, cached, inputTokens))
  {
    var s' := Submitted(s, cached, inputTokens);
    SubmitKeepsOneProcessor(s, cached, inputTokens);
    forall p | 0 <= p < |s'.procs| ensures ProcInv(s', s'.procs[p]) {
      if p < |s.procs| {
        SubmitKeepsProc(s, cached, inputTokens, s.procs[p]);
      } else {
        assert s.pending == [];
        assert ProcInv(s, Top);
        SubmitKeepsProc(s, cached, inputTokens, Top);
      }
    }
    forall id: nat ensures AccountAt(s', id) {
      assert AccountAt(s, id) by {
        assert RangesIn(s.history, id) == RangesIn(s.history, id);
      }
      if s' != s {
        assert forall x :: x in s'.pending <==> x in s.pending || x == |s.jobs|;
      }
    }
  }

  lemma ProcChanges(s: System, s': System, p: nat)
    requires OneProcessor(s) && p < |s.procs| && Active(s, p)
    requires |s'.procs| == |s.procs| && s'.procs == s.procs[p := s'.procs[p]]
    requires s'.running <==> s'.procs[p] != Exited
    requires s'.procs[p] == Exited ==> s'.pending == []
    ensures OneProcessor(s')
    ensures forall q :: 0 <= q < |s'.procs| && q != p ==> s'.procs[q] == Exited
  {
    forall q | 0 <= q < |s'.procs| && q != p ensures s'.procs[q] == Exited {
      assert !Active(s, q);
    }
    if s'.procs[p] != Exited {
      assert Active(s', p);
    }
  }

  lemma SnapshotKeepsInv(s: System, p: nat)
    requires Inv(s) && Enabled(s, Snapshot(p))
    ensures Inv(Next(s, Snapshot(p)))
  {
    var s' := Next(s, Snapshot(p));
    assert Active(s, p);
    ProcChanges(s, s', p);
    assert ProcInv(s, s.procs[p]);
    forall id: nat ensures AccountAt(s', id) {
      assert AccountAt(s, id) by {
        assert RangesIn(s.history, id) == RangesIn(s.history, id);
      }
    }
  }

  lemma {:induction false} UnfinishedIsRest(pending: seq<JobId>, completed: set<JobId>, k: nat)
    requires CompletedPrefix(pending, completed, k) && k <= |pending|
    ensures Unfinished(pending, completed) == pending[k..]
  {
    if pending != [] {
      var n := |pending| - 1;
      if k <= n {
        UnfinishedIsRest(pending[..n], completed, k);
        assert pending[k..] == pending[..n][k..] + [pending[n]];
      } else {
        UnfinishedIsRest(pending[..n], completed, n);
      }
    }
  }

  lemma PublishKeepsQueue(jobs: seq<Job>, pending: seq<JobId>, completed: set<JobId>, k: nat)
    requires QueueShape(jobs, pending, k) && CompletedPrefix(pending, completed, k)
    ensures QueueShape(Answered(jobs, pending, completed), pending[k..], 0)
  {
    var rest := pending[k..];
    var jobs' := Answered(jobs, pending, completed);
    forall i | 0 <= i < |rest| ensures rest[i] < |jobs'| && QueuedAt(jobs'[rest[i]], i, 0) {
      assert rest[i] == pending[k + i];
    }
  }

  lemma PublishAccountAt(s: System, p: nat, k: nat, id: JobId)
    requires Enabled(s, Publish(p)) && AccountAt(s, id)
    requires QueueShape(s.jobs, s.pending, k) && CompletedPrefix(s.pending, s.procs[p].completed, k)
    ensures AccountAt(Next(s, Publish(p)), id)
  {
    var completed := s.procs[p].completed;
    UnfinishedIsRest(s.pending, completed, k);
    if id in s.pending {
      var i :| 0 <= i < |s.pending| && s.pending[i] == id;
      if i >= k {
        assert s.pending[k..][i - k] == id;
      }
    }
  }

  lemma PublishKeepsInv(s: System, p: nat)
    requires Inv(s) && Enabled(s, Publish(p))
    ensures Inv(Next(s, Publish(p)))
  {
    var s' := Next(s, Publish(p));
    assert ProcInv(s, s.procs[p]);
    var k: nat :| k <= |s.procs[p].snapshot| && QueueShape(s.jobs, s.pending, k)
                  && CompletedPrefix(s.pending, s.procs[p].completed, k);
    assert Active(s, p);
    ProcChanges(s, s', p);
    UnfinishedIsRest(s.pending, s.procs[p].completed, k);
    PublishKeepsQueue(s.jobs, s.pending, s.procs[p].completed, k);
    forall id: nat ensures AccountAt(s', id) {
      assert AccountAt(s, id) by {
        assert RangesIn(s.history, id) == RangesIn(s.history, id);
      }
      PublishAccountAt(s, p, k, id);
    }
  }

  // ---------------------------------------------------------------- computing a round

  /** How many jobs of the snapshot the budget completes. */
  ghost function DoneCount(jobs: seq<Job>, snapshot: seq<JobId>, budget: nat, n: nat): (k: nat)
    requires Waiting(jobs, snapshot) && n <= |snapshot|
    ensures k <= n
  {
    if n == 0 || Ahead(jobs, snapshot, n) <= budget then n else DoneCount(jobs, snapshot, budget, n - 1)
  }

  lemma {:induction false} DoneCountIsFrontier(jobs: seq<Job>, snapshot: seq<JobId>, budget: nat, n: nat, i: nat)
    requires Waiting(jobs, snapshot) && i < n <= |snapshot|
    ensures i < DoneCount(jobs, snapshot, budget, n) <==> Ahead(jobs, snapshot, i) + Left(jobs[snapshot[i]]) <= budget
    ensures i > DoneCount(jobs, snapshot, budget, n) ==> budget < Ahead(jobs, snapshot, i)
    decreases n
  {
    AheadGrows(jobs, snapshot, i, n);
    if Ahead(jobs, snapshot, n) > budget && i < n - 1 {
      DoneCountIsFrontier(jobs, snapshot, budget, n - 1, i);
    }
  }

  /** One pending job after a round. */
  lemma ComputedQueueAt(jobs: seq<Job>, pending: seq<JobId>, snapshot: seq<JobId>, budget: nat, latency: real, i: nat)
    requires QueueShape(jobs, pending, 0) && Waiting(jobs, snapshot) && snapshot <= pending && i < |pending| &&
             budget >= 1
    ensures var r := ServeAll(Round(jobs, budget, {}, []), snapshot);
            var k := DoneCount(jobs, snapshot, budget, |snapshot|);
            && QueuedAt(Aged(r.jobs, snapshot, latency)[pending[i]], i, k)
            && (pending[i] in r.completed <==> i < k)
  {
    TakeAll(snapshot);
    var n := |snapshot|;
    assert QueuedAt(jobs[pending[i]], i, 0);
    if i < n {
      AlreadyServed(jobs, snapshot, budget, n, i);
      DoneCountIsFrontier(jobs, snapshot, budget, n, i);
    } else {
      forall a | 0 <= a < n ensures snapshot[a] != pending[i] {
        assert snapshot[a] == pending[a];
      }
      NotYetServed(jobs, snapshot, budget, n, pending[i]);
    }
  }

  lemma SnapshotIsWaiting(jobs: seq<Job>, pending: seq<JobId>, snapshot: seq<JobId>)
    requires QueueShape(jobs, pending, 0) && snapshot <= pending
    ensures Waiting(jobs, snapshot)
  {
    assert forall i :: 0 <= i < |snapshot| ==> snapshot[i] == pending[i];
  }

  lemma RoundExtends(j: Job, before: seq<Range>, added: seq<Range>, id: JobId, take: nat)
    requires Contiguous(before, j.start, j.position)
    requires added == if take == 0 then [] else [Range(id, j.position, j.position + take)]
    ensures Contiguous(before + added, j.start, j.position + take)
  {
    if take == 0 {
      EmptyConcat(before);
    } else {
      ContiguousGrows(before, j.start, j.position, added[0]);
    }
  }

  /** The account of one job after a round that served it. */
  lemma ServedRangesAt(jobs: seq<Job>, snapshot: seq<JobId>, budget: nat, r: Round, history: seq<Forward>,
                       latency: real, i: nat)
    requires Waiting(jobs, snapshot) && i < |snapshot| && |r.jobs| == |jobs| && ServedAt(jobs, snapshot, budget, r, i)
    requires var id := snapshot[i]; Contiguous(RangesIn(history, id), jobs[id].start, jobs[id].position)
    ensures var id := snapshot[i];
            && id < |r.jobs| && r.jobs[id] == jobs[id].(position := r.jobs[id].position)
            && Contiguous(RangesIn(history + [Forward(snapshot, r.ranges, latency)], id), jobs[id].start,
                          r.jobs[id].position)
  {
    var id := snapshot[i];
    HistoryGrows(history, Forward(snapshot, r.ranges, latency), id);
    RoundExtends(jobs[id], RangesIn(history, id), RangesOf(r.ranges, id), id, Share(jobs, snapshot, budget, i));
  }

  lemma RoundRangesAt(jobs: seq<Job>, snapshot: seq<JobId>, budget: nat, history: seq<Forward>, latency: real,
                      id: JobId)
    requires Waiting(jobs, snapshot) && id < |jobs|
    requires Contiguous(RangesIn(history, id), jobs[id].start, jobs[id].position)
    ensures var r := ServeAll(Round(jobs, budget, {}, []), snapshot);
            && r.jobs[id] == jobs[id].(position := r.jobs[id].position)
            && (id !in snapshot ==> r.jobs[id] == jobs[id])
            && Contiguous(RangesIn(history + [Forward(snapshot, r.ranges, latency)], id), jobs[id].start,
                          r.jobs[id].position)
  {
    var r := ServeAll(Round(jobs, budget, {}, []), snapshot);
    AllServed(jobs, snapshot, budget, id);
    if id in snapshot {
      var i: nat :| i < |snapshot| && snapshot[i] == id && ServedAt(jobs, snapshot, budget, r, i);
      ServedRangesAt(jobs, snapshot, budget, r, history, latency, i);
    } else {
      HistoryGrows(history, Forward(snapshot, r.ranges, latency), id);
      EmptyConcat(RangesIn(history, id));
    }
  }

  lemma ComputeAccountAt(s: System, p: nat, latency: real, id: JobId)
    requires Enabled(s, Compute(p, latency)) && Waiting(s.jobs, s.procs[p].snapshot) && AccountAt(s, id)
    requires forall i :: 0 <= i < |s.procs[p].snapshot| ==> s.procs[p].snapshot[i] in s.pending
    ensures AccountAt(Next(s, Compute(p, latency)), id)
  {
    var snapshot := s.procs[p].snapshot;
    var budget := Budget(s.maxTokens);
    var r := ServeAll(Round(s.jobs, budget, {}, []), snapshot);
    HistoryGrows(s.history, Forward(snapshot, r.ranges, latency), id);
    if id < |s.jobs| {
      RoundRangesAt(s.jobs, snapshot, budget, s.history, latency, id);
    } else {
      AllServed(s.jobs, snapshot, budget, id);
      EmptyConcat(RangesIn(s.history, id));
    }
  }

  lemma ComputeKeepsProc(s: System, p: nat, latency: real)
    requires Enabled(s, Compute(p, latency)) && ProcInv(s, s.procs[p])
    ensures var s' := Next(s, Compute(p, latency)); ProcInv(s', s'.procs[p])
  {
    var snapshot := s.procs[p].snapshot;
    var budget := Budget(s.maxTokens);
    var s' := Next(s, Compute(p, latency));
    SnapshotIsWaiting(s.jobs, s.pending, snapshot);
    var r := ServeAll(Round(s.jobs, budget, {}, []), snapshot);
    var k := DoneCount(s.jobs, snapshot, budget, |snapshot|);
    forall i | 0 <= i < |s.pending|
      ensures s.pending[i] < |s'.jobs| && QueuedAt(s'.jobs[s.pending[i]], i, k)
      ensures s.pending[i] in r.completed <==> i < k
    {
      ComputedQueueAt(s.jobs, s.pending, snapshot, budget, latency, i);
    }
    assert QueueShape(s'.jobs, s'.pending, k);
    assert CompletedPrefix(s'.pending, r.completed, k);
    TakeAll(snapshot);
    forall id | id in r.completed ensures id in snapshot {
      if id !in snapshot {
        NotYetServed(s.jobs, snapshot, budget, |snapshot|, id);
      }
    }
  }

  lemma ComputeKeepsInv(s: System, p: nat, latency: real)
    requires Inv(s) && Enabled(s, Compute(p, latency))
    ensures Inv(Next(s, Compute(p, latency)))
  {
    var s' := Next(s, Compute(p, latency));
    assert Active(s, p);
    assert ProcInv(s, s.procs[p]);
    ProcChanges(s, s', p);
    ComputeKeepsProc(s, p, latency);
    var snapshot := s.procs[p].snapshot;
    SnapshotIsWaiting(s.jobs, s.pending, snapshot);
    assert forall i :: 0 <= i < |snapshot| ==> snapshot[i] == s.pending[i];
    forall id: nat ensures AccountAt(s', id) {
      assert AccountAt(s, id) by {
        assert RangesIn(s.history, id) == RangesIn(s.history, id);
      }
      ComputeAccountAt(s, p, latency, id);
    }
  }

  lemma NextKeepsInv(s: System, l: Label)
    requires Inv(s) && Enabled(s, l)
    ensures Inv(Next(s, l))
  {
    match l
    case Submit(cached, inputTokens) => SubmitKeepsInv(s, cached, inputTokens);
    case Snapshot(p) => SnapshotKeepsInv(s, p);
    case Compute(p, latency) => ComputeKeepsInv(s, p, latency);
    case Publish(p) => PublishKeepsInv(s, p);
  }

  // ---------------------------------------------------------------- runs

  function Start(maxTokens: int): System {
    System([], [], false, [], maxTokens, [])
  }

  ghost predicate IsRun(states: seq<System>, labels: seq<Label>) {
    && |states| == |labels| + 1
    && states[0] == Start(states[0].maxTokens)
    && forall i :: 0 <= i < |labels| ==> Enabled(states[i], labels[i]) && states[i + 1] == Next(states[i], labels[i])
  }

  lemma StartInv(maxTokens: int)
    ensures Inv(Start(maxTokens))
  {
    var s := Start(maxTokens);
    assert forall p :: !Active(s, p);
    forall id: nat ensures AccountAt(s, id) {
    }
  }

  lemma {:induction false} RunKeepsInv(states: seq<System>, labels: seq<Label>, i: nat)
    requires IsRun(states, labels) && i < |states|
    ensures Inv(states[i])
  {
    if i == 0 {
      StartInv(states[0].maxTokens);
    } else {
      RunKeepsInv(states, labels, i - 1);
      NextKeepsInv(states[i - 1], labels[i - 1]);
    }
  }

  // ---------------------------------------------------------------- progress

  function Lefts(jobs: seq<Job>): (ls: seq<int>)
    ensures |ls| == |jobs|
  {
    seq(|jobs|, i requires 0 <= i < |jobs| => Left(jobs[i]))
  }

  function Rank(p: Proc): int {
    match p
    case Computed(_, _) => 3
    case Top => 2
    case Have(_) => 1
    case Exited => 0
  }

  function Ranks(procs: seq<Proc>): seq<int> {
    seq(|procs|, i requires 0 <= i < |procs| => Rank(procs[i]))
  }

  lemma RanksUpdate(procs: seq<Proc>, p: nat, to: Proc)
    requires p < |procs|
    ensures Sum(Ranks(procs[p := to])) == Sum(Ranks(procs)) - Rank(procs[p]) + Rank(to)
  {
    assert Ranks(procs[p := to]) == Ranks(procs)[p := Rank(to)];
    SumUpdate(Ranks(procs), p, Rank(to));
  }

  lemma {:induction false} WorkFromBudget(r: Round, snapshot: seq<JobId>)
    requires forall i :: 0 <= i < |snapshot| ==> snapshot[i] < |r.jobs|
    ensures Sum(Lefts(ServeAll(r, snapshot).jobs)) - ServeAll(r, snapshot).budget == Sum(Lefts(r.jobs)) - r.budget
  {
    if snapshot != [] {
      var n := |snapshot| - 1;
      WorkFromBudget(r, snapshot[..n]);
      var q, id := ServeAll(r, snapshot[..n]), snapshot[n];
      var q' := Serve(q, id);
      if q'.jobs != q.jobs {
        assert Lefts(q'.jobs) == Lefts(q.jobs)[id := Left(q'.jobs[id])];
        SumUpdate(Lefts(q.jobs), id, Left(q'.jobs[id]));
      }
    }
  }

  lemma AgeIsNotWork(jobs: seq<Job>, snapshot: seq<JobId>, latency: real)
    ensures Lefts(Aged(jobs, snapshot, latency)) == Lefts(jobs)
  {
  }

  /** A round of a non-empty snapshot takes at least one token. */
  lemma RoundReducesWork(jobs: seq<Job>, snapshot: seq<JobId>, budget: nat, latency: real)
    requires Waiting(jobs, snapshot) && snapshot != [] && budget >= 1
    ensures Sum(Lefts(Aged(ServeAll(Round(jobs, budget, {}, []), snapshot).jobs, snapshot, latency))) < Sum(Lefts(jobs))
  {
    var r0 := Round(jobs, budget, {}, []);
    var r := ServeAll(r0, snapshot);
    WorkFromBudget(r0, snapshot);
    RoundTakesAllItCan(jobs, snapshot, budget);
    AheadGrows(jobs, snapshot, 0, |snapshot|);
    AgeIsNotWork(r.jobs, snapshot, latency);
  }

  /** The work left and then the stage of the processor: smaller after every step but a submission. */
  lemma NextIsSmaller(s: System, l: Label)
    requires Inv(s) && Enabled(s, l) && !l.Submit?
    ensures var s' := Next(s, l);
            var work, work' := Sum(Lefts(s.jobs)), Sum(Lefts(s'.jobs));
            work' < work || (work' == work && Sum(Ranks(s'.procs)) < Sum(Ranks(s.procs)))
  {
    var s' := Next(s, l);
    assert ProcInv(s, s.procs[l.p]);
    if l.Compute? {
      var snapshot := s.procs[l.p].snapshot;
      SnapshotIsWaiting(s.jobs, s.pending, snapshot);
      RoundReducesWork(s.jobs, snapshot, Budget(s.maxTokens), l.latency);
    } else {
      RanksUpdate(s.procs, l.p, s'.procs[l.p]);
      assert Lefts(s'.jobs) == Lefts(s.jobs);
    }
  }

  lemma MeasureIsNatural(s: System)
    requires Inv(s)
    ensures Sum(Lefts(s.jobs)) >= 0 && Sum(Ranks(s.procs)) >= 0
  {
    SumIsNatural(Ranks(s.procs));
    forall id | 0 <= id < |s.jobs| ensures Lefts(s.jobs)[id] >= 0 {
      assert AccountAt(s, id) by {
        assert RangesIn(s.history, id) == RangesIn(s.history, id);
      }
      if i :| 0 <= i < |s.pending| && s.pending[i] == id {
        var p: nat :| Active(s, p);
        assert ProcInv(s, s.procs[p]);
        assert QueuedAt(s.jobs[s.pending[i]], i, 0) || s.procs[p].Computed?;
      }
    }
    SumIsNatural(Lefts(s.jobs));
  }

  /** No wake-up is lost: while a job is pending some processor can take its next step. */
  lemma SomeStepIsEnabled(s: System)
    requires Inv(s) && s.pending != []
    ensures exists p: nat :: Enabled(s, Snapshot(p)) || Enabled(s, Compute(p, 0.0)) || Enabled(s, Publish(p))
  {
    var p: nat :| Active(s, p);
    assert ProcInv(s, s.procs[p]);
    if s.procs[p].Have? {
      SnapshotIsWaiting(s.jobs, s.pending, s.procs[p].snapshot);
    }
    assert Enabled(s, Snapshot(p)) || Enabled(s, Compute(p, 0.0)) || Enabled(s, Publish(p));
  }

  // ---------------------------------------------------------------- what every request gets

  function CountOf(shape: Shape, inputTokens: nat, routes: seq<nat>, ranges: seq<Range>, l: nat, e: nat): nat
    requires ValidRoutes(shape, shape.layers * inputTokens, routes) && l < shape.layers
  {
    if ranges == [] then 0
    else
      var last := ranges[|ranges| - 1];
      CountOf(shape, inputTokens, routes, ranges[..|ranges| - 1], l, e) +
      PrefillCount(shape, inputTokens, routes, last.from, last.to, l, e)
  }

  lemma {:induction false} CountOfContiguous(
    shape: Shape, inputTokens: nat, routes: seq<nat>, ranges: seq<Range>, from: nat, to: nat, l: nat, e: nat)
    requires ValidRoutes(shape, shape.layers * inputTokens, routes) && l < shape.layers
    requires Contiguous(ranges, from, to) && to <= inputTokens
    ensures CountOf(shape, inputTokens, routes, ranges, l, e) ==
            PrefillCount(shape, inputTokens, routes, from, to, l, e)
  {
    ContiguousCoversOnce(ranges, from, to, 0);
    if ranges != [] {
      var last := ranges[|ranges| - 1];
      ContiguousCoversOnce(ranges[..|ranges| - 1], from, last.from, 0);
      CountOfContiguous(shape, inputTokens, routes, ranges[..|ranges| - 1], from, last.from, l, e);
      ChunksAddUp(shape, inputTokens, routes, from, last.from, to, l, e);
    }
  }

  /**
   In every reachable state, a job that is no longer pending has been answered exactly once, with the latency of
   exactly the forwards it waited in, and each of its positions was in exactly one forward.
   */
  lemma EveryJobIsServedOnce(states: seq<System>, labels: seq<Label>, i: nat, id: JobId, position: nat)
    requires IsRun(states, labels) && i < |states| && id < |states[i].jobs| && id !in states[i].pending
    ensures var s := states[i]; var j := s.jobs[id];
            && j.answers == [Waited(s.history, id)]
            && Covers(RangesIn(s.history, id), position) == if j.start <= position < j.end then 1 else 0
  {
    var s := states[i];
    RunKeepsInv(states, labels, i);
    assert AccountAt(s, id) by {
      assert RangesIn(s.history, id) == RangesIn(s.history, id);
    }
    ContiguousCoversOnce(RangesIn(s.history, id), s.jobs[id].start, s.jobs[id].end, position);
  }

  /** The forwards of a served job together add the counts of all its uncached positions. */
  lemma ForwardsAddUp(states: seq<System>, labels: seq<Label>, i: nat, id: JobId, shape: Shape, routes: seq<nat>,
                      l: nat, e: nat)
    requires IsRun(states, labels) && i < |states| && id < |states[i].jobs| && id !in states[i].pending
    requires ValidRoutes(shape, shape.layers * states[i].jobs[id].end, routes) && l < shape.layers
    ensures var s := states[i]; var j := s.jobs[id];
            CountOf(shape, j.end, routes, RangesIn(s.history, id), l, e) ==
            PrefillCount(shape, j.end, routes, j.start, j.end, l, e)
  {
    var s := states[i];
    RunKeepsInv(states, labels, i);
    assert AccountAt(s, id) by {
      assert RangesIn(s.history, id) == RangesIn(s.history, id);
    }
    CountOfContiguous(shape, s.jobs[id].end, routes, RangesIn(s.history, id), s.jobs[id].start, s.jobs[id].end, l, e);
  }

  // ---------------------------------------------------------------- the batcher object

  method PublishJobs(jobs: seq<Job>, pending: seq<JobId>, completed: set<JobId>)
    returns (jobs': seq<Job>, rest: seq<JobId>)
    requires Distinct(pending) && forall i :: 0 <= i < |pending| ==> pending[i] < |jobs|
    ensures jobs' == Answered(jobs, pending, completed) && rest == Unfinished(pending, completed)
  {
    jobs', rest := jobs, [];
    TakeAll(pending);
    for n := 0 to |pending|
      invariant |jobs'| == |jobs| && rest == Unfinished(pending[..n], completed)
      invariant forall i :: 0 <= i < |jobs| ==>
                  jobs'[i] == if i in pending[..n] && i in completed then
                      jobs[i].(answers := jobs[i].answers + [jobs[i].elapsed])
                              else jobs[i]
    {
      TakeNext(pending, n);
      var id := pending[n];
      if id in completed {
        jobs' := jobs'[id := jobs'[id].(answers := jobs'[id].answers + [jobs'[id].elapsed])];
      } else {
        rest := rest + [id];
      }
    }
  }

  method AgeJobs(jobs: seq<Job>, snapshot: seq<JobId>, latency: real) returns (jobs': seq<Job>)
    requires Distinct(snapshot) && forall i :: 0 <= i < |snapshot| ==> snapshot[i] < |jobs|
    ensures jobs' == Aged(jobs, snapshot, latency)
  {
    jobs' := jobs;
    TakeAll(snapshot);
    for n := 0 to |snapshot|
      invariant |jobs'| == |jobs|
      invariant forall i :: 0 <= i < |jobs| ==>
                  jobs'[i] == if i in snapshot[..n] then jobs[i].(elapsed := jobs[i].elapsed + latency) else jobs[i]
    {
      TakeNext(snapshot, n);
      var id := snapshot[n];
      jobs' := jobs'[id := jobs'[id].(elapsed := jobs'[id].elapsed + latency)];
    }
  }

  /** The batcher with the processors it started and the forwards they ran. */
  class Batcher {
    const maxTokens: int
    var jobs: seq<Job>
    var pending: seq<JobId>
    var running: bool
    ghost var procs: seq<Proc>
    ghost var history: seq<Forward>

    ghost function View(): System
      reads this
    {
      System(jobs, pending, running, procs, maxTokens, history)
    }

    constructor (maxTokens: int)
      ensures View() == Start(maxTokens)
    {
      this.maxTokens := maxTokens;
      jobs, pending, running, procs, history := [], [], false, [], [];
    }

    /** `leader` tells the caller to start a processor; `none` that there is nothing to wait for. */
    method Submit(cached: int, inputTokens: nat) returns (leader: bool, none: bool)
      modifies this
      ensures View() == Next(old(View()), Label.Submit(cached, inputTokens))
      ensures none <==> View() == old(View())
      ensures leader <==> |procs| > |old(procs)|
    {
      var from := if cached < 0 then 0 else cached;
      if from >= inputTokens {
        return false, true;
      }
      jobs, pending := jobs + [Job(from, from, inputTokens, 0.0, [])], pending + [|jobs|];
      leader, none := !running, false;
      if leader {
        running := true;
        procs := procs + [Top];
      }
    }

    method Snapshot(ghost p: nat) returns (snapshot: seq<JobId>)
      requires Enabled(View(), Label.Snapshot(p))
      modifies this
      ensures View() == Next(old(View()), Label.Snapshot(p))
      ensures snapshot == old(pending)
    {
      snapshot := pending;
      if |pending| == 0 {
        running := false;
        procs := procs[p := Exited];
      } else {
        procs := procs[p := Have(snapshot)];
      }
    }

    method Compute(ghost p: nat, snapshot: seq<JobId>, latency: real) returns (completed: set<JobId>)
      requires Inv(View()) && Enabled(View(), Label.Compute(p, latency)) && procs[p] == Have(snapshot)
      modifies this
      ensures View() == Next(old(View()), Label.Compute(p, latency))
      ensures procs[p] == Computed(snapshot, completed)
    {
      assert ProcInv(View(), procs[p]);
      SnapshotIsWaiting(jobs, pending, snapshot);
      var budget := if maxTokens < 1 then DEFAULT_BATCH_TOKENS else maxTokens;
      var r := ServeRound(jobs, snapshot, budget);
      jobs := AgeJobs(r.jobs, snapshot, latency);
      completed := r.completed;
      procs := procs[p := Computed(snapshot, completed)];
      history := history + [Forward(snapshot, r.ranges, latency)];
    }

    method Publish(ghost p: nat, completed: set<JobId>)
      requires Inv(View()) && Enabled(View(), Label.Publish(p)) && procs[p].completed == completed
      modifies this
      ensures View() == Next(old(View()), Label.Publish(p))
    {
      assert ProcInv(View(), procs[p]);
      jobs, pending := PublishJobs(jobs, pending, completed);
      procs := procs[p := Top];
    }
  }
}
