/**
 The event stream of the block cache: the batching sender (pkg/kvcache/kv_cache_sender.go), the sequence
 numbers of the publisher (pkg/common/publisher.go) and the replay window (pkg/kvcache/kv_events_replayer.go).

 The main results say that, in every run, the stream reproduces the set of cached blocks, and when a
 subscriber that missed batches catches up from the window.
 */
module EventLog {
  import opened Common
  import opened BlockCache
  import opened CacheInvariant
  import opened Subscriber

  // ---------------------------------------------------------------- the replay window

  /** A published batch with its sequence number. */
  datatype Entry = Entry(seqNum: nat, payload: seq<Event>)

  function Push(window: seq<Entry>, capacity: nat, e: Entry): seq<Entry>
    requires 1 <= capacity
  {
    (if |window| == capacity then window[1..] else window) + [e]
  }

  /** What remains of a window from the first entry numbered `start` or higher on. */
  function Since(window: seq<Entry>, start: nat): seq<Entry> {
    if window == [] then []
    else if window[0].seqNum >= start then window
    else Since(window[1..], start)
  }

  class ReplayQueue {
    var buf: seq<Entry>
    const capacity: nat

    constructor (capacity: nat)
      ensures buf == [] && this.capacity == capacity
    {
      buf, this.capacity := [], capacity;
    }

    method PushEntry(e: Entry)
      requires 1 <= capacity
      modifies this
      ensures buf == Push(old(buf), capacity, e)
    {
      if |buf| == capacity {
        buf := buf[1..];
      }
      buf := buf + [e];
    }

    /** Scans for the first entry to replay and copies out the rest. */
    method EntriesSince(start: nat) returns (result: seq<Entry>)
      ensures result == Since(buf, start)
    {
      var i := 0;
      assert buf[0..] == buf;
      while i < |buf| && buf[i].seqNum < start
        invariant 0 <= i <= |buf|
        invariant Since(buf[i..], start) == Since(buf, start)
      {
        assert buf[i..][1..] == buf[i + 1..];
        i := i + 1;
      }
      result := buf[i..];
    }
  }

  // ---------------------------------------------------------------- the sender

  datatype Config = Config(hasPublisher: bool, maxBatch: nat, hasReplayer: bool, windowCapacity: nat) {
    /** What the configuration check demands of the event options. */
    predicate Valid() {
      maxBatch >= 1 && (hasReplayer ==> windowCapacity >= 1)
    }
  }

  /** `published` lists every batch sent so far; `failed` means that a send error ended the sender. */
  datatype Sender = Sender(batch: seq<Event>, seqNum: nat, published: seq<Entry>, window: seq<Entry>, failed: bool)

  /** Publishes the collected batch, if any, under the next sequence number. */
  function Publish(cfg: Config, s: Sender, sendOk: bool): Sender
    requires cfg.Valid()
  {
    if s.batch == [] then s
    else if !sendOk then s.(seqNum := s.seqNum + 1, batch := [], failed := true)
    else
      var e := Entry(s.seqNum + 1, s.batch);
      s.(seqNum := s.seqNum + 1, batch := [], published := s.published + [e],
         window := if cfg.hasReplayer then Push(s.window, cfg.windowCapacity, e) else s.window)
  }

  /** Takes one event from the channel; a full batch is published at once. */
  function Receive(cfg: Config, s: Sender, e: Event, sendOk: bool): Sender
    requires cfg.Valid()
  {
    if !cfg.hasPublisher then s
    else
      var s' := s.(batch := s.batch + [e]);
      if |s'.batch| >= cfg.maxBatch then Publish(cfg, s', sendOk) else s'
  }

  /** The flush timer fired. */
  function Tick(cfg: Config, s: Sender, sendOk: bool): Sender
    requires cfg.Valid()
  {
    if !cfg.hasPublisher then s else Publish(cfg, s, sendOk)
  }

  /** The sender object: what it sends goes through the publisher, and into the replay queue if there is one. */
  class EventSender {
    const config: Config
    const replay: ReplayQueue
    var batch: seq<Event>
    var seqNum: nat
    var failed: bool
    ghost var published: seq<Entry>

    ghost function View(): Sender
      reads this, replay
    {
      Sender(batch, seqNum, published, replay.buf, failed)
    }

    ghost predicate Valid() {
      config.Valid() && (config.hasReplayer ==> replay.capacity == config.windowCapacity)
    }

    constructor (config: Config)
      requires config.Valid()
      ensures Valid() && this.config == config && fresh(replay) && View() == Sender([], 0, [], [], false)
    {
      this.config := config;
      replay := new ReplayQueue(config.windowCapacity);
      batch, seqNum, failed, published := [], 0, false, [];
    }

    /** `sendOk` is the answer of the socket. */
    method PublishHelper(sendOk: bool)
      requires Valid()
      modifies this, replay
      ensures View() == Publish(config, old(View()), sendOk)
    {
      if |batch| == 0 {
        return;
      }
      seqNum := seqNum + 1;
      if sendOk {
        published := published + [Entry(seqNum, batch)];
        if config.hasReplayer {
          replay.PushEntry(Entry(seqNum, batch));
        }
      } else {
        failed := true;
      }
      batch := [];
    }

    method OnEvent(e: Event, sendOk: bool)
      requires Valid()
      modifies this, replay
      ensures View() == Receive(config, old(View()), e, sendOk)
    {
      if !config.hasPublisher {
        return;
      }
      batch := batch + [e];
      if |batch| >= config.maxBatch {
        PublishHelper(sendOk);
      }
    }

    method OnTimer(sendOk: bool)
      requires Valid()
      modifies this, replay
      ensures View() == Tick(config, old(View()), sendOk)
    {
      if config.hasPublisher {
        PublishHelper(sendOk);
      }
    }
  }

  function Payloads(entries: seq<Entry>): seq<Event> {
    if entries == [] then []
    else Payloads(entries[..|entries| - 1]) + entries[|entries| - 1].payload
  }

  /** The batches still held by a window of that capacity. */
  function LatestOf(published: seq<Entry>, capacity: nat): seq<Entry> {
    if |published| <= capacity then published else published[|published| - capacity..]
  }

  ghost predicate Numbered(published: seq<Entry>) {
    forall i :: 0 <= i < |published| ==> published[i].seqNum == i + 1
  }

  ghost predicate SenderInv(cfg: Config, s: Sender) {
    && Numbered(s.published) && |s.batch| < cfg.maxBatch
    && (forall i :: 0 <= i < |s.published| ==> 1 <= |s.published[i].payload| <= cfg.maxBatch)
    && (!s.failed ==> s.seqNum == |s.published|)
    && s.window == if cfg.hasReplayer then LatestOf(s.published, cfg.windowCapacity) else []
  }

  lemma PushKeepsLatest(published: seq<Entry>, capacity: nat, e: Entry)
    requires 1 <= capacity
    ensures Push(LatestOf(published, capacity), capacity, e) == LatestOf(published + [e], capacity)
  {
  }

  /** The sender between two events, or with one event taken in and not yet looked at. */
  ghost predicate AlmostInv(cfg: Config, s: Sender)
    requires cfg.Valid()
  {
    |s.batch| <= cfg.maxBatch && SenderInv(cfg, s.(batch := []))
  }

  /** An event that fills the batch sends it, with exactly maxBatch events; otherwise nothing is sent. */
  lemma FullBatchIsSent(cfg: Config, s: Sender, e: Event, sendOk: bool)
    requires cfg.Valid() && cfg.hasPublisher && SenderInv(cfg, s)
    ensures var s' := Receive(cfg, s, e, sendOk);
            if |s.batch| + 1 < cfg.maxBatch then s'.batch == s.batch + [e] && s'.published == s.published
            else
              && s'.batch == [] && (sendOk ==> s'.published == s.published + [Entry(s.seqNum + 1, s.batch + [e])])
              && |s.batch + [e]| == cfg.maxBatch
  {
  }

  lemma PublishKeepsInvariant(cfg: Config, s: Sender, sendOk: bool)
    requires cfg.Valid() && AlmostInv(cfg, s) && !s.failed
    ensures SenderInv(cfg, Publish(cfg, s, sendOk))
  {
    if s.batch != [] && sendOk && cfg.hasReplayer {
      PushKeepsLatest(s.published, cfg.windowCapacity, Entry(s.seqNum + 1, s.batch));
    }
  }

  /** Publishing moves events from the batch to the published stream and loses none. */
  lemma PublishKeepsStream(cfg: Config, s: Sender, sendOk: bool)
    requires cfg.Valid()
    ensures var s' := Publish(cfg, s, sendOk);
            !s'.failed ==> Payloads(s'.published) + s'.batch == Payloads(s.published) + s.batch
  {
    if s.batch != [] && sendOk {
      var e := Entry(s.seqNum + 1, s.batch);
      assert (s.published + [e])[..|s.published|] == s.published;
      EmptyConcat(Payloads(s.published) + s.batch);
    }
  }

  // ---------------------------------------------------------------- the whole system

  /**
   The cache, the events of its last operation that are not yet written, the channel and the sender. Since the last
   discard: `tidy` says that every admitted request was tidy, `intact` that the channel lost no event.
   */
  datatype System = System(cache: Cache, unwritten: seq<Event>, channel: Channel, sender: Sender, tidy: bool,
                           intact: bool)

  datatype Label =
    | Start(req: Request, hashes: seq<nat>, blockTokens: seq<seq<Token>>, now: Time, picks: seq<BlockKey>,
            emitted: seq<Event>, result: StartResult)
    | Finish(id: string, now: Time)
    | Discard
    | Activate
    | SetLoaded(model: string, isLoaded: bool)
    | Write
    | Deliver(sendOk: bool)
    | Flush(sendOk: bool)

  /** What an operation on the cache does to it. */
  ghost predicate CacheStep(c: Cache, l: Label, c': Cache) {
    match l
    case Start(req, hashes, toks, now, picks, es, r) => StartRequestSpec(c, c', req, hashes, toks, now, picks, es, r)
    case Finish(id, now) => c' == FinishRequestSpec(c, id, now).0
    case Discard => c' == DiscardSpec(c)
    case Activate => c' == c.(disabled := false)
    case SetLoaded(m, on) => c' == c.(loaded := if on then c.loaded + {m} else c.loaded - {m})
    case _ => false
  }

  function Emits(l: Label): seq<Event> {
    if l.Start? then l.emitted else if l.Discard? then [Cleared] else []
  }

  /** The operation admits no request, or a tidy one. */
  ghost predicate StaysTidy(c: Cache, l: Label) {
    l.Start? && !c.disabled && l.result.Hits? ==> Tidy(c, KeysOf(l.req.model, l.hashes), l.now)
  }

  /**
   One step of the system: an operation on the cache, which holds its lock until its events are written one by one, or a
   step of the sender while it runs.
   */
  ghost predicate Step(cfg: Config, s: System, l: Label, s': System)
    requires cfg.Valid()
  {
    match l
    case Write =>
      && s.unwritten != []
      && s' == s.(unwritten := s.unwritten[1..], channel := Offer(s.channel, s.unwritten[0]),
                  intact := s.intact && |s.channel.queue| < s.channel.capacity)
    case Deliver(ok) =>
      && !s.sender.failed && s.channel.queue != []
      && s' == s.(channel := s.channel.(queue := s.channel.queue[1..]),
                  sender := Receive(cfg, s.sender, s.channel.queue[0], ok))
    case Flush(ok) => !s.sender.failed && s' == s.(sender := Tick(cfg, s.sender, ok))
    case _ =>
      && s.unwritten == [] && CacheStep(s.cache, l, s'.cache)
      && s' == System(s'.cache, Emits(l), s.channel, s.sender,
                      l.Discard? || (s.tidy && StaysTidy(s.cache, l)), l.Discard? || s.intact)
  }

  function Stream(s: System): seq<Event> {
    Payloads(s.sender.published) + s.sender.batch + s.channel.queue + s.unwritten
  }

  /** Nothing was lost since the last discard: events are published, no channel write was dropped and no send failed. */
  predicate Lossless(cfg: Config, s: System) {
    cfg.hasPublisher && s.intact && !s.sender.failed
  }

  ghost predicate SystemInv(cfg: Config, s: System) {
    && AlwaysInv(s.cache) && SenderInv(cfg, s.sender)
    && (s.tidy ==> Inv(s.cache))
    && (s.tidy && Lossless(cfg, s) ==> Reflects(ApplyAll(multiset{}, Stream(s)), s.cache.Cached()))
  }

  ghost predicate Initial(s: System) {
    && s.cache.requests == map[] && s.cache.used == map[] && s.cache.unused == map[] && s.cache.tokens == map[]
    && s.unwritten == [] && s.channel.queue == [] && s.channel.lost == 0
    && s.sender == Sender([], 0, [], [], false) && s.tidy && s.intact
  }

  lemma CacheStepKeepsAlways(c: Cache, l: Label, c': Cache)
    requires AlwaysInv(c) && CacheStep(c, l, c')
    ensures AlwaysInv(c')
  {
    match l
    case Start(req, hashes, toks, now, picks, es, r) =>
      if !c.disabled && r.Hits? {
        AdmissionKeepsAlways(c, c', req, hashes, toks, now, picks, es, r);
      }
    case Finish(id, now) => FinishKeepsAlways(c, id, now);
    case Discard => EmptyCache(c');
    case _ =>
  }

  lemma CacheStepKeepsInvariant(c: Cache, l: Label, c': Cache)
    requires Inv(c) && CacheStep(c, l, c') && StaysTidy(c, l)
    ensures Inv(c')
  {
    match l
    case Start(req, hashes, toks, now, picks, es, r) =>
      if !c.disabled && r.Hits? {
        AdmissionKeepsInvariant(c, c', req, hashes, toks, now, picks, es, r);
      }
    case Finish(id, now) => FinishKeepsInvariant(c, id, now);
    case Discard => EmptyCache(c');
    case _ =>
  }

  lemma CacheStepReflects(c: Cache, l: Label, c': Cache, bag: multiset<nat>)
    requires Inv(c) && CacheStep(c, l, c') && StaysTidy(c, l) && !l.Discard? && Reflects(bag, c.Cached())
    ensures Reflects(ApplyAll(bag, Emits(l)), c'.Cached())
  {
    match l
    case Start(req, hashes, toks, now, picks, es, r) =>
      if !c.disabled && r.Hits? {
        AdmissionReflects(c, c', req, hashes, toks, now, picks, es, r, bag);
      }
    case Finish(id, now) => FinishKeepsAlways(c, id, now);
    case _ =>
  }

  /** Whatever went before, after a discard the stream reproduces the empty cache. */
  lemma DiscardRestores(c: Cache, before: seq<Event>)
    ensures Reflects(ApplyAll(multiset{}, before + Emits(Discard)), DiscardSpec(c).Cached())
  {
    FrontOfConcat(before, [Cleared]);
    EmptyReflects();
    assert DiscardSpec(c).Cached() == {};
  }

  /** An operation other than a discard or an activation leaves a disabled cache as it is and announces nothing. */
  lemma DisabledIsInert(c: Cache, l: Label, c': Cache)
    requires c.disabled && CacheStep(c, l, c') && !l.Discard? && !l.Activate?
    ensures c' == c.(loaded := c'.loaded) && Emits(l) == [] && (l.Start? ==> l.result == Hits(0))
  {
  }

  /** From a discard until the cache is activated again it stays empty and announces nothing but further discards. */
  lemma {:induction false} SleepsUntilActivated(states: seq<Cache>, labels: seq<Label>, i: nat)
    requires |states| == |labels| + 1 && i < |states|
    requires forall k :: 0 <= k < |labels| ==> CacheStep(states[k], labels[k], states[k + 1])
    requires |labels| >= 1 && labels[0] == Discard && forall k :: 0 <= k < |labels| ==> !labels[k].Activate?
    ensures i >= 1 ==> states[i].disabled && states[i].requests == map[] && states[i].Cached() == {}
    ensures 1 <= i < |labels| && !labels[i].Discard? ==> Emits(labels[i]) == []
  {
    if i >= 1 {
      assert CacheStep(states[i - 1], labels[i - 1], states[i]);
      if i >= 2 {
        SleepsUntilActivated(states, labels, i - 1);
        if !labels[i - 1].Discard? {
          DisabledIsInert(states[i - 1], labels[i - 1], states[i]);
        }
      }
      if i < |labels| && !labels[i].Discard? {
        assert CacheStep(states[i], labels[i], states[i + 1]);
        DisabledIsInert(states[i], labels[i], states[i + 1]);
      }
    }
  }

  /** Steps of the sender and successful writes only move events along the stream. */
  lemma SenderStepKeepsStream(cfg: Config, s: System, l: Label, s': System)
    requires cfg.Valid() && cfg.hasPublisher && (l.Deliver? || l.Flush?)
    requires Step(cfg, s, l, s') && !s'.sender.failed
    ensures Stream(s') == Stream(s)
  {
    if l.Deliver? {
      var e := s.channel.queue[0];
      var s1 := s.sender.(batch := s.sender.batch + [e]);
      if |s1.batch| >= cfg.maxBatch {
        PublishKeepsStream(cfg, s1, l.sendOk);
      }
      MoveAcross(Payloads(s.sender.published), s.sender.batch, s.channel.queue);
      assert Payloads(s'.sender.published) + s'.sender.batch == Payloads(s1.published) + s1.batch;
    } else {
      PublishKeepsStream(cfg, s.sender, l.sendOk);
    }
  }

  lemma MoveAcross<T>(a: seq<T>, b: seq<T>, c: seq<T>)
    requires c != []
    ensures a + (b + [c[0]]) + c[1..] == a + b + c
  {
  }

  lemma WriteKeepsStream(cfg: Config, s: System, s': System)
    requires cfg.Valid() && Step(cfg, s, Write, s') && s'.intact
    ensures Stream(s') == Stream(s)
  {
    MoveAcross(Payloads(s.sender.published) + s.sender.batch, s.channel.queue, s.unwritten);
  }

  lemma SenderStepKeepsInvariant(cfg: Config, s: System, l: Label, s': System)
    requires cfg.Valid() && (l.Deliver? || l.Flush?)
    requires SenderInv(cfg, s.sender) && Step(cfg, s, l, s')
    ensures SenderInv(cfg, s'.sender)
  {
    if cfg.hasPublisher {
      if l.Deliver? {
        var s1 := s.sender.(batch := s.sender.batch + [s.channel.queue[0]]);
        if |s1.batch| >= cfg.maxBatch {
          PublishKeepsInvariant(cfg, s1, l.sendOk);
        }
      } else {
        PublishKeepsInvariant(cfg, s.sender, l.sendOk);
      }
    }
  }

  ghost predicate OnCache(l: Label) {
    !l.Write? && !l.Deliver? && !l.Flush?
  }

  lemma CacheStepExtendsStream(cfg: Config, s: System, l: Label, s': System)
    requires cfg.Valid() && SystemInv(cfg, s) && Step(cfg, s, l, s') && OnCache(l) && s'.tidy && Lossless(cfg, s')
    ensures Reflects(ApplyAll(multiset{}, Stream(s')), s'.cache.Cached())
  {
    var before := Payloads(s.sender.published) + s.sender.batch + s.channel.queue;
    EmptyConcat(before);
    if l.Discard? {
      DiscardRestores(s.cache, before);
    } else {
      CacheStepReflects(s.cache, l, s'.cache, ApplyAll(multiset{}, before));
      ApplyInTurn(multiset{}, before, Emits(l));
    }
  }

  lemma CacheStepKeepsSystem(cfg: Config, s: System, l: Label, s': System)
    requires cfg.Valid() && SystemInv(cfg, s) && Step(cfg, s, l, s') && OnCache(l)
    ensures SystemInv(cfg, s')
  {
    CacheStepKeepsAlways(s.cache, l, s'.cache);
    if l.Discard? {
      EmptyCache(s'.cache);
    } else if s'.tidy {
      CacheStepKeepsInvariant(s.cache, l, s'.cache);
    }
    if s'.tidy && Lossless(cfg, s') {
      CacheStepExtendsStream(cfg, s, l, s');
    }
  }

  lemma StepKeepsInvariant(cfg: Config, s: System, l: Label, s': System)
    requires cfg.Valid() && SystemInv(cfg, s) && Step(cfg, s, l, s')
    ensures SystemInv(cfg, s')
  {
    if l.Deliver? || l.Flush? {
      SenderStepKeepsInvariant(cfg, s, l, s');
      if Lossless(cfg, s') {
        SenderStepKeepsStream(cfg, s, l, s');
      }
    } else if l.Write? {
      if s'.intact {
        WriteKeepsStream(cfg, s, s');
      }
    } else {
      CacheStepKeepsSystem(cfg, s, l, s');
    }
  }

  ghost predicate IsRun(cfg: Config, states: seq<System>, labels: seq<Label>) {
    && cfg.Valid()
    && |states| == |labels| + 1
    && Initial(states[0])
    && forall i :: 0 <= i < |labels| ==> Step(cfg, states[i], labels[i], states[i + 1])
  }

  /**
   In every run, at every moment, for any requests and any clock: no reference is held without a request that lists the
   block, and used and unused blocks are apart. If the requests admitted since the last discard were tidy, the whole
   cache invariant holds; if moreover no event was lost since then, a subscriber that applies the published batches,
   then the unsent batch, then the queued events, then those still to be written holds exactly the hashes of the cached
   blocks.
   */
  lemma {:induction false} StreamReproducesCache(cfg: Config, states: seq<System>, labels: seq<Label>, i: nat)
    requires IsRun(cfg, states, labels) && i < |states|
    ensures SystemInv(cfg, states[i])
  {
    if i == 0 {
      EmptyCache(states[0].cache);
      EmptyReflects();
      assert Stream(states[0]) == [];
    } else {
      StreamReproducesCache(cfg, states, labels, i - 1);
      assert Step(cfg, states[i - 1], labels[i - 1], states[i]);
      StepKeepsInvariant(cfg, states[i - 1], labels[i - 1], states[i]);
    }
  }

  // ---------------------------------------------------------------- a channel that is full

  function Room(ch: Channel): nat {
    if |ch.queue| < ch.capacity then ch.capacity - |ch.queue| else 0
  }

  /** A channel takes the events it has room for, and loses the others. */
  lemma {:induction false} OfferTakesPrefix(ch: Channel, es: seq<Event>)
    ensures var n := if |es| < Room(ch) then |es| else Room(ch);
            OfferAll(ch, es) == ch.(queue := ch.queue + es[..n], lost := ch.lost + |es| - n)
  {
    if es == [] {
      EmptyConcat(ch.queue);
    } else {
      var m := |es| - 1;
      OfferTakesPrefix(ch, es[..m]);
      if |es| <= Room(ch) {
        TakeNext(es, m);
        TakeAll(es);
        TakeAll(es[..m]);
        Associative(ch.queue, es[..m], [es[m]]);
      } else {
        assert es[..m][..Room(ch)] == es[..Room(ch)];
      }
    }
  }

  function FirstOnly(total: nat, n: nat): (keep: seq<bool>)
    ensures |keep| == total && forall i :: 0 <= i < total ==> keep[i] == (i < n)
  {
    seq(total, i => i < n)
  }

  lemma {:induction false} SelectPrefix(es: seq<Event>, n: nat)
    requires n <= |es|
    ensures Select(es, FirstOnly(|es|, n), true) == es[..n] && Select(es, FirstOnly(|es|, n), false) == es[n..]
  {
    if es != [] {
      var m := |es| - 1;
      SelectPrefix(es[..m], if n <= m then n else m);
      assert FirstOnly(|es|, n)[..m] == FirstOnly(m, if n <= m then n else m);
      TakeNext(es, m);
      TakeAll(es);
      if n <= m {
        assert es[..m][..n] == es[..n] && es[n..] == es[..m][n..] + [es[m]];
      }
    }
  }

  /**
   A tidy admission on a channel that takes only some of its events before they are drained: the stream still reproduces
   the cache exactly if the removals that were lost have the hashes of the store event that was lost.
   */
  lemma FullChannelIff(c: Cache, c': Cache, req: Request, hashes: seq<nat>, blockTokens: seq<seq<Token>>, now: Time,
                       picks: seq<BlockKey>, emitted: seq<Event>, r: StartResult, before: seq<Event>, ch: Channel)
    requires Inv(c) && Admitted(c, c', req, hashes, blockTokens, now, picks, emitted, r) &&
             Tidy(c, KeysOf(req.model, hashes), now)
    requires Reflects(ApplyAll(multiset{}, before + ch.queue), c.Cached())
    ensures var n := if |emitted| < Room(ch) then |emitted| else Room(ch);
            Reflects(ApplyAll(multiset{}, before + OfferAll(ch, emitted).queue), c'.Cached())
            <==> Removed(emitted[n..]) == Stored(emitted[n..])
  {
    var n := if |emitted| < Room(ch) then |emitted| else Room(ch);
    OfferTakesPrefix(ch, emitted);
    SelectPrefix(emitted, n);
    Associative(before, ch.queue, emitted[..n]);
    ApplyInTurn(multiset{}, before + ch.queue, emitted[..n]);
    LostEventsIff(c, c', req, hashes, blockTokens, now, picks, emitted, r, ApplyAll(multiset{}, before + ch.queue),
                  FirstOnly(|emitted|, n));
  }

  // ---------------------------------------------------------------- catching up by replay

  lemma {:induction false} SinceIsSuffix(window: seq<Entry>, first: nat, start: nat)
    requires forall i :: 0 <= i < |window| ==> window[i].seqNum == first + i
    ensures start <= first ==> Since(window, start) == window
    ensures first < start <= first + |window| ==> Since(window, start) == window[start - first..]
    ensures start > first + |window| ==> Since(window, start) == []
  {
    if window != [] && window[0].seqNum < start {
      SinceIsSuffix(window[1..], first + 1, start);
      if start <= first + |window| {
        assert window[1..][start - (first + 1)..] == window[start - first..];
      }
    }
  }

  /** The batches numbered `start` or higher (numbers begin with 1). */
  function Missed(published: seq<Entry>, start: nat): seq<Entry> {
    if start <= 1 then published
    else if start > |published| then []
    else published[start - 1..]
  }

  /**
   A replay from `start` delivers exactly the batches numbered `start` or higher if and only if none of
   them has left the window.
   */
  lemma ReplayIsCompleteIff(cfg: Config, s: Sender, start: nat)
    requires cfg.Valid() && cfg.hasReplayer && SenderInv(cfg, s)
    ensures Since(s.window, start) == Missed(s.published, start)
            <==> |s.published| <= cfg.windowCapacity || start + cfg.windowCapacity > |s.published|
  {
    var n, cap := |s.published|, cfg.windowCapacity;
    var gone := n - |s.window|;
    SinceIsSuffix(s.window, gone + 1, start);
    if gone + 1 < start <= gone + 1 + |s.window| && start <= n {
      assert s.window[start - (gone + 1)..] == s.published[start - 1..];
    }
  }

  /** A subscriber current up to batch start-1 that applies such a replay agrees with a live one. */
  lemma ReplayCatchesUp(cfg: Config, s: Sender, start: nat)
    requires cfg.Valid() && cfg.hasReplayer && SenderInv(cfg, s)
    requires 1 <= start <= |s.published| + 1 && start + cfg.windowCapacity > |s.published|
    ensures ApplyAll(ApplyAll(multiset{}, Payloads(s.published[..start - 1])), Payloads(Since(s.window, start)))
            == ApplyAll(multiset{}, Payloads(s.published))
  {
    ReplayIsCompleteIff(cfg, s, start);
    var seen, missed := s.published[..start - 1], Missed(s.published, start);
    assert s.published == seen + missed;
    PayloadsInTurn(seen, missed);
    ApplyInTurn(multiset{}, Payloads(seen), Payloads(missed));
  }

  lemma {:induction false} PayloadsInTurn(a: seq<Entry>, b: seq<Entry>)
    ensures Payloads(a + b) == Payloads(a) + Payloads(b)
  {
    if b == [] {
      EmptyConcat(a);
      EmptyConcat(Payloads(a));
    } else {
      FrontOfConcat(a, b);
      PayloadsInTurn(a, b[..|b| - 1]);
      Associative(Payloads(a), Payloads(b[..|b| - 1]), b[|b| - 1].payload);
    }
  }
}
