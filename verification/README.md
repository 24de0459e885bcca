# Verified models of the inference simulator's stateful cores

The simulator imitates a vLLM server: it accepts requests, keeps a KV block cache and announces its changes,
dispatches requests to workers under LoRA slot limits, places and routes the experts of a mixture-of-experts (MoE)
model, replays recorded expert routes ("traces"), and converts, writes and reads those traces. This project models the
six parts of it whose correctness is about whole runs, and proves what those parts promise. Every `.dfy` file is one
module; checking `dfyconfig.toml` with Dafny 4.11 checks all of them.

**Shape of the models.** Code that changes things step by step is modelled by classes and methods with loops, over
arrays, maps and sequences; each such method is proved against a function or relation on values, and the theorems are
about those. Concurrent protocols (decode barrier, prefill batcher, dispatcher, cache with its event sender) are state
machines whose steps are the program's critical sections or handled events, under every interleaving; the methods of
the classes are proved to perform exactly those steps. Times, costs and token demands are `real` numbers; integers
that the program stores in 32 or 64 bits are unbounded with the width written out where it matters. A panic, an error
return or a missing value is an `Option`, an outcome constructor or a `bool`.

**The six parts and their main results.**

1. *Decode barrier* (`DecodeBarrier`, `TraceRegistry`, `DecodeSharing`, `RouteCounts`). Any number of requests share
   one forward per generation. Safety, accounting, absence of deadlock and termination of every run, and: over a
   complete run the generations together count every recorded decode route exactly once; the shared counts of a layer
   add up to topK for every running request.
2. *Block cache and its event log* (`RefCounts`, `BlockCache`, `Admission`, `CacheInvariant`, `CacheRuns`,
   `EventContents`, `BlockCacheStore`, `Subscriber`, `EventLog`, `EventRuns`). Reference counts, capacity, eviction,
   and the events with all they carry over every run, for any request lists and any clock, with the exact conditions
   under which each of them holds; a replay is complete exactly when no missed batch has left the window.
3. *Dispatcher with LoRA slots* (`LoraSlots`, `Dispatcher`, `DispatcherLoop`, `RequestFlow`). Work conservation with a
   wake-up channel that drops signals, reference counts, stable and distinct adapter IDs, conservation of workers and
   of requests, FIFO per model.
4. *Expert placement and routing* (`Placement`, `PlacementLoops`, `Routing`, `LocalSearch`, `RouterLaws`,
   `SearchLaws`, `RouterLoops`, `Distributed`, `ProfileAssignments`, `EplbWindow`, `MoeModel`, `ForwardTimeline`).
   D'Hondt placement is the one exchange-optimal apportionment of the recorded load and never panics, routing
   conserves demand and serves every expert as its router promises, the local search takes exact best moves until none
   is left, the load window sums exactly the right forwards, and a cached latency equals recomputation.
5. *Token-budget schedulers* (`PrefillBatcher`, `VirtualScheduler`, `VirtualLoop`). Every job is served exactly once
   with no lost wake-up; the offline scheduler does all work within its budget, completes for all limits exactly when
   the last prompt has work, and with a slot to spare exactly when some prompt has work.
6. *Trace files* (`Bytes`, `TraceFormat`, `TraceFile`, `TraceWriter`, `Folds`, `Accumulator`, `Accumulated`,
   `PromptAccumulator`, `Convert`, `TraceConversion`, `SourceMetadata`). Codecs, block lengths, tiling, round trips,
   and end to end: every record of a converted trace is read back from the file.

**Where the code does not keep what it seems to promise.** These are stated as theorems with the exact condition:

- The comment at pkg/kvcache/block_cache.go:200-202 takes the cached blocks of a request for a leading prefix.
  Eviction does not keep them one (`CacheRuns.ParentCanFollow`, a run from the empty cache). The announced parent is
  the block before the first new one, and the hits are the cached prefix, exactly if nothing behind that prefix is
  cached (`CacheRuns.ParentIsPredecessorIff`, `CacheRuns.HitsCoverCachedPrefix`).
- The completion error of pkg/kvcache/block_cache.go:340-352 occurs exactly when a request lists a block more often
  than the block has references (`RefCounts.MissingIff`). A request that names a block twice gives two references if
  the block is in use and one otherwise, so counts stay equal to mentions exactly if no block outside those in use is
  named twice (`CacheInvariant.AdmissionKeepsBalanceIff`, `CacheInvariant.RepeatIsMissingIff`,
  `CacheRuns.RepeatedBlockIsMissed`).
- The capacity is kept exactly if enough blocks are strictly older than the clock reads
  (`Admission.CapacityIsKeptIff`). A block released in the same instant is not evicted
  (`CacheRuns.SameInstantOverruns`), and once overrun the cache never evicts again
  (`Admission.OverfullStaysOverfull`).
- The events of an admission describe it exactly if no uncached block is named twice (`Subscriber.RepeatsAreSeenIff`;
  with blocks of hash zero `Subscriber.AdmissionReflectsIff`). Events dropped by a full channel leave the stream right
  exactly if the dropped removals and the dropped store have the same hashes (`Subscriber.LostEventsIff`,
  `EventLog.FullChannelIff`); a store event can be lost for every channel capacity (`EventRuns.StoreCanBeLost`), and
  the next discard restores the stream (`EventLog.DiscardRestores`).
- The "made no progress" error of pkg/simulator/moe_trace_virtual.go:204-214 can be reached on valid traces; no limits
  reach it exactly when the last prompt has work (`VirtualScheduler.CompletesForAllLimitsIff`). With more slots than
  prompts with work it is reached exactly when there are prompts and none has work
  (`VirtualScheduler.SpareSlotCompletesIff`).
- A block length that fits in 64 bits can be refused: exactly when the number of positions in all layers, or of
  routes, does not fit (`TraceFormat.RefusedThoughItFitsIff`). That never happens with at least one expert per token
  (`TraceFormat.BlockLengthIff`) and can without (`TraceFormat.BlockLengthNeedsTopK`).
- A written file is refused by the reader exactly when it has too many prompts or layers to number in 32 bits
  (`TraceWriter.FileRoundTrip`).

## Model

| member | source | states |
|---|---|---|
| DecodeBarrier.NextKeepsInv | pkg/simulator/moe_trace_runtime.go:288-510 | every step of every request (activate, ask, lead, publish, wake, complete, deactivate) keeps the barrier invariant: an open generation has a non-empty remaining set inside its participants and the active requests, ready and done are closed at most once, and every request's position and contributions agree |
| DecodeBarrier.RunKeepsInv | pkg/simulator/moe_trace_runtime.go:288-510 | the invariant holds in every state of every interleaving of any number of requests |
| DecodeBarrier.AllActiveTakePart | pkg/simulator/moe_trace_runtime.go:328-387 | the participants collected for a new generation are exactly the active requests, each at its own position |
| DecodeBarrier.NewGenerationIsExact | pkg/simulator/moe_trace_runtime.go:419-485 | a generation starts only when all participants of every earlier one completed or left; its participants and its remaining set are the active requests, its leader is the one that asked, it starts at the time of asking and has no timing yet |
| DecodeBarrier.OneTimingPerGeneration | pkg/simulator/moe_trace_runtime.go:419-510 | all requests that complete a generation were given the same latency and finish time, those of that generation |
| DecodeBarrier.TimingIsTheLeaders | pkg/simulator/moe_trace_runtime.go:419-485 | in every run a generation starts at the time at which its leader asked, and its timing is the latency that the leader published, counted from that start |
| DecodeBarrier.NeverFallsBack | pkg/simulator/moe_trace_runtime.go:592-614 | a request with tokens left to decode is never sent to the untraced path |
| DecodeBarrier.FinishedAccount | pkg/simulator/moe_trace_runtime.go:487-510 | a request with n output tokens that ran to its end completed exactly n-1 generations and contributed the positions 0 to n-2 once each, in order |
| DecodeBarrier.SomeStepIsEnabled | pkg/simulator/moe_trace_runtime.go:419-485 | no deadlock: while some request is unfinished, a step other than an early departure is enabled |
| DecodeBarrier.NextIsSmaller | pkg/simulator/moe_trace_runtime.go:592-663 | every step descends in a measure of the work and the stages left, so every run ends |
| DecodeBarrier.MeasureIsNatural | pkg/simulator/moe_trace_runtime.go:592-663 | the components of that measure are never negative: the order is well-founded |
| DecodeBarrier.EveryRequestIsServed | pkg/simulator/moe_trace_runtime.go:592-663 | when a run without early departures can go no further, every request is finished, with its n-1 generations and each position contributed once |
| TraceRegistry.ActiveRegistry.Activate | pkg/simulator/moe_trace_runtime.go:288-295 | the object performs exactly the activation step of the protocol |
| TraceRegistry.ActiveRegistry.Deactivate | pkg/simulator/moe_trace_runtime.go:297-313 | exactly the departure step: the request leaves the registry and the open generation, which closes when nobody remains |
| TraceRegistry.ActiveRegistry.CloseIfDone | pkg/simulator/moe_trace_runtime.go:297-313 | the open generation ends, closing done once, exactly when its remaining set is empty |
| TraceRegistry.ActiveRegistry.TryAcquire | pkg/simulator/moe_trace_runtime.go:419-485 | the critical section of a request asking for its next step: the outcome and the new registry are those of the protocol, a new generation if none is open |
| TraceRegistry.ActiveRegistry.PublishReady | pkg/simulator/moe_trace_runtime.go:419-485 | the leader's publication fixes one timing for the generation |
| TraceRegistry.ActiveRegistry.CompleteDecodeStep | pkg/simulator/moe_trace_runtime.go:487-510 | exactly the completion step: the position advances and the request leaves the remaining set |
| DecodeSharing.DecodeCounts | pkg/simulator/moe_trace_runtime.go:328-387 | the shared counts are the routes of all participants at their positions plus the expected load of the untraced requests; there is a step exactly when somebody takes part; every layer adds up to topK for each running request |
| DecodeSharing.CountParticipants | pkg/simulator/moe_trace_runtime.go:328-387 | whatever the order of the visit, the collected participants and their route counts are the same |
| DecodeSharing.AddUntraced | pkg/simulator/moe_trace_runtime.go:328-387 | the untraced requests add their share of each expert's probability, and nothing when there are none |
| DecodeSharing.TotalsAgree | pkg/simulator/moe_trace_runtime.go:328-387 | summing the shared counts by generation and by request gives the same totals |
| DecodeSharing.WorkloadAddsUp | pkg/simulator/moe_trace_runtime.go:328-387 | the trace workload of a layer is topK routes for every participant |
| DecodeSharing.LayerAddsUp | pkg/simulator/moe_trace_runtime.go:328-387 | with probabilities that add up to one, the shared counts of every layer add up to topK for each running request, traced or not, and for no fewer than the participants |
| DecodeSharing.EveryRouteIsCountedOnce | pkg/simulator/moe_trace_runtime.go:328-387 | over a complete run, the counts of all generations together are the recorded decode routes of all requests, each exactly once |
| RouteCounts.AddPrefillRange | pkg/simulator/moe_trace_fidelity.go:1071-1088 | adds for every layer and expert the number of its routes at the positions of the range, cut to the prompt |
| RouteCounts.ChunksAddUp | pkg/simulator/moe_trace_fidelity.go:1071-1088 | cutting a range of positions in two changes no count |
| RouteCounts.TracePrefillCounts | pkg/simulator/moe_trace_runtime.go:541-565 | in all three branches the demand is the histogram of the positions that are not cached; it is absent exactly when all are |
| RouteCounts.CountsAsReals | pkg/simulator/moe_trace_runtime.go:150-159 | the stored counts appear at their layer and expert |
| RouteCounts.AddDecodePosition | pkg/simulator/moe_trace_virtual.go:387-396 | adds exactly the routes of one decode position to every layer |
| RouteCounts.CountIsNumber | pkg/simulator/moe_trace_fidelity.go:1071-1088 | a count is the number of places at which the expert stands |
| RouteCounts.PrefillCountIsNumber | pkg/simulator/moe_trace_fidelity.go:1071-1088 | prefill routes are stored by layer, then by position: the count of a position is the number of its topK routes that name the expert |
| RouteCounts.DecodeCountIsNumber | pkg/simulator/moe_trace_virtual.go:387-396 | decode routes are stored by position, then by layer: the same for a decode position |
| RouteCounts.CountsAddUp | pkg/simulator/moe_trace_runtime.go:328-387 | the counts of all experts add up to the number of routes |
| RefCounts.RegisterIff | pkg/kvcache/block_cache.go:223-260 | counts that grew by what a new request gave stay the sum of what all requests gave exactly if the request is booked with what it gave |
| RefCounts.GivesEveryMentionIff | pkg/kvcache/block_cache.go:203-260 | a request gives one reference per mention of a block in use and a single one for any other block; that is one per mention exactly if it names no block twice that is not in use |
| RefCounts.ReleaseAllAt | pkg/kvcache/block_cache.go:298-355 | for any list, a block loses one reference per mention as long as it has one, and is missing from then on |
| RefCounts.MissingIff | pkg/kvcache/block_cache.go:298-355 | for any table and any list, completion misses a block exactly when one is listed more often than it has references |
| RefCounts.MissingMentions | pkg/kvcache/block_cache.go:298-355 | a block is reported missing once for every mention beyond its references |
| RefCounts.ReleaseStamps | pkg/kvcache/block_cache.go:298-355 | a block whose last reference goes is unused from now on, and the other unused blocks keep their time stamps |
| RefCounts.ReleaseIff | pkg/kvcache/block_cache.go:298-355 | completion takes back what the request gave exactly if, for every block, it lists the block that often or finds only that many references |
| BlockCache.PickBlockToEvict | pkg/kvcache/block_cache.go:415-444 | among the blocks strictly older than now, in any scan order, the victim is of an unloaded model if there is one, and oldest among those; without an older block the zero key |
| Admission.PickRemovesIff | pkg/kvcache/block_cache.go:415-444 | a pick removes a block exactly if some unused block is strictly older than now or the zero key is unused |
| Admission.AdmissionExchanges | pkg/kvcache/block_cache.go:161-295 | for any list and any clock: the tables after an admission are those before without evictable unlisted blocks and with all listed blocks in use |
| Admission.EvictionSparesHeldBlocks | pkg/kvcache/block_cache.go:161-295 | for any list and any clock: only unused, evictable, unlisted blocks leave, exactly the listed blocks that were not cached come, and used and unused stay apart |
| Admission.CapacityIsKeptIff | pkg/kvcache/block_cache.go:219-260 | an admission keeps the capacity exactly if the blocks of cache and request together exceed it by no more than the blocks that can leave |
| Admission.OverfullStaysOverfull | pkg/kvcache/block_cache.go:240-260 | a cache that overran its capacity evicts nothing at any later admission and stays too large |
| CacheInvariant.BestVictimsLeave | pkg/kvcache/block_cache.go:240-260 | over a whole admission, every block that left is no worse a victim than every older block that is still there |
| CacheInvariant.EnoughIsReal | pkg/kvcache/block_cache.go:240-260 | with enough room every pick removes a block, and exactly as many leave as exceed the capacity |
| CacheInvariant.AdmissionCounts | pkg/kvcache/block_cache.go:203-260 | for any list, every count grows by exactly what the request gives |
| CacheInvariant.AdmissionKeepsGifts | pkg/kvcache/block_cache.go:161-295 | for any list and any clock, every count stays the sum of what the requests gave |
| CacheInvariant.CompletionKeepsGiftsIff | pkg/kvcache/block_cache.go:298-355 | completion keeps that sum exactly if, for every block, the request lists it as often as it gave to it or nobody else gave to it |
| CacheInvariant.AdmissionKeepsBalanceIff | pkg/kvcache/block_cache.go:161-295 | every count stays the number of mentions by registered requests exactly if the request names no block twice that is not in use |
| CacheInvariant.AdmissionKeepsAlways | pkg/kvcache/block_cache.go:161-295 | for any list and any clock: counts are positive and covered by mentions, used and unused are apart, tokens are stored for the cached blocks up to the zero key |
| CacheInvariant.AdmissionKeepsInvariant | pkg/kvcache/block_cache.go:161-295 | counts equal mentions, used and unused are apart, tokens are stored for exactly the cached blocks and the size is at most maxBlocks: kept by an admission that repeats no block outside those in use and for which enough blocks can leave |
| CacheInvariant.FinishKeepsAlways | pkg/kvcache/block_cache.go:298-355 | completing any request keeps what always holds, and the cached blocks |
| CacheInvariant.FinishKeepsInvariant | pkg/kvcache/block_cache.go:298-355 | completion keeps the invariant and the cached blocks, and reports no missing block |
| CacheInvariant.RepeatIsMissingIff | pkg/kvcache/block_cache.go:298-355 | a request that completes right after its admission misses a block exactly if it named one twice that was not in use |
| CacheRuns.FitsIff | pkg/kvcache/block_cache.go:219-221 | distinct blocks are accepted exactly if they and the blocks in use are together within the capacity |
| CacheRuns.HitsCoverCachedPrefix | pkg/kvcache/block_cache.go:203-217 | the hits of an admitted request are at least its cached prefix, and no more exactly if nothing behind the prefix is cached |
| EventContents.HitsAreCachedMentions | pkg/kvcache/block_cache.go:203-217 | the hits of a request are exactly its mentions of cached blocks |
| CacheRuns.ParentIsPredecessorIff | pkg/kvcache/block_cache.go:262-277 | the parent of the store event is the block before the first new one exactly if nothing behind the cached prefix is cached |
| CacheRuns.ParentCanFollow | pkg/kvcache/block_cache.go:200-277 | a run from the empty cache in which the new block is announced with the block that follows it as parent |
| CacheRuns.RepeatedBlockIsMissed | pkg/kvcache/block_cache.go:298-355 | from the empty cache, a request that lists a block twice gets one reference and its completion misses the block |
| CacheRuns.SameInstantOverruns | pkg/kvcache/block_cache.go:415-444 | from the empty cache, a block released in the instant of the next admission is not evicted: the capacity is overrun and a remove event for hash zero is sent |
| BlockCacheStore.Classify | pkg/kvcache/block_cache.go:203-217 | new, unused and used blocks of a request in request order, their number, and the last cached position |
| BlockCacheStore.ReferenceKnown | pkg/kvcache/block_cache.go:223-232 | blocks in use gain a reference per mention, unused ones move into use with one |
| BlockCacheStore.AddBlocks | pkg/kvcache/block_cache.go:240-260 | every new block is entered with one reference and its tokens; whenever the tables are full a best victim, or the zero key, is removed first, with its remove event |
| BlockCacheStore.Fill | pkg/kvcache/block_cache.go:203-260 | the request is accepted exactly when its unused and new mentions fit beside the used blocks; then used, unused, tokens and events are those of the whole admission |
| BlockCacheStore.Admit | pkg/kvcache/block_cache.go:161-295 | every outcome, for any list and any clock: duplicate ID, bad input and capacity errors in that order with nothing changed, or the admission with its hits and events |
| BlockCacheStore.CountPrefix | pkg/kvcache/block_cache.go:386-409 | the length of the longest cached prefix, zero when disabled |
| BlockCacheStore.Store.constructor | pkg/kvcache/block_cache.go:70-121 | an empty cache with the base model and its aliases loaded |
| BlockCacheStore.Store.StartRequest | pkg/kvcache/block_cache.go:161-295 | the stored maps change as the admission says, and its events are offered to the channel in order |
| BlockCacheStore.Store.FinishRequest | pkg/kvcache/block_cache.go:298-355 | the stored maps change as the release says; the reported blocks are those that were missing |
| BlockCacheStore.Store.Discard | pkg/kvcache/block_cache.go:131-147 | everything is forgotten, the cache is disabled and a clear event is offered |
| BlockCacheStore.Store.Activate | pkg/kvcache/block_cache.go:149-156 | only the disabled flag changes |
| BlockCacheStore.Store.SetModelLoaded | pkg/kvcache/block_cache.go:446-456 | only the set of loaded models changes |
| Subscriber.ApplyOrderly | pkg/kvcache/block_cache.go:240-277 | applying removals and then a store to a multiset of hashes takes away all removed hashes and adds all stored ones, whatever their order |
| EventContents.AdmissionAnnounces | pkg/kvcache/block_cache.go:240-277 | the events of an admission, for any list and any clock: removals, each with the tokens that the table held for an unused block that left, then one store event with the hashes of the new blocks in request order, the tokens given for each of them in that order, the hash of the last cached block as parent, and the LoRA name and ID of the request |
| EventContents.AnnouncedByBlock | pkg/kvcache/block_cache.go:252-277 | with b tokens per block, tokens i * b to i * b + b of the store event are those given for the block with the i-th hash |
| EventContents.AdmissionKeepsTokens | pkg/kvcache/block_cache.go:252-256 | the table has for every new block the tokens given where it was last named |
| EventContents.AdmissionKeepsOldTokens | pkg/kvcache/block_cache.go:240-256 | a block that stays cached keeps its tokens |
| Subscriber.EvictionsByHash | pkg/kvcache/block_cache.go:240-260 | the remove events carry the hashes of the blocks that left, and hash zero for every pick that found nothing |
| Subscriber.AdmissionReflectsIff | pkg/kvcache/block_cache.go:239-277 | for any list and any clock: a subscriber that applies the events holds the cached blocks exactly if, for every hash, the repeated announcements of new blocks equal the removals of blocks that stayed |
| Subscriber.RepeatsAreSeenIff | pkg/kvcache/block_cache.go:239-277 | unless a block with hash zero is cached, for any clock and any victims: exactly if the request names no block twice that is not cached |
| Subscriber.AdmissionReflects | pkg/kvcache/block_cache.go:239-277 | the events of a tidy admission carry a subscriber from the old to the new contents of the cache |
| Subscriber.LostEventsIff | pkg/kvcache/block_cache.go:239-277 | when some of these events are lost, the subscriber still agrees exactly if the lost removals and the lost store have the same hashes |
| EventLog.ReplayQueue.PushEntry | pkg/kvcache/kv_events_replayer.go:63-72 | the oldest entry leaves a full window, the new one is last |
| EventLog.ReplayQueue.EntriesSince | pkg/kvcache/kv_events_replayer.go:77-91 | the suffix from the first entry with at least the asked sequence number |
| EventLog.EventSender.PublishHelper | pkg/kvcache/kv_cache_sender.go:310-347 | an empty batch does nothing; otherwise the batch gets the next number, enters the replay window if it was sent, and is cleared |
| EventLog.EventSender.OnEvent | pkg/kvcache/kv_cache_sender.go:172-228 | an event joins the batch, which is published when it is full; without a publisher it is dropped |
| EventLog.EventSender.OnTimer | pkg/kvcache/kv_cache_sender.go:230-238 | the timer publishes what is there |
| EventLog.FullBatchIsSent | pkg/kvcache/kv_cache_sender.go:172-228 | an event that fills the batch sends it with exactly maxBatch events; before that nothing is sent |
| EventLog.PublishKeepsStream | pkg/common/publisher.go:114-134 | publishing moves events from the batch to the published stream and loses none |
| EventLog.SenderStepKeepsStream | pkg/kvcache/kv_cache_sender.go:159-240 | steps of the sender only move events along: published, batched, queued and unwritten events together stay the same stream |
| EventLog.WriteKeepsStream | pkg/kvcache/block_cache.go:240-277 | a write that the channel takes, one event at a time between steps of the sender, moves the event along the same stream |
| EventLog.DiscardRestores | pkg/kvcache/block_cache.go:131-147 | whatever went before, after a discard the stream reproduces the empty cache |
| EventLog.SleepsUntilActivated | pkg/kvcache/block_cache.go:131-156 | from a discard until its activation the cache stays empty, admits nothing and announces nothing but further discards |
| EventLog.StepKeepsInvariant | pkg/kvcache/block_cache.go:131-295 | every step of cache or sender, for any request and any clock, keeps the system invariant; it includes that the batch is never full between steps and every published batch has 1 to maxBatch events |
| EventLog.StreamReproducesCache | pkg/kvcache/kv_cache_sender.go:159-240 | in every state of every run: counts are covered and tables apart; if the admissions since the last discard were tidy, the whole cache invariant holds; if moreover nothing was lost since then and no send failed, published batches, then the batch, the queue and the unwritten events applied to nothing give exactly the hashes of the cached blocks |
| EventLog.FullChannelIff | pkg/kvcache/block_cache.go:239-277 | when the channel takes only the first events of an admission, the stream still reproduces the cache exactly if the lost removals and the lost store have the same hashes |
| EventLog.ReplayIsCompleteIff | pkg/kvcache/kv_events_replayer.go:77-91 | a replay from a sequence number has all batches from there on exactly when none of them has left the window |
| EventLog.ReplayCatchesUp | pkg/kvcache/kv_events_replayer.go:63-91 | a subscriber current up to the batch before that applies such a replay agrees with a live subscriber |
| EventRuns.StoreCanBeLost | pkg/kvcache/block_cache.go:131-277 | for every channel capacity there is a run from the start that loses the store event of an admission and ends with a stream without the cached block |
| Bytes.EncodeSeqRoundTrip | pkg/common/publisher.go:64-68 | the eight big-endian bytes of a sequence number give it back |
| Bytes.EncodeSeqByte | pkg/common/publisher.go:64-68 | byte i of a sequence number has the weight 256 to the power 7 - i |
| LoraSlots.LoadKeepsSlots | pkg/simulator/lora.go:102-136 | loading keeps the occupied slots a prefix in one-to-one correspondence with the loaded adapters, at most maxLoras of them |
| LoraSlots.LoadKeepsIds | pkg/simulator/lora.go:170-208 | an adapter that stays loaded keeps its ID when another is loaded or pushed out |
| LoraSlots.IdsDoNotCollide | pkg/simulator/lora.go:198-208 | two loaded adapters never share an ID |
| LoraSlots.IdsAreOneToLoaded | pkg/simulator/lora.go:170-208 | the IDs of the loaded adapters are exactly 1 to their number, and no other adapter has one |
| Dispatcher.DispatchKeepsFifo | pkg/simulator/simulator.go:428-456 | the requests of one model leave the queue in the order in which they entered it, whichever pass of the dequeue finds them |
| Dispatcher.LeavesFirstOfItsModel | pkg/simulator/simulator.go:428-456 | no earlier queued request has the model of the one that leaves |
| Dispatcher.StepKeepsInvariant | pkg/simulator/simulator.go:250-312 | every handled event keeps the slots, the reference counts, the workers, the queue order and work conservation |
| Dispatcher.RunKeepsInvariant | pkg/simulator/simulator.go:250-350 | in every state of every run: adapter counts equal dispatched and not yet collected requests, free and busy workers are all workers, queues are FIFO per model, and with no wake-up pending either no worker is free or no queued request can run |
| Dispatcher.QuietMeansEmptyQueue | pkg/simulator/simulator.go:250-330 | once all workers are free and no wake-up is pending, no request is left in the queue |
| Dispatcher.StepKeepsIds | pkg/simulator/lora.go:170-208 | across any step, an adapter that was and stays loaded keeps its ID |
| RequestFlow.RequestsAreConserved | pkg/simulator/simulator.go:250-456 | in every state of every run, a request came as often as it was refused, was completed, or is in the queue or with a worker; it is refused exactly when the queue is full and no worker is free or its adapter cannot be loaded |
| RequestFlow.QuietMeansCompleted | pkg/simulator/simulator.go:250-330 | once all workers are free and no wake-up is pending, every request that was not refused is completed |
| RequestFlow.NewRequestStartsIff | pkg/simulator/simulator.go:284-312 | a new request starts at once, with the first free worker, exactly if there is one and its adapter can be loaded; otherwise it waits exactly if there is room |
| RequestFlow.EvictedIsUnwanted | pkg/simulator/simulator.go:428-456 | an adapter is pushed out for a queued request only if it is idle, all slots are taken and no queued request can run with a loaded adapter |
| DispatcherLoop.Loop.AssignLoraID | pkg/simulator/lora.go:170-184 | the first free slot takes the adapter |
| DispatcherLoop.Loop.FreeLoraID | pkg/simulator/lora.go:188-195 | the adapter's slot is cleared |
| DispatcherLoop.Loop.GetLoraID | pkg/simulator/lora.go:198-208 | the position of the adapter plus one, zero when it has none |
| DispatcherLoop.Loop.LoadLora | pkg/simulator/lora.go:102-136 | succeeds for the base model, a loaded adapter, a free slot or an idle adapter to push out, and fails exactly when all slots are in use |
| DispatcherLoop.Loop.IncrementLora | pkg/simulator/lora.go:141-149 | one reference more for an adapter, none for the base model |
| DispatcherLoop.Loop.DecrementLora | pkg/simulator/lora.go:153-166 | one reference less, and a signal when none is left, unless the channel is full |
| DispatcherLoop.Loop.Enqueue | pkg/simulator/simulator.go:416-425 | the request joins the end of the queue exactly when there is room |
| DispatcherLoop.Loop.Dequeue | pkg/simulator/simulator.go:428-456 | the first request with a loaded adapter, else the first one whose adapter can be loaded, leaves and is counted; nothing leaves exactly when none can run |
| DispatcherLoop.Loop.FindRequestAndSendToProcess | pkg/simulator/simulator.go:314-330 | the worker gets the request that leaves, or returns to the free ones |
| DispatcherLoop.Loop.HandleNewRequest | pkg/simulator/simulator.go:332-350 | exactly the step of the state machine for a new request: dispatched, parked or refused |
| DispatcherLoop.Loop.HandleCompleted | pkg/simulator/simulator.go:250-312 | exactly the step that collects a finished request and looks for work for its worker |
| DispatcherLoop.Loop.HandleLoraRemovable | pkg/simulator/simulator.go:250-312 | exactly the wake-up step followed by one dispatch per free worker until one of the two runs out |
| Placement.ApportionFacts | pkg/simulator/moe.go:195-221 | whatever the loads, every slot finds an expert: between one and gpus replicas each, slots in all |
| Placement.ApportionIsExchangeOptimal | pkg/simulator/moe.go:195-221 | for non-negative loads, load_i / r_i is at least load_j / (r_j + 1) for every i with more than one and every j with less than gpus replicas |
| Placement.ExchangeOptimalIsUnique | pkg/simulator/moe.go:195-219 | with ties to the lower expert, only one apportionment of the slots is exchange-optimal |
| Placement.ExchangeOptimalIsMaximin | pkg/simulator/moe.go:195-221 | any other apportionment of the same slots gives some expert a last replica that scores no higher than every last replica of an exchange-optimal one |
| Placement.PlacedBalanced | pkg/simulator/moe.go:223-256 | after every expert the fillings of the ranks differ by at most one |
| Placement.DhondtFillsRanksEqually | pkg/simulator/moe.go:183-258 | the placement succeeds exactly on valid dimensions, and then every expert has its replicas on distinct ranks and every rank holds exactly slots / gpus experts |
| Placement.DhondtReplicasIff | pkg/simulator/moe.go:195-219 | for non-negative loads the replicas are the one exchange-optimal apportionment that fills the slots, and every such apportionment is that one |
| Placement.DhondtSharesByLoad | pkg/simulator/moe.go:183-258 | for non-negative loads no copy of an expert serves less load than a further copy of another expert would, nor as little as one of a lower expert |
| Placement.EarlierIff | pkg/simulator/moe.go:225-233 | experts with more replicas are placed first, the lower number first among equals |
| Placement.PlacesInTurn | pkg/simulator/moe.go:221-249 | every expert in its turn takes the ranks that hold the fewest experts placed before it, the lower rank first among equals |
| Placement.DhondtFollowsLoad | pkg/simulator/moe.go:183-258 | the whole placement obeys both laws |
| PlacementLoops.BestExpert | pkg/simulator/moe.go:202-215 | the loop finds the expert with the highest score below the cap, the first among equals |
| PlacementLoops.ApportionReplicas | pkg/simulator/moe.go:195-221 | the loop computes the apportionment, or reports that no expert could take a slot |
| PlacementLoops.PlaceExpert | pkg/simulator/moe.go:223-256 | an expert gets its least filled ranks, lower ones first among equals, and each is counted |
| PlacementLoops.DhondtPlaceOneLayer | pkg/simulator/moe.go:183-258 | succeeds exactly on valid dimensions; then the replicas fill the slots and every rank equally, are exchange-optimal for the given loads, and are placed in turn on the least filled ranks |
| PlacementLoops.InitialPlacement | pkg/simulator/moe.go:143-169 | succeeds exactly on valid dimensions and gives non-empty, duplicate-free ranks, those of a cycle of experts over the slots |
| PlacementLoops.InitialIs | pkg/simulator/moe.go:143-169 | an expert is on a rank exactly if the rank has a slot whose number is the expert modulo the number of experts |
| PlacementLoops.CycleHasNoDuplicates | pkg/simulator/moe.go:143-169 | a cycle of experts at least as long as a rank never repeats an expert on a rank |
| PlacementLoops.FixedLayer | pkg/simulator/moe_trace_fidelity.go:245-273 | a layer is accepted exactly when its slots hold known experts, none twice on a rank and none missing; then every slot's rank is among its expert's ranks and the placement is valid |
| MoeModel.Model.InstallFixed | pkg/simulator/moe_trace_fidelity.go:221-281 | a fixed placement is installed exactly when its dimensions agree and every layer is well formed; then the generation advances, otherwise nothing changes |
| Routing.SharesAddUp | pkg/simulator/moe_trace_fidelity.go:313-336 | the parts of a demand add up to it, up to the rounding of a nearly whole one |
| Routing.SharesAreEven | pkg/simulator/moe_trace_fidelity.go:313-336 | all parts of a demand are equal, or, for nearly whole demand of a trace, whole and different by at most one, the larger ones first |
| Routing.GpuCostIsSlower | pkg/simulator/moe.go:311-315 | the cost is the larger of the memory time and the computing time |
| Routing.GpuCostGrows | pkg/simulator/moe.go:311-315 | more active experts or more load never cost less |
| Routing.KeptIsClose | pkg/simulator/moe_trace_fidelity.go:313-336 | that rounding changes nothing on whole demand and less than a billionth otherwise |
| Routing.ReplicaCountIsNearest | pkg/simulator/moe.go:390-407 | the replica count is the available number nearest to the ratio of computing time to weight time, the even one of two equally near |
| Routing.HeuristicPicksCheapest | pkg/simulator/moe.go:415-434 | the picked GPUs cost no more than any of the expert's GPUs that were not picked |
| Routing.RouteAllRoutes | pkg/simulator/moe.go:328-434 | each router, in either form, puts every expert's demand on the expert's own GPUs, conserves it, and keeps loads and active experts in agreement |
| RouterLaws.RouteAllServes | pkg/simulator/moe.go:328-442 | every expert with demand, given what the experts before it in the router's order left on the GPUs: split gives even parts to all its GPUs; concentrate gives everything to the first of the GPUs where that costs least; heuristic gives even parts to the least costly GPUs, as many as are nearest to the ratio of computing to reading time |
| RouterLaws.SplitIsEqual | pkg/simulator/moe.go:328-341 | split in synthetic form gives every GPU of an expert the same part |
| RouterLaws.CheapestAt | pkg/simulator/moe.go:350-364 | no GPU of the expert is cheaper than the chosen one, and none as cheap comes before it |
| Routing.TotalsAgree | pkg/simulator/moe.go:328-341 | the loads of the GPUs and the tokens of the experts have the same sum |
| LocalSearch.PredictionIsExact | pkg/simulator/moe.go:466-490 | the makespan predicted for a candidate move is the makespan of the state after the move |
| LocalSearch.MoveKeepsConsistency | pkg/simulator/moe.go:507-515 | a move keeps loads and active experts equal to what the chunks say |
| LocalSearch.MoveKeepsTokens | pkg/simulator/moe.go:507-515 | a move keeps the tokens of every expert |
| LocalSearch.MoveIsWhole | pkg/simulator/moe.go:507-516 | a move gives the whole chunk away and changes nothing else |
| LocalSearch.RoundImproves | pkg/simulator/moe.go:436-516 | a round that moves keeps the invariant and lowers the makespan by more than 1e-12 |
| LocalSearch.RoundTakesBestMove | pkg/simulator/moe.go:436-516 | no other move off the slowest GPU would lead to a smaller makespan; without a move none gains enough |
| LocalSearch.SearchNeverWorsens | pkg/simulator/moe_trace_fidelity.go:406-513 | after any number of rounds every expert's tokens are conserved on its own GPUs and the makespan is not above that of the initial split |
| SearchLaws.RoundIsRound | pkg/simulator/moe.go:446-516 | a round moves off the first slowest GPU the chunk that leads to the smallest makespan, the first tried among equals, if that gains enough; otherwise no move does |
| SearchLaws.SearchIsSearched | pkg/simulator/moe.go:446-516 | the search is a chain of such rounds from its start to its result, which ends after twenty rounds or when no move gains enough |
| RouterLoops.DistributeReplicaTokens | pkg/simulator/moe_trace_fidelity.go:313-336 | the loop computes the parts: whole ones with the remainder on the first replicas, or equal ones |
| RouterLoops.CheapestGpu | pkg/simulator/moe.go:343-368 | the loop finds the GPU on which the demand costs least, the first among equals |
| RouterLoops.CheapestIsCheapest | pkg/simulator/moe_trace_fidelity.go:359-385 | no GPU of the expert is cheaper than the chosen one |
| RouterLoops.OrderFalls | pkg/simulator/moe.go:370-388 | experts are taken in falling order of demand or of solo cost, by number where those agree |
| RouterLoops.FindSlowest | pkg/simulator/moe.go:439-447 | the first GPU with the largest cost |
| RouterLoops.PredictMove | pkg/simulator/moe.go:466-489 | the loop over the other GPUs computes the predicted makespan |
| RouterLoops.BestMove | pkg/simulator/moe.go:449-501 | the nested loops over experts and destinations find the move with the largest gain |
| RouterLoops.SearchLocally | pkg/simulator/moe.go:436-516 | the rounds of the search are exactly the improvement that the theorems are about |
| RouterLoops.RouteCentral | pkg/simulator/moe.go:520-529 | conserves every expert's demand on its own GPUs and serves the experts as the router promises; for the heuristic router that holds of the start of the local search, from which the result follows round by round and never with a larger makespan |
| RouterLoops.LoadsAddUp | pkg/simulator/moe_trace_fidelity.go:515-524 | the loads of a routing add up to its demand |
| Distributed.SplitCountsBySource | pkg/simulator/moe.go:531-543 | every source gets its part of every expert's count |
| Distributed.TraceCountsBySource | pkg/simulator/moe_trace_fidelity.go:546-571 | every source gets its recorded assignments and its part of what they leave uncovered |
| Distributed.TraceAddsUp | pkg/simulator/moe_trace_fidelity.go:546-571 | the sources together have an expert's assignments plus the divided rest |
| Distributed.CoveredFromIsCount | pkg/simulator/moe_trace_fidelity.go:546-571 | a source is counted for exactly its assignments to the expert |
| Distributed.DemandIsFair | pkg/simulator/moe_trace_fidelity.go:546-571 | the demand of a source is its own assignments and an even part of what all assignments leave of the count |
| Distributed.TraceDemandIsClose | pkg/simulator/moe_trace_fidelity.go:546-571 | for counts that cover the assignments the sum over the sources is the count: exactly for whole counts, otherwise to a billionth |
| Distributed.AggregateStates | pkg/simulator/moe_trace_fidelity.go:526-544 | the loops compute the aggregate of the sources' routings and the matrix of their loads |
| Distributed.ColumnIsLoad | pkg/simulator/moe.go:545-563 | a column of the matrix adds up to the load of its destination |
| Distributed.HeldOfAggregate | pkg/simulator/moe_trace_fidelity.go:526-544 | on every GPU the aggregate holds of an expert what all sources sent there |
| Distributed.RowIsDemand | pkg/simulator/moe.go:545-563 | a row of the matrix adds up to the demand of its source |
| Distributed.FlowIsConserved | pkg/simulator/moe.go:545-572 | the aggregate holds every expert's demand of all sources, and its loads add up to all of it |
| Distributed.RouteDistributed | pkg/simulator/moe_trace_fidelity.go:573-587 | each source's demand is a fair part and routed on its own as the router promises, and the results are aggregated; the aggregate has every expert's count, exactly for whole counts and otherwise within a billionth per division, only on GPUs that host the expert |
| Distributed.DistributedKeepsCounts | pkg/simulator/moe_trace_fidelity.go:546-587 | what the sources together keep of an expert is its count: exactly for whole counts, otherwise within a billionth per division |
| ProfileAssignments.DistributeAssignments | pkg/simulator/moe_trace_fidelity.go:667-712 | the tokens go to the GPUs in turn: each to the first GPU with room for a whole token, else to the first with the most room, else to the first that holds its expert, else to none; every GPU lists its tokens in order |
| ProfileAssignments.GivesInTurn | pkg/simulator/moe_trace_fidelity.go:667-712 | such a course exists for every routing and every list of tokens |
| ProfileAssignments.RoomIsKept | pkg/simulator/moe_trace_fidelity.go:667-712 | what a GPU got of an expert and what it has left are together what the routing gave it |
| ProfileAssignments.LeftOutIffNobodyHolds | pkg/simulator/moe_trace_fidelity.go:667-712 | an assignment is left out exactly when no GPU holds its expert |
| ProfileAssignments.QuotasAreMet | pkg/simulator/moe_trace_fidelity.go:667-712 | whole quotas that match the assignments are met exactly on every GPU |
| EplbWindow.CounterSteps | pkg/simulator/moe.go:721-732 | the rearrangement counter of an unbounded run, and that it triggers a rebalance exactly every 3000 forwards, the first after 750 |
| EplbWindow.RecordingKeepsRing | pkg/simulator/moe.go:624-640 | every forward keeps the ring in step with the history, and when it triggers a rebalance the ring is complete with nothing stale |
| EplbWindow.RebalanceSumsSeen | pkg/simulator/moe.go:642-658 | the first rebalance sums exactly the first 750 forwards, every later one exactly the last 1000 |
| MoeModel.SumWindow | pkg/simulator/moe.go:642-658 | the loops over the flat window compute the sum of every layer and expert |
| MoeModel.Model.constructor | pkg/simulator/moe.go:83-123 | a valid state: an empty window, the counter at three quarters, the initial placement in every layer |
| MoeModel.Model.Record | pkg/simulator/moe_trace_runtime.go:528-539 | the demand of a forward is written to the next slot of the window exactly when a rebalance is near |
| MoeModel.Model.Rebalance | pkg/simulator/moe.go:701-715 | the new placements are the D'Hondt placements of the loads of the right forwards, and the generation advances |
| MoeModel.LoadsAreAsked | pkg/simulator/moe.go:642-664 | the load of an expert in a layer that a rebalance places is the sum of what the first 750, later the last 1000 forwards asked of it |
| MoeModel.RebalanceSharesByLoad | pkg/simulator/moe.go:701-719 | after a rebalance no copy of an expert served less of the recorded load than a further copy of another expert would have |
| MoeModel.LatencyIsSum | pkg/simulator/moe.go:734-769 | the latency is the sum of the costs of all layers, each under its own placement |
| MoeModel.Model.Advance | pkg/simulator/moe_trace_runtime.go:516-526 | one forward joins the history; placements, generation and cost change exactly when it triggers a rebalance |
| MoeModel.Model.Lookup | pkg/simulator/moe.go:734-769 | the latency, cached or not, is what computing it on the current placements gives |
| MoeModel.Model.LatencyForTokens | pkg/simulator/moe.go:734-769 | in every reachable state the latency is recomputation on the placements before the forward, plus the cost of moving when it triggers a rebalance |
| ForwardTimeline.Timeline.ReserveForward | pkg/simulator/moe_trace_fidelity.go:932-942 | the call gets the next slot of the timeline and the wait until its end |
| ForwardTimeline.ForwardsDoNotOverlap | pkg/simulator/moe_trace_fidelity.go:932-942 | over any calls, forwards do not overlap, do not start early and take their whole latency |
| ForwardTimeline.WaitingMeansBusy | pkg/simulator/moe_trace_fidelity.go:932-942 | a forward that waits starts the moment the one before it is over |
| ForwardTimeline.EndIsLongestChain | pkg/simulator/moe_trace_fidelity.go:932-942 | the model is free again at the end of the longest chain of calls, a closed form of the step-by-step reservation |
| PrefillBatcher.ServeRound | pkg/simulator/moe_trace_fidelity.go:1016-1045 | the serving loop with its early exit gives every job of the snapshot its part of the budget in order |
| PrefillBatcher.RoundTakesAllItCan | pkg/simulator/moe_trace_fidelity.go:1016-1045 | a round consumes exactly the budget or all that its snapshot still needs, whichever is less |
| PrefillBatcher.NextKeepsInv | pkg/simulator/moe_trace_fidelity.go:957-1069 | every step keeps: at most one processor runs and pending work always has one, completed jobs form a prefix of the queue with only the next one partly done, served positions contiguous from the start |
| PrefillBatcher.RunKeepsInv | pkg/simulator/moe_trace_fidelity.go:957-1069 | the invariant holds in every state of every interleaving of submissions and processors |
| PrefillBatcher.SomeStepIsEnabled | pkg/simulator/moe_trace_fidelity.go:957-988 | no lost wake-up: while a job is pending, some processor can take its next step |
| PrefillBatcher.NextIsSmaller | pkg/simulator/moe_trace_fidelity.go:990-1069 | every step but a submission descends in the tokens left and the stage of the processor |
| PrefillBatcher.EveryJobIsServedOnce | pkg/simulator/moe_trace_fidelity.go:1053-1067 | a job that is no longer pending was answered exactly once, with the latencies of the rounds it was part of, and each of its positions was counted exactly once |
| PrefillBatcher.ForwardsAddUp | pkg/simulator/moe_trace_fidelity.go:1016-1045 | the chunks of a served job together add the counts of all its uncached positions |
| PrefillBatcher.PublishJobs | pkg/simulator/moe_trace_fidelity.go:1057-1067 | completed jobs are answered once and leave, the others stay in order |
| PrefillBatcher.AgeJobs | pkg/simulator/moe_trace_fidelity.go:1053-1055 | exactly the jobs of the snapshot wait for the round's latency |
| PrefillBatcher.Batcher.Submit | pkg/simulator/moe_trace_fidelity.go:957-988 | exactly the submission step; the caller becomes leader exactly when no processor runs, and nothing happens for a fully cached prompt |
| PrefillBatcher.Batcher.Snapshot | pkg/simulator/moe_trace_fidelity.go:994-1002 | exactly the step that copies the pending jobs or ends the processor |
| PrefillBatcher.Batcher.Compute | pkg/simulator/moe_trace_fidelity.go:1004-1055 | exactly the step that serves and ages the snapshot |
| PrefillBatcher.Batcher.Publish | pkg/simulator/moe_trace_fidelity.go:1057-1067 | exactly the step that answers completed jobs |
| VirtualScheduler.AdmitFacts | pkg/simulator/moe_trace_virtual.go:287-313 | active sequences never exceed the limit, and one stays waiting only when it is reached |
| VirtualScheduler.ForwardFacts | pkg/simulator/moe_trace_virtual.go:170-244 | a forward takes exactly the budget it used in prefill tokens and one token per decoding sequence, and keeps the invariant |
| VirtualScheduler.ForwardAt | pkg/simulator/moe_trace_virtual.go:170-244 | in a forward every decoding sequence advances by one token, and a sequence takes prompt tokens only if every earlier prompt is finished by it |
| VirtualScheduler.IterateFacts | pkg/simulator/moe_trace_virtual.go:136-245 | an iteration runs a non-empty forward within the budget, or nothing is left after admission and the loop ends with the no-progress error; the budget error and the retry after a second admission are never reached |
| VirtualScheduler.LeftoverMeansFullForward | pkg/simulator/moe_trace_virtual.go:170-202 | prefill work of an admitted sequence is left over only when the forward used the whole budget |
| VirtualScheduler.RunDoesAllWork | pkg/simulator/moe_trace_virtual.go:136-245 | a completed run has only forwards within the budget, and did all prefill tokens and all decode steps exactly once |
| VirtualScheduler.NeverStuck | pkg/simulator/moe_trace_virtual.go:204-214 | with work in the last prompt the loop completes, whatever the limits |
| VirtualScheduler.BenchmarkDoesAllWork | pkg/simulator/moe_trace_virtual.go:99-251 | for every accepted choice of options: prefill tokens are the prompt tokens and decode forwards the sum of max(0, decode - 1) |
| VirtualScheduler.BenchmarkCompletes | pkg/simulator/moe_trace_virtual.go:99-251 | with work in the last prompt no options lead to an error |
| VirtualScheduler.AlwaysStuck | pkg/simulator/moe_trace_virtual.go:204-214 | with a workless last prompt and one slot the loop fails on every trace |
| VirtualScheduler.CompletesForAllLimitsIff | pkg/simulator/moe_trace_virtual.go:99-251 | the benchmark completes for all accepted options exactly when there are no prompts or the last one has work |
| VirtualScheduler.SpareSlotCompletesIff | pkg/simulator/moe_trace_virtual.go:99-251 | for given options with more slots than prompts with work, counting copies: the benchmark completes exactly when there are no prompts or one has work |
| VirtualScheduler.AdmittedComplete | pkg/simulator/moe_trace_virtual.go:136-245 | once no sequence waits for a slot the loop completes |
| VirtualLoop.AdmitSequences | pkg/simulator/moe_trace_virtual.go:287-313 | the loop admits in place exactly the sequences of the specification |
| VirtualLoop.ScanDecodes | pkg/simulator/moe_trace_virtual.go:139-151 | the scan ends idle sequences and lists exactly the decoding ones |
| VirtualLoop.FillPrefill | pkg/simulator/moe_trace_virtual.go:170-202 | the loop with its early exit fills the budget in order and lists exactly the sequences it touched |
| VirtualLoop.AdvanceAll | pkg/simulator/moe_trace_virtual.go:232-244 | the two update loops advance exactly the decoding and the touched sequences |
| VirtualLoop.RunForward | pkg/simulator/moe_trace_virtual.go:170-244 | the forward, or the second admission when it would be empty |
| VirtualLoop.Step | pkg/simulator/moe_trace_virtual.go:136-245 | one pass through the loop body is one iteration of the specification |
| VirtualLoop.RunLoop | pkg/simulator/moe_trace_virtual.go:136-245 | the loop terminates with the run of the specification, and its counters are the numbers of prefill, decode-only and mixed forwards and of decode steps in it |
| Bytes.LERoundTripIff | pkg/moetrace/format.go:92-160 | a number written in little-endian bytes is read back exactly when it fits |
| Bytes.LEByte | pkg/moetrace/format.go:92-109 | byte i of a number has the weight 256 to the power i |
| Bytes.FromLEIsSum | pkg/moetrace/format.go:111-146 | reading adds the bytes up with these weights |
| Bytes.PackByte | pkg/moetrace/writer.go:180-204 | byte i * w + j of a slice is byte j of its i-th integer |
| Bytes.UnpackAt | pkg/moetrace/reader.go:345-376 | integer i is read from the i-th group of w bytes |
| Bytes.PackRoundTrip | pkg/moetrace/writer.go:180-204 | a slice of integers that fit their width is read back as it was written |
| Bytes.PackSlice | pkg/moetrace/writer.go:180-186 | the loop fills the buffer with the encodings in order |
| Bytes.UnpackSlice | pkg/moetrace/reader.go:345-375 | the loop reads the integers in order |
| TraceFormat.ExpertBytesFit | pkg/moetrace/format.go:79-90 | the width is the least that holds every expert ID, and there is one exactly for 1 to 65536 experts |
| TraceFormat.MagicSpells | pkg/moetrace/format.go:92-109 | a file begins with the eight characters MOETRC01 |
| TraceFormat.HeaderParts | pkg/moetrace/format.go:92-109 | where every number of the header and the checksum stand |
| TraceFormat.EntryParts | pkg/moetrace/format.go:148-160 | where the numbers of an index entry stand |
| TraceFormat.BlockHeaderByte | pkg/moetrace/writer.go:88-97 | the seven numbers of a block header stand one after the other, byte by byte |
| TraceFormat.HeaderIsRead | pkg/moetrace/format.go:92-146 | every encoded header is read back modulo its widths, and refused exactly for a bad version or width |
| TraceFormat.HeaderRoundTrip | pkg/moetrace/format.go:92-146 | a header that fits and is acceptable is read back |
| TraceFormat.EntryRoundTrip | pkg/moetrace/format.go:148-160 | an index entry that fits is read back |
| TraceFormat.BlockHeaderRoundTrip | pkg/moetrace/writer.go:88-97 | a block header that fits is read back |
| TraceFormat.CheckedMulIff | pkg/moetrace/format.go:224-229 | the checked product is the product exactly when it fits in 64 bits |
| TraceFormat.BlockLengthIs | pkg/moetrace/format.go:166-222 | for any dimensions, the length is computed exactly when it, the number of positions in all layers and the number of routes fit in 64 bits |
| TraceFormat.BlockLengthIff | pkg/moetrace/format.go:166-222 | with at least one expert per token and a width for their IDs, the length is computed exactly when the mathematical length fits in 64 bits |
| TraceFormat.BlockLengthIsMath | pkg/moetrace/format.go:166-222 | a computed length is always the mathematical one |
| TraceFormat.RefusedThoughItFitsIff | pkg/moetrace/format.go:166-222 | a length that fits is refused exactly when one of those two numbers does not fit |
| TraceFormat.BlockLengthNeedsTopK | pkg/moetrace/format.go:166-222 | dimensions that a block header can hold, without experts per token, whose length fits and is refused |
| TraceFile.CheckBlocks | pkg/moetrace/reader.go:157-211 | the loop with its moving offset computes the offset after all blocks, or stops at the first bad one |
| TraceFile.ValidateTrace | pkg/moetrace/reader.go:157-211 | the whole validation as a predicate of the file |
| TraceFile.CutIff | pkg/moetrace/reader.go:213-273 | reading parts one after the other consumes a block exactly when their sizes add up to it |
| TraceFile.AcceptedFileIsTiled | pkg/moetrace/reader.go:51-211 | in every accepted file the blocks follow each other without gap or overlap and fill the data region exactly |
| TraceFile.AcceptedPromptIsRead | pkg/moetrace/reader.go:213-273 | every prompt of an accepted file is read to its last byte; in version 1 always, in version 2 exactly when its source GPUs are valid |
| TraceFile.PromptIsAt | pkg/moetrace/reader.go:213-273 | what is read of a prompt stands behind its block header in this order: input IDs, decode IDs, counts, prefill routes, decode routes, source GPUs |
| TraceFile.AcceptedIsConsistent | pkg/moetrace/reader.go:51-211 | index, metadata and block header of an accepted file say the same about every prompt, and the entries are numbered in order |
| TraceWriter.Writer.Write | pkg/moetrace/writer.go:172-178 | the bytes are appended and the offset follows |
| TraceWriter.Writer.WriteExperts | pkg/moetrace/writer.go:188-204 | expert IDs are packed in the width of the file; one that does not fit a single byte is refused |
| TraceWriter.Writer.WritePrompt | pkg/moetrace/writer.go:79-133 | a prompt is written exactly when it is the next one and its length is computable; then its block and its index entry are appended |
| TraceWriter.Writer.Finish | pkg/moetrace/writer.go:135-170 | the file is finished exactly when all prompts were written: header, metadata, blocks, index |
| TraceWriter.WriteTrace | pkg/moetrace/writer.go:34-170 | from header to index: writing a whole trace succeeds exactly when the prompts are numbered, their lengths computable and as many as the metadata says, and gives the file of the round trip |
| TraceWriter.BlockSize | pkg/moetrace/format.go:166-222 | a written block is as long as the mathematical length says |
| TraceWriter.BlockLayout | pkg/moetrace/writer.go:79-133 | a written block is its header followed by the arrays in the order in which they are read |
| TraceWriter.FileParts | pkg/moetrace/writer.go:34-170 | a written file is its header, the metadata, the blocks and the index, in this order |
| TraceWriter.FileRoundTrip | pkg/moetrace/reader.go:51-135 | a written file is accepted exactly when prompts and layers can be numbered in 32 bits, and gives its metadata, the size and checksum of its source, and one entry per prompt back |
| TraceWriter.PromptRoundTrip | pkg/moetrace/reader.go:213-273 | reading prompt i of a written file gives exactly the token IDs, counts and routes of prompt i at either width |
| PromptAccumulator.PromptAccumulator.constructor | pkg/moetrace/accumulator.go:36-66 | an empty accumulator of the right dimensions |
| PromptAccumulator.PromptAccumulator.Add | pkg/moetrace/accumulator.go:72-145 | accepts exactly the records that the specification accepts, and then holds what it says |
| PromptAccumulator.PromptAccumulator.ValidateComplete | pkg/moetrace/accumulator.go:147-176 | the loops accept exactly when every token and every cell was seen |
| PromptAccumulator.CheckExperts | pkg/moetrace/accumulator.go:72-145 | accepts exactly topK distinct experts in range |
| PromptAccumulator.CountExperts | pkg/moetrace/accumulator.go:72-145 | counts every expert of a record once, or reports a full count |
| Accumulator.AddKeepsInv | pkg/moetrace/accumulator.go:72-145 | every accepted record keeps the counts equal to the histogram of the cells seen so far |
| Accumulator.CountsNeverOverflow | pkg/moetrace/accumulator.go:72-145 | the overflow branch of the 32-bit counts is never taken for prompts of at most 2^32 - 1 tokens |
| Accumulator.AddsCommute | pkg/moetrace/accumulator.go:72-145 | two records lead to the same state, or to an error, in either order |
| Accumulator.OrderDoesNotMatter | pkg/moetrace/accumulator.go:72-145 | the same records in any order give the same accumulator, or an error in every order |
| Accumulator.AllCellsSeenIff | pkg/moetrace/accumulator.go:68-70 | all cells are seen exactly when as many records were added as expected |
| Accumulated.RecordIsKept | pkg/moetrace/accumulator.go:72-145 | the token and the experts of every added record are held at its position and layer |
| Accumulated.CompleteIff | pkg/moetrace/accumulator.go:147-176 | a prompt is complete exactly when the expected number of records was added |
| Accumulated.CountsAreHistogram | pkg/moetrace/accumulator.go:72-145 | the stored counts of a complete prompt are the histogram of its prefill routes |
| Accumulated.LayerCountsAddUp | pkg/moetrace/accumulator.go:72-145 | the counts of a layer of a complete prompt add up to input tokens times topK |
| Accumulated.AcceptedIff | pkg/moetrace/accumulator.go:72-145 | records are accepted exactly when each is valid and no two clash |
| Convert.TakeRecord | pkg/moetrace/source.go:119-163 | one turn of the loop: the same prompt goes on, a later one begins after the earlier ones were written, anything else is refused |
| Convert.ConvertTrace | pkg/moetrace/source.go:91-200 | the whole loop with its final checks |
| Convert.CountNeverMismatches | pkg/moetrace/source.go:192-198 | the final check of the number of records never fails |
| Convert.ConvertedIff | pkg/moetrace/source.go:91-200 | a conversion succeeds exactly on records that are grouped by prompt, valid, free of clashes and complete for every prompt; then every prompt is made of its own records |
| TraceConversion.StoredCounts | pkg/simulator/moe_trace_fidelity.go:1071-1088 | the stored counts of a converted prompt are what adding any two consecutive chunks of its positions gives |
| TraceConversion.RecordsSurvive | pkg/moetrace/converter.go:48-217 | opening the written file and reading the prompt of any converted record gives its token ID at its position and its experts in its layer |
| TraceConversion.RecordIsCounted | pkg/simulator/moe_trace_runtime.go:328-387 | the simulator counts a record that was read back for exactly its experts, in its layer and at its position |
| TraceConversion.CountsSurvive | pkg/moetrace/reader.go:213-280 | the counts that a reader finds are the histogram of the prefill routes that it finds |
| SourceMetadata.ValidateMetadata | pkg/moetrace/source.go:51-89 | the checks accept exactly valid metadata: ranges, distinct non-negative layers, sequential prompts with 32-bit token counts |
| SourceMetadata.LayerSlots | pkg/moetrace/source.go:100-103 | the loop numbers the layers |
| SourceMetadata.SlotsAreLayers | pkg/moetrace/source.go:100-103 | for validated layers that numbering is one to one |
| SourceMetadata.ValidIsDescribed | pkg/moetrace/writer.go:34-77 | validated metadata meets everything the conversion, the writer and the reader rely on |
| SourceMetadata.ConvertedTraceIsReadable | pkg/moetrace/converter.go:48-217 | end to end: for validated metadata and convertible records, every record is read back from the written file |

## Left out

- HTTP, gRPC and TLS servers, tokenizers, datasets and downloads: input and output around the modelled cores.
- Metrics, configuration parsing, response texts and random lengths: wide but without state of their own.
- ZMQ sockets and msgpack encoding: events are values, and the answer of the socket is a parameter.
- Block hashing: hashes are numbers; the chaining of hashes is not modelled.
- Profile rendering and the profile assignments collected for it (pkg/simulator/moe_profile.go): presentation.
- The unused `advance` method of the trace registry: nothing on the modelled path calls it.
- Unloading an adapter while requests run: the set of adapters is fixed during a run, with non-empty names.
- Float rounding: demands, costs and times are real numbers.
- Cost formulas of communication and of moving experts, and the power law of synthetic demand: function parameters of
  `MoeModel.Model`.
- 64-bit wrap-around of sequence numbers, generations and window counters: they are unbounded.
- Wall-clock time: the clock of a step is a parameter; measured router durations are not modelled.
- EventLog.StreamReproducesCache: after the channel lost an event, or an admission was not tidy, the stream is
  promised again from the next discard on; after a failed send, which ends the sender, not at all.
- MoeModel.Model.Lookup: the cost of a layer is a function parameter, so what is stated holds for every router; it is
  not tied to the routers, whose methods are specified by laws and not as functions.
- MoeModel.Model.LatencyForTokens: the costs of a layer and of a move are function parameters, for the same reason.
- DecodeBarrier.RunKeepsInv: request IDs are unique during a run.
- PromptAccumulator.PromptAccumulator.Add: what a refused record leaves behind in the arrays is not stated, since the
  accumulator is not used after an error.
- TraceWriter.Writer.WritePrompt: what a refused prompt leaves behind in the file is not stated, since the file is
  discarded.
- TraceWriter.FileRoundTrip: the JSON codec of the metadata is a pair of functions of which decoding undoes encoding;
  files are at most 2^64 - 1 bytes long.
- Routing.RouteAllRoutes: the sets of active experts are the keys of the chunk maps, as the trace form stores them.
