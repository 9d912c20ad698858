# Model of the TPU transaction sender

The server takes Solana transactions and sends them to the leaders of the next slots.
This project models the four stateful parts that do it, and the batch endpoint on top,
and proves what they guarantee.

- **One QUIC client shared by many calls** (`QuicProtocol.dfy`). Any number of calls of
  `send_batch` share one mutex-protected connection slot. The model is a transition system over
  the local state of every call, the slot and its guard. Taking the lock, leaving the guarded
  block, a send coming back and a call being dropped are steps; their order and the outcome of
  every connect and send are arbitrary. `QuicCalls.dfy` has the invariant, `QuicTermination.dfy`
  the proof that every call stops, `QuicReconnects.dfy` what replacing a connection means,
  `QuicDelivery.dfy` what reaches the wire, `QuicWitnesses.dfy` the runs that show the bounds are
  exact. `QuicClient.dfy` has the object with its retry loop, proved to be a run of the protocol;
  its loop terminates by the measure of the whole system.
- **The task semaphore** (`TaskSemaphore.dfy`, and `AsyncTaskSemaphore.dfy` for the object). A
  counter that counts blocked callers too: safe always, live exactly while no more callers are
  blocked than there are permits.
- **The slot estimate** (`SlotWindow.dfy`, `SlotEstimate.dfy`, and `RecentLeaderSlots.dfy` for the
  object with its sort in place). The median of the last twelve reports and the highest report
  near it: how many bad reports it withstands and how far apart the honest ones may be, and that
  one more, or one slot more, is too many.
- **The leader schedule cache** (`LeaderSchedule.dfy`, `LeaderLookup.dfy`, `CacheRefresh.dfy`, and
  `LeaderTpuCache.dfy`, `LeaderTpuService.dfy` for the objects). Looking at every fourth slot gives
  what looking at every slot gives; the race between fetch and install shifts the schedule by a
  known amount, and which leaders a lookup then serves is known exactly; lookups stay inside the
  cache as long as the last probe is within an exact distance of the last check.
- **The batch endpoint** (`BatchHandler.dfy`). Chunks of ten, up to ten attempts each; what the
  answer says about what was sent, down to the connection that carried each chunk.

`Wrappers.dfy` has the two result types.

## Assumptions

- A handshake ends in a connection or an error, a send in success, a failure to open a stream (a
  `ConnectionError`, src/quik/nonblocking/quik_client.rs:301) or a failure to write (a
  `WriteError`, line 302). Timeouts are errors.
- A connection carries two numbers: `stableId`, which the code compares, and `serial`, its place in
  the order of installation, which no branch of the model reads. Ids may be zero and may come back
  unless a result asks for `UniqueIds`.
- A leader serves four consecutive slots (`NUM_CONSECUTIVE_LEADER_SLOTS`). The port offset of QUIC
  is taken to be 6; solana-sdk is not part of this model.
- Slots are natural numbers without a width.

## Where code and text differ

- The comment on `try_send_wire_transaction_batch` (src/engine/backend_tpu_client.rs:190) promises
  the last error if all sends fail. The code keeps the first (lines 214-216), and so does
  `BatchHandler.FoldResults`.
- The guard for the epoch info (src/engine/backend_tpu_client.rs:509) looks like a way to ask once an
  epoch. It is true exactly when the estimate has not fallen more than an epoch below that of the
  last good answer (`CacheRefresh.CheckAsksExactlyWhen`), so as long as it never does, every check
  asks (`CacheRefresh.EveryCheckAsksForEpochInfo`).
- The lookup is said to give the sockets "for the current leader and upcoming leaders"
  (src/engine/leader_tpu_cache.rs:73 and 93). The leaders are asked for at one estimate and installed
  at another (src/engine/backend_tpu_client.rs:418-430), so it may miss the current leader: with a
  socket of its own that leader is served if and only if the current slot less the drift is in its
  own group of four or in one before it by fewer groups than there are probes
  (`CacheRefresh.CurrentLeaderIsServedExactlyWhen`). Runs from the start miss it on either side, for
  every fanout (`CacheRefresh.DriftCanMissTheCurrentLeader`).
- The comment on `acquire` (src/quik/quik_client.rs:49) speaks of the count as usage. It also counts
  the callers that wait, so 2001 blocked callers of a semaphore of 2000 are never admitted
  (`TaskSemaphore.StarvedForever`, `TaskSemaphore.OneTooManyIsFatal`).
- "The problematic connection we had used before" (src/quik/nonblocking/quik_client.rs:327) is
  recognised by its id. If ids come back it may be another, healthy one
  (`QuicWitnesses.ReusedIdReplacesHealthyConnection`). The decision is right if and only if an equal id
  means that the call's last attempt was on the very connection in the slot
  (`QuicReconnects.FailedOnSlot`).
- A request is answered as a success without any attempt if and only if none of its transactions
  decodes (`BatchHandler.NothingDecodableIsSuccess`).

## Model

| member | source | states |
|---|---|---|
| QuicCalls.SettleKeeps | src/quik/nonblocking/quik_client.rs:321-383 | each branch of the guarded block keeps the invariant of the call: reuse does not count as a try, a connect does, a refused connect ends the call |
| QuicCalls.SendKeeps | src/quik/nonblocking/quik_client.rs:421-458 | only a connection error goes round the loop again, and only with tries left; a write error ends the call; a sent buffer moves the batch on by one |
| QuicCalls.OtherIdIsNewer | src/quik/nonblocking/quik_client.rs:326-353 | a connection whose id differs from the last one used is newer than every connection that failed the call, even if ids are reused |
| QuicCalls.StepInv | src/quik/nonblocking/quik_client.rs:319-459 | every step of every call keeps the invariant of all calls, of the slot and of the guard |
| QuicCalls.RunInv | src/quik/nonblocking/quik_client.rs:280-295 | the invariant holds in every state of every run |
| QuicTermination.CeilingConserved | src/quik/nonblocking/quik_client.rs:316-372 | connections installed plus connects the calls may still make never changes |
| QuicTermination.SystemRankDecreases | src/quik/nonblocking/quik_client.rs:319-459 | every step of any call decreases one measure of the whole system |
| QuicTermination.RunsAreFinite | src/quik/nonblocking/quik_client.rs:319-459 | from any state of a run no continuation is longer than the measure of that state |
| QuicTermination.EveryRunStops | src/quik/nonblocking/quik_client.rs:319-459 | from a fresh client the number of steps of all calls is bounded in advance, for any interleaving and outcomes |
| QuicTermination.AttemptsAreBounded | src/quik/nonblocking/quik_client.rs:316-459 | among N calls none goes round its loop or tries its first buffer more than 2N times, plus one if the slot was filled at the start |
| QuicWitnesses.AttemptBoundIsReached | src/quik/nonblocking/quik_client.rs:316-459 | for every N that bound is reached, from an empty and from a filled slot |
| QuicReconnects.GuardProtectsSlot | src/quik/nonblocking/quik_client.rs:320-383 | while a call holds the guard no step of another call changes the slot |
| QuicReconnects.SlotMovesForward | src/quik/nonblocking/quik_client.rs:275-276 | the slot is filled once, never emptied, and only replaced by later connections |
| QuicReconnects.FailedOnSlot | src/quik/nonblocking/quik_client.rs:326-353 | whatever the ids, a call never reuses a connection that failed it, and the slot's connection has failed it exactly when nobody replaced the one of its last attempt; so comparing ids decides rightly if and only if an equal id means that very connection |
| QuicReconnects.ReconnectIsJustified | src/quik/nonblocking/quik_client.rs:326-349 | with unique ids a call reconnects exactly when the slot's connection gave this very call a connection error |
| QuicReconnects.ConnectsAreNotDuplicated | src/quik/nonblocking/quik_client.rs:321-383 | with unique ids the connections ever installed are at most one more than the distinct connections that failed |
| QuicWitnesses.ReusedIdReplacesHealthyConnection | src/quik/nonblocking/quik_client.rs:326-328 | with a reused id a run leads a call to replace a connection that never failed it |
| QuicDelivery.InvOfRun | src/quik/nonblocking/quik_client.rs:308-518 | what the rows below say of a call satisfying `CallInv` holds of every call at every moment of every run |
| QuicDelivery.OnlyTheHeadIsRetried | src/quik/nonblocking/quik_client.rs:421-458 | buffers are tried in order; only buffer 0 is tried again, only after no stream could be opened, on a later connection each time, so no buffer is written on two streams |
| QuicDelivery.OneConnectionCarriesTheBatch | src/quik/nonblocking/quik_client.rs:509-516 | everything sent, and every attempt after buffer 0, is on the one connection `_send_buffer` returned, even if others replaced it |
| QuicDelivery.WrittenIsPrefix | src/quik/nonblocking/quik_client.rs:486-518 | at every moment the buffers written are a prefix of the batch in order and within it, an empty buffer 0 left out |
| QuicDelivery.BytesArePrefix | src/quik/nonblocking/quik_client.rs:297-518 | partial writes included, the bytes a call has put on all its streams are at every moment a prefix of the bytes of the batch, and all of them if the result is Ok |
| QuicDelivery.BytesAreExact | src/quik/nonblocking/quik_client.rs:297-518 | they are exactly the buffers fully written and, if the last write failed, the part of the next buffer it got out |
| QuicDelivery.OkMeansEveryBufferWentOut | src/quik/nonblocking/quik_client.rs:486-518 | the call returns Ok if and only if every buffer went out; with nothing to put out, if and only if there was no buffer or a connection was found |
| QuicDelivery.EmptyHeadIsNotSent | src/quik/nonblocking/quik_client.rs:413-416 | an empty buffer 0 only warms the connection |
| QuicDelivery.OutcomeClassification | src/quik/nonblocking/quik_client.rs:316-468 | rounds equal reuses plus connects plus at most one refused connect; Ok means buffer 0 was empty or written on the returned connection; running out of tries means two connects and a connection error; a write error means a stream was open |
| QuicDelivery.ErrorIsOfLastAttempt | src/quik/nonblocking/quik_client.rs:443-515 | unless a connect was refused, a call returns a write error if and only if its last attempt had a stream open, in the retry loop or in the rest of the batch, and a connection error if and only if no stream could be opened |
| QuicDelivery.RefusalIsReported | src/quik/nonblocking/quik_client.rs:344-378 | in every run a call with a refused connect has ended with the error of that very connect |
| QuicDelivery.SomeCallCanStep | src/quik/nonblocking/quik_client.rs:319-459 | as long as a call has not returned some call can go on: there is no deadlock on the slot |
| QuicDelivery.EveryCallReturns | src/quik/nonblocking/quik_client.rs:319-459 | from every state a continuation without dropped calls brings all calls to their end |
| QuicDelivery.StuckMeansReturned | src/quik/nonblocking/quik_client.rs:319-459 | a run that cannot go on has brought all calls to their end |
| QuicClient.QuicClient.constructor | src/quik/nonblocking/quik_client.rs:288-295 | a new client has an empty slot, and its calls have not begun |
| QuicClient.QuicClient.MakeConnection | src/quik/nonblocking/quik_client.rs:205-277 | only a handshake that came through puts a connection in the slot; an error leaves the slot as it was |
| QuicClient.QuicClient.PrepareConnection | src/quik/nonblocking/quik_client.rs:320-383 | the guarded block is a run of the protocol: the slot holds the connection returned, a refused connect ends the call, the try count is that of the call |
| QuicClient.QuicClient.SendUsingConn | src/quik/nonblocking/quik_client.rs:297-304 | a send is a step of the protocol: sent, no stream, or an error after any number of its bytes |
| QuicClient.QuicClient.SendBufferOnce | src/quik/nonblocking/quik_client.rs:308-469 | the retry loop terminates, is a run of the protocol with the others interleaved, returns the connection that carried buffer 0, and has an error to return when the tries are used up |
| QuicClient.QuicClient.SendBatch | src/quik/nonblocking/quik_client.rs:486-518 | the batch is a run of the protocol; a prefix of it is written, to the byte, and all of it if and only if the result is Ok |
| TaskSemaphore.SafeForever | src/quik/quik_client.rs:52-66 | in every state the counter is admitted plus blocked, at most `permits` are admitted, and a release does not underflow |
| TaskSemaphore.ReleasesInARow | src/quik/quik_client.rs:62-66 | no wake-up is lost: of k releases in a row each wakes one more waiter as long as there is one |
| TaskSemaphore.AcquiresInARow | src/quik/quik_client.rs:52-59 | of k callers that arrive as many are admitted as the counter leaves room for, and the others sleep |
| TaskSemaphore.WakesInARow | src/quik/quik_client.rs:56-58 | woken callers are all admitted if the counter does not exceed the permits and all sleep again if it does |
| TaskSemaphore.StarvedForever | src/quik/quik_client.rs:52-59 | once more callers are blocked than there are permits nobody is admitted again, whatever happens |
| TaskSemaphore.DeadStaysDead | src/quik/quik_client.rs:52-66 | a state with sleepers and nobody to wake them has more blocked callers than permits and stays without an admitted task |
| TaskSemaphore.DrainIsFinite | src/quik/quik_client.rs:61-66 | without arrivals a run of releases and wakes is finite |
| TaskSemaphore.DrainsExactlyWhen | src/quik/quik_client.rs:52-66 | letting everything finish serves everybody down to counter 0 if and only if no more callers were blocked than there are permits |
| TaskSemaphore.DrainExists | src/quik/quik_client.rs:61-66 | every state can be let finish |
| TaskSemaphore.OneTooManyIsFatal | src/quik/quik_client.rs:52-66 | for every number of permits, one caller more than that blocked and all tasks finished leaves them asleep |
| AsyncTaskSemaphore.AsyncTaskSemaphore.constructor | src/quik/quik_client.rs:41-47 | a new semaphore counts nobody |
| AsyncTaskSemaphore.AsyncTaskSemaphore.Acquire | src/quik/quik_client.rs:52-59 | acquire is a run of the model that begins with its own arrival; inside, the bound holds; with as many callers blocked as permits it never gets inside |
| AsyncTaskSemaphore.AsyncTaskSemaphore.Release | src/quik/quik_client.rs:62-66 | release by an admitted task takes one off the counter without underflow and moves one caller from waiting to woken whenever one is waiting, however many are woken already |
| SlotWindow.SortSorts | src/engine/recent_leaders_slot.rs:71 | sorting gives a sorted permutation |
| SlotWindow.EstimateIsGreatestWithin | src/engine/recent_leaders_slot.rs:68-88 | the estimate is the greatest recorded slot within the median plus half the window plus 48 |
| SlotWindow.WindowIsRecentHistory | src/engine/recent_leaders_slot.rs:51-65 | after any feed the window is the last twelve of the start slot and the records |
| SlotWindow.WindowContents | src/engine/recent_leaders_slot.rs:51-65 | it has min(k + 1, 12) entries after k records, each the record of its place, or the start slot as long as that has not fallen out |
| SlotEstimate.BadReportsCannotDragUp | src/engine/recent_leaders_slot.rs:60-88 | with at most half of n reports bad the estimate is at most the highest honest one plus n/2 + 48, however far apart the honest ones are |
| SlotEstimate.BadReportsCannotDragDown | src/engine/recent_leaders_slot.rs:60-88 | with at most (n-1)/2 of n reports bad and the honest ones within n/2 + 48 the estimate is not below any honest one |
| SlotEstimate.OneMoreDragsDown | src/engine/recent_leaders_slot.rs:75-79 | in windows of every size, one bad report more puts the estimate below every honest one |
| SlotEstimate.OneMoreDragsUp | src/engine/recent_leaders_slot.rs:75-79 | in windows of every size, one bad report more than half puts the estimate at any target |
| SlotEstimate.OneMoreSlotOfSpread | src/engine/recent_leaders_slot.rs:75-79 | in windows of every size, honest reports one slot further apart than n/2 + 48 put the estimate below one of them with no bad report at all |
| SlotEstimate.ForwardFeedForwardEstimate | src/engine/recent_leaders_slot.rs:57-88 | if recorded slots never decrease neither does the estimate, while the window grows and while it slides |
| SlotEstimate.SevenRecordsRestoreTheEstimate | src/engine/recent_leaders_slot.rs:45-88 | after any history seven consecutive records within 52 slots put the estimate between their maximum and 54 above it |
| RecentLeaderSlots.InsertInPlace | src/engine/recent_leaders_slot.rs:71 | one round of the sort, in place on the array |
| RecentLeaderSlots.SortInPlace | src/engine/recent_leaders_slot.rs:71 | the array is sorted in place |
| RecentLeaderSlots.RecentLeaderSlots.constructor | src/engine/recent_leaders_slot.rs:51-55 | the window starts with the start slot |
| RecentLeaderSlots.RecentLeaderSlots.RecordSlot | src/engine/recent_leaders_slot.rs:57-65 | the pushing and popping loop leaves the last twelve |
| RecentLeaderSlots.RecentLeaderSlots.EstimatedCurrentSlot | src/engine/recent_leaders_slot.rs:68-88 | the copy, the sort, the index arithmetic and the search from the end give the estimate |
| LeaderSchedule.QuicFromUdp | src/engine/leader_tpu_cache.rs:144-152 | without a QUIC socket an entry is usable over QUIC exactly when its UDP port leaves room for the offset, at the same host and that much higher |
| LeaderSchedule.LastUsableEntryWins | src/engine/leader_tpu_cache.rs:136-156 | a leader has a socket if and only if some contact entry gives a usable one, and it is the last such entry's |
| LeaderSchedule.QuicSocketOfLastEntry | src/engine/leader_tpu_cache.rs:136-156 | over QUIC a leader has the socket of its last entry with a QUIC socket or a UDP one that leaves room for the offset: the QUIC socket itself if there is one, otherwise the UDP one that much higher |
| LeaderSchedule.UdpSocketOfLastEntry | src/engine/leader_tpu_cache.rs:153 | over UDP it has that of its last entry with a UDP socket |
| LeaderSchedule.NoSocketWithoutEntry | src/engine/leader_tpu_cache.rs:136-156 | and it has none if and only if there is no such entry |
| LeaderSchedule.DedupKeepsEach | src/engine/leader_tpu_cache.rs:79-90 | deduplication keeps every socket, once |
| LeaderSchedule.DedupOfPrefix | src/engine/leader_tpu_cache.rs:79-90 | in the order of first occurrence |
| LeaderSchedule.EachPartIsItsLastGoodReply | src/engine/leader_tpu_cache.rs:162-204 | over any sequence of updates the socket map, the epoch data and the leaders are each the last good reply of their own kind, with the estimate of that install |
| LeaderSchedule.NoGoodReplyNoChange | src/engine/leader_tpu_cache.rs:162-204 | a part without a good reply is untouched |
| LeaderSchedule.InstalledLeadersAreFound | src/engine/leader_tpu_cache.rs:61-204 | over any sequence of updates `get_slot_leader` finds a leader at a slot exactly if the last good leaders reply has it that far past the estimate of its install, and `last_slot` is the slot of its last entry |
| LeaderTpuCache.LeaderTpuCache.constructor | src/engine/leader_tpu_cache.rs:42-58 | the cache as the service starts it |
| LeaderTpuCache.LeaderTpuCache.SlotInfo | src/engine/leader_tpu_cache.rs:61-71 | `get_slot_leader` finds a leader at exactly the slots from the first to the last slot given, if any leader is cached |
| LeaderTpuCache.LeaderTpuCache.GetLeaderSockets | src/engine/leader_tpu_cache.rs:94-125 | the loop gives the known sockets of the probes at stride four, from the estimate if the first slot is not after it and from the first slot otherwise |
| LeaderTpuCache.LeaderTpuCache.GetUniqueLeaderSockets | src/engine/leader_tpu_cache.rs:74-91 | the same, deduplicated in order |
| LeaderTpuCache.LeaderTpuCache.UpdateFrom | src/engine/leader_tpu_cache.rs:162-204 | each good reply is in its fields and the others are as they were; an error is reported exactly for a failed cluster or leader reply, a cluster refresh exactly for a good one |
| LeaderLookup.StrideLookupIsFullLookup | src/engine/leader_tpu_cache.rs:74-134 | for a schedule constant on groups of four, wherever the groups begin, the stride-four lookup is the deduplicated lookup of every slot up to the end of the last group, which is at least the fanout less three |
| LeaderLookup.EveryLeaderIsServed | src/engine/leader_tpu_cache.rs:94-125 | so every known leader of those slots is in the result |
| LeaderLookup.DriftedLookup | src/engine/backend_tpu_client.rs:418-430 | a cached slot answers with the leader of the slot earlier by the estimate at install less that at fetch, whichever is larger |
| LeaderLookup.SmallDriftIsNear | src/engine/backend_tpu_client.rs:418-430 | without drift every cached slot is exact; up to four slots of drift give the leader of its group or the one before |
| LeaderLookup.DriftKeepsGroups | src/engine/backend_tpu_client.rs:418-430 | any drift moves the groups of four but keeps them whole |
| LeaderLookup.LookupDespiteDrift | src/engine/leader_tpu_cache.rs:74-134 | whatever the drift, a lookup serves every known leader of the real schedule whose group is that many groups, fewer than there are probes, after the group of the current slot less the drift, as far as the probe is cached |
| LeaderLookup.ServedExactlyWhen | src/engine/leader_tpu_cache.rs:74-134 | and of leaders with sockets of their own it serves exactly those |
| CacheRefresh.HoldsInRuns | src/engine/backend_tpu_client.rs:489-533 | in every interleaving of slot watcher, fetch and install, with right replies of any length and epochs of any length, the cached leaders and those about to be installed are the schedule from their fetch on |
| CacheRefresh.CachedLeadersAreTheSchedule | src/engine/backend_tpu_client.rs:404-440 | in every state of such a run each cached slot answers with the schedule shifted by the drift of the last install |
| CacheRefresh.SmallDriftStaysNear | src/engine/backend_tpu_client.rs:418-430 | in every state of such a run, with no drift each cached slot is exact, and with up to four slots it gives the leader of its group or the one before |
| CacheRefresh.LooksAheadInRuns | src/engine/backend_tpu_client.rs:515-527 | whatever the replies, the cache reaches 101 slots past the last good check, or one less than the number of leaders it was last given |
| CacheRefresh.OverrunsExactlyWhen | src/engine/leader_tpu_cache.rs:94-125 | a lookup finds a leader at every probe if and only if the last probe is not past the last cached slot |
| CacheRefresh.LookupsStayInTheCache | src/engine/leader_tpu_cache.rs:94-125 | in every run, whatever the replies, a lookup whose last probe is no further past the last good check than that finds a leader at every probe |
| CacheRefresh.FullRepliesReach | src/engine/backend_tpu_client.rs:515-527 | with full replies that is 101 slots, for every fanout from 1 to 100 |
| CacheRefresh.OneSlotFurtherOverruns | src/engine/leader_tpu_cache.rs:114-122 | for every fanout from 1 to 100 a run leads to a lookup whose last probe is 102 slots past the last good check and finds no leader |
| CacheRefresh.TransactionsReachTheLeaders | src/engine/backend_tpu_client.rs:372-440 | lookup, cache, drift and refresh together: within the look-ahead the known leader of a slot is served if its group is one of as many as there are probes, from that of the current slot less the drift on, and, with a socket of its own, only if |
| CacheRefresh.CurrentLeaderIsServedExactlyWhen | src/engine/leader_tpu_cache.rs:73-125 | the current leader is served for every drift from none to the span of the probes; with a socket of its own, if and only if the current slot less the drift is in the same group of four or one before it by fewer groups than there are probes |
| CacheRefresh.DriftCanMissTheCurrentLeader | src/engine/backend_tpu_client.rs:418-430 | for every fanout from 1 to 100, runs from the start with a drift one slot more than that span, or with the estimate one slot lower at the install than at the fetch, miss the current leader |
| CacheRefresh.CheckAsksExactlyWhen | src/engine/backend_tpu_client.rs:489-533 | in every run a check asks for the contact entries if and only if the timer is due, for the epoch info if and only if the estimate has not fallen more than an epoch below that of the last good answer, for the leaders if and only if no more than 100 cached slots are left, and it keeps each reply as it came |
| CacheRefresh.InstallTakesInGoodReplies | src/engine/backend_tpu_client.rs:426-430 | in every run an install takes each good reply of the last fetch into the cache, of whatever kinds there are, with the estimate of the install, and leaves the rest alone |
| CacheRefresh.CacheIsWhatWasInstalled | src/engine/backend_tpu_client.rs:413-436 | the cache of every state is what the updates of the run make of the first one, so what the update rows say holds over runs of the refresher |
| CacheRefresh.EveryCheckAsksForEpochInfo | src/engine/backend_tpu_client.rs:508-513 | as long as it never falls so far, every check of the run asks |
| LeaderTpuService.LeaderTpuService.constructor | src/engine/backend_tpu_client.rs:283-334 | the service starts with the start slot in the window and at the head of the cache |
| LeaderTpuService.CompletedSlotIsPassed | src/engine/backend_tpu_client.rs:466-475 | once a slot is reported complete among seven updates close to one another the estimate is past it, whatever came before |
| LeaderTpuService.RecordedInPlace | src/engine/backend_tpu_client.rs:466-475 | a first shred records its slot and a completed slot the next one, saturating, after what the updates before it record |
| LeaderTpuService.RecordedCount | src/engine/backend_tpu_client.rs:466-475 | and nothing else is recorded |
| LeaderTpuService.EstimateNotAhead | src/engine/backend_tpu_client.rs:466-475 | as long as no update is ahead of a slot neither is the estimate |
| LeaderTpuService.BegunSlotIsReached | src/engine/backend_tpu_client.rs:470-472 | the estimate is not below a slot begun among seven updates close to one another |
| LeaderTpuService.BegunSlotIsTheEstimate | src/engine/backend_tpu_client.rs:470-472 | and it is that very slot if no update was ahead of it |
| LeaderTpuService.LeaderTpuService.RunSlotWatcher | src/engine/backend_tpu_client.rs:465-477 | the loop over the updates leaves the window after recording what `RecordedInPlace` and `RecordedCount` say, in order |
| LeaderTpuService.LeaderTpuService.MaybeFetchCacheInfo | src/engine/backend_tpu_client.rs:489-533 | what is fetched is decided by the timer and the two guards |
| LeaderTpuService.LeaderTpuService.RefreshOnce | src/engine/backend_tpu_client.rs:413-438 | one turn is a run of the model, fetch and install reading the estimate separately; afterwards every good reply is in the cache, with the estimate of the install; the pause is shortened from 400 to 100 exactly after an error and the timer reset exactly after a cluster reply |
| LeaderTpuService.LeaderTpuService.RunCacheRefresher | src/engine/backend_tpu_client.rs:404-440 | the loop is a run of the model, one fetch and one install a turn |
| LeaderTpuService.LeaderTpuService.UniqueLeaderTpuSockets | src/engine/backend_tpu_client.rs:372-378 | the sender's lookup with the fanout clamped to 1..100 (line 244) |
| BatchHandler.FoldResults | src/engine/backend_tpu_client.rs:210-229 | Ok if and only if some leader accepted; otherwise the first error, or without leaders that no send was attempted |
| BatchHandler.DecodableOfConcat | src/main.rs:180-190 | decoding drops what does not decode and keeps the order |
| BatchHandler.DecodedInPlace | src/main.rs:180-190 | each transaction that decodes is there as what it decodes to, right after those before it |
| BatchHandler.DecodedCount | src/main.rs:180-190 | and nothing else is there |
| BatchHandler.ChunksCutUp | src/main.rs:193 | the chunks concatenate to the transactions, all of ten but a last one that is not empty |
| BatchHandler.ChunkEndsAtFirstAcceptance | src/main.rs:203-259 | a chunk is tried to the first acceptance and no longer, or ten times without one |
| BatchHandler.AttemptsPerChunk | src/main.rs:203-259 | k chunks take between k and 10k attempts |
| BatchHandler.AttemptsOnFailure | src/main.rs:241-256 | a failure at chunk k reports between k + 10 and 10(k + 1) attempts |
| BatchHandler.SendChunk | src/main.rs:203-259 | the retry loop of one chunk: accepted if and only if some attempt was, otherwise ten attempts and the first error of the last of them |
| BatchHandler.HandleTransactionsBatched | src/main.rs:165-277 | success means every chunk was accepted, failure at k that the chunks before were and k was not; attempts are counted exactly, each sent the chunk of its turn, and nothing was sent after the failure |
| BatchHandler.AcceptedTransactions | src/main.rs:193-276 | there are attempts, each accepted by some leader, at which together exactly what decodes was sent, in order and once: all of it after a success, the first 10k after a failure at chunk k |
| BatchHandler.SuccessSentEveryTransaction | src/main.rs:180-276 | if every transaction decodes, a success has sent each as what it decodes to |
| BatchHandler.AcceptedChunkIsOnSomeWire | src/main.rs:208-221 | for an accepted chunk some leader's connection carried the whole chunk in order and to the byte, an empty first transaction left out |
| BatchHandler.NothingDecodableIsSuccess | src/main.rs:262-276 | the answer is a success with no attempt if and only if no transaction of the request decodes |

## Left out

- AsyncTaskSemaphore.AsyncTaskSemaphore.Acquire: the wait in the code has no bound, and by `StarvedForever` it may not end; the method is given the turns of the others and reports whether the caller got inside by the end of them.
- QuicDelivery.BytesArePrefix: what a call that is dropped in the middle of a write has got out of that buffer is not counted.
- RecentLeaderSlots.SortInPlace: the code sorts with a library call; the model uses an insertion sort, with the same result.
- Overflow of 64-bit slots near the maximum, in the median bound and in slot arithmetic; the watcher's saturating addition is modelled.
- TLS, certificates, endpoints, the handshake itself, wall-clock time, sleeps, and the RPC and websocket transports: only their answers and their order enter.
- `ClientStats`, `ConnectionCacheStats` and timing measures; connects and reuses are counted.
- The mutex of the semaphore and of the slot as objects: a section under a lock is one step, or, for the slot, lock and leave are two steps with the guard between them.
- New calls after the start: the calls of a client are fixed in advance, and one that has not taken a step stands for one that comes later.
- The connection pool and cache (src/engine/connection_cache.rs, src/quik/mod.rs) and the wrapper src/engine/tpu_client.rs.
- Base64 decoding, which is a partial function of the caller's choice, and the parsing of keys, whose result is part of a contact entry.
- The single-transaction endpoint, `send_transaction_to_upcoming_leaders` and the getters are not modelled.
