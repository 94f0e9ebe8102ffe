# Webchat conversations: a verified model

This project models the stateful core of a web chat server and proves what it
promises. Five parts are covered, each close to the Go code it follows:

* **Prompt queue and runner lifecycle.** Prompts carry an idempotency key. A
  conversation runs one prompt at a time and queues the others; each goroutine
  that submits, starts, waits for, finishes or drains interleaves with the rest
  at the conversation's lock (`SendQueue`, `ChatService`, `PromptProtocol`,
  `PromptRecords`, `PromptLiveness`, `PromptOrder`).
* **Timeline pipeline.** Stream messages get sequence numbers
  (`StreamCoordinator`); decoded frames are projected to entities with a 250 ms
  write throttle (`TimelineProjector`, `ProjectionLaws`, `MessageLaws`); two stores keep the
  entities and an index of conversations (`TimelineMemory`, `TimelineRecency`,
  `TimelineSqlite`, `StoreAgreement`, `StoreLaws`, `ConversationIndex`); clients follow by
  incremental snapshots (`Hydration`, `Paging`); three version numbers stay linked (`VersionChain`).
* **Turn store.** Snapshots of turns share block rows keyed by id and content
  hash (`BlockHash`, `TurnStore`, `TurnLaws`).
* **Runtime plan.** Runtime policies are overlaid along a profile's lineage
  (`RuntimeMiddlewares`, `RuntimeTools`, `RuntimePlan`).
* **Connection pool.** Websocket connections have bounded buffers, writer
  goroutines and an idle timer (`ConnectionPool`, `PoolLaws`).

`Text`, `Numbers`, `Wrappers`, `Ranked` and `Timeline` hold what the parts share. Objects
that the code updates in place are classes here, and each of their methods is
proved to compute a function on plain values. The lemmas are about those
functions: one call, whole histories, or every interleaving; the modules called
laws or records say what comes out in terms of the calls, frames and events
alone. Clock readings are
parameters; one lock region reads the clock once. `dafny verify dfyconfig.toml`
checks everything.

## Where a plain statement would be false

Some natural statements do not hold of the code. Each is stated with the exact
condition under which it does hold, and where it helps with a witness.

* A queue is left without anybody to drain it exactly by a submitter whose own
  `Start` failed, and stays so until a prompt with a new key is submitted
  (`PromptLiveness.StrandedExactlyByDirectFailure`, `AttendedExactly`,
  `StrandedUntilNewSubmission`, witness `DirectFailureStrands`).
* Prompts run in the order of their admission exactly as long as no new prompt
  is submitted while nothing runs but others wait, be it between a finish and
  its drain or behind a stranded queue (`PromptOrder.OrderKeptExactly`, witness
  `FreshSubmissionOvertakes`).
* Replaying a stream gives every message its derived number exactly when each id
  derives one and each of these follows the one before
  (`StreamCoordinator.ReplayExactly`). For a stream in order whose ids have a
  second part below a million and do not overflow, a fresh coordinator excludes
  only the first id `0-0` (`FreshReplay`); with a larger second part order alone
  is not enough (witness `UnfitReplay`).
* The throttle becomes visible when two message ids differ only in surrounding
  white space, or when a tool shares a message's id
  (`ProjectionLaws.ThrottleHiddenExactly`).
* The memory store's `Upsert` resets a conversation's status to "active", the
  SQLite store's does not; the memory store trims the id in the record, and
  starts a blank id's record anew each time (`ConversationIndex.MixedCallsAgree`).
* A write that does not exceed the version a client has seen is not delivered by
  its next poll; a client is complete exactly when it missed no last write this
  way (`Hydration.SharedVersionIsMissed`, `HydrationExactly`).
* A client that pages through cut-short replies of the SQLite store misses rows
  unless versions increase in listing order, because the last row's version is
  where the next page starts (`Paging.PageThenRestExactly`,
  `PagingCompletesExactly`, witness `PagingSkips`).
* The idle callback runs after the lock is given up and may meet a connection
  added since it was decided on (`ConnectionPool.CallbackMeetsExactly`, witness
  `CallbackMeetsConnection`).
* A stale idle callback that runs behind a newer timer leaves that timer running
  with nothing to stop it (`ConnectionPool.RunsTidyExactly`, witness
  `StaleCallbackLeaks`).
* The two timeline stores part with the first call whose version does not fit
  SQLite's signed column, which only SQLite refuses, or whose creation time is
  negative on a first write (`StoreAgreement.StoresObservationallyEqual`); the
  index records part with the former (`ConversationIndex.MixedCallsAgree`).
* Truncated snapshots carry different versions in the two stores
  (`StoreAgreement.SnapshotsAgree`).
* Two middlewares with different names and ids share an entry of the merged list
  when one's name contains the separator of keys
  (`RuntimeMiddlewares.KeysTellUsesApart`, witness `SeparatorConfuses`).
* The prompt of the first layer of a lineage is kept untrimmed
  (`RuntimePlan.LineageMeaning`).

## Model

| member | source | states |
|---|---|---|
| SendQueue.Conversation.PreparePromptSubmission | pkg/webchat/send_queue.go:86-147 | An empty key is refused; a known key is replayed with 202 while queued and 200 otherwise; a new key is queued behind a running prompt or claims the conversation. |
| SendQueue.Conversation.ClaimNextQueuedPrompt | pkg/webchat/send_queue.go:150-174 | Pops the head of the queue and marks its record running, unless a prompt is running or nothing waits. |
| SendQueue.Conversation.PersistPromptStartResult | pkg/webchat/send_queue.go:176-205 | Keeps the runner's reply, annotated with run and turn ids, and the first start time. |
| SendQueue.ReplayChangesNothing | pkg/webchat/send_queue.go:97-107 | Resubmitting a key leaves queue, active key and every record alone, is answered with the record's reply, and reports 202 exactly while the key waits. |
| SendQueue.AdmissionIsExclusive | pkg/webchat/send_queue.go:109-147 | A new key is started or queued, never both; it starts exactly when nothing runs; every earlier record is untouched and the statuses still say where each key is. |
| SendQueue.AdmissionReplies | pkg/webchat/send_queue.go:109-146 | The reply to a new key is the one kept for replays; it names key, conversation and session; a queued prompt is told 202, its place, which is last, and the queue's depth, a running one 200 and no place. The record carries the time it was queued or started. |
| SendQueue.EmptyKeyRefused | pkg/webchat/send_queue.go:86-92 | An empty key is refused and changes nothing, not even the activity time. |
| SendQueue.ClaimTakesTheOldest | pkg/webchat/send_queue.go:150-174 | A claim succeeds exactly when nothing runs and something waits; it takes the oldest prompt unchanged, and touches only its record. |
| SendQueue.PersistKeepsOthers | pkg/webchat/send_queue.go:176-205 | Persisting a start result touches the running record only: its reply becomes the runner's plus the run and turn ids, its start time stays if it has one, and nothing else of it changes. |
| ChatService.FinishPromptSubmission | pkg/webchat/chat_service.go:210-241 | Frees the conversation if this key was running and settles the key's record and reply. |
| ChatService.FinishSettlesTheRun | pkg/webchat/chat_service.go:210-241 | Finishing the running prompt frees the conversation, makes exactly that record terminal, with the error or completion written both in the record and in its reply, and keeps the queue. |
| ChatService.FinishTouchesOne | pkg/webchat/chat_service.go:210-241 | Finishing any key changes that key's record alone and frees the conversation only if that key was running; an error makes it failed, otherwise only a running record completes. |
| ChatService.TryDrainQueue | pkg/webchat/chat_service.go:243-266 | The drain loop computes the recursive drain of the conversation, for any answers of preparing and starting. |
| ChatService.DrainStopsAtTheFirstStart | pkg/webchat/chat_service.go:243-266 | A drain that nobody interleaves with fails the prompts before the first that starts, each with its own error and a reply that says so, and stops there: that one runs, has a waiter and keeps the runner's annotated reply, or the queue is empty. Settled records stay, and nothing happens while a prompt runs. |
| PromptProtocol.StepKeepsOwner | pkg/webchat/chat_service.go:105-266 | Each lock region keeps: status and place of every key agree, and exactly one goroutine carries the running key. |
| PromptProtocol.StepConserves | pkg/webchat/send_queue.go:68-174 | Each step keeps: everything ever enqueued equals everything claimed followed by the queue, payloads and metadata included, and a key was admitted once, directly or by queueing. |
| PromptProtocol.StepStartsOnce | pkg/webchat/chat_service.go:137-164 | Each step keeps: no key has been handed to the runner twice, and a key about to be has not been yet. |
| PromptProtocol.ExecutionKeepsInv | pkg/webchat/chat_service.go:105-266 | All of this holds after every prefix of every interleaving from a fresh conversation, start failures included. |
| PromptProtocol.SettledForever | pkg/webchat/send_queue.go:86-205 | Between any two moments of an execution, completed and failed records are unchanged, started ones are never queued again, and the histories only grow. |
| PromptProtocol.SubmittedOnceStartedOnce | pkg/webchat/send_queue.go:99-107 | A key submitted twice in an execution: the second submission changes only the activity time and replays the record, and the runner sees the key at most once overall. |
| PromptProtocol.EveryOutcomePossible | pkg/webchat/chat_service.go:137-266 | Each goroutine can always take its own next step with any outcome: a start that succeeds or fails, a preparation that fails when draining, a run that ends with any error or none. |
| PromptRecords.RecordTellsStory | pkg/webchat/chat_service.go:105-241 | At any moment of any interleaving, the record of every admitted prompt has exactly the status, the three times, the error and the reply that the events of that prompt alone give it. |
| PromptRecords.StartedExactly | pkg/webchat/chat_service.go:137-164 | The runner was called for a key if and only if the key's start has returned and its preparation did not fail. |
| PromptRecords.EndsAsReported | pkg/webchat/chat_service.go:195-241 | Over every execution, a record is failed with error e if and only if that key's own start or own wait reported e and its goroutine then finished it; it is completed if and only if its wait reported none; the reply's status says the same. |
| PromptLiveness.StrandedExactlyByDirectFailure | pkg/webchat/chat_service.go:151-155 | From an attended state, a step leaves the queue with neither a run nor a drain ahead of it if and only if it finishes a failed direct start behind a non-empty queue that nobody drains. |
| PromptLiveness.AttendedExactly | pkg/webchat/chat_service.go:105-266 | Every state of an execution is attended if and only if none of its steps is such a finish. |
| PromptLiveness.StrandedUntilNewSubmission | pkg/webchat/chat_service.go:105-166 | From a stranded queue nothing but a submission can happen, and it puts a run ahead of the queue if and only if its key is new. |
| PromptLiveness.NoStrandedPrompts | pkg/webchat/chat_service.go:195-266 | If no direct start fails, then in every reachable state a waiting prompt has a run ahead of it or a drain about to claim it. |
| PromptLiveness.StepUsesWork | pkg/webchat/chat_service.go:151-266 | Every step but a submission uses up work: goroutine stages plus five for each waiting prompt. |
| PromptLiveness.QuietRunsEnd | pkg/webchat/chat_service.go:195-266 | Without further submissions an execution takes at most as many steps as the work there was. |
| PromptLiveness.NoWorkLeft | pkg/webchat/chat_service.go:195-266 | The work is zero if and only if every goroutine has ended and the queue is empty. |
| PromptLiveness.QuietRunsSettle | pkg/webchat/chat_service.go:195-266 | After as many steps without a submission as there was work, and without a failed direct start, every goroutine has ended and every prompt has settled. |
| PromptLiveness.SettledExactlyIfAttended | pkg/webchat/chat_service.go:195-266 | When every goroutine has ended, every admitted prompt has completed or failed if and only if none was stranded. |
| PromptLiveness.NeverStuck | pkg/webchat/chat_service.go:195-266 | While any goroutine has not ended, one of them can take a step. |
| PromptLiveness.EveryPromptSettles | pkg/webchat/chat_service.go:195-266 | Once all goroutines have ended and no direct start failed, every admitted prompt completed or failed, everything enqueued was claimed and the queue is empty. |
| PromptLiveness.DirectFailureStrands | pkg/webchat/chat_service.go:151-155 | From every fresh conversation there is an execution that ends with a queued prompt and no goroutine left. |
| PromptOrder.FreshSubmissionOvertakes | pkg/webchat/chat_service.go:203-207 | From every fresh conversation there is an execution in which a prompt submitted between a finish and its drain runs before a queued one. |
| PromptOrder.StepInOrder | pkg/webchat/chat_service.go:105-266 | A step that overtakes nothing runs the prompts that waited first: what it runs and leaves waiting is what waited and what it admits, in order. |
| PromptOrder.InOrderUntilOvertaken | pkg/webchat/chat_service.go:105-266 | Until the first overtaking, the keys that ran followed by those that wait are the keys admitted, in order. |
| PromptOrder.OrderKeptExactly | pkg/webchat/chat_service.go:105-266 | At any moment of any execution, the keys that ran are a prefix of the keys admitted if and only if no new prompt was submitted while nothing ran and others waited. |
| StreamCoordinator.StreamIDRoundTrip | pkg/webchat/stream_coordinator.go:228-242 | Two 64-bit numbers written in decimal with a dash parse back as those numbers. |
| StreamCoordinator.DerivesExactly | pkg/webchat/stream_coordinator.go:228-242 | An id derives a number if and only if it is two decimal numbers of at most 64 bits with one dash between them. |
| StreamCoordinator.DerivedNumber | pkg/webchat/stream_coordinator.go:228-242 | That number is a million times the first plus the second, modulo 2^64. |
| StreamCoordinator.SuccessorIncreases | pkg/webchat/stream_coordinator.go:191-213 | The next number is the larger of the derived one and the previous plus one, and it increases, exactly below the last 64-bit number. |
| StreamCoordinator.Coordinator.CompareAndSwap | pkg/webchat/stream_coordinator.go:205-207 | Writes exactly when the counter still holds the expected value. |
| StreamCoordinator.Coordinator.NextSeq | pkg/webchat/stream_coordinator.go:191-213 | Whatever other goroutines write between load and swap, the number returned is the successor of the value it replaced and is left in the counter. |
| StreamCoordinator.AssignIncreases | pkg/webchat/stream_coordinator.go:191-213 | Over any mix of messages the numbers strictly increase if and only if none follows the last 64-bit number. |
| StreamCoordinator.IncreasingPairwise | pkg/webchat/stream_coordinator.go:191-213 | Of any two numbers of such a run the later is larger, and both exceed the start. |
| StreamCoordinator.DerivedIncreases | pkg/webchat/stream_coordinator.go:228-242 | For ids with a second part below a million and no overflow, stream order and the order of derived numbers are the same. |
| StreamCoordinator.ReplayExactly | pkg/webchat/stream_coordinator.go:191-242 | For any messages and any counter, every message gets its derived number if and only if every id derives one and each is larger than the one before, or 0 after the last 64-bit number. |
| StreamCoordinator.ReplayIsDerived | pkg/webchat/stream_coordinator.go:191-242 | For a stream in order whose ids have a second part below a million and do not overflow, every message gets its derived number if and only if the counter started below the first of them. |
| StreamCoordinator.FreshReplay | pkg/webchat/stream_coordinator.go:191-242 | From a fresh coordinator that is so for every such stream but one that begins with 0-0. |
| StreamCoordinator.UnfitReplay | pkg/webchat/stream_coordinator.go:228-242 | A stream in order that does not begin with 0-0, but whose second part reaches a million, and that does not replay to its derived numbers. |
| StreamCoordinator.CallersLinearise | pkg/webchat/stream_coordinator.go:191-213 | For every interleaving of loads and swaps the callers get what one goroutine would have assigned in the order of their swaps. |
| StreamCoordinator.CallersIncrease | pkg/webchat/stream_coordinator.go:191-213 | Hence concurrent callers get pairwise different, increasing numbers until the counter is exhausted. |
| StreamCoordinator.ServedOnce | pkg/webchat/stream_coordinator.go:191-213 | Over every interleaving, each caller that arrived was given one number or is still inside the call, and nobody else was given one. |
| StreamCoordinator.UndisturbedServed | pkg/webchat/stream_coordinator.go:191-213 | A caller whose counter nobody moves between load and swap gets the successor of the counter at once; otherwise it is back where it was. |
| TimelineProjector.Projector.constructor | pkg/webchat/timeline_projector.go:48-59 | A new projector remembers nothing. |
| TimelineProjector.Projector.ApplySemFrame | pkg/webchat/timeline_projector.go:82-320 | Frames that are not semantic, have a blank id or no sequence number do nothing; for one that a custom handler took, its answer is returned and its calls of Upsert are made; any other updates the caches as projected and writes at most one entity, with the frame's number as version, and the index record with it. The upsert hook sees exactly the writes accepted. |
| TimelineProjector.Projector.Step | pkg/webchat/timeline_projector.go:119-317 | The switch over start, delta, final, thinking and tool frames, with the write throttle; a tool result keeps its decoded object if it begins like one. |
| TimelineProjector.Projector.Close | pkg/webchat/timeline_projector.go:182-252 | Closing keeps the given text or else the accumulated one, forgets the throttle and stops streaming; what that amounts to is in the rows of MessageLaws. |
| TimelineProjector.TargetsNotBlank | pkg/webchat/timeline_projector.go:82-320 | Whatever a frame projects has a non-empty id, kind and version, so that the store accepts it. |
| ProjectionLaws.StepLooksAlike | pkg/webchat/timeline_projector.go:119-317 | One frame given to a throttled and to an unthrottled projector keeps their texts and roles equal and their stores alike. |
| ProjectionLaws.StepKeepsInv | pkg/webchat/timeline_projector.go:145-252 | A message with a remembered write stays stored as streaming in the role its next delta would have. |
| ProjectionLaws.RunsLookAlike | pkg/webchat/timeline_projector.go:119-317 | For any frames and clocks from 250 on, without shared ids and eviction, the 250 ms and the 0 ms projector end with the same ids, kinds, creation times, roles and streaming flags, and the same content wherever streaming is false. |
| ProjectionLaws.ThrottleHiddenExactly | pkg/webchat/timeline_projector.go:119-317 | Given the ids frames may use, the throttle is invisible for all such runs if and only if no two message ids trim alike and no other entity uses a message's id. |
| ProjectionLaws.DeltaWritesSpaced | pkg/webchat/timeline_projector.go:152-172 | Between closing frames of a message its delta writes are at least the window apart, counted from the write remembered before. |
| ProjectionLaws.WriteRateBound | pkg/webchat/timeline_projector.go:152-172 | A span of T ms holds at most T/250 + 1 delta writes of a message. |
| ProjectionLaws.ContentsAccumulate | pkg/webchat/timeline_projector.go:145-172 | Deltas that carry the increment, the text so far, or both, accumulate to the concatenation, whatever other messages do in between. |
| ProjectionLaws.EncodingDoesNotMatter | pkg/webchat/timeline_projector.go:120-252 | After a start and such deltas, closing with blank text writes exactly the concatenation of the increments, not streaming, in the start's role: the case of ClosingWrites without a text of its own. |
| ProjectionLaws.ToolCallCompletes | pkg/webchat/timeline_projector.go:254-286 | A finished tool call is written as completed with the name and input it last started with, whatever frames come in between. |
| MessageLaws.StartWrites | pkg/webchat/timeline_projector.go:120-143 | A start writes an empty streaming message in the role it names, trimmed, or else thinking or assistant by its type, and begins the text anew. |
| MessageLaws.ClosingWrites | pkg/webchat/timeline_projector.go:120-252 | However the increments were carried and throttled, every closing frame (final, thinking final, summary) writes its own text where that is not blank and otherwise the concatenation of the increments, not streaming, in the role of the start. |
| MessageLaws.CloseOf | pkg/webchat/timeline_projector.go:182-252 | What a closing frame writes is what the message carries afterwards, so that later deltas continue from it, and its throttle is forgotten. |
| MessageLaws.ClosedTwice | pkg/webchat/timeline_projector.go:182-252 | Closing again without a text writes the same entity again. |
| MessageLaws.DeltaWritesExactly | pkg/webchat/timeline_projector.go:145-180 | A delta of a started message is written if and only if there is any text and the window has passed since the last delta written; it shows the concatenation of all increments so far, streaming, in the role of the start. |
| MessageLaws.LastWriteIs | pkg/webchat/timeline_projector.go:152-172 | The time that the throttle remembers is that of the last delta written, while no frame closes the message. |
| MessageLaws.UnstartedRole | pkg/webchat/timeline_projector.go:145-252 | A message that was never started is written as the assistant's by deltas and finals, and as thinking by thinking finals and summaries. |
| MessageLaws.ToolFramesWrite | pkg/webchat/timeline_projector.go:254-315 | A started tool call is written as running without progress; a result goes to its own entity with its raw text, and as a structure if and only if it begins like an object and decodes. |
| MessageLaws.ToolTargetsApart | pkg/webchat/timeline_projector.go:254-315 | A tool call, its result and its custom result are three different entities, for every id. |
| MessageLaws.OthersDoNothing | pkg/webchat/timeline_projector.go:98-108 | Frames that are not semantic, have a blank id or no number, or are of another type write nothing and leave the caches alone. |
| Ranked.Sort | pkg/persistence/chatstore/timeline_store_memory.go:172-192 | Sorting distinct (rank, id) pairs gives the one ordered sequence of their set. |
| Ranked.OrderedIsSorted | pkg/persistence/chatstore/timeline_store_memory.go:239-247 | That sequence is sorted by rank, then id, and holds exactly the set. |
| Ranked.SortedUnique | pkg/persistence/chatstore/timeline_store_memory.go:239-247 | Two sorted sequences with the same elements are equal. |
| TimelineMemory.InMemoryTimelineStore.constructor | pkg/persistence/chatstore/timeline_store_memory.go:33-42 | The limit defaults to 5000 when it is not positive. |
| TimelineMemory.InMemoryTimelineStore.Upsert | pkg/persistence/chatstore/timeline_store_memory.go:109-195 | Refuses an empty conversation, id or kind and version 0; otherwise stores the stamped entity, raises the version, evicts beyond the limit and merges the index, and touches no other conversation. |
| TimelineMemory.InMemoryTimelineStore.UpsertEach | pkg/webchat/timeline_projector.go:61-80 | Calls of Upsert one after the other, refused ones included: the conversation, its index record and the writes accepted. |
| TimelineMemory.InMemoryTimelineStore.GetSnapshot | pkg/persistence/chatstore/timeline_store_memory.go:197-268 | Returns the version and the changed entities in first-seen order, cut at the limit, which is 5000 if none is given. |
| TimelineMemory.InMemoryTimelineStore.UpsertConversation | pkg/persistence/chatstore/timeline_store_memory.go:46-60 | Merges the normalized record into the index, or refuses an empty id. |
| TimelineMemory.Put | pkg/persistence/chatstore/timeline_store_memory.go:143-192 | The body of a write: creation time kept from the existing entity when positive, and eviction. |
| TimelineMemory.Evict | pkg/persistence/chatstore/timeline_store_memory.go:172-192 | The eviction loop removes exactly the oldest written entities beyond the limit from both maps. |
| TimelineMemory.List | pkg/persistence/chatstore/timeline_store_memory.go:222-260 | The filtering and sorting loops list the changed entities in first-seen order. |
| TimelineMemory.EvictedBounds | pkg/persistence/chatstore/timeline_store_memory.go:172-192 | Eviction leaves the smaller of the limit and the old size, keeps the two maps' ids equal and the version. |
| TimelineMemory.EvictsOldest | pkg/persistence/chatstore/timeline_store_memory.go:172-192 | Whatever is evicted was written at a smaller version than whatever stays, or at the same version under a smaller id, and what stays is unchanged. |
| TimelineMemory.StoreBounds | pkg/persistence/chatstore/timeline_store_memory.go:109-195 | After any calls, refused ones included, the two maps have the same ids, at most the limit of them, and the version is the greatest ever accepted. |
| TimelineRecency.RecencyMeaning | pkg/persistence/chatstore/timeline_store_memory.go:143-192 | The recency list names every written id once, in the order of last writes. |
| TimelineRecency.AgesInWriteOrder | pkg/persistence/chatstore/timeline_store_memory.go:172-192 | With increasing versions the eviction order is the order of last writes. |
| TimelineRecency.WindowShift | pkg/persistence/chatstore/timeline_store_memory.go:172-192 | One more write moves the window of most recent ids by at most one. |
| TimelineRecency.LruStep | pkg/persistence/chatstore/timeline_store_memory.go:109-195 | One write with a larger version keeps the store equal to the window of most recent ids. |
| TimelineRecency.StoreIsWriteLru | pkg/persistence/chatstore/timeline_store_memory.go:109-195 | If the accepted versions strictly increase, after any calls the store holds exactly the most recently written distinct ids up to the limit, each with its last write. |
| ConversationIndex.DescribesAgree | pkg/persistence/chatstore/timeline_store_sqlite.go:47-111 | Over any calls of UpsertConversation the Go merge and the ON CONFLICT update hold the same record if and only if SQLite refuses none of them for its version. |
| ConversationIndex.MixedCallsAgree | pkg/persistence/chatstore/timeline_store_memory.go:163-169 | With Upserts in between they agree on every field but the status and the trimming of the id, unless the id is blank or SQLite refused a call; they are equal if and only if it refused none, the id is trimmed, and the last call described the conversation or "active" was described last. |
| ConversationIndex.RefusalShows | pkg/persistence/chatstore/timeline_store_sqlite.go:53-64 | A call that SQLite refuses for its version parts the two records for ever. |
| ConversationIndex.RecordMeaning | pkg/persistence/chatstore/timeline_store_memory.go:270-325 | For any mix of descriptions and upserts as they were given: creation is the first one's time if positive, else its clock; activity is the greatest time given, where creation and then the clock stand in; version is the greatest; session, runtime and error are the last that are not blank, trimmed; status is the last one's, trimmed, or "active"; there is a timeline if and only if some call says so, carries a version or is an upsert. |
| ConversationIndex.BlankRecordMeaning | pkg/persistence/chatstore/timeline_store_memory.go:291-325 | Under a blank id the record sums up the last upsert alone, at the version reached. |
| ConversationIndex.SqlRecordMeaning | pkg/persistence/chatstore/timeline_store_sqlite.go:47-111 | After any calls SQLite's record sums up exactly those it did not refuse, apart from the id, kept as given, and the status, which is the last described one. |
| TimelineSqlite.SQLiteTimelineStore.Upsert | pkg/persistence/chatstore/timeline_store_sqlite.go:278-395 | Refuses what the memory store refuses and versions above the 64-bit signed range; otherwise updates the three tables for this conversation only and returns the entity as it is written back to the caller. |
| TimelineSqlite.SQLiteTimelineStore.Select | pkg/persistence/chatstore/timeline_store_sqlite.go:414-443 | The query's rows above a version, by creation time and id, up to the fetch limit. |
| TimelineSqlite.SQLiteTimelineStore.GetSnapshot | pkg/persistence/chatstore/timeline_store_sqlite.go:397-486 | Reads one row more than the limit, 5000 if none is given, to detect truncation; a truncated reply carries the version of its last row. |
| TimelineSqlite.Scan | pkg/persistence/chatstore/timeline_store_sqlite.go:445-466 | The loop over fetched rows keeps those up to the limit, tells whether there was one more, and remembers the last version kept. |
| TimelineSqlite.SQLiteTimelineStore.UpsertConversation | pkg/persistence/chatstore/timeline_store_sqlite.go:47-111 | Inserts or updates the normalized record, or refuses an empty id or a version out of range. |
| TimelineSqlite.MakeRow | pkg/persistence/chatstore/timeline_store_sqlite.go:320-357 | Choice of creation time; the creation column of an existing row stays. |
| StoreLaws.RowExists | pkg/persistence/chatstore/timeline_store_sqlite.go:278-395 | A row exists if and only if some call for its id was complete and within the signed 64-bit range. |
| StoreLaws.RowIsLastWrite | pkg/persistence/chatstore/timeline_store_sqlite.go:320-357 | The row is the last such call: its kind, version, entity and clock. |
| StoreLaws.RowKeepsCreation | pkg/persistence/chatstore/timeline_store_sqlite.go:327-357 | Column and entity keep the creation time of the first such call: the caller's if positive, else that call's clock. |
| StoreLaws.EntityKeepsCreation | pkg/persistence/chatstore/timeline_store_memory.go:143-162 | With room for every id, the memory store keeps the creation time of the first accepted write that gave a non-negative one, where 0 stands for the clock; while all were negative it has the last one's. |
| StoreAgreement.FirstCreationAgrees | pkg/persistence/chatstore/timeline_store_sqlite.go:327-337 | On a first write the two stores choose the same creation time if and only if the caller's is not negative. |
| StoreAgreement.InStepSame | pkg/persistence/chatstore/timeline_store_sqlite.go:278-395 | After calls that are all in step, refused ones included, and with room for all ids, both stores hold the same entities, versions and creation times. |
| StoreAgreement.MemoryHoldsWritten | pkg/persistence/chatstore/timeline_store_memory.go:109-195 | With room for all ids nothing is evicted: the store holds exactly the ids of the accepted calls. |
| StoreAgreement.OutOfStepShows | pkg/persistence/chatstore/timeline_store_sqlite.go:302-337 | A call that only SQLite refuses for its version, or a first write with a negative creation time, shows in a full read. |
| StoreAgreement.SnapshotsAgree | pkg/persistence/chatstore/timeline_store_sqlite.go:397-486 | Equal stores list the same entities in the same order for every version and limit; the whole snapshots are equal if and only if nothing is cut off or the last row returned has the newest version. |
| StoreAgreement.StoresObservationallyEqual | pkg/persistence/chatstore/timeline_store_sqlite.go:278-486 | With positive clock readings and room for all ids: after every call of a run the two stores answer every full and incremental untruncated read alike, if and only if every call that is not refused by both has a version within SQLite's range and, unless its id was written before, no negative creation time. |
| TimelineMemory.ListedMeaning | pkg/persistence/chatstore/timeline_store_memory.go:222-260 | A snapshot lists exactly the changed entities, each once. |
| TimelineMemory.ListedInOrder | pkg/persistence/chatstore/timeline_store_memory.go:239-247 | A snapshot lists its entities by creation time, and those created at the same time by id. |
| Hydration.PollShows | pkg/persistence/chatstore/timeline_store_memory.go:197-268 | After any poll, cut short or not, a stored id is current at the client if and only if the reply had room for it or it was current before. |
| Hydration.PollCompletesExactly | pkg/persistence/chatstore/timeline_store_memory.go:197-268 | One untruncated poll makes the client complete if and only if it was right about everything it did not ask for. |
| Hydration.HydrationIsComplete | pkg/persistence/chatstore/timeline_store_memory.go:197-268 | In every run whose writes exceed the client's version, even if they share or lower versions between two polls, with untruncated replies and evictions, the client agrees with the store on every stored id after each poll. |
| Hydration.HydrationExactly | pkg/persistence/chatstore/timeline_store_memory.go:197-268 | After a poll of any run with positive versions and untruncated replies, evictions included, the client agrees with the store if and only if no entity still stored has a last write that the client missed: one that did not exceed its version then and was not what it showed. |
| Hydration.PutStale | pkg/persistence/chatstore/timeline_store_memory.go:109-195 | A write makes its own entity stale if and only if it is kept, does not exceed the client's version and is not what the client shows; other entities stay stale or not, if they stay. |
| Hydration.PollStale | pkg/persistence/chatstore/timeline_store_memory.go:197-268 | An untruncated poll neither makes nor mends a stale entity and brings every other one up to date. |
| Hydration.StaleExactly | pkg/persistence/chatstore/timeline_store_memory.go:109-268 | At any moment of a run the stale entities are the stored ones whose last write the client missed. |
| Hydration.SharedVersionIsMissed | pkg/persistence/chatstore/timeline_store_memory.go:228-232 | A write that does not exceed the client's version is shown after the next poll if and only if the client already showed that very entity. |
| Paging.PageThenRestExactly | pkg/persistence/chatstore/timeline_store_sqlite.go:397-486 | After a page of the SQLite store that was cut short, a page with everything newer completes the client if and only if no row that was cut off is as old as the last row sent, or older, unless the client showed it already. |
| Paging.PagingCompletesExactly | pkg/persistence/chatstore/timeline_store_sqlite.go:397-486 | Enough pages of any size complete a new client if and only if versions increase in the order in which the rows are listed. |
| Paging.NeverDelivered | pkg/persistence/chatstore/timeline_store_sqlite.go:471-474 | A row cut off behind one at least as new is not delivered by any number of further pages. |
| Paging.PagingSkips | pkg/persistence/chatstore/timeline_store_sqlite.go:471-474 | Two rows, of which the second is never delivered with one row on a page. |
| Paging.CallsKeyed | pkg/persistence/chatstore/timeline_store_sqlite.go:278-395 | Whatever calls made the tables, rows hold their entity under its id, at positive versions up to the conversation's. |
| VersionChain.StepChains | pkg/webchat/conversation.go:187-257 | Each upsert, hook, record built and record persisted keeps the versions linked and lowers none, for any conversation id. |
| VersionChain.VersionsChain | pkg/webchat/conversation.go:205-257 | Over every interleaving of projector and emitter upserts, hooks and index writes, the conversation's last seen version is at most the timeline's, both indexes carry exactly that one under the conversation's id and none beyond it under the trimmed id, and between any two moments none went down. |
| VersionChain.LastSeenExactly | pkg/webchat/conversation.go:237-257 | The conversation's last seen version is 0 or one that was projected, and every projected version is at most that or still waits for its hook; once all hooks ran it is the greatest that was projected. |
| VersionChain.IndexesHoldCalls | pkg/webchat/conversation.go:187-257 | Over every interleaving, for a trimmed id, both indexes hold exactly what the upserts and the persisted records, in their order, amount to: the record that ConversationIndex.RecordMeaning describes. |
| VersionChain.BuiltRecord | pkg/webchat/conversation.go:205-235 | A record built names the conversation and the version seen at that moment, with status trimmed or "active" and the error trimmed. |
| BlockHash.NormalizeTwice | pkg/persistence/chatstore/block_hash.go:57-100 | Normalizing a value twice is normalizing it once. |
| BlockHash.NormalEncodes | pkg/persistence/chatstore/block_hash.go:57-100 | Normalizing a value makes it encodable if and only if no part of it is one that JSON has no form for; a value that encodes has none. |
| BlockHash.NormalEncodesAlike | pkg/persistence/chatstore/block_hash.go:57-100 | Normalizing first does not change the encoding of a value that encodes already. |
| BlockHash.EncodableExactly | pkg/persistence/chatstore/block_hash.go:31-45 | A value encodes if and only if no part of it, at any depth, is one that JSON has no form for or a map with keys of other types. |
| BlockHash.NormalizeKeepsParts | pkg/persistence/chatstore/block_hash.go:57-100 | At every path into a value, normalizing changes the key type of a map and nothing else. |
| BlockHash.EncodeKeepsParts | pkg/persistence/chatstore/block_hash.go:31-45 | At every path into a value, its encoding has the JSON of what the value has there: same text, same token, same names, same length, or nothing. |
| BlockHash.EncodeInjective | pkg/persistence/chatstore/block_hash.go:31-45 | Two values that encode have the same encoding if and only if they normalize to the same value. |
| BlockHash.HashTellsContentApart | pkg/persistence/chatstore/block_hash.go:31-55 | A block can be hashed if and only if JSON has a form for all its parts; two such blocks share a hash if and only if kind and role agree up to trimming and payload and metadata agree up to the key types of their maps. |
| TurnStore.SQLiteTurnStore.Save | pkg/persistence/chatstore/turn_store_sqlite.go:228-276 | Succeeds exactly for non-blank keys, a decodable payload and values that JSON can carry; a failure changes nothing; a blank runtime or inference key is read from the turn's metadata, and a missing time from the clock. |
| TurnStore.FindText | pkg/persistence/chatstore/turn_store_sqlite.go:741-783 | The text of some metadata entry under one of the names, whichever is visited first, and the empty text exactly when no such entry has one. |
| TurnStore.SQLiteTurnStore.PersistNormalizedSnapshot | pkg/persistence/chatstore/turn_store_sqlite.go:278-385 | One transaction: turn upserted, membership replaced and every block written, or nothing at all. |
| TurnStore.InsertBlocks | pkg/persistence/chatstore/turn_store_sqlite.go:337-378 | The block loop writes every block and its membership row in order, or gives up when one cannot be marshalled. |
| TurnStore.PrepareBlock | pkg/persistence/chatstore/turn_store_sqlite.go:338-353 | Fails exactly for a payload or metadata that JSON cannot carry as it is. |
| TurnStore.SQLiteTurnStore.LoadSnapshotBlocks | pkg/persistence/chatstore/turn_store_sqlite.go:506-573 | The blocks of one snapshot's membership rows in ordinal order, without blank roles and empty maps. |
| TurnStore.Rows | pkg/persistence/chatstore/turn_store_sqlite.go:507-533 | The joined membership rows of a snapshot by ordinal. |
| TurnStore.BlockStored | pkg/persistence/chatstore/turn_store_sqlite.go:337-378 | Writing one block keeps every row well formed, extends its own snapshot, and leaves every other block's content and every other snapshot's membership alone. |
| TurnStore.SaveIsolated | pkg/persistence/chatstore/turn_store_sqlite.go:278-385 | One save leaves the tables well formed, its snapshot equal to its list, and everything else undisturbed despite shared block rows. |
| TurnStore.HeldReadsBack | pkg/persistence/chatstore/turn_store_sqlite.go:506-573 | A snapshot that holds a list reads back as that list. |
| TurnStore.SnapshotRoundTrip | pkg/persistence/chatstore/turn_store_sqlite.go:278-573 | After any saves, failed ones included, every snapshot holds the list of its last successful save and nothing else, and every membership row has its block and its turn; what that list is, told by the save alone, is in the rows of TurnLaws. |
| TurnLaws.SnapshotReadsBack | pkg/persistence/chatstore/turn_store_sqlite.go:278-618 | For every snapshot key: it reads back as the blocks of the last successful save with this conversation, session, phase, time and turn id (the turn's own, else the caller's, else "turn", trimmed), as many and in order. A block's id is its own trimmed, or the turn id, "#" and its place in decimal; kind and role are trimmed; a blank role and empty maps are left out. Without such a save nothing reads back. |
| TurnLaws.GeneratedIdsDiffer | pkg/persistence/chatstore/turn_store_sqlite.go:612-618 | Two blocks of a snapshot without ids of their own read back under different ids. |
| TurnLaws.BlockRowMeaning | pkg/persistence/chatstore/turn_store_sqlite.go:337-378 | A block row exists if and only if some successful save has a block with its id and content hash, and it was first seen at the earliest time of these. |
| TurnLaws.TurnRowMeaning | pkg/persistence/chatstore/turn_store_sqlite.go:278-327 | A turn has a row if and only if a save of it succeeded; the row spans the saves' times and keeps the last non-empty runtime and inference and the last metadata and data. |
| TurnLaws.RuntimeKeyRead | pkg/persistence/chatstore/turn_store_sqlite.go:741-823 | A turn's one runtime entry gives a save without a runtime key the text under runtime_key, trimmed; an entry that is not such a map gives none. |
| TurnLaws.InferenceIdRead | pkg/persistence/chatstore/turn_store_sqlite.go:769-823 | A turn's one inference entry, under either name, gives a save without an inference id its text trimmed, or any other value as it prints, unless that is "<nil>". |
| RuntimeMiddlewares.MergeRuntimeMiddlewares | pkg/inference/runtime/runtime_plan.go:229-261 | The loop over a position index computes the ordered keyed override of base by overlay. |
| RuntimeMiddlewares.AppendUses | pkg/inference/runtime/runtime_plan.go:235-258 | The index always names the position of each key, and keys stay distinct. |
| RuntimeTools.MergeRuntimeTools | pkg/inference/runtime/runtime_plan.go:272-302 | Replace keeps the overlay's trimmed names, union the first mention of each name, any other mode nothing. |
| RuntimeTools.NormalizeRuntimeTools | pkg/inference/runtime/runtime_plan.go:304-320 | The trimmed names without the blank ones, in order. |
| RuntimePlan.MergeProfileRuntime | pkg/inference/runtime/runtime_plan.go:110-132 | The overlay's non-blank prompt wins; middlewares and tools are merged; a nil side returns the other. |
| RuntimePlan.ResolveRuntimePlan | pkg/inference/runtime/runtime_plan.go:53-108 | Without a profile the base is the plan. Otherwise the plan fails with the error of merging settings, else for want of a registry, else with the error of the first entry refused; if nothing fails, its runtime is the fold of base and lineage, with the merged settings and the profile's metadata and version. |
| RuntimePlan.OverlayLineage | pkg/inference/runtime/runtime_plan.go:95-105 | The loop folds the runtimes of all entries into the base, or returns the error of the first entry refused. |
| RuntimeMiddlewares.OverlayMeaning | pkg/inference/runtime/runtime_plan.go:229-261 | An override list has one entry per key, in order of first use, with the enabled flag, the settings and the trimmed name and id of the last use under that key. |
| RuntimeMiddlewares.KeysTellUsesApart | pkg/inference/runtime/runtime_plan.go:263-270 | For names without the separator, two uses share an entry if and only if their trimmed names and ids agree. |
| RuntimeMiddlewares.SeparatorConfuses | pkg/inference/runtime/runtime_plan.go:263-270 | A use whose name contains the separator overrides another whose name and id are its two parts. |
| RuntimeMiddlewares.PlaceThenOverlay | pkg/inference/runtime/runtime_plan.go:229-261 | Overriding an entry of the overlay before overlaying is overriding it afterwards. |
| RuntimeTools.AddToolsMembers | pkg/inference/runtime/runtime_plan.go:272-302 | A union has exactly the non-blank trimmed names offered, each once, after those already there. |
| RuntimeTools.UnionInOrderOfMention | pkg/inference/runtime/runtime_plan.go:276-299 | A union lists its names in the order in which the tools mention them first. |
| RuntimeTools.NormalToolsEach | pkg/inference/runtime/runtime_plan.go:304-320 | Replaced tools keep order and number: each gives its trimmed name, or nothing if that is blank. |
| RuntimeMiddlewares.MergedMiddlewaresAssociative | pkg/inference/runtime/runtime_plan.go:229-261 | Merging middlewares is associative. |
| RuntimeTools.MergedToolsAssociative | pkg/inference/runtime/runtime_plan.go:272-302 | Merging tools is associative in every mode. |
| RuntimePlan.MergeAssociative | pkg/inference/runtime/runtime_plan.go:110-132 | Merging runtimes is associative in every mode, with nil as two-sided identity. |
| RuntimePlan.GroupingDoesNotMatter | pkg/inference/runtime/runtime_plan.go:72-102 | Any bracketing of a lineage merges to the same runtime as the fold. |
| RuntimePlan.LineageMeaning | pkg/inference/runtime/runtime_plan.go:72-132 | What any lineage merges to in every mode: nil runtimes do not count, one runtime alone is kept as it is, and two or more give the last non-blank prompt (the first one's as it is), every middleware overlaid in order, and the union of the tools, the last one's tools or none. |
| RuntimePlan.ProfileMeaning | pkg/inference/runtime/runtime_plan.go:85-195 | A profile without a lineage is its own lineage; its version is a whole number, 0 where there is none or it is negative, and a float rounded down. |
| ConnectionPool.WsPool.Add | pkg/webchat/connection_pool.go:74-89 | A new connection starts with an empty buffer and stops the idle timer; a known one changes nothing. |
| ConnectionPool.WsPool.Remove | pkg/webchat/connection_pool.go:91-104 | Detaches and closes the connection and arms the idle timer when nobody is left. |
| ConnectionPool.WsPool.Broadcast | pkg/webchat/connection_pool.go:106-126 | The loop, in whatever order it visits, appends the frame to every buffer with room and drops the connections without. |
| ConnectionPool.WsPool.SendToOne | pkg/webchat/connection_pool.go:128-142 | Appends to one attached connection's buffer or drops it. |
| ConnectionPool.WsPool.CloseAll | pkg/webchat/connection_pool.go:157-175 | Detaches and closes every connection and stops the timer. |
| ConnectionPool.WsPool.DropClient | pkg/webchat/connection_pool.go:205-216 | Detaches the connection if it still is attached, arming the timer when nobody is left, and closes it. |
| ConnectionPool.WsPool.StopIdleTimer | pkg/webchat/connection_pool.go:218-223 | Stops and forgets a timer, if there is one. |
| ConnectionPool.WsPool.ScheduleIdleTimer | pkg/webchat/connection_pool.go:225-232 | Stops the timer and arms a new one when nobody is connected and one is configured. |
| ConnectionPool.WsPool.TriggerIdle | pkg/webchat/connection_pool.go:239-244 | The locked part: forgets the timer and decides to call back exactly when nobody is connected. |
| ConnectionPool.WsPool.CallBack | pkg/webchat/connection_pool.go:245-247 | The callback, after the lock was given up, meets a connection exactly when one is attached by then. |
| ConnectionPool.SenderExtendsFlow | pkg/webchat/connection_pool.go:106-142 | A frame sent to an attached connection extends what went through its channel, or drops the connection; buffers stay bounded. |
| ConnectionPool.WriterKeepsFlow | pkg/webchat/connection_pool.go:186-203 | A writer moves frames from buffer to hand to socket without losing or reordering any. |
| ConnectionPool.RunsGapFree | pkg/webchat/connection_pool.go:74-248 | After every prefix of every run, what went through a channel is a prefix of the frames addressed to it, and all of them while the connection is attached. |
| ConnectionPool.DeliveryHasNoGaps | pkg/webchat/connection_pool.go:74-248 | What a socket was written is always a prefix of the non-empty frames addressed to it since it was added; while attached, written, in hand and buffered are all of them, with the buffer within its bound. |
| ConnectionPool.IdleMeansEmpty | pkg/webchat/connection_pool.go:218-248 | An armed idle timer means nobody is connected, and a callback is decided on only when a timer's turn comes at such a moment. |
| ConnectionPool.DecidedBefore | pkg/webchat/connection_pool.go:234-248 | Every callback was decided on earlier, at a moment when nobody was connected. |
| ConnectionPool.CallbackMeetsExactly | pkg/webchat/connection_pool.go:234-248 | A callback meets a connection if and only if one was added between its decision and its call and is still attached. |
| ConnectionPool.CallbackMeetsConnection | pkg/webchat/connection_pool.go:239-247 | A run in which somebody connects between the decision and the callback. |
| ConnectionPool.TidyExactly | pkg/webchat/connection_pool.go:218-248 | A step leaves a timer running that is not the armed one if and only if a stale callback runs behind a newer timer. |
| ConnectionPool.RunsTidyExactly | pkg/webchat/connection_pool.go:218-248 | Throughout a run only the armed timer can go off if and only if no stale callback runs behind a newer one. |
| ConnectionPool.IdleAllAlong | pkg/webchat/connection_pool.go:218-248 | In a run without stale callbacks, a timer goes off only if nobody was connected at any moment since it was armed. |
| ConnectionPool.StaleCallbackLeaks | pkg/webchat/connection_pool.go:234-248 | A run in which a stale callback leaves a timer running behind a new connection. |
| ConnectionPool.DropsExactlyTheFull | pkg/webchat/connection_pool.go:106-126 | A broadcast drops and closes a connection if and only if its buffer is full, and arms the timer if and only if that leaves nobody and one is configured. |
| PoolLaws.ConnectedExactly | pkg/webchat/connection_pool.go:74-216 | A connection is attached by its own addition alone and detached exactly by its removal, its writer giving up, closing all, or a frame for it that finds its buffer full; it is closed if and only if it is not attached any more. |
| PoolLaws.CloseAllCloses | pkg/webchat/connection_pool.go:157-175 | Closing all leaves nobody attached, every connection closed and otherwise unchanged, and no timer. |
| PoolLaws.WritesExactly | pkg/webchat/connection_pool.go:186-203 | A socket is written exactly the frame in its writer's hand when a write succeeds, and nothing by a write that fails. |
| PoolLaws.WriterCanGoOn | pkg/webchat/connection_pool.go:74-203 | A new connection starts with an empty buffer and a writer at work, which can take or write a frame whenever there is one, and after a failed write can only give up. |
| PoolLaws.StoppedForGood | pkg/webchat/connection_pool.go:186-203 | Over any run, a socket whose write failed once is written nothing any more. |
| PoolLaws.TimerExactly | pkg/webchat/connection_pool.go:74-248 | Losing the last connection, or removing one from an empty pool, arms a new timer if and only if one is configured; connecting, closing all and cancelling stop it; its turn forgets it; no other event touches it. |
| PoolLaws.TimersCanGoOn | pkg/webchat/connection_pool.go:91-248 | A running timer may go off at any time, one that did may take its turn and one that decided may call back, whoever is connected by then; calls of the pool are always possible. |
| PoolLaws.CallbackOwedExactly | pkg/webchat/connection_pool.go:234-248 | A callback is owed from the timer's turn, if and only if nobody is connected then, until it is made, once. |
| Text.TrimIdempotent | pkg/persistence/chatstore/timeline_store_memory.go:270-289 | Trimming white space twice is trimming it once. |
| Text.TrimMeaning | pkg/persistence/chatstore/timeline_store_memory.go:270-289 | Trimming cuts off white space on both sides and leaves none at either end. |
| Text.SpaceCodes | pkg/persistence/chatstore/timeline_store_memory.go:270-289 | White space is the 25 code points with Unicode's White_Space property. |
| Text.LessMeaning | pkg/persistence/chatstore/timeline_store_memory.go:239-247 | A text comes before another if and only if it is a proper prefix of it or has the smaller character where they first differ. |
| Text.PlainIsDigits | pkg/persistence/chatstore/turn_store_sqlite.go:612-618 | A number has exactly one decimal notation without leading zeros. |
| Text.MagnitudeUnfolds | pkg/webchat/stream_coordinator.go:228-242 | Decimal notation: a further digit makes a number ten times as large and adds the digit. |

## Left out

- HTTP handlers, request resolution, the profile API, routing and the static UI: thin branching around this core.
- Redis, the message router, websockets, SQLite errors, migrations and backfill: only the tables' meaning is kept, and a transaction is one step.
- Runner.Start and Wait: each is any outcome at any later step; preparing a queued request may fail as well.
- ConnectionPool.WsPool.SendToOne: lookup and send are one step, so a send that meets a channel being closed by another goroutine is not modelled.
- TimelineProjector.Projector.ApplySemFrame: which calls a custom handler makes is a parameter, fixed beforehand, because it is foreign code.
- Profile metadata added to replies, generated keys for blank idempotency keys, and the trimming of given ones: the key is a parameter.
- The sharing of one response map between a record and the value returned: both are values here.
- Records are values in the map; the code updates them through shared references under the lock.
- Each lock region reads the clock once here; the code reads it several times within one region.
- Protobuf, JSON and YAML encoding: frames arrive decoded, a frame whose data does not decode is Unhandled, and a tool result comes with the object it decodes to. Texts are Unicode throughout.
- The JavaScript timeline runtime: one of the custom handlers.
- SHA-256: the hash is any injective function of the canonical material.
- Maps with keys that are not strings and print alike, of which the code keeps an arbitrary one, and byte slices and structures inside payloads, which decoding does not produce.
- Nil and empty slices and maps are one value in runtime merging.
- The writing of the SQLite store's timestamps into the caller's entity: `TimelineSqlite.SQLiteTimelineStore.Upsert` returns that entity.
- Snapshot requests above the signed 64-bit range, whose conversion the database driver decides.
- The merging of inference settings, which is another library's, and profile versions given as floats beyond 64 bits. Decoding the runtime of a lineage entry is part of the registry's answer.
- The server time that snapshots carry: a clock reading.
- ListConversations, GetConversation and the turn store's List query: reads that would only add easy members.
- ConnectionPool.WsPool.Broadcast: one step for the whole call, so sends that meet a channel being closed by another goroutine are not modelled.
- A connection added again after it left the pool: each is added at most once.
- Write deadlines of connections: they only decide when a write fails.
- Conversation eviction, starting and stopping streams, and rebuilding a conversation in GetOrCreate: their check-then-act windows are outside the model.
- Stream cursors patched into payloads, the event translator, the frame buffer and runtime fingerprints: would only add easy members.
