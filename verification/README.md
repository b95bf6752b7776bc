# VoiceServer: dialling, seats, streams and filters

A Dafny model of six parts of VoiceServer, a telephony server, with proofs about all their runs and inputs.

1. **Campaign dialling** (`Correlation`, `Lifecycle*`, `Dispatch*`, `ContactImport`, `CampaignService`). A poll loop claims contacts,
   takes a per-campaign slot, queues a task; the task's handler opens an attempt row and dials; dial events, a 45 second watchdog,
   cancellations and resets arrive at any time. `Dispatch` is a step relation over contact and attempt tables, tasks and slot
   counters. `Lifecycle` is the smaller system of legal changes to the two tables, which every step refines. The class
   `CampaignService` holds the tables, tasks and counters as fields; each of its methods is shown to be a run of those steps.
2. **Reading a reply while it arrives** (`JsonField`, `ProgressiveStream`). A scanner runs over a growing, incomplete JSON text,
   and the new part of one of its fields is passed on after every chunk.
3. **Choosing a seat for a transfer** (`AcdPool`, `AcdRotation`, `AcdTransfer`, `AcdSweep`, `AcdAudit`). Eligibility, shift
   windows, pick by weight or round robin, the retry loop, the three-pass repair of seat states, and the audit.
4. **The circuit breaker** (`CircuitBreaker`, `CircuitRuns`), with its requests, some of which finish unrecorded.
5. **Audio** (`Pcm16`, `LowPass`, `DcBlock`, `Resampler`). Floating-point numbers are `real`.
6. **The conversation with a model** (`ToolCalls`, `ChatHistory`, `ChatSession`). A log in which every tool call must be answered
   before the next request.

Tables are maps and sequences, timestamps are integers (seconds), text is a sequence of code points. A body that the source
guards with a mutex is one step.

## Assumptions about the surroundings

- The SIP stack reports at most one final event for an attempt, only after the INVITE was handed to it, and only while the
  attempt is still in progress: nothing arrives once the watchdog, 45 seconds after the dial call, has failed the attempt. These
  are the guards of the steps `FinalEvent` and `DialError` in `Dispatch.Enabled`. The source checks none of this.
  `LifecycleRuns.FinalEventIsSafeIff` says, for all tables and keys, exactly when a final event undoes no final status and
  rewrites no ended attempt, `LifecycleRuns.OpenRowsStayDialingIff` when it leaves the other attempts in progress alone, and
  `LifecycleRuns.LateAnswerUndoesAFinalStatus` is an answer that comes too late.
- The waiter of a cancelled task wakes and releases the slot, as `pkg/task/scheduler.go:179-195` has it. This is what
  `DispatchSlots.LimitCanBeExceeded` turns on; by `DispatchSlots.ExactThroughoutIff` such a release is the only way for the
  counter to become wrong.
- A request recorded by the breaker is recorded at most once, and the clock does not run backwards.
- Tool calls that get answered have ids, and the handler is used by one caller at a time.
- Seat ids are distinct and positive, as database keys are.

## Where the code and its comments differ

- `pkg/media/lowpass.go:232-234` says the DC blocker never amplifies. Every filter the constructor makes does, by a factor of
  two at most: `DcBlock.EveryFilterAmplifies`, `DcBlock.AtMostTwiceAsLoud`.
- `pkg/llm/openai.go:1122-1124` says failed turns do not accumulate. They do after a tool call has been answered, and after a
  stream that fails: `ChatHistory.FailedQueryLeavesIff`, `ChatHistory.BrokenStreamKeepsTheQuestion`.
- `internal/models/acd_pool_target.go:482` says round robin rotates among the rows in sort order. It does so only for the
  orders of `AcdRotation.FairIff`; in all others some seat is, from some pick on, never picked again.
- `internal/models/acd_pool_target.go:658` says stale web seats are set offline. One exactly 90 seconds stale on shift is set
  available again in the same sweep: `AcdSweep.SweepSettlesIff`.
- `pkg/llm/alibaba_provider.go:658-660` promises to read incomplete text progressively, escapes included. A text cut right after
  the backslash of an escape is read as ending on a backslash, and the delta already passed on is then wrong:
  `ProgressiveStream.DeltasAddUpIff`.
- `pkg/middleware/timeout_circuit.go:369` leaves client errors unrecorded on purpose; each one keeps its place in the
  concurrency count for good: `CircuitRuns.ClientErrorsKillTheEndpoint`.
- `pkg/media/resampler.go:100-101` says successive writes splice cleanly. Their samples do not always add up:
  `Resampler.TwoWritesLoseASampleIff`.

## Model

| member | source | states |
|---|---|---|
| Correlation.ParseOfPrint | internal/sipserver/campaign.go:351-365 | parsing undoes the printing of worker.go line 210 for every campaign, contact and attempt number that fits its integer type |
| Correlation.PrintIsInjective | internal/sipserver/worker.go:210 | two attempts never share a correlation id |
| Correlation.WhitespaceAroundAKey | internal/sipserver/campaign.go:353-359 | the shape is checked on the trimmed text but the numbers are scanned from the untrimmed one: a trailing blank is accepted, a leading one is not |
| Correlation.AcceptedIs | internal/sipserver/campaign.go:351-365 | whatever is accepted is three numerals behind their labels, with blanks or a plus sign where Sscanf allows them, that fit their types and are not zero, in a text whose trimmed form has the six parts of a printed key |
| Correlation.PrintLooksLike | internal/sipserver/worker.go:210 | the printed form of one key, letter by letter |
| Text.JoinOfSplit | internal/sipserver/campaign.go:353 | splitting at the colons loses nothing and leaves no colon in a part |
| Text.TrimSpaceIs | internal/sipserver/campaign.go:353 | trimming takes off the blanks at both ends, all of them, and nothing else |
| Lifecycle.RowsAgreeKept | internal/sipserver/worker.go:209-240 | every change keeps each attempt row in agreement with its contact: its number is within the count, its correlation id is the printed key, and an attempt in progress has a dialing contact and is its latest |
| Lifecycle.OpenRowIsUnique | internal/sipserver/worker.go:209-218 | a contact never has two attempts in progress |
| Lifecycle.NumberedKept | internal/sipserver/worker.go:209-240 | every change keeps the attempt numbers of each contact equal to 1, 2, 3, … up to its count, without gaps or repeats |
| Lifecycle.WithinBudgetKept | internal/sipserver/campaign.go:284-334 | every change keeps the count within the attempt limit and within four, and a waiting contact below its limit with at most three attempts |
| Lifecycle.ChangeExtends | internal/sipserver/campaign.go:284-325 | no change leaves a final contact status, rewrites an ended attempt, or alters an attempt's identity or dial time |
| Lifecycle.ReturningKeepsTheCount | internal/models/sip_campaign.go:284-295 | only releasing or resetting returns a contact to ready, and neither touches its count or its attempts |
| LifecycleTiming.OnScheduleKept | internal/sipserver/campaign.go:327-334 | every change keeps retries on schedule: an attempt with a successor has a retry time, and the successor does not start before it |
| LifecycleTiming.RetriesAreSpaced | internal/sipserver/campaign.go:327-334 | two attempts of one contact are at least the retry delay of the earlier one apart, measured from its end |
| LifecycleTiming.OpenIsSpaced | internal/sipserver/worker.go:561-575 | a contact that passes the duplicate check is more than a day away from every dial to its phone in its campaign, even when a reset has erased a last-dial time |
| LifecycleTiming.DuplicateIff | internal/sipserver/worker.go:561-575 | the duplicate check, which only sees last-dial times, finds exactly the dials of other contacts with the same phone in the last 86400 seconds, though resets erase last-dial times |
| LifecycleTiming.SpacedKept | internal/sipserver/worker.go:195-207 | so no change brings two dials of different contacts with one phone within a day |
| LifecycleTiming.DedupedKept | internal/models/sip_campaign.go:284-295 | every dial stays visible to the duplicate check, or is followed by a later dial to the same phone |
| LifecycleRuns.SoundKept | internal/sipserver/campaign.go:192-334 | every change keeps all of these at once |
| LifecycleRuns.EventHitsItsAttempt | internal/sipserver/campaign.go:234-325 | a final event carrying the printed correlation id of an attempt in progress answers or fails exactly that attempt and its contact |
| LifecycleRuns.FailureIsRecorded | internal/sipserver/campaign.go:284-334 | a failure ends the attempt now; the contact is exhausted at its last allowed attempt, else waits 300, 1800 or 7200 seconds after its first, second or third attempt, and fails at the fourth; nothing else changes |
| LifecycleRuns.AnswerIsRecorded | internal/sipserver/campaign.go:234-264 | an answer establishes the attempt and answers the contact; nothing else changes |
| LifecycleRuns.FinalEventIsSafeIff | internal/sipserver/campaign.go:234-325 | for all tables and every valid key: a final event undoes no final status and rewrites no ended attempt exactly when a final contact would get the same status again and every attempt with the key is in progress or already records what the event says |
| LifecycleRuns.EventForAttemptIsSafeIff | internal/sipserver/campaign.go:234-325 | so in sound tables the event of an existing attempt is safe exactly while the attempt is in progress, or if attempt and contact already record it |
| LifecycleRuns.LateAnswerUndoesAFinalStatus | internal/sipserver/campaign.go:234-249 | a concrete case outside that condition: the only attempt has failed, the contact is exhausted, then the answer arrives and the final status is lost |
| LifecycleRuns.OpenRowsStayDialingIff | internal/sipserver/campaign.go:234-264 | a final event for a known contact leaves every attempt in progress with a dialing contact exactly when the contact has no attempt in progress besides the one the event names |
| DispatchRefinement.StepRefines | internal/sipserver/worker.go:91-432 | each of the twenty protocol steps changes the tables by at most one life-cycle change, and a legal one |
| DispatchOwnership.OwnershipKept | internal/sipserver/worker.go:91-432 | every step keeps this: the dialing contacts are exactly the owned ones, and each has one owner among the poll loop, a task, a cancellation and an attempt in progress |
| DispatchInvariant.PollLoopKept | internal/models/sip_campaign.go:455-467 | what the poll loop has listed stays due and unchanged until it is claimed |
| DispatchReady.ReadyListExists | internal/models/sip_campaign.go:455-467 | in every table the query for contacts to dial has an answer: the first so many due contacts in dialling order |
| DispatchReady.ReadyListIsUnique | internal/models/sip_campaign.go:455-467 | and only one, so the order of dialling is determined |
| DispatchReady.WaitingContactIsListed | internal/models/sip_campaign.go:455-467 | a ready or retrying contact of the campaign whose time has come is in every answer, unless the answer is as long as TaskConcurrency allows and all in it have a higher priority, or the same and a smaller id |
| DispatchReady.ListedContactWaits | internal/models/sip_campaign.go:455-467 | every listed contact is such a contact, none is listed twice, they stand in the order of priority and id, and there are at most TaskConcurrency |
| DispatchInvariant.TasksKept | internal/sipserver/worker.go:150-158 | the contact rows that tasks remember stay accurate, and no two tasks hold the same attempt row |
| DispatchInvariant.GuardedKept | internal/sipserver/worker.go:416 | every attempt in progress is held by its handler or guarded by a watchdog |
| DispatchInvariant.InvKept | internal/sipserver/worker.go:91-192 | every step keeps the whole invariant and undoes nothing final |
| DispatchInvariant.InitialInv | internal/sipserver/campaign.go:82-92 | the invariant holds when the service starts |
| DispatchRuns.RunKeepsInv | internal/sipserver/worker.go:91-432 | so does every run |
| DispatchRuns.DialingMeansExactlyOneOwner | internal/sipserver/worker.go:91-432 | in every reachable state a contact is dialing exactly when it has an owner, and it has only one |
| DispatchRuns.DialBudget | internal/sipserver/campaign.go:284-334 | over every run a contact is dialled at most min(MaxAttempts, 4) times, its attempts are numbered 1, 2, 3, …, and retrying implies fewer attempts than allowed and at most three |
| DispatchRuns.FinalIsForever | internal/sipserver/campaign.go:284-325 | along every run answered, failed and exhausted are never left and no further attempt is made |
| DispatchRuns.RetriesWait | internal/sipserver/campaign.go:327-334 | in every run only first, second and third attempts are followed by another, which starts at least 300, 1800 or 7200 seconds after the earlier one ended |
| DispatchRuns.SamePhoneIsNotDialledTwice | internal/sipserver/worker.go:561-575 | in every run two contacts of a campaign with one phone are dialled more than 86400 seconds apart |
| DispatchRuns.HeldBackIff | internal/sipserver/worker.go:561-575 | in every reachable state a contact is held back as a duplicate exactly when another contact of its campaign with its phone was dialled in the last 86400 seconds |
| DispatchProgress.WatchdogFrees | internal/sipserver/worker.go:523-559 | an expired watchdog whose attempt is in progress takes the contact out of dialing |
| DispatchProgress.NoContactIsStuck | internal/sipserver/worker.go:523-559 | from every reachable state each dialing contact can be moved on by the service's own steps within 45 seconds, without the SIP stack or an operator |
| DispatchProgress.WatchdogWaits | internal/sipserver/worker.go:416 | in every run no watchdog strikes within 45 seconds of the start of its attempt |
| DispatchRetry.NextAttemptCanBeMade | internal/sipserver/worker.go:91-240 | from every reachable state, for every ready or retrying contact of a running campaign: the service's own steps can bring its handler to begin at the very time the contact is due, its row untouched; and there, if the duplicate check passes, the attempt with the next number is opened |
| DispatchRetry.OwnNumberIsDialled | internal/sipserver/worker.go:91-240 | so a contact whose phone no other contact of the campaign has is dialled again at the very time it is due |
| DispatchSlots.BoundedKept | internal/sipserver/campaign.go:675-705 | every step keeps the slot counter within TaskConcurrency, or one, and within the number of tasks that occupy a slot |
| DispatchSlots.CounterWithinLimit | internal/sipserver/campaign.go:675-705 | from the start, for every interleaving, the counter is at most TaskConcurrency if that is positive, and at most one otherwise |
| DispatchSlots.ExactKeptIff | internal/sipserver/campaign.go:707-732 | the counter stays equal to the number of occupying tasks exactly when the step is not a cancelled task's waiter releasing a slot that is still counted |
| DispatchSlots.ExactThroughoutIff | internal/sipserver/campaign.go:707-732 | over a whole run the counter counts the occupying tasks after every step exactly when no cancelled task's waiter releases a slot that is still counted |
| DispatchSlots.InFlightWithinLimit | internal/sipserver/campaign.go:675-754 | from the start, over every run without such a release, at most TaskConcurrency tasks of a campaign are in flight, at most one if that is not positive, and the counter counts them |
| DispatchSlots.SlotIffBelowLimit | internal/sipserver/worker.go:120-140 | in every reachable state a claimed contact gets a slot and a queued task exactly when the counter is below that number; otherwise it is ready again, due at once, and nothing else changes |
| DispatchSlots.LimitCanBeExceeded | pkg/task/scheduler.go:179-195 | with one, the limit fails: a reachable state of a campaign limited to one task has two in flight, because cancelling wakes the waiter and both release |
| CampaignService.CampaignService.TryAcquireCampaignSlot | internal/sipserver/campaign.go:675-690 | takes a slot exactly when the counter is below the limit, or below one if the limit is not positive; else changes nothing |
| CampaignService.CampaignService.ReleaseCampaignSlot | internal/sipserver/campaign.go:692-704 | gives one slot back; the counter never goes below zero |
| CampaignService.CampaignService.TryClaim | internal/models/sip_campaign.go:470-475 | compare-and-set of ready or retrying to dialing, on that contact only |
| CampaignService.CampaignService.EnqueueDispatchTask | internal/sipserver/worker.go:120-191 | is the protocol's enqueue step: a new queued task when the counter is below the limit, or the contact ready again and due at once |
| CampaignService.CampaignService.DispatchListed | internal/sipserver/worker.go:107-112 | one listed contact is a claim step, followed by an enqueue step if the claim succeeded |
| CampaignService.CampaignService.DispatchCampaign | internal/sipserver/worker.go:98-113 | one campaign's share of a poll: its ready contacts are listed, and each is claimed and enqueued in turn |
| CampaignService.CampaignService.Tick | internal/sipserver/worker.go:91-114 | a poll over the running campaigns in turn is a run of list, claim and enqueue steps only, and it ends with the poll loop empty-handed; with RunKeepsInv it keeps the invariant |
| CampaignService.CampaignService.WakeWaiter | internal/sipserver/worker.go:168-173 | the waiter removes its task and releases a slot, whichever way the task ended |
| CampaignService.CampaignService.HandleDialEvent | internal/sipserver/campaign.go:192-282 | parses the correlation id and applies the event to the tables as the life-cycle says; an unreadable id changes nothing |
| CampaignService.CampaignService.MarkAttemptFailed | internal/sipserver/campaign.go:284-325 | retry, failed or exhausted, from the attempt number and the contact's limit |
| CampaignService.CampaignService.WatchDialAttemptTimeout | internal/sipserver/worker.go:523-559 | fails the attempt if it is still in progress, otherwise does nothing |
| CampaignService.CampaignService.OpenAttemptRow | internal/sipserver/worker.go:209-240 | writes the attempt row and the new count and dial time |
| CampaignService.CampaignService.BuildFails | internal/sipserver/worker.go:272-290 | fails contact and attempt for good |
| CampaignService.CampaignService.ProcessContact | internal/sipserver/worker.go:194-432 | the handler is, for each combination of outcomes, exactly the stated run of protocol steps; it ends its task, keeps the invariant, and leaves the contact suppressed, ready, failed, waiting or exhausted, or being dialled with a watchdog 45 seconds ahead, with the attempt row to match and every other row untouched |
| CampaignService.CampaignService.CancelPending | internal/sipserver/campaign.go:717-737 | one cancel step for each queued task of the campaign among the pending ones and no other step; those tasks are cancelled, all others stay, and the ids returned are exactly their contacts |
| CampaignService.CampaignService.CancelCampaignQueuedTasks | internal/sipserver/campaign.go:707-754 | a run of cancel steps, one for each queued task of the campaign, and then one return: those tasks go, exactly their contacts become ready, due now, and nothing else in the tables changes |
| CampaignService.CampaignService.ResetSuppressedContacts | internal/models/sip_campaign.go:284-295 | suppressed contacts of the campaign become ready with no last-dial time, all others stay |
| ContactImport.BuildSIPCampaignContactsBatch | internal/models/sip_campaign.go:305-331 | one row for each item with a phone number, in order, ready at once, never with a blank phone or without an attempt to spend |
| ContactImport.DialableIs | internal/models/sip_campaign.go:305-331 | the items that get a row are those whose phone is not blank |
| ContactImport.DialableAddsUp | internal/models/sip_campaign.go:305-331 | cutting the items into batches changes nothing |
| ContactImport.ImportAddsTheRow | internal/models/sip_campaign.go:314-328 | inserting such a row is the protocol's import step, after which the contact is due |
| DispatchQueue.OrderIsUnique | pkg/task/queue.go:27-41 | the waiting tasks have only one arrangement in priority order, first come first served among equals |
| DispatchQueue.PriorityQueue.Push | pkg/task/queue.go:27-41 | inserts at the place that keeps that order and adds nothing else |
| DispatchQueue.PriorityQueue.Pop | pkg/task/queue.go:43-53 | takes the item that runs before all others |
| DispatchQueue.PriorityQueue.Remove | pkg/task/queue.go:55-66 | removes the task with the id and no other, keeping the order |
| DispatchQueue.PriorityQueue.GetPosition | pkg/task/queue.go:68-78 | the number of tasks ahead, or -1 |
| JsonField.ExtractJSONStringField | pkg/llm/alibaba_provider.go:663-737 | the index-and-builder loop computes the specified extraction |
| JsonField.ReadValue | pkg/llm/alibaba_provider.go:684-737 | the value loop reads what the token-by-token scan reads, escapes and cut escapes included |
| JsonField.ExtractIsMonotone | pkg/llm/alibaba_provider.go:663-737 | unless the value ends on a lone backslash, the extract of a text is a prefix of the extract of every extension, and once complete it never changes |
| JsonField.ExtractKeepsItsPrefixIff | pkg/llm/alibaba_provider.go:692-733 | for every text and extension: the prefix is kept exactly when there is no lone backslash at the end or it turns out to yield a backslash |
| JsonField.ExtractKeepsAllButABackslash | pkg/llm/alibaba_provider.go:692-733 | whatever text follows, all that growing can take back is one backslash at the very end |
| JsonField.ExtractOfPrint | pkg/llm/alibaba_provider.go:663-737 | a string printed with any mix of plain characters, backslash escapes and four-digit codes in either case, behind the first key and before any tail, is read back exactly and completely |
| JsonField.Hex4Iff | pkg/llm/alibaba_provider.go:714-718 | four characters are read as a number exactly when they are its hexadecimal digits, highest first, in either case |
| JsonField.Hex4FailsIff | pkg/llm/alibaba_provider.go:714-718 | four characters are no number exactly when one of them is no hexadecimal digit |
| JsonField.BadEscapeIsSkipped | pkg/llm/alibaba_provider.go:714-718 | a code that is no number is skipped |
| JsonField.ShortEscapeStops | pkg/llm/alibaba_provider.go:719-721 | a code of which not all digits have come stops the reading |
| JsonField.NothingWithoutKey | pkg/llm/alibaba_provider.go:663-686 | where the quoted key does not occur nothing is read |
| ProgressiveStream.BufferExtends | pkg/llm/alibaba_provider.go:475-486 | the accumulated buffer only grows, for every chunk sequence |
| ProgressiveStream.CumulativeBuffer | pkg/llm/alibaba_provider.go:478-482 | cumulative chunks: the buffer is the last chunk |
| ProgressiveStream.DeltaBuffer | pkg/llm/alibaba_provider.go:478-486 | the buffer is the concatenation of the chunks exactly when no chunk begins with the whole non-empty text before it |
| ProgressiveStream.DeltasAddUpIff | pkg/llm/alibaba_provider.go:410-421 | for every chunk sequence: the deltas add up to the field of the last buffer exactly when no earlier buffer ends on a lone backslash that turns out to yield something other than a backslash |
| ProgressiveStream.ReplyArrives | pkg/llm/alibaba_provider.go:410-421 | a message written into a reply in any of those ways and cut into any chunks is what the deltas add up to exactly when no escape is cut and misread |
| ProgressiveStream.FlushCompletesIff | pkg/llm/alibaba_provider.go:517-528 | the final flush completes the deltas to the final message exactly when they are a prefix of it |
| ProgressiveStream.CutEscapeLosesText | pkg/llm/alibaba_provider.go:692-733 | a two-chunk reply outside that condition, cut between a backslash and its letter: the receiver never gets the line break |
| ProgressiveStream.Stream.OnChunk | pkg/llm/alibaba_provider.go:470-493 | one chunk keeps buffer, counter and deliveries in step with the specification |
| ProgressiveStream.Stream.OnFirstByteTimeout | pkg/llm/alibaba_provider.go:432-442 | the fixed sentence, then completion, if no chunk has come; otherwise nothing |
| ProgressiveStream.Stream.Finish | pkg/llm/alibaba_provider.go:496-531 | all text first, then exactly one completion call, or nothing at all when nothing was received |
| ProgressiveStream.StreamReply | pkg/llm/alibaba_provider.go:424-531 | a whole reply, for every chunk sequence: nothing at all if no chunk has text; otherwise one completion at the end; when the final message is the field shown last, the texts add up to it exactly when no escape was cut and misread; when none was, they add up to any final message exactly when what was shown last is a prefix of it |
| AcdPool.WindowIsCyclic | internal/models/acd_pool_target.go:710-718 | a window contains a minute exactly when (m - s) mod 1440 < (e - s) mod 1440, overnight windows included |
| AcdPool.ClockTimeIs | internal/models/acd_pool_target.go:685-723 | two numerals around a colon are a time of day exactly when they are an hour up to 23 and a minute up to 59 |
| AcdPool.WindowMatchesIff | internal/models/acd_pool_target.go:685-723 | a readable window matches exactly on its kind of day, on its weekdays, and within its stretch of the day |
| AcdPool.StateIsRecognised | internal/models/acd_pool_target.go:95-106 | a state is recognised by its name, however capitalised and padded; any other text is offline |
| AcdPool.ACDFitsShiftSchedule | internal/models/acd_pool_target.go:685-723 | the loop answers whether some window matches; no or unreadable windows match always |
| AcdPool.FilterByShift | internal/models/acd_pool_target.go:401-411 | keeps exactly the rows on shift, in order |
| AcdPool.SortIsSorted | internal/models/acd_pool_target.go:431 | the rows are put in the order of sort order and then id, and none is lost or invented |
| AcdPool.ListScopedIsEligible | internal/models/acd_pool_target.go:414-441 | a scoped list has only eligible rows, in pool order, and below the limit all of them |
| AcdPool.ListScopedIff | internal/models/acd_pool_target.go:414-441 | for every pool and seat: listed exactly when it is of the tenant and scope, has a weight, is available, of a known kind, heard of within 90 seconds if a web seat, not excluded, on shift, and fewer than 64 rows that pass the database's checks stand before it |
| AcdPool.ListedRowIs | internal/models/acd_pool_target.go:414-462 | every row listed for a transfer is all of that, in the dialled number's scope or, when that lists nobody, in the tenant-wide one |
| AcdPool.ListIsEmptyIff | internal/models/acd_pool_target.go:431-440 | the limit comes before the shift filter: a list is empty exactly when the first 64 rows that pass the database are off shift |
| AcdRotation.PickIndex | internal/models/acd_pool_target.go:514-527 | the loop picks the row after the remembered id, or the first above it, or the first |
| AcdRotation.PickIsCyclicSuccessor | internal/models/acd_pool_target.go:514-527 | on ascending ids the pick is the cyclic successor of the last one, listed or not |
| AcdRotation.BoundedBypass | internal/models/acd_pool_target.go:483-530 | while a listed seat waits, no other seat is picked twice, however the list changes between picks |
| AcdRotation.WaitIsBounded | internal/models/acd_pool_target.go:483-530 | a seat that stays listed is picked within as many rounds as seats were ever listed |
| AcdRotation.FairIff | internal/models/acd_pool_target.go:514-527 | on a fixed list each round of n picks visits every seat exactly when all ids but the last ascend and the last is above them all or below the first; otherwise some seat is, from some pick on, never picked again |
| AcdRotation.LaterSeatStarves | internal/models/acd_pool_target.go:518-526 | ids 5, 1, 2 in pool order: the third is never picked |
| AcdTransfer.ListStartsWithNextCandidate | internal/models/acd_pool_target.go:447-462 | with the first k candidates excluded the list starts with candidate k, falling back to the tenant-wide rows when the number's own are used up |
| AcdTransfer.FirstConnectingIsFirst | internal/sipserver/sipapp.go:741-846 | what 'the first row that connects' means |
| AcdTransfer.HandedOutSeatIsHeld | internal/sipserver/sipapp.go:747-753 | a web seat handed to a call is offered to no other while it rings |
| AcdTransfer.TransferDesk.PickEligible | internal/models/acd_pool_target.go:466-530 | one pick: the first row, or the rotation's row, which is then remembered for the tenant and number |
| AcdTransfer.TransferDesk.PickTransferDialTarget | internal/sipserver/sipapp.go:739-871 | at most 32 tries, none excluded, none repeated; the target is of the call's tenant, in scope, available, on shift, and a live web seat or one that can be dialled; no other row tried connects; gives up early only when no row is left; by weight, with pools below the limit, the target is the first connecting row among the first 32 candidates |
| AcdSweep.SweepSettlesIff | internal/tasks/sip_user_online_cleaner.go:74-113 | after a sweep nothing is left to repair, exactly unless the seat is a web seat on shift with a heartbeat exactly at the cutoff, which ends available |
| AcdSweep.SweepRepairs | internal/tasks/sip_user_online_cleaner.go:74-113 | a settled seat is left as it is; any other goes offline if it is off shift or stopped reporting, and back to available otherwise |
| AcdSweep.SweepIsIdempotent | internal/tasks/sip_user_online_cleaner.go:74-113 | a second sweep at the same time changes nothing, and a sweep changes nothing but work states |
| AcdSweep.BusySeatIsLeftAlone | internal/models/acd_pool_target.go:535-568 | a busy seat keeps its state unless it is a web seat that stopped reporting |
| AcdSweep.CutoffIsPassing | internal/models/acd_pool_target.go:61-66 | the seat left wrong is put right by the next sweep |
| AcdSweep.SweptAvailableIsEligible | internal/models/acd_pool_target.go:424-429 | after a sweep an available seat meets all the picker's conditions, save one at the cutoff |
| AcdSweep.SeatTable.MarkStaleWebOffline | internal/models/acd_pool_target.go:659-672 | exactly the stale web seats go offline, and they are counted |
| AcdSweep.SeatTable.ApplyShiftAt | internal/models/acd_pool_target.go:535-568 | reconciles one row with its shift and says whether it changed |
| AcdSweep.SeatTable.MarkOfflineOutsideSchedule | internal/models/acd_pool_target.go:572-599 | exactly the reachable seats off shift go offline, and they are counted |
| AcdSweep.SeatTable.MarkAvailableInsideSchedule | internal/models/acd_pool_target.go:604-624 | exactly the offline seats on shift that can be reached come back, and they are counted |
| AcdSweep.SeatTable.Sweep | internal/tasks/sip_user_online_cleaner.go:74-113 | the three passes in order leave every seat settled, save those at the cutoff |
| AcdSweep.SeatTable.Reorder | internal/models/acd_pool_target.go:790-843 | refuses bad, repeated or foreign ids without a change, else gives the k-th listed seat the order 10 k and changes no other |
| AcdSweep.ReorderedFollowsTheList | internal/models/acd_pool_target.go:822-830 | the listed seats then stand in the pool in the given order |
| AcdAudit.ACDPoolTransferRejectReasons | internal/models/acd_pool_transfer_audit.go:69-102 | the appended list is the list of the conditions that fail, in order |
| AcdAudit.ReasonsAre | internal/models/acd_pool_transfer_audit.go:69-102 | each reason is given exactly when its condition fails |
| AcdAudit.AuditACDPoolTransferCandidates | internal/models/acd_pool_transfer_audit.go:29-66 | one entry for each row of the tenant, in pool order, eligible exactly when it has no reason |
| AcdAudit.AuditedRowsAre | internal/models/acd_pool_transfer_audit.go:29-66 | the audited rows are exactly the tenant's, in the order of sort order and id |
| AcdAudit.AuditAgreesWithPicker | internal/models/acd_pool_target.go:414-462 | a row is listed by the picker exactly when the audit has no reason, it is in the scope the list uses, its state and route are spelt canonically, and its heartbeat is not at the cutoff |
| AcdAudit.ListedHasNoReasons | internal/models/acd_pool_transfer_audit.go:69-102 | whatever the picker lists, the audit lets through, at any pool size |
| AcdAudit.CutoffDisagreement | internal/models/acd_pool_transfer_audit.go:92-97 | a seat last heard of exactly 90 seconds ago: the audit reports it eligible, the picker leaves it out |
| CircuitBreaker.CircuitBreaker.Allow | pkg/middleware/timeout_circuit.go:83-120 | admits by state, concurrency and time; the first admission after the wait makes it half-open |
| CircuitBreaker.CircuitBreaker.RecordSuccess | pkg/middleware/timeout_circuit.go:123-143 | releases a place; clears the failures when closed, counts towards closing when half-open |
| CircuitBreaker.CircuitBreaker.RecordFailure | pkg/middleware/timeout_circuit.go:146-168 | releases a place and counts; opens at the threshold, or at once when half-open |
| CircuitBreaker.CircuitBreaker.Report | pkg/middleware/timeout_circuit.go:351-369 | which response codes are recorded, and as what |
| CircuitRuns.ReachableInv | pkg/middleware/timeout_circuit.go:83-168 | in every state reachable from the start the counter is the requests in flight plus those never recorded, at most the limit (one more while half-open); no half-open episode has two requests in flight; neither threshold has been passed unnoticed |
| CircuitRuns.ClampNeverFires | pkg/middleware/timeout_circuit.go:127-130 | the counter is never decremented below zero |
| CircuitRuns.OpensIff | pkg/middleware/timeout_circuit.go:158-162 | it opens from closed exactly at the FailureThreshold-th failure with no success between |
| CircuitRuns.ClosesIff | pkg/middleware/timeout_circuit.go:135-141 | it closes exactly at the SuccessThreshold-th success since the probe with no failure between, and reopens exactly at a failure |
| CircuitRuns.CoolDown | pkg/middleware/timeout_circuit.go:99-106 | whatever happens after it opens, nothing is admitted until more than OpenTimeout has passed |
| CircuitRuns.ProbeIff | pkg/middleware/timeout_circuit.go:99-106 | as long as no probe has been let through since it opened, a request is admitted exactly when more than OpenTimeout has passed |
| CircuitRuns.AdmitsIff | pkg/middleware/timeout_circuit.go:87-119 | in every reachable state a closed endpoint admits a request exactly when those in flight and those never recorded leave a place, a half-open one exactly when there are none |
| CircuitRuns.DeniedForeverIff | pkg/middleware/timeout_circuit.go:351-369 | an endpoint never admits a request again exactly when nothing is in flight and unrecorded requests hold every place |
| CircuitRuns.ClientErrorsKillTheEndpoint | pkg/middleware/timeout_circuit.go:369 | as many client errors as the limit, one after another, and every later request is refused |
| Pcm16.SamplesRoundTrip | pkg/media/lowpass.go:172-187 | samples to bytes and back is the identity |
| Pcm16.BytesRoundTrip | pkg/media/lowpass.go:172-187 | bytes to samples and back is the identity but for an odd last byte |
| Pcm16.ClipIs | pkg/media/lowpass.go:152-159 | out of range a value becomes the nearest sample; in range its fraction is dropped, toward zero |
| Pcm16.Pcm16BytesToSamples | pkg/media/lowpass.go:172-179 | the loop decodes every pair of bytes, the first one being the lower |
| Pcm16.SamplesToPcm16Bytes | pkg/media/lowpass.go:181-188 | the loop encodes every sample, two's complement, the low byte first |
| LowPass.LowPassFIR.Filter | pkg/media/lowpass.go:133-166 | the nested loops compute the saturated windowed sums over history and input, and leave the last samples in the history |
| LowPass.ImpulseResponse | pkg/media/lowpass.go:145-160 | a single sample comes out as the taps in reverse times its height, starting where it went in; everything else stays silent |
| LowPass.SumsAddUp | pkg/media/lowpass.go:145-160 | before clipping the filter is linear, so the impulses fix it for every input |
| LowPass.TwoChunks | pkg/media/lowpass.go:133-166 | filtering two chunks in turn is filtering them as one, in output and in history |
| LowPass.ChunksDoNotMatter | pkg/media/lowpass.go:22-24 | for every split into chunks of any lengths the outputs join to the one-call output, and the history is the tail of the initial history followed by the input |
| LowPass.SteadyLevelPasses | pkg/media/lowpass.go:117-123 | taps that add up to one pass a steady level unchanged |
| DcBlock.DCBlockHPF.Process | pkg/media/lowpass.go:235-252 | the in-place loop writes the saturated outputs and leaves the last input and the last unsaturated output |
| DcBlock.DCBlockHPF.constructor | pkg/media/lowpass.go:218-230 | the pole is 1 - 2 pi f / rate, kept between 0 and 0.999, with 8000 for a rate that is not positive |
| DcBlock.TwoChunks | pkg/media/lowpass.go:209-210 | cutting the input anywhere changes neither outputs nor state |
| DcBlock.OutputsAddUp | pkg/media/lowpass.go:235-252 | before clipping the outputs of two inputs add up to that of their sum |
| DcBlock.SilenceChangesNothing | pkg/media/lowpass.go:235-252 | silence before a signal changes nothing, so with the steady level below the filter is fixed for every input |
| DcBlock.OutputStaysNearInput | pkg/media/lowpass.go:235-252 | for 0 <= R <= 1 and samples within A, every unsaturated output is within A of its input, so within 2A |
| DcBlock.SteadyLevelDecays | pkg/media/lowpass.go:190-207 | a steady level dies away as a power of R |
| DcBlock.FlipAfterSteadyLevel | pkg/media/lowpass.go:232-234 | the bound 2A is approached: a long level of -v followed by v gives 2v - R^(n+1) v |
| DcBlock.AtMostTwiceAsLoud | pkg/media/lowpass.go:235-252 | no sample that comes out is more than twice as loud as the loudest that went in |
| DcBlock.EveryFilterAmplifies | pkg/media/lowpass.go:218-234 | the comment says the filter never amplifies; for every pole the constructor can choose, the input -1000, 1000 comes out with a sample above 1000 |
| DcBlock.NeverAmplifiesIff | pkg/media/lowpass.go:232-234 | over the samples that come out: no input is made louder exactly when R = 1, which the constructor never chooses |
| Resampler.SourceIndexInRange | pkg/media/resampler.go:107-124 | every output sample reads from inside the input |
| Resampler.CountIs | pkg/media/resampler.go:107-109 | the number of output samples is the largest n with n * source <= samples * target |
| Resampler.LineIsKept | pkg/media/resampler.go:121-153 | samples on a straight line come out on that line, with either interpolation, wherever a next sample exists |
| Resampler.LevelIsKept | pkg/media/resampler.go:121-153 | a steady level comes out unchanged, to the last sample |
| Resampler.CubicOfPolynomial | pkg/media/resampler.go:129-144 | the cubic value is that of the polynomial of degree three through the four samples, plus its leading coefficient times t (1 - t) (1 - 2 t); parabolas are kept exactly |
| Resampler.LinearStaysBetween | pkg/media/resampler.go:145-149 | a linear value stays between its neighbours, conversion included |
| Resampler.CubicBound | pkg/media/resampler.go:129-144 | samples within A give cubic values within 5A/4 |
| Resampler.CubicFitsIff | pkg/media/resampler.go:140-144 | no cubic value leaves the sixteen-bit range exactly when the samples stay within 26214 |
| Resampler.LoudPeak | pkg/media/resampler.go:140-144 | above that, half way up a peak the converted sample is negative |
| Resampler.WholeRatioKeepsSamples | pkg/media/resampler.go:121-153 | multiplying the rate by a whole number keeps every input sample in its place |
| Resampler.TwoWritesLoseASampleIff | pkg/media/resampler.go:107-109 | two writes give as many samples as one exactly when their leftovers stay below one sample, otherwise one fewer |
| Resampler.InterpolatingConverter.Interpolate | pkg/media/resampler.go:107-157 | the loop fills the output with the specified interpolated samples |
| Resampler.InterpolatingConverter.ConvertSamples | pkg/media/resampler.go:92-166 | nothing is done at equal rates, odd input gives nothing; on the way down the filtered samples are interpolated, on the way up the interpolated ones are filtered; the filter state is carried on |
| Resampler.InterpolatingConverter.Write | pkg/media/resampler.go:179-183 | appends the converted bytes to the buffer |
| Resampler.InterpolatingConverter.Samples | pkg/media/resampler.go:172-176 | hands the buffer over and empties it |
| ToolCalls.CollectToolCalls | pkg/llm/openai.go:761-821 | the map-filling loops give, for each index seen, the first id, the last name and all arguments in order |
| ToolCalls.InterleavingDoesNotMatter | pkg/llm/openai.go:761-789 | the result depends only on each non-negative index's own pieces, however they are interleaved |
| ToolCalls.CallsAreInIndexOrder | pkg/llm/openai.go:810-821 | one call for each index seen |
| ToolCalls.CollectedIs | pkg/llm/openai.go:810-821 | the result has one call for each non-negative index that has a piece, the highest included, in increasing order |
| ToolCalls.IndicesAscend | pkg/llm/openai.go:810-821 | in increasing order, none missing |
| ChatHistory.CleanedIsWellFormed | pkg/llm/openai.go:1078-1121 | between queries only the last message can be incomplete, and the clean-up takes just that one off |
| ChatHistory.ConverseIsWellFormed | pkg/llm/openai.go:196-518 | every request of a query starts with the system message and has every tool call answered, and so does the log it leaves |
| ChatHistory.StreamedIsWellFormed | pkg/llm/openai.go:585-890 | the same for both requests of a stream |
| ChatHistory.SanitizedIsWellFormed | pkg/llm/openai.go:226-251 | sanitizing keeps that, gives the system message a text, and changes nothing else |
| ChatHistory.FailedQueryLeavesIff | pkg/llm/openai.go:330-376 | a failed query leaves exactly the cleaned log if and only if its first request was the one that failed |
| ChatHistory.TurnsStay | pkg/llm/openai.go:1122-1133 | once a tool has answered, a failing query takes nothing back |
| ChatHistory.AnswerEndsTheLog | pkg/llm/openai.go:353-507 | a successful query ends its log with the answer, which is neither empty nor the question, after at most ten requests |
| ChatHistory.AnsweredIff | pkg/llm/openai.go:196-518 | a query is answered exactly when one of the first ten replies has a text that is not the question and no calls, and all before it ask for tools without echoing the question |
| ChatHistory.AnsweredLeaves | pkg/llm/openai.go:196-518 | then each request was the log at its time, and the log holds the question, for each turn the reply with its calls and one tool answer per call under its id, and the answer |
| ChatHistory.BrokenStreamKeepsTheQuestion | pkg/llm/openai.go:690-727 | a stream that fails to start, or breaks, leaves the unanswered question in the log, and no other stream does |
| ChatHistory.CallbackHearsTheAnswer | pkg/llm/openai.go:792-806 | the callback hears exactly the answer and one completion call at the end; a failed stream never completes |
| ChatHistory.StreamLogsWhatWasHeard | pkg/llm/openai.go:792-890 | a stream that ends logs exactly the text that was heard, and with tool calls the calls, their answers and the final reply |
| ChatHistory.SegmentsAre | pkg/llm/openai.go:792-806 | the pieces are passed on one by one in order |
| ChatSession.EveryRequestIsWellFormed | pkg/llm/openai.go:156-1166 | in every serial run of queries, streams, prompt changes and resets, each request ever sent is well formed, after final replies with unanswered tool calls too |
| ChatSession.EveryCallIsAnswered | pkg/llm/openai.go:156-1166 | that is: every request begins with a system message, and every tool call in it is followed by an answer under its id |
| ChatSession.CleanupSufficesIff | pkg/llm/openai.go:1082-1121 | for every log that starts with the system message: since the clean-up cuts at one place, it leaves a well-formed log exactly when the messages before the cut have their answers before it (between the queries of a serial run they always do: CleanedIsWellFormed) |
| ChatSession.LLMHandler.CleanupIncompleteToolCalls | pkg/llm/openai.go:1080-1121 | the nested loops cut the log before its last incomplete message |
| ChatSession.LLMHandler.RollbackLastUserMessageIfMatches | pkg/llm/openai.go:1125-1133 | takes the question back only if it is the last message |
| ChatSession.LLMHandler.QueryWithOptions | pkg/llm/openai.go:156-518 | the loop does what the specified query does to the log, the requests and the answer |
| ChatSession.LLMHandler.QueryStream | pkg/llm/openai.go:585-1049 | so does the stream, what its callback hears included, whether it ends, fails to start, or breaks off for any reason |
| ChatSession.LLMHandler.SetSystemPrompt | pkg/llm/openai.go:1149-1166 | replaces the system message, or puts one in front, and keeps all other messages |
| ChatSession.LLMHandler.ResetMessages | pkg/llm/openai.go:1136-1146 | leaves only the system message |

## Left out

- Starting and stopping the worker: stopping forgets all tasks and counters, so contacts in flight then stay dialing.
- Submitting a task and taking its slot is one step, and so is the duplicate check together with writing the attempt row and the
  count (`internal/sipserver/worker.go:195-240`); two handlers interleaved between these would need a weaker claim.
- Campaign status and the scheduler's choice among tasks: any queued task may start at any time, which covers every order the
  priority queue allows. The queue's own order is proved in `DispatchQueue`.
- Campaign limits are fixed while the service runs, and the global worker count is not modelled.
- Display-only columns (failure reason, call id, metrics, events, script runs) and the SQL and GORM mechanics, database errors
  other than the failing attempt insert included.
- How dial targets are built: whether a target can be built, the register resolves it, or the row can be dialled is a parameter.
- ProcessContact: the dedupe window is the fixed 24 hours of the constructor.
- ExtractJSONStringField: works on code points; the source indexes bytes, which differs only for a `\u` escape followed by
  characters outside ASCII.
- StreamReply: the first-byte timeout is the separate method `Stream.OnFirstByteTimeout`; interruption, hang-up and callback
  errors are not modelled, and the JSON library's parse of the final text is a parameter.
- Work states and routes compare as exact texts; trimming and lower-casing in the audit are for ASCII.
- ACDFitsShiftSchedule: reading the JSON, time zones and the holiday calendar are parameters of the clock.
- PickTransferDialTarget: the pool, the clock and what can be dialled are frozen during the loop, and the caller identity fields
  of the target are not modelled. The exact result by weight assumes the two scopes hold at most 64 rows that pass the
  database's checks; without that, `AcdPool.ListIsEmptyIff` says when a scope is passed over.
- Sweep: one clock reading serves the three passes, where the source reads the clock for each.
- AuditAgreesWithPicker: assumes the same limit of 64 rows; `ListedHasNoReasons` does not.
- CircuitBreaker: the manager, its per-endpoint map, the statistics, and the timer that turns a slow request into a recorded failure.
- InterpolatingConverter.constructor: takes positive rates only; the source does not check them, and divides by the source rate.
- LowPassFIR.constructor: the taps are given; their design (sines and cosines) and the rounding of floating-point numbers are not
  modelled.
- Interpolate: a cubic value beyond the sixteen-bit range is converted by keeping its low sixteen bits; Go leaves that open.
- OutputStaysNearInput: about unsaturated outputs; `AtMostTwiceAsLoud` is about the samples.
- QueryWithOptions: usage counters, options and signals; a tool's error text counts as its answer.
- QueryStream: that a stream breaks off is one flag, `ended`, which stands for receive errors, interruption and hang-up alike;
  errors the callback returns, which the source only logs, a missing callback, and concurrent use are not modelled.
- CollectToolCalls: the type field of a call is not carried.
- HTTP handlers, authentication, configuration, logging, CRUD and listings.
