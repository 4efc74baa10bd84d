# Verified model of the messaging, enrichment, pricing and vision core

The system ingests vehicle listings, enriches each one with an LLM stage and a computer-vision stage,
prices the result, and hands events from service to service over a broker. Delivery is at least once:
messages are redelivered, processes crash at any await, claims are leases without an owner token, and
several workers share the stores. This project models that core and proves what it keeps.
`dafny verify dfyconfig.toml` checks the whole project.

## What is modelled

**Messaging.** `Inbox` and `Outbox` are the two stores with their five-minute leases, as classes over a
table. `Consumer` is the step machine of the consumers: work queue, retry queue, dead letters, inbox,
clock, and one program counter per handler, with a crash, a dropped channel or any other handler's step
possible at every await. `MessageHandler` is the handler as the code runs it, with its try/except
branches; every step it takes is shown to be a step of the machine, and which of its steps are faults is read off
inbox, message and environment. `Conservation` proves that no event
is lost, `Losses` that each kind of excluded fault does lose one, `InboxLeases` and `CompletedOnce` the exclusion
results, `Retry` the accounting of retry copies. `Batches` and `OutboxDrain` are one drain, with publishes, marks, releases and
claims that may raise, the drain that follows an enqueue, and a sequence of drains with new rows arriving;
`OutboxProtocol` is any number of drainers interleaved, and `OutboxRepeats` shows that each thing asked of a
timely run is needed, and exactly which rows can still be delivered again. `InlineDrain` shows that the drain of
`OutboxDrain` is a run of `OutboxProtocol`. `Pipeline` steps consumer, orchestrator and outbox together.
`Triggers`, `FailureReports` and `Aggregation` prove what completion, dead letters and acknowledgements of the whole
stand for, `PipelineRuns` has the runs that show what they do not stand for, and `InlineAck` says exactly when an
acknowledgement follows the delivery of the result.

**Enrichment.** `Enrichment` is the machine of attempts over the shared listing store, with the two stages
of an attempt running concurrently; `EnrichmentCache` and `EnrichmentResume` prove that the store is a
sound cache and that finished work is kept. `Orchestrator` is one attempt as the code runs it, with reads, writes,
stage calls and the publish each raising or not, tied to the machine step by step.

**Breaker.** `Breaker` and `LlmService` are the circuit breaker and the facade that records the outcome of
each admitted call, late ones included.

**Vision geometry.** `Suppression`, `Detections` and `Letterbox` are the greedy suppression loop, the
decoding of detector output, and the letterbox with its way back, over exact rationals.

**Pricer and pages.** `PricerStores` holds the SQL repository and the in-memory one, `StoreSimulation` proves that
the second simulates the first, and `PricerDrain` is the pricer's drain. `PricerAggregation` steps the consumer and
the SQL tables together and proves what a completed event of the pricer stands for.
`Listings` and `Pages` are the listing store's recency query and cursor pagination.

Where an operation and the laws about it share a rule (what is retried, which inputs count as changed, how boxes
overlap, how long a page is), the rule is also stated case by case in plain terms, on the operation itself or in a
lemma beside it, so that the laws cannot be met by another rule.

## Assumptions

- Each single store call (one insert, one find-and-update, one delete) is atomic. `try_claim` need not be:
  its insert and its update are two steps, and other steps may come in between.
- The methods of the pricer's SQL repository run as whole transactions, and ids are handed out without gaps.
- A `publish_retry` that returns has stored the copy. A copy that expires from the retry queue comes back
  with `redelivered` false; a message the broker takes back is flagged `redelivered`.
- A store or broker call that raises may or may not have been applied; both are modelled.
- The conservation theorem is about one event, and asks of the handlers of that event only that they meet none of
  five faults, each a check on the state before the step (`Conservation.Benign`). Where nobody else holds the claim
  or may take the row over: a handler whose channel is gone is granted a new row or one without a status; `try_claim`
  raises for a redelivered message over a processing row; `try_claim` raises although its insert, or its update of a
  row without a status, was applied; `release_claim` raises without having deleted the processing row. And in any
  case: a handler whose channel is gone deletes the row inside another handler's claim window. The first four are
  exactly the claiming and releasing steps that leave a processing row nobody vouches for
  (`Conservation.FaultyIffOrphans`), and no claim that goes through is one while its channel is there
  (`Conservation.AttachedClaimIsBenign`). `Losses` has a run for each in which the event is lost while every other
  step is benign. The theorem also excludes an inbox row without a status for the event, with a run that shows why.
- In a sequence of drains, rows that arrive meanwhile carry later creation times than the backlog.
- The publisher is configured. Stage results, pixels and priced figures are opaque values. Coordinates,
  scores and delays are exact rationals.

Where documentation and code disagree, the code is modelled. `docs/adr/002-ack-on-aggregation.md:16-17` asks
that a message is acknowledged only once the enriched event's publish succeeded; in the code
(`services/enrichment/app/messaging/outbox_sink.py:97-106`) an error of the drain is logged and swallowed, so an
acknowledgement needs the durable outbox row and not the publish. `PipelineRuns.AckWithOrWithoutDelivery` has a
run of the whole service that acknowledges an event whose result nobody has received, and one in which it has been
received. `Aggregation.CompletedMeansAggregated` states what the code does give, and `InlineAck.AckFollowsDeliveryIff`
exactly when the acknowledgement follows the delivery, read off the outbox before the publish: the claim of the inline
drain does not raise, fewer rows than its limit were claimable, no release in front of the result raises, and the
broker takes the result. That is for a result newer than all that is claimable, with no other drain in between;
`OutboxDrain.OutboxEventSink.EnqueueAndDrain` has the two bounds for a result that ties with other rows.

Some promises hold under a condition only, and the exact condition is proved:

- The simulation between the pricer's repositories holds for a command if and only if it meets no stale
  lease (`StoreSimulation.RepliesAgreeIff`), and a mark is harmless if and only if its id was already handed
  out (`StoreSimulation.MarkIsHarmlessIff`).
- A row can be delivered again if and only if it is not marked published or some drain still has it to publish
  (`OutboxRepeats.SentAgainIff`).
- Which of the two stages gets the lock first is seen in the store if and only if both return and the write of just
  one of them is applied (`Orchestrator.OrderMattersIff`).
- Following page cursors yields every listing if and only if no full page ends between two rows with one
  timestamp (`Pages.WalkIsCompleteIff`).
- The breaker's state can be read off its history as counts and times (the failures since the last success, the
  last failure, the calls since) if and only if the threshold is at least one (`Breaker.StateIsHistoryIff`).
- Detector output is read the right way round if and only if its shape satisfies `Detections.OrientationIff`; of
  square output one layout is read correctly and the other not (`Detections.SquareOutputIsReadOneWay`). And
  the letterbox can resize an image if and only if it is not too thin (`Letterbox.ResizeFailsIff`).

## Model

| member | source | states |
|---|---|---|
| `Inbox.InboxRepository.TryClaim` | services/enrichment/app/repositories/messaging_store.py:58-109 | the claim is granted exactly when `ClaimOutcome` grants it, and the table becomes what that says |
| `Inbox.InboxRepository.MarkCompleted` | services/enrichment/app/repositories/messaging_store.py:111-123 | the row becomes completed whatever it was, nothing else changes |
| `Inbox.InboxRepository.ReleaseClaim` | services/enrichment/app/repositories/messaging_store.py:125-129 | only a processing row is deleted |
| `Inbox.ClaimGrantedIff` | services/enrichment/app/repositories/messaging_store.py:58-109 | exactly when a claim is granted: no row, a processing row that is stale or being reclaimed, or a legacy row on a first delivery; a granted claim changes that row only |
| `Types.LeaseIsFiveMinutes` | services/enrichment/app/repositories/messaging_store.py:17 | the lease of both stores is 300,000 milliseconds |
| `Inbox.CompletedIsPermanent` | services/enrichment/app/repositories/messaging_store.py:58-129 | over any sequence of claims, completions and releases a completed row stays completed and refuses every claim |
| `Inbox.LeaseExcludesOthers` | services/enrichment/app/repositories/messaging_store.py:58-109 | a claimed row stands against any run of other attempts made within the lease |
| `Inbox.ReleaseUndoesClaim` | services/enrichment/app/repositories/messaging_store.py:58-129 | releasing a first claim restores the table exactly |
| `Retry.LineageTerminates` | services/enrichment/app/consumers/raw_listing_consumer.py:164-190 | without crashes a message is handled at most max(1, N - count) times, and only its last handling acks or rejects |
| `Retry.LineageIsItsOutcomes` | services/enrichment/app/consumers/raw_listing_consumer.py:157-192 | a whole lineage read off the outcomes of its handlings: a handling is followed by another exactly when it failed transiently with its next count below the maximum, and then waits the time for that count; a success acknowledges, a permanent error or a malformed body dead-letters at the count it came with, an exhausted transient failure at its count plus one |
| `Retry.NotRetryableIsRejected` | services/enrichment/app/consumers/raw_listing_consumer.py:157-175 | an error that is not retryable is handled once and dead-lettered |
| `Retry.RetriedIff` | services/enrichment/app/consumers/raw_listing_consumer.py:176-190 | one failure is retried exactly when it is transient and the count plus one is below the maximum |
| `Retry.CountSources` | services/enrichment/app/consumers/raw_listing_consumer.py:264-273 | the count is the header's, without one the body's, and zero for a body that does not parse |
| `Retry.LineageCountsAgree` | services/enrichment/app/consumers/raw_listing_consumer.py:194-210 | the j-th copy carries count c + j + 1 in header and re-serialised body alike; event and listing are kept |
| `Retry.CappedDelay` | services/enrichment/app/messaging/retry.py:22-24 | the waits left from count c on are at most the cap times the copies left |
| `Retry.DoublingDelay` | services/enrichment/app/messaging/retry.py:22-24 | the waits left from count c on are at most base * (2^(N-1) - 2^c) |
| `Retry.TotalDelayBound` | services/enrichment/app/consumers/raw_listing_consumer.py:176-190 | the total requested delay is at most min(cap * (N-1), base * (2^(N-1) - 1)) |
| `Retry.BoundsAreTight` | services/enrichment/app/consumers/raw_listing_consumer.py:176-190 | a message that keeps failing is handled exactly N - count times, and below the cap waits exactly the doubling bound |
| `Retry.DelayDoublesUntilCap` | services/enrichment/app/messaging/retry.py:22-24 | each wait is twice the one before, cut at the cap, starting from the base |
| `Retry.ExpirationTracksDelay` | services/enrichment/app/messaging/retry.py:40-59 | the TTL is the delay in whole milliseconds rounded down, and at least one |
| `MessageHandler.EventConsumer.HandleMessage` | services/enrichment/app/consumers/raw_listing_consumer.py:97-146 | which exception gets out, what the inbox is afterwards, and whether the event met a fault, for every outcome of claim, work, completion, drain and release, raising calls applied or not; and that the path is a run of the machine |
| `MessageHandler.EventConsumer.WorkAndComplete` | services/pricer/app/consumers/enriched_listing_consumer.py:121-138 | with the claim held: completed once mark_completed is applied, whatever raises after it; released on a failure before, unless the release is not applied |
| `MessageHandler.EventConsumer.Complete` | services/pricer/app/consumers/enriched_listing_consumer.py:126-138 | after an applied completion, a late error of mark_completed or of the drain gets out and the row stays completed |
| `MessageHandler.GrantedRuns` | services/enrichment/app/consumers/raw_listing_consumer.py:117-146 | with the claim granted, which exception gets out and what becomes of the row, for every outcome of work, completion, drain and release |
| `MessageHandler.RefusedIsSkipped` | services/enrichment/app/consumers/raw_listing_consumer.py:117-132 | a duplicate, that is a completed row, a fresh lease met by a first delivery, or a row without a status met by a redelivery, is skipped without an error and its row is not touched |
| `MessageHandler.RaisingClaimFails` | services/enrichment/app/consumers/raw_listing_consumer.py:117-146 | a claim that raises is a transient failure, and of its two store calls what was applied stays |
| `MessageHandler.MalformedFails` | services/enrichment/app/consumers/raw_listing_consumer.py:97-108 | a body that does not parse fails before the inbox is asked |
| `MessageHandler.ReportIsAbout` | services/enrichment/app/consumers/raw_listing_consumer.py:212-243 | whom a failure event is about: the event's own ids and request, or the stand-ins for a body that does not parse |
| `MessageHandler.ClaimIsLeftIff` | services/enrichment/app/consumers/raw_listing_consumer.py:115-144 | an uninterrupted handling of a new event leaves a claim behind if and only if the insert was applied but raised, or it failed before completion and the release was not applied; and that is if and only if it met a fault |
| `MessageHandler.EventConsumer.OnMessage` | services/enrichment/app/consumers/raw_listing_consumer.py:148-192 | a stopping consumer gives the message back flagged; otherwise the exception that got out decides: none acknowledges, a permanent or malformed one dead-letters with nothing on the retry queue, a transient one leaves a copy while the next count is below the maximum and dead-letters from then on; queues, dead letters and reports change by just that, and a publish that raises leaves the message unsettled. With the claim granted and the work raising a permanent error the message is dead-lettered, the retry queue is as it was, and the claim is gone. It meets a fault exactly when `Harms` says so of inbox, message and environment, from any inbox, and nobody else vouches for the row; other events never do |
| `MessageHandler.EventConsumer.SettleFailure` | services/enrichment/app/consumers/raw_listing_consumer.py:157-190 | malformed and permanent errors are dead-lettered at the current count and leave no copy; a transient one is retried exactly while the next count is below the maximum, and otherwise dead-lettered at that count; a raising publish leaves the message unsettled |
| `MessageHandler.EventConsumer.ScheduleRetry` | services/enrichment/app/consumers/raw_listing_consumer.py:194-210 | the copy with the next count is stored before the message is acknowledged; if the publish raises the message is not acknowledged, stored copy or not |
| `MessageHandler.EventConsumer.HandleExhausted` | services/enrichment/app/consumers/raw_listing_consumer.py:212-243 | the failure event, with the ids of the event or the stand-ins for a malformed body and its count, is published before the message is dead-lettered, and only then |
| `MessageHandler.EventConsumer.TryClaim` | services/enrichment/app/consumers/raw_listing_consumer.py:117-132 | the two store calls of the claim are the machine's two claim steps, either of which may raise, applied or not |
| `MessageHandler.EventConsumer.ReleaseAfter` | services/enrichment/app/consumers/raw_listing_consumer.py:141-144 | the original error gets out after a release, another one if the release raises; the row is deleted unless the release was not applied |
| `MessageHandler.ConsumerLosesNothing` | services/enrichment/app/consumers/raw_listing_consumer.py:97-243 | after any handlings, arrivals, expiries and closed channels since an empty start, an event on which no handling met a fault is completed in the inbox, dead-lettered, on a queue, or with a handler whose channel is open |
| `Conservation.NoEventLost` | services/enrichment/app/consumers/raw_listing_consumer.py:97-192 | in every reachable state, with any number of handlers, crashes and redeliveries, a message ever put on the work queue is completed, dead-lettered or has a copy on its way, if none of its own handlers met a fault; other events may meet any |
| `Conservation.FaultyIffOrphans` | services/enrichment/app/consumers/raw_listing_consumer.py:115-144 | the faults, read off the state before the step, are exactly the claiming and releasing steps that leave a processing row with nobody to vouch for it |
| `Conservation.AttachedClaimIsBenign` | services/enrichment/app/repositories/messaging_store.py:58-109 | no claim that goes through is a fault while the handler's channel is there |
| `Conservation.InvStep` | services/enrichment/app/consumers/raw_listing_consumer.py:97-192 | every step keeps the invariant of an event: its processing row always has a witness that holds the claim or may take it over, and while it is open without a row a copy will be claimed |
| `Conservation.AckIsSafe` | services/enrichment/app/consumers/raw_listing_consumer.py:148-192 | after any acknowledgement, of a skipped duplicate too, the event is still accounted for |
| `Conservation.SettlementHasACause` | services/enrichment/app/consumers/raw_listing_consumer.py:148-192 | in every reachable state, faults included, an acknowledgement means the event is completed, the claim was refused, or a retry copy was published; a reject means the failure was reported first |
| `Conservation.NotRetryableIsNeverRetried` | services/enrichment/app/consumers/raw_listing_consumer.py:157-175 | over every run a handler whose error is not retryable publishes no copy |
| `Conservation.RetriedOrGivenUp` | services/enrichment/app/consumers/raw_listing_consumer.py:157-190 | a handler can publish a copy exactly when its failure is transient and has a count to spare, and gives up exactly when not |
| `Conservation.CompletedForGood` | services/enrichment/app/repositories/messaging_store.py:111-129 | completion is permanent over every run, faults included |
| `Conservation.LegacyIsOld` | services/enrichment/app/repositories/messaging_store.py:58-109 | no run creates a row without a status |
| `Conservation.NewEventCanComplete` | services/enrichment/app/consumers/raw_listing_consumer.py:97-192 | from every start a new event can be delivered, claimed, completed and acknowledged by fault-free steps |
| `Losses.FailedReleaseLoses` | services/enrichment/app/consumers/raw_listing_consumer.py:141-144 | a release that raises loses the event: the retry copy is skipped as a duplicate and acknowledged |
| `Losses.FailedReclaimLoses` | services/enrichment/app/consumers/raw_listing_consumer.py:116-144 | a claim that raises for a redelivered message over an orphaned row loses the event |
| `Losses.AppliedInsertLoses` | services/enrichment/app/repositories/messaging_store.py:72-83 | a claim whose insert is applied and raises all the same loses the event |
| `Losses.AppliedUpdateLoses` | services/enrichment/app/repositories/messaging_store.py:98-109 | so does one whose update of a row without a status is applied and raises |
| `Losses.OrphanedRowLoses` | services/enrichment/app/consumers/raw_listing_consumer.py:115-132 | from every state with a processing row in its lease, no handler of its event and only unflagged copies, benign steps alone lose the event, so the vouching the invariant asks for is what keeps it |
| `Losses.DetachedReleaseLoses` | services/enrichment/app/consumers/raw_listing_consumer.py:245-255 | a handler whose channel was closed loses the event by releasing inside another claim's window |
| `Losses.DetachedClaimLoses` | services/enrichment/app/consumers/raw_listing_consumer.py:245-255 | a handler whose channel was closed loses the event by being granted the claim and dying |
| `Losses.LegacyRowDropsRedelivery` | services/enrichment/app/repositories/messaging_store.py:84-109 | over a row without a status a redelivered message is skipped and acknowledged without any fault |
| `InboxLeases.OneWorkerPerEvent` | services/enrichment/app/repositories/messaging_store.py:58-109 | over every interleaving in which leases are timely and no existing row is taken over for a redelivered message, at most one handler at a time works on an event |
| `InboxLeases.GrantedMeansIdle` | services/enrichment/app/repositories/messaging_store.py:58-109 | a granted claim means nobody was at work on the event |
| `CompletedOnce.CompletedWorkIsNotRepeated` | services/pricer/app/consumers/enriched_listing_consumer.py:102-138 | once completed, no later delivery, redelivery or retry copy is granted a claim, the drain raising after completion included; whoever is still at work was so before |
| `Outbox.OutboxRepository.Enqueue` | services/enrichment/app/repositories/messaging_store.py:160-179 | a new pending row is added, nothing else changes |
| `Outbox.OutboxRepository.ClaimPending` | services/enrichment/app/repositories/messaging_store.py:181-219 | the batch is distinct, sorted by age, the oldest claimable rows, short only when none remain, and exactly these rows are leased |
| `Outbox.ClaimableIff` | services/enrichment/app/repositories/messaging_store.py:181-219 | which rows a claim takes: waiting ones, with or without a status, and those whose lease is more than five minutes old |
| `Outbox.ClaimedAllIs` | services/enrichment/app/repositories/messaging_store.py:181-219 | a claimed row has the new lease and is otherwise as it was, and no other row is touched |
| `Outbox.OutboxRepository.MarkPublished` | services/enrichment/app/repositories/messaging_store.py:221-231 | only a processing row is marked, whoever holds it |
| `Outbox.OutboxRepository.ReleaseClaim` | services/enrichment/app/repositories/messaging_store.py:233-239 | only a processing row goes back to pending |
| `OutboxDrain.OutboxEventSink.Drain` | services/enrichment/app/messaging/outbox_sink.py:66-88 | an uninterrupted drain of the oldest batch, whatever publishes, marks, releases and the claim come to, applied or not: which rows it gets to, what it sends and in what order, what it counts, what each row is left as, and that it raises exactly when a release or the claim raises |
| `OutboxDrain.OutboxEventSink.SettleOne` | services/enrichment/app/messaging/outbox_sink.py:108-124 | one row, case by case: what is sent, whether it counts, whether an exception gets out, and whether the row ends published, pending or leased |
| `OutboxDrain.SettledRowIs` | services/enrichment/app/messaging/outbox_sink.py:66-88 | what a drain leaves of every row of the outbox, read off the outcomes of that row's calls |
| `Batches.HandledIsUpToFirstEnd` | services/enrichment/app/messaging/outbox_sink.py:66-88 | a drain gets to all rows up to the first one whose publish or mark raises and whose release raises too |
| `Batches.CountedIsNumber` | services/enrichment/app/messaging/outbox_sink.py:66-88 | the number a drain returns is the number of handled rows whose publish was confirmed and whose mark returned |
| `Batches.SentInOrder` | services/enrichment/app/messaging/outbox_sink.py:108-124 | what a drain sends is the rows whose publish got through, in the order of the batch |
| `OutboxDrain.OutboxEventSink.EnqueueAndDrain` | services/enrichment/app/messaging/outbox_sink.py:90-106 | the outbox afterwards is the one with the new row, settled as one drain of at most fifty rows settles it. A row newer than every claimable one is sent if and only if the claim does not raise, fewer than fifty rows were claimable, none of them ends the drain, and its own publish gets to the broker; with ties, two bounds. The row is in the outbox in any case |
| `OutboxDrain.InlineDrainTakesFifty` | services/enrichment/app/messaging/outbox_sink.py:66 | the drain that follows an enqueue takes at most fifty rows |
| `OutboxDrain.NewRowIsHandledIff` | services/enrichment/app/messaging/outbox_sink.py:66-88 | the newest row of an outbox is handled by a drain if and only if fewer rows than the limit were claimable before it and none of them ends the drain |
| `OutboxDrain.OutboxEventSink.DrainRepeatedly` | services/enrichment/app/bootstrap/container.py:209-226 | k drains of an accepting broker, at any instants and with newer rows enqueued in between, publish min(n, k * limit) of n waiting rows, each once, oldest first and before anything newer; from ceil(n / limit) on, all of them |
| `OutboxDrain.AppendBatch` | services/enrichment/app/messaging/outbox_sink.py:66-88 | a further batch, claimed at a later instant, continues the publish log where the one before ended |
| `OutboxProtocol.RowsAreForever` | services/enrichment/app/messaging/outbox_sink.py:66-106 | over all runs no row is removed or rewritten, and published is absorbing |
| `OutboxProtocol.PublishedWasDelivered` | services/enrichment/app/messaging/outbox_sink.py:66-106 | over all runs with crashes, stale takeovers and ownerless releases, a published row had its own payload delivered |
| `OutboxProtocol.TimelyMeansOnce` | services/enrichment/app/repositories/messaging_store.py:181-239 | when leases are timely and nothing fails between publish and mark, no row has two holders and none is delivered twice, over every interleaving |
| `OutboxProtocol.PublishedExactlyOnce` | services/enrichment/app/repositories/messaging_store.py:181-239 | over the same runs a published row was delivered exactly once |
| `InlineDrain.DrainIsARun` | services/enrichment/app/messaging/outbox_sink.py:66-124 | an uninterrupted drain is a run of the interleaved drainers with the same rows and deliveries at its end, raising releases included |
| `OutboxRepeats.EachFaultRepeats` | services/enrichment/app/messaging/outbox_sink.py:66-88 | each thing asked of a timely run is needed: by a crash before the mark, a mark that raises, a publish that reaches the broker and raises, or a lease outlived, any row waiting in any outbox can be delivered twice while every other step is timely |
| `OutboxRepeats.SentAgainIff` | services/enrichment/app/repositories/messaging_store.py:181-239 | in every state, whatever was delivered before, a row can be delivered once more by some run if and only if it is not marked published or some drain still has it to publish |
| `Aggregation.CompletedMeansAggregated` | services/enrichment/app/consumers/raw_listing_consumer.py:133-140 | in every reachable state, faults included, a completed event has a never-deleted enriched row with both stages done, agreeing with the stage results and on the inputs of a message of this event that arrived |
| `FailureReports.DeadLetterMeansReported` | services/enrichment/app/consumers/raw_listing_consumer.py:157-190 | in every run, faults included, a dead-lettered message was reported by the handler that held it, in a failure row with its ids and its count, or the next one when its attempts are used up, that stays in the outbox and is no other message's report |
| `FailureReports.ReportsAreOwn` | services/enrichment/app/consumers/raw_listing_consumer.py:212-243 | no failure row is the report of two messages |
| `Triggers.TriggersArrived` | services/enrichment/app/consumers/raw_listing_consumer.py:133-140 | over every run, what is published for an event was triggered by the listing of a message of that event that arrived |
| `Aggregation.PublishedRawIsAccountedFor` | services/enrichment/app/enrichment/orchestrator.py:66-82 | a raw event the outbox has published is aggregated, dead-lettered with its own failure row in the outbox, or on its way, if none of its own handlers met a fault |
| `Aggregation.LinksStep` | services/enrichment/app/enrichment/orchestrator.py:84-144 | every step of the composed service keeps the links between handlers, attempts, publications, completed events and outbox rows |
| `PipelineRuns.AckWithOrWithoutDelivery` | services/enrichment/app/messaging/outbox_sink.py:90-106 | from every start with the outbox at rest a new listing can be ingested, enriched, completed and acknowledged with its result delivered, and also with its result pending and received by nobody |
| `InlineAck.AckFollowsDeliveryIff` | services/enrichment/app/messaging/outbox_sink.py:90-124 | the run from the publish over the inline drain to the acknowledgement always goes through; at its end the event's own result has been delivered if and only if the drain's claim does not raise, fewer rows than its limit were claimable before, none of them ends the drain, and the result's publish gets to the broker |
| `Enrichment.IdentityLasts` | services/enrichment/app/enrichment/orchestrator.py:84-116 | an attempt keeps its event and its listing |
| `Enrichment.EndedIsInert` | services/enrichment/app/enrichment/orchestrator.py:84-116 | an attempt that has raised or returned touches nothing more |
| `Types.SameFingerprintIff` | services/enrichment/app/enrichment/orchestrator.py:32-42 | two listings have the same fingerprint exactly when the seven fields that trigger enrichment agree one by one |
| `EnrichmentCache.StoredResultsAgree` | services/enrichment/app/enrichment/orchestrator.py:84-205 | under any interleaving of ingests and attempts, a stored document whose flag is set holds a result some stage call computed on a listing with the same fingerprint |
| `EnrichmentCache.PublishedMatchesTrigger` | services/enrichment/app/enrichment/orchestrator.py:92-116 | every published document has both stages done, agrees with its inputs and agrees field by field with the raw listing that triggered it in the seven inputs, on the fast path too |
| `EnrichmentCache.PreparedAgrees` | services/enrichment/app/enrichment/orchestrator.py:146-165 | resuming copies progress only where it stays true of the new listing |
| `EnrichmentCache.StoredAgrees` | services/enrichment/app/enrichment/orchestrator.py:167-191 | storing one stage's result keeps what is known about the other |
| `EnrichmentResume.FinishedWorkIsKept` | services/enrichment/app/enrichment/orchestrator.py:146-197 | over sequential attempts on one fingerprint, with stage failures, raising writes and crashes at any await, a stage whose flag is stored is never called again and its result stays |
| `EnrichmentResume.OwnStep` | services/enrichment/app/enrichment/orchestrator.py:167-197 | the stored document only gains, and a stage is called only while its result is missing |
| `Orchestrator.EnrichmentOrchestrator.EnqueueRaw` | services/enrichment/app/enrichment/orchestrator.py:66-82 | ingesting replaces the stored document by a fresh one and publishes one raw event |
| `Orchestrator.EnrichmentOrchestrator.PrepareState` | services/enrichment/app/enrichment/orchestrator.py:146-165 | the working document is the fresh one with an existing document's progress on the same fingerprint, and it is written before any stage runs; a write that raises ends the attempt |
| `Orchestrator.EnrichmentOrchestrator.RunLlm` | services/enrichment/app/enrichment/orchestrator.py:175-182 | a pending stage that returns is in the working document even if its write raises, and in the store if that was applied; one that raises leaves both alone; a finished one is not called |
| `Orchestrator.EnrichmentOrchestrator.RunCv` | services/enrichment/app/enrichment/orchestrator.py:184-191 | the same for the vision stage |
| `Orchestrator.EnrichmentOrchestrator.RunStages` | services/enrichment/app/enrichment/orchestrator.py:167-197 | working document, store and outcome after both stages, for either order of the lock and for raising calls and writes; one stage raising does not lose the other's result |
| `Orchestrator.OrderMattersIff` | services/enrichment/app/enrichment/orchestrator.py:173-191 | the order of the lock is seen in the store if and only if both stages return and the write of just one of them is applied |
| `Orchestrator.EnrichmentOrchestrator.FinalizeAggregation` | services/enrichment/app/enrichment/orchestrator.py:199-205 | an incomplete document is refused; a complete one is stamped and stored, unless that write raises unapplied |
| `Orchestrator.EnrichmentOrchestrator.PublishEnriched` | services/enrichment/app/enrichment/orchestrator.py:207-222 | exactly one more publication, for this event and document, repeats included, unless the publish raises unapplied |
| `Orchestrator.EnrichmentOrchestrator.Enrich` | services/enrichment/app/enrichment/orchestrator.py:84-116 | result, store and publications for every combination of raising reads, writes, stage calls and publishes, applied or not; the attempt is a run of the machine |
| `Orchestrator.SucceedsIff` | services/enrichment/app/enrichment/orchestrator.py:84-116 | exactly when an attempt returns; then its document is complete, on the inputs of the listing, stored, and published once |
| `Orchestrator.ChangedListingIsEnrichedAnew` | services/enrichment/app/enrichment/orchestrator.py:32-42 | a listing that is new or differs in title, description, make, model, year, asking price or image URLs gets exactly the results of this attempt's two stage calls |
| `Orchestrator.UnchangedListingIsPublished` | services/enrichment/app/enrichment/orchestrator.py:94-109 | a finished document on the same seven fields is published as it is, whatever the stage calls would come to, and nothing is written |
| `Orchestrator.UnfinishedListingIsResumed` | services/enrichment/app/enrichment/orchestrator.py:146-197 | an unfinished document on the same seven fields keeps the results it has and gets the missing ones from this attempt |
| `Orchestrator.PartialProgressIsStored` | services/enrichment/app/enrichment/orchestrator.py:167-197 | when one stage of a fresh start raises, the store has the document with the other's result if that was written, and the unfinished document otherwise |
| `Orchestrator.RaisingCallLeaves` | services/enrichment/app/enrichment/orchestrator.py:84-116 | what an attempt leaves in the store when the read, the first write or the last write raises, applied or not; no result and no publication |
| `Orchestrator.AttemptKeepsProgress` | services/enrichment/app/enrichment/orchestrator.py:146-197 | whatever fails, an attempt on the inputs of the stored document loses none of its finished stages and leaves other documents alone |
| `Orchestrator.FinishedStageIsSkipped` | services/enrichment/app/enrichment/orchestrator.py:173-191 | an attempt on the inputs of the stored document comes to the same whatever the calls of its finished stages would have come to |
| `Orchestrator.StoreAgreesWithInputs` | services/enrichment/app/enrichment/orchestrator.py:84-222 | after any sequence of ingests and attempts the store and everything published agree with their inputs |
| `Breaker.CircuitBreaker.BeforeCall` | services/enrichment/app/core/circuit_breaker.py:55-66 | a call is admitted exactly when the circuit is closed, or open for at least the recovery time, and then becomes the probe |
| `Breaker.CircuitBreaker.RecordSuccess` | services/enrichment/app/core/circuit_breaker.py:68-72 | a success, however late, closes the circuit and clears it |
| `Breaker.CircuitBreaker.RecordFailure` | services/enrichment/app/core/circuit_breaker.py:74-79 | a failure counts, and opens the circuit from the threshold on |
| `Breaker.CircuitBreaker.Call` | services/enrichment/app/core/circuit_breaker.py:81-89 | a refused call does not run and records nothing; an admitted one records its outcome once |
| `Breaker.StateIsHistory` | services/enrichment/app/core/circuit_breaker.py:55-94 | the whole state can be read off the history: failures since the last success, time of the last failure, and a late enough call since, with late results part of the history |
| `Breaker.StateIsHistoryIff` | services/enrichment/app/core/circuit_breaker.py:39-53 | that reading is right for every history exactly for thresholds of at least one |
| `Breaker.ProbesAreSpaced` | services/enrichment/app/core/circuit_breaker.py:55-79 | any two probe admissions are at least the recovery time apart, with late results too |
| `LlmService.LlmService.ExtractOptions` | services/enrichment/app/llm/service.py:75-119 | without an API key the breaker is not touched; a refused call is refused; an admitted call answers, outcome by outcome, with its options or with a failure that is retryable or not, and closes and clears the circuit, counts one failure, or leaves it as admitted |
| `LlmService.NeverStuck` | services/enrichment/app/llm/service.py:81-119 | over all interleavings of calls and late results, half open means the probing call is in flight, and a quiescent circuit lets a call through after the recovery time |
| `LlmService.PassedThroughProbeSticks` | services/enrichment/app/llm/service.py:82-85 | the condition is needed: a probe that ends in the breaker's own exception leaves the circuit half open with nothing in flight |
| `LlmService.StuckForEver` | services/enrichment/app/core/circuit_breaker.py:55-66 | from there every later call is refused, for ever |
| `Suppression.Nms` | services/enrichment/app/cv/yolo_preprocess.py:138-166 | the kept indices are the greedy choice for a ranking by nonincreasing score, distinct and in that order |
| `Suppression.GreedyIsGreedyChoice` | services/enrichment/app/cv/yolo_preprocess.py:148-166 | the shrinking loop keeps an index if and only if no index kept in front of it overlaps it by more than the threshold |
| `Suppression.GreedyChoiceIsUnique` | services/enrichment/app/cv/yolo_preprocess.py:148-166 | that reading determines the kept indices |
| `Suppression.KeptBoxesAreApart` | services/enrichment/app/cv/yolo_preprocess.py:138-166 | kept boxes stay within the overlap bound pairwise, in order of score |
| `Suppression.SuppressedBoxIsDominated` | services/enrichment/app/cv/yolo_preprocess.py:138-166 | each suppressed box overlaps a kept box of at least its score by more than the bound |
| `Suppression.IouIsShare` | services/enrichment/app/cv/yolo_preprocess.py:149-164 | the overlap measure lies in [0, 1], is zero exactly without a common inner point, and one for a box with itself |
| `Suppression.IouIsRatio` | services/enrichment/app/cv/yolo_preprocess.py:149-164 | of overlapping boxes the measure times the area they cover together, the common part counted once, is the area of what lies in both |
| `Suppression.NestedIou` | services/enrichment/app/cv/yolo_preprocess.py:149-164 | a box inside another overlaps it by its share of the area |
| `Suppression.QuarterBox` | services/enrichment/app/cv/yolo_preprocess.py:164-165 | a quarter of a box within it overlaps it by 0.25 |
| `Suppression.AreaIsProduct` | services/enrichment/app/cv/yolo_preprocess.py:147 | an area is width times height, and zero for a box turned inside out |
| `Detections.OrientationIff` | services/enrichment/app/cv/yolo_preprocess.py:79-92 | exactly for which outputs, square ones included, the orientation heuristic reads each layout correctly |
| `Detections.SquareOutputIsReadOneWay` | services/enrichment/app/cv/yolo_preprocess.py:79-83 | of square output exactly one of the two layouts is read correctly |
| `Detections.TransposedEntry` | services/enrichment/app/cv/yolo_preprocess.py:82-83 | transposing exchanges rows and columns, entry by entry |
| `Detections.SelectRows` | services/enrichment/app/cv/yolo_preprocess.py:94-112 | the surviving rows reach the threshold, come by score, are pairwise apart and answer for every other candidate |
| `Detections.DecodeYolov8` | services/enrichment/app/cv/yolo_preprocess.py:68-135 | too narrow output is an error; otherwise the result is the surviving rows mapped back, the ones cut to nothing left out |
| `Detections.ScoreIsLargest` | services/enrichment/app/cv/yolo_preprocess.py:88-92 | a row's score is the largest of its class scores |
| `Detections.BoxHasCentreAndSize` | services/enrichment/app/cv/yolo_preprocess.py:100-106 | a row's box has the row's centre and size |
| `Detections.BoxIsMappedBack` | services/enrichment/app/cv/yolo_preprocess.py:113-123 | each coordinate of the mapped box is the canvas coordinate with the pad taken off and the gain divided out, or the border it lies beyond |
| `Detections.EmittedComeFromKept` | services/enrichment/app/cv/yolo_preprocess.py:113-135 | each detection is a kept row mapped back, and no row yields two |
| `Detections.EmitDetections` | services/enrichment/app/cv/yolo_preprocess.py:113-135 | the emitting loop yields exactly these, in order |
| `Detections.EmittedAreWellFormed` | services/enrichment/app/cv/yolo_preprocess.py:113-135 | 0 <= x1 < x2 <= width, 0 <= y1 < y2 <= height, confidence at or above the threshold and nonincreasing |
| `Detections.EveryCandidateIsAnsweredFor` | services/enrichment/app/cv/yolo_preprocess.py:94-135 | each candidate at or above the threshold is emitted, cut to nothing, or dominated by a kept one |
| `Detections.NormalizedInUnitSquare` | services/enrichment/app/cv/yolo_preprocess.py:169-175 | the normalised box of a detection is a proper box in the unit square |
| `Detections.NormalizedScalesBack` | services/enrichment/app/cv/yolo_preprocess.py:169-175 | times width and height the normalised box is the box |
| `Letterbox.Letterbox` | services/enrichment/app/cv/yolo_preprocess.py:33-58 | empty images and empty resizes are refused; otherwise the canvas is the colour with the resized image centred on it, and the metadata describe that |
| `Letterbox.WindowInside` | services/enrichment/app/cv/yolo_preprocess.py:46-50 | the pasted window starts at floor((size - side) / 2) and lies inside the canvas |
| `Letterbox.GainFits` | services/enrichment/app/cv/yolo_preprocess.py:41-43 | the gain makes both sides fit the canvas |
| `Letterbox.RoundsTo` | services/enrichment/app/cv/yolo_preprocess.py:42-43 | rounding is to the nearest integer, and of two equally near ones to the even one |
| `Letterbox.PadsFillUp` | services/enrichment/app/cv/yolo_preprocess.py:42-48 | the rounded side and its two equal pads fill the canvas exactly |
| `Letterbox.LongerSideFills` | services/enrichment/app/cv/yolo_preprocess.py:41-43 | the longer side, whichever it is, fills the canvas |
| `Letterbox.ResizeFailsIff` | services/enrichment/app/cv/yolo_preprocess.py:41-44 | exactly for which image shapes the resize is asked for a side of zero pixels |
| `Letterbox.RoundTripBound` | services/enrichment/app/cv/yolo_preprocess.py:33-58 | a coordinate placed on the canvas and mapped back moves by at most 1/gain, despite both roundings |
| `Letterbox.DecodeUndoesLetterbox` | services/enrichment/app/cv/yolo_preprocess.py:113-123 | a box placed by the letterbox is decoded, clipping included, to within 1/gain of itself in each coordinate, for every image and canvas size |
| `PricerStores.InMemoryPricingRepository.TryClaim` | services/pricer/app/repositories/memory.py:22-34 | the step of the in-memory store for a claim, reply and new state |
| `PricerStores.InMemoryPricingRepository.MarkCompleted` | services/pricer/app/repositories/memory.py:36-37 | the event is completed whatever it was |
| `PricerStores.InMemoryPricingRepository.ReleaseClaim` | services/pricer/app/repositories/memory.py:39-41 | only a processing event is forgotten |
| `PricerStores.InMemoryPricingRepository.Save` | services/pricer/app/repositories/memory.py:43-63 | the result replaces the listing's, and one row with the next id, the event's id or for want of one the listing's, and the request id or an empty one, is added |
| `PricerStores.InMemoryPricingRepository.ClaimPending` | services/pricer/app/repositories/memory.py:65-74 | the scan hands out the oldest pending ids, in id order, short only when none remain, and leases just these |
| `PricerStores.InMemoryPricingRepository.MarkPublished` | services/pricer/app/repositories/memory.py:76-78 | the id counts as published from now on, known or not |
| `PricerStores.InMemoryPricingRepository.ReleaseOutboxClaim` | services/pricer/app/repositories/memory.py:80-81 | the id is no longer leased |
| `PricerStores.PricingRepository.TryClaim` | services/pricer/app/repositories/pricing_repository.py:50-87 | insert, or update a processing row that is stale or being reclaimed; reply and new table |
| `PricerStores.PricingRepository.MarkCompleted` | services/pricer/app/repositories/pricing_repository.py:89-106 | the row becomes completed, and is created if missing |
| `PricerStores.PricingRepository.ReleaseClaim` | services/pricer/app/repositories/pricing_repository.py:108-113 | only a processing row is deleted |
| `PricerStores.PricingRepository.Save` | services/pricer/app/repositories/pricing_repository.py:115-157 | result and waiting outbox row, with the event's id or for want of one the listing's and the request id or an empty one, are written together |
| `PricerStores.PricingRepository.FirstClaimable` | services/pricer/app/repositories/pricing_repository.py:166-182 | the least claimable id, if any |
| `PricerStores.PricingRepository.ClaimPending` | services/pricer/app/repositories/pricing_repository.py:159-204 | the repeated select hands out the oldest claimable ids, in id order, short only when none remain, and leases just these |
| `PricerStores.PricingRepository.MarkPublished` | services/pricer/app/repositories/pricing_repository.py:206-214 | a known row becomes published, an unknown id changes nothing |
| `PricerStores.PricingRepository.ReleaseOutboxClaim` | services/pricer/app/repositories/pricing_repository.py:216-223 | only a processing row goes back to pending |
| `PricerStores.OldestIsUnique` | services/pricer/app/repositories/pricing_repository.py:159-204 | what is claimable determines the batch, so the two claiming loops cannot differ |
| `StoreSimulation.MemorySimulatesSql` | services/pricer/app/repositories/memory.py:22-81 | for every sequence of commands that meets no stale lease and marks only known ids: same claim results, same batches, same final results and statuses |
| `StoreSimulation.RepliesAgreeIff` | services/pricer/app/repositories/memory.py:22-81 | from matching stores the replies to a command agree if and only if it meets no stale lease |
| `StoreSimulation.BatchesAgreeIff` | services/pricer/app/repositories/memory.py:65-74 | the batches agree if and only if no stale row is among the oldest claimable ones |
| `StoreSimulation.AlwaysNumbered` | services/pricer/app/repositories/memory.py:53-55 | whatever commands run, stale leases and marks of unknown ids included, row ids stay numbered from one up, which is all the claiming and the counting loop ask for |
| `StoreSimulation.SameWithinFiveMinutes` | services/pricer/app/repositories/pricing_repository.py:24 | from empty stores every run that fits in the lease time is the same on both |
| `StoreSimulation.MarkIsHarmlessIff` | services/pricer/app/repositories/memory.py:76-78 | no later run tells the stores apart by a mark if and only if its id was already handed out |
| `StoreSimulation.EarlyMarkDiverges` | services/pricer/app/repositories/memory.py:76-78 | a mark of a future id makes the in-memory row published and the SQL row pending once it is saved |
| `StoreSimulation.CountOutboxByStatus` | services/pricer/app/repositories/memory.py:117-126 | the counting loop yields the number of rows that are published, leased and not published, and neither |
| `StoreSimulation.CountsAgree` | services/pricer/app/repositories/pricing_repository.py:272-286 | matching stores have the same counts in every status |
| `PricerDrain.OutboxPublisher.Drain` | services/pricer/app/messaging/outbox_publisher.py:34-56 | the oldest batch in id order, whatever publishes, marks, give-backs and the claim come to: which rows it gets to, what it sends and counts, what each row is left as, and exactly when it raises; inbox and results are untouched |
| `PricerDrain.OutboxPublisher.SettleOne` | services/pricer/app/messaging/outbox_publisher.py:34-56 | one row, case by case: what is sent, whether it counts, whether an exception gets out, and whether the row ends published, waiting or leased |
| `PricerDrain.SettledRowIs` | services/pricer/app/messaging/outbox_publisher.py:34-56 | what a drain leaves of every row of the outbox, read off the outcomes of that row's calls |
| `PricerAggregation.CompletedMeansPriced` | services/pricer/app/consumers/enriched_listing_consumer.py:121-127 | in every reachable state, faults included, an event the pricer has completed has a priced row with its own event id (the listing's id if that is empty) and a result on the listing of one of its messages, and that listing has a stored result |
| `PricerAggregation.NewEventCanBePriced` | services/pricer/app/consumers/enriched_listing_consumer.py:84-140 | from every start a new event can be delivered, claimed, priced, completed and acknowledged, with its row published |
| `PricerAggregation.TablesAlwaysAgree` | services/pricer/app/repositories/pricing_repository.py:115-223 | over every run rows are never deleted and keep event and result, a published row stays published, and the stored result of a listing is the one its newest row announces |
| `Listings.InMemoryListingRepository.Upsert` | services/enrichment/app/repositories/memory.py:23-25 | document and time of this listing are replaced, its place in the iteration order is kept |
| `Listings.InMemoryListingRepository.GetOptional` | services/enrichment/app/repositories/memory.py:33-37 | the stored document, or nothing |
| `Listings.InMemoryListingRepository.ListRecent` | services/enrichment/app/repositories/memory.py:48-82 | the page holds only rows older than the cursor and of the status, newest first, none twice and none left out that is newer; for a limit from 1 to 100 that many or all there are, above that a hundred, below it one |
| `Listings.InMemoryListingRepository.FillPage` | services/enrichment/app/repositories/memory.py:55-82 | the scan over the sorted rows, with its three filters and its early end, yields the first rows that match |
| `Pages.PageLength` | services/enrichment/app/repositories/memory.py:80-81 | a page is a prefix of what matches, as long as the limit says or all of it, with the limit cut to the range from one to a hundred |
| `Listings.SortIsStable` | services/enrichment/app/repositories/memory.py:55-62 | rows with the same time keep their order under the sort |
| `Listings.SortedIsDescending` | services/enrichment/app/repositories/memory.py:55-62 | the sort is descending and a permutation |
| `Listings.AdminService.ListListings` | services/enrichment/app/admin/service.py:143-168 | the page's rows with each shown field, and as cursor the last row's time or none |
| `Listings.EveryListingOnce` | services/enrichment/app/admin/service.py:143-168 | with distinct times and no writes, following the cursors yields each listing of the wanted status exactly once, newest first, for every limit |
| `Listings.LaterWritesStayDistinct` | services/enrichment/app/repositories/memory.py:23-25 | a write later than everything stored keeps the times distinct |
| `Pages.PageAboveCursor` | services/enrichment/app/admin/service.py:143-168 | each cursor is older than the one before and leaves strictly fewer rows, so following cursors stops |
| `Pages.WalkIsCompleteIff` | services/enrichment/app/admin/service.py:143-168 | the pages add up to the whole filtered list if and only if no full page ends between two rows with one time |
| `Pages.DistinctTimesWalk` | services/enrichment/app/admin/service.py:143-168 | with distinct times they always do |

## Left out

- The wire protocols and drivers of broker, document store, database and HTTP, and topology declaration: only their effects are steps.
- Interleavings inside the pricer's SQL sessions, ids skipped by rolled-back inserts, and the payload bytes and event-type headers of its outbox rows.
- Liveness and fairness: that a drain is ever scheduled, that a broker ever accepts, head-of-line blocking of TTL queues, broker delivery limits.
- The pricer's drainers are modelled one drain at a time; interleaved drainers are modelled for the enrichment outbox.
- The pricer's result paging has the shape of the listing paging and is not modelled a second time; the document-store form of the recency query is not either.
- Parsing of bodies: a body is malformed or a well-formed event, and a retry copy re-serialises what parses.
- The error text and the stage name of a failure event; an acknowledgement or a reject that itself raises, which is a crash step of the machine.
- Cancellation of coroutines: a crash step in the messaging model, absent from the breaker model.
- Rounding and NaN of floating-point numbers; image decoding, pixel resizing, tensor layout, the ONNX session and squeezing of extra axes.
- The LLM prompt, the heuristics and the vision scores: stage results are opaque.
- The margin rules, queue-depth alerts, status pages, authentication, settings, logging and metrics.
- MessageHandler.EventConsumer.OnMessage: one uninterrupted handling; interleavings, crashes and redelivery are the machine's, which its steps are shown to follow.
- InlineAck.AckFollowsDeliveryIff: for a result newer than all that is claimable, with no other drain between its publish and its acknowledgement; an event that ties with other rows has the bounds of `OutboxDrain.OutboxEventSink.EnqueueAndDrain`.
- Conservation.NoEventLost: holds for an event none of whose handlers meets one of the five faults listed under Assumptions, each of which can lose it.
- OutboxProtocol.TimelyMeansOnce: at most once needs timely leases and no failure between publish and mark, as `OutboxRepeats.EachFaultRepeats` shows for each of these.
