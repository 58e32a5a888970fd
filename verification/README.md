# A verified model of the support-channel pipeline

These modules model, in Dafny 4.11, how a support message travels through the repository, and prove what every
run keeps.

* **Inbound.** `Inbound` is the webhook transaction: receipt, customer, conversation, ticket, run, outbox row.
  `InboundStore` performs it in place, `InboundDedup` proves duplicate suppression, `InboundThreading` proves what
  threading computes and `InboundRuns` where accepted mail goes, `InboundOutbox` interleaves the reconcilers that move
  outbox rows into the support queue.
* **Agent.** `SupportRun` is the retryable support job with its catch block, where every awaited operation may fail
  before or after taking effect and the process may die; `SupportOutcomes` says in plain statuses what attempts leave;
  `Guardrails` is the decision that drives the draft status.
  `EndToEnd` puts inbound, outbox and support jobs together.
* **Outbound.** `OutboundMessages` holds every write to the outbound row. `DeliveryProtocol` interleaves workers,
  operators and callbacks, with loading and writing a row as separate steps. `DeliveryLimits` shows what the protocol
  does not give, `DeliveryResends` what sends a message twice; `DeliveryAttempts` proves when the attempt limit holds.
  `DeliveryJobs` is the job in place, the attempt budget and the callbacks; `DeliveryOutcomes` says what each write leaves and that an undisturbed
  run of the protocol is the job; `DeliveryWakeups` is the reconciler and the queue that ignores known job ids.
  `ApprovedText` interleaves agent retries, edits, approvals, sends and whole deliveries, and `ApprovalOutcomes` says
  which drafts can be sent.
* **Smaller cores.** `StableSort` and `AuditSearch`, `AuditCsv`, `JsonStrings` and `CanonicalJson`, `KnowledgeSearch` and
  `KnowledgeScores`, `RateLimit`, `RefreshSessions`.

Where the source changes rows in place there is a class whose methods are proved equal to the functions that the
theorems are about (`ChannelsStore`, `Outbox`, `SupportProcessor`, `DeliveryStore`, `OutboundDeliveryReconciler`,
`SupportDesk`, `RateLimitService`, `AuthService`). A database transaction, or a single database call outside one, is
one atomic step. Row ids are positions. Clocks are monotone. `queue.add` does nothing when the job id is known, and an
add that timed out may still take effect.

`dafny verify dfyconfig.toml` checks everything.

## What the proofs found

Each of these is a property that does not hold in general, with the exact condition, or the states, under which it
holds or fails.

1. *A sent message can become a dead letter and be sent again.* The timeline events after the commit are appended
   inside the `try` block, so a failure there sends the catch block over a `SENT` row
   (`DeliveryProtocol.WorkersLeaveFinishedRowsAlone`, `DeliveryLimits.LateFailureResendsASentMessage`). A message reaches
   the provider at most once in every disciplined run in which no job stops between acceptance and commit or fails from
   then on, and neither an operator nor a failure callback writes over a sent row
   (`DeliveryProtocol.AcceptedAtMostOnce`); each of these, and a lease overrun, leads to one more acceptance
   (`DeliveryResends`). *Disciplined* means throughout: claims land and jobs finish or stop within their leases, and no
   replay, cancel, callback or late failure lands on a row being processed.
2. *The lease can start out expired* when the claim is slow, because it is counted from a clock reading taken before
   the claim (`DeliveryLimits.LateClaimBreaksExclusion`). *The attempt limit can be exceeded*: it holds in every
   disciplined run in which, once a message has reached it, no job stops while holding the message, no replay is written
   and no failure is called back. Each of the three breaks it, and so does a lease overrun or a late claim at the limit
   (`DeliveryAttempts.AttemptsStayWithinLimit` and the lemmas beside it).
3. *The reconciler's filter and the claim differ* on one kind of row: an expired lease with a retry time in the future
   (`OutboundMessages.ReconcilerAgreesWithClaim`, `DeliveryLimits.DifferingRowIsReached`).
4. *Wake-ups can be lost.* The job id names the attempt count read before the add, and the queue keeps finished jobs. If
   jobs end only after their message was claimed and claims raise the count, an add leaves a job waiting or comes after
   a claim made since its read (`DeliveryWakeups.WakeupsArrive`). A job that ends unclaimed, or a claim that writes a
   stale count, leaves a finished job under the current number, and adds under it are ignored until the queue drops it
   (`DeliveryWakeups.UnclaimedEndLosesWakeups`, `DeliveryWakeups.StaleClaimLosesWakeups`).
5. *First delivery wins exactly when every repeat is refused*, which needs more than distinct event ids: a repeat must
   carry the same event, the customer upserts must not collide, and no thread id may look like `message:<message id>`
   (`InboundDedup.FirstDeliveryWinsExactly`, `InboundDedup.DuplicateSuppression`, and one lemma for each condition).
6. *A completed dispatch can be reopened*, by a reconciler that outlives its lock or by one whose completing write
   commits and is reported as an error (`InboundOutbox.LostLockReopens`, `InboundOutbox.LostReportReopens`). In every run
   without either, a completed dispatch is never touched again (`InboundOutbox.CompletedIsForever`).
7. *A success that was committed and reported as an error is taken back*, exactly when the catch block gets as far as its
   own status write (`SupportRun.CommittedSuccessStaysExactly`, and for a block `SupportRun.CommittedBlockStaysExactly`). *An approval keeps the text of the first attempt that
   asked for it*, so it agrees with the draft of a succeeded run exactly when that attempt and the finishing one wrote
   the same text (`SupportRun.ApprovalIsTheFirstAsked`, `SupportRun.ApprovalAgreesExactly`).
8. *The draft may stop showing what was sent*, exactly through a retry or an edit (`ApprovedText.DraftDivergesExactly`);
   what is queued is always approved text. *A send checked before a decline still goes out after it*
   (`ApprovalOutcomes.CheckedSendOutlivesDecline`), though where approval is always asked for it carries a text that once
   stood approved (`ApprovalOutcomes.SentMessagesWereApproved`).
9. *The rate limit's sliding bound is 2 * limit - 1*, and is attained (`RateLimit.SlidingBound`,
   `RateLimit.SlidingBoundIsAttained`).
10. *The audit search filters after it cuts*, so it may return fewer entries than match
    (`AuditSearch.FilterAfterLimitLosesMatches`); and the CSV guard is not reversible
    (`AuditCsv.GuardedCollideExactly`).

## Model

| member | source | states |
|---|---|---|
| EndToEnd.ExactlyOnceEffect | apps/api/src/channels/channels.service.ts:369-422 | in every run of deliveries, redeliveries, dispatching, ambiguous adds, crashes and job retries, a provider event has one agent run if it was received and none otherwise, and at most one agent draft, exactly one if its run succeeded |
| EndToEnd.CompletedDispatchIsWorked | apps/api/src/channels/channels.service.ts:790-828 | a completed outbox row's job is queued or has been attempted, and while it is queued a fault-free attempt of an unfinished run finishes it with exactly one draft for the event |
| EndToEnd.RunsAnswerTheirEvent | apps/api/src/channels/channels.service.ts:857-1006 | in every run of the system, the run of a received event works on the ticket of the conversation that holds the event's message |
| EndToEnd.AutoApprovalsAreAllowed | apps/worker/src/support.processor.ts:280-406 | in every run of the system, an agent draft that stands APPROVED was written by an attempt on its own run that the guardrails allowed and for which no person was to be asked |
| InboundStore.ChannelsStore.IngestWebhook | apps/api/src/channels/channels.service.ts:294-435 | the webhook in place is the ingest function, answers accepted exactly when no unique key is violated, and keeps all rows linked and keys unique |
| InboundStore.ChannelsStore.FindConversation | apps/api/src/channels/channels.service.ts:1185-1250 | the loop over reply references finds the conversation of the first stored message among them, or the key of a new conversation |
| InboundStore.ChannelsStore.PlaceMessage | apps/api/src/channels/channels.service.ts:1252-1399 | a message is added to the ticket of the conversation it joins, or opens a conversation with a ticket of its own |
| InboundStore.ChannelsStore.MarkDuplicate | apps/api/src/channels/channels.service.ts:404-422 | a duplicate changes its receipt's status and retry count and nothing else |
| InboundStore.IngestKeepsValid | apps/api/src/channels/channels.service.ts:370-390 | whatever arrives, keys stay unique, every conversation has a ticket of its own, and every run has one outbox row and one receipt |
| InboundStore.TicketsStay | apps/api/src/channels/channels.service.ts:1252-1399 | one ingest leaves every conversation its ticket and its key, and no two conversations share a ticket |
| InboundRuns.AcceptedMailRows | apps/api/src/channels/channels.service.ts:857-1006 | an accepted event stores one message, appends its text to the ticket of the conversation it joins or opens one, keyed by its thread id or else by its message id, and adds a run for that ticket and an outbox row that names the event |
| InboundRuns.AcceptedMailReachesItsCustomer | apps/api/src/channels/channels.service.ts:1117-1183 | the conversation of an accepted event belongs to the customer with its sender id, who takes the event's address, or else to the one with its address, or else to a new one; no other customer changes |
| InboundRuns.RepliesJoinTheirParent | apps/api/src/channels/channels.service.ts:1222-1237 | an event without a thread id joins the conversation of the first stored message it names, the replied-to one before the references in order |
| InboundRuns.OthersStartTheirOwn | apps/api/src/channels/channels.service.ts:1238-1250 | one that names no stored message starts a conversation |
| InboundRuns.ThreadIdsDecide | apps/api/src/channels/channels.service.ts:1198-1220 | an event with a thread id joins the conversation that has it, whatever it replies to, and starts one if none has |
| InboundRuns.RunsWorkOnTheirMail | apps/api/src/channels/channels.service.ts:1252-1399 | after any run of mail in both directions, each outbox row's event has a stored message, and its run was created for the ticket of that message's conversation |
| InboundRuns.DeliveredRunsWorkOnTheirMail | apps/api/src/channels/channels.service.ts:1252-1399 | the same after any list of deliveries, repeated or not |
| InboundRuns.TicketsHoldTheirMail | apps/api/src/channels/channels.service.ts:1252-1399 | after any run of mail, a conversation's ticket holds the texts of the events accepted into the conversation, each once and in order of arrival |
| InboundRuns.TicketsAreComponents | apps/api/src/channels/channels.service.ts:1185-1399 | a ticket of orderly mail holds the texts of exactly the events that replies, answers and shared thread ids connect, in order of arrival |
| InboundThreading.TicketsStayForever | apps/api/src/channels/channels.service.ts:1252-1399 | over any run of mail in both directions, repeated or not, a conversation keeps its ticket and its key forever and no two ever share a ticket |
| InboundDedup.FirstDeliveriesExact | apps/api/src/channels/channels.service.ts:369-422 | the list without later repeats has the same event ids, each once |
| InboundDedup.FirstDeliveryWinsExactly | apps/api/src/channels/channels.service.ts:369-422 | ingesting a list leaves the rows of its first deliveries if and only if no repeat is accepted |
| InboundDedup.DuplicateSuppression | apps/api/src/channels/channels.service.ts:369-422 | for any deliveries whose customer upserts do not collide, with repeats that repeat the event and no thread id that looks like a fresh key, the rows are those of the first deliveries |
| InboundDedup.AcceptedExactly | apps/api/src/channels/channels.service.ts:857-1006 | among mail in which no thread id looks like a fresh key, a delivery whose customer upsert does not collide is accepted if and only if its event id and its message id are both new |
| InboundDedup.CoherentSendersNeverCollide | apps/api/src/channels/channels.service.ts:1117-1183 | customer upserts never collide when an address always comes with the same sender id, or never with one |
| InboundDedup.ReceiptsCountLaterDeliveries | apps/api/src/channels/channels.service.ts:404-422 | for any list at all, a receipt's retry count is the number of deliveries of its event id after the one that was accepted, and its status tells whether there were any |
| InboundDedup.ReceiptsCountRepeats | apps/api/src/channels/channels.service.ts:404-422 | when every repeat is refused, that number is the deliveries of the event id less one |
| InboundDedup.ChangedPayloadIsAccepted | apps/api/src/channels/channels.service.ts:404-422 | a repeat that carries another message id can be accepted after a refused first delivery |
| InboundDedup.FreedAddressIsAccepted | apps/api/src/channels/channels.service.ts:1128-1174 | a delivery refused for a colliding address is accepted later, once the address is free |
| InboundDedup.ClashingThreadIsAccepted | apps/api/src/channels/channels.service.ts:1185-1250 | a delivery refused because a thread id took its conversation key is accepted later, once its parent is stored |
| InboundThreading.ConversationsAreComponents | apps/api/src/channels/channels.service.ts:1185-1250 | when customer upserts do not collide, two stored messages share a conversation if and only if a path of replies, answers and shared thread ids connects them |
| InboundThreading.ConnectedMeansSameLeader | apps/api/src/channels/mock-email.provider.ts:157-178 | connection is having the same first message: the start of the reply chain, or the first of the thread |
| InboundThreading.ArrivalsFollowLeaders | apps/api/src/channels/channels.service.ts:857-1006 | every arrival with new ids, whose customer upsert does not collide, is stored under the conversation of its first message |
| InboundOutbox.OutboxIsSound | apps/api/src/channels/channels.service.ts:729-855 | in every interleaving of reconcilers, crashes, late adds and dropped jobs, a completed row's job has been added, any other row becomes claimable once its time or lock has passed, and no run is queued twice |
| InboundOutbox.JobsStay | apps/api/src/queue/queue.module.ts:20-31 | a job is queued when it is added and stays queued until the queue drops it |
| InboundOutbox.ReopenedExactly | apps/api/src/channels/channels.service.ts:834-845 | a step reopens a completed row exactly when it is the retry write of a reconciler still at work on the row |
| InboundOutbox.CompletedIsForever | apps/api/src/channels/channels.service.ts:756-852 | in every run where no reconciler outlives its lock and completing writes that commit are reported, at most one reconciler is at work on a row and a completed row is never touched again |
| InboundOutbox.LostLockReopens | apps/api/src/channels/channels.service.ts:758-845 | once a lock has run out under its reconciler, wherever that one stands, a second one takes and completes the row and the first opens it again |
| InboundOutbox.LostReportReopens | apps/api/src/channels/channels.service.ts:817-845 | a completing write that commits and is reported as an error lets its own reconciler open the row again |
| InboundOutbox.LateClaimLosesLock | apps/api/src/channels/channels.service.ts:758-786 | a claim that reaches the database after the lock it writes has run out is without a lock at once |
| InboundOutbox.ReopeningIsReached | apps/api/src/channels/channels.service.ts:729-828 | the states before a lost lock and before a lost report are reached from the empty state |
| InboundOutbox.Outbox.DispatchPendingInbound | apps/api/src/channels/channels.service.ts:729-855 | the loop over the candidates does to rows and queue what the function of the candidate list does |
| InboundOutbox.DispatchAllExactly | apps/api/src/channels/channels.service.ts:756-852 | an undisturbed call completes exactly the claimable candidates whose add succeeds, with their jobs queued, puts back those whose add fails, and leaves the other rows alone |
| InboundOutbox.UndisturbedCallAgrees | apps/api/src/channels/channels.service.ts:729-855 | the interleaved steps of one reconciler that nothing disturbs do to rows and queue what the call as a whole does |
| InboundOutbox.SelectionsAreClaimable | apps/api/src/channels/channels.service.ts:729-786 | a reconciler selects claimable rows only and claims by the clock reading of its selection |
| InboundOutbox.TimedOutAddsMayLand | apps/api/src/channels/channels.service.ts:788-852 | an add that timed out puts the row back and may still reach the queue, once |
| Guardrails.RunAll | apps/worker/src/guardrails/guardrail.service.ts:22-42 | the aggregate is the strictest of the six checks, allows exactly the replies with nothing against them and blocks exactly those that must be |
| Guardrails.StrictestMeans | apps/worker/src/guardrails/guardrail.service.ts:44-192 | the strictest decision of the checks allows, and blocks, exactly under the stated conditions on the reply |
| SupportRun.RunLeavesAtMostOne | apps/worker/src/support.processor.ts:576-731 | after any attempts failing or dying anywhere, a run has at most one agent draft, one approval for it, one event of each once-type and one open operational failure |
| SupportRun.TerminalRunsAbsorb | apps/worker/src/support.processor.ts:113-128 | attempts leave a succeeded or blocked run untouched |
| SupportRun.SucceededRunMatches | apps/worker/src/support.processor.ts:280-406 | a succeeded run's draft has the text, and the status by guardrails and approval setting, of the attempt that finished it, and a pending draft has its approval |
| SupportRun.CleanAttemptFinishes | apps/worker/src/support.processor.ts:137-406 | an attempt without faults finishes any unfinished run |
| SupportOutcomes.DraftIsTheLastWritten | apps/worker/src/support.processor.ts:280-301 | after any attempts, a run's draft was written by one of them: APPROVED if and only if that one was allowed and no person was to be asked, PENDING_APPROVAL if and only if one was to be asked, DRAFT if and only if it was blocked |
| SupportOutcomes.SucceededRunIsSettled | apps/worker/src/support.processor.ts:280-406 | a succeeded run's draft is APPROVED if and only if the finishing attempt was allowed and no person was to be asked, and otherwise waits with an approval of it; the events say which |
| SupportOutcomes.BlockedRunIsSettled | apps/worker/src/support.processor.ts:303-483 | a blocked run leaves a plain draft and the event that says so, or was blocked by a policy error |
| SupportOutcomes.DecisionEventsAreExplained | apps/worker/src/support.processor.ts:303-396 | after any attempts, each kind of decision event is there only if an attempt decided so: blocked, approval required, a person asked for, or allowed |
| SupportOutcomes.CleanAttemptLeaves | apps/worker/src/support.processor.ts:137-406 | an attempt without faults numbers the run, finishes it by its decision, leaves its draft, and an approval if none was asked before |
| SupportOutcomes.DeadAttemptLeaves | apps/worker/src/support.processor.ts:137-406 | an attempt whose process dies under way leaves the run RUNNING under its number, its draft and its approval if it got that far, and no failure |
| SupportRun.ThrownErrorLeaves | apps/worker/src/support.processor.ts:424-543 | a policy error blocks the run and any other error fails it, with an operational failure opened or renewed exactly when the job is not tried again |
| SupportRun.CommittedSuccessStaysExactly | apps/worker/src/support.processor.ts:397-543 | after a main path that took effect as a whole, the success is lost if and only if its last write was reported as an error and the catch block's status write took effect, which leaves BLOCKED or FAILED by the error |
| SupportRun.CommittedBlockStaysExactly | apps/worker/src/support.processor.ts:397-543 | a committed block is lost if and only if its last write was reported as an error other than a policy one and the catch block's status write took effect, which leaves FAILED |
| SupportRun.CommittedSuccessIsTakenBack | apps/worker/src/support.processor.ts:397-483 | a success taken back by an error other than a policy one leaves both a finished and a failed event |
| SupportRun.ApprovalIsTheFirstAsked | apps/worker/src/support.processor.ts:646-677 | whatever the attempts, an approval has the text of the first attempt that got as far as asking for one, and nothing was approved or finished before it |
| SupportRun.ApprovalAgreesExactly | apps/worker/src/support.processor.ts:617-665 | the approval and the draft of a succeeded run have the same text if and only if the first attempt that asked and the attempt that finished the run wrote the same text |
| SupportRun.RetryKeepsTheOldApproval | apps/worker/src/support.processor.ts:617-665 | an attempt that dies after asking and one that finishes leave the first text in the approval and the second in the draft |
| SupportRun.SupportProcessor.ProcessTicketJob | apps/worker/src/support.processor.ts:113-543 | the job in place, with its try and catch blocks and its loop over flagged checks, leaves exactly the rows of the operations that took effect |
| SupportRun.SupportProcessor.EnsureRunDraft | apps/worker/src/support.processor.ts:600-644 | the run's draft is rewritten if there is one and created otherwise |
| SupportRun.SupportProcessor.EnsureDraftApproval | apps/worker/src/support.processor.ts:646-677 | an existing approval of the draft is kept as it is |
| SupportRun.SupportProcessor.RecordOperationalFailure | apps/worker/src/support.processor.ts:679-731 | an unresolved failure is renewed, otherwise one is added |
| OutboundMessages.WritesKeepLeased | apps/worker/src/channels/channel-delivery.processor.ts:103-133 | every write to the row keeps a PROCESSING row leased |
| OutboundMessages.ReconcilerAgreesWithClaim | apps/worker/src/channels/outbound-delivery-reconciler.service.ts:50-68 | the reconciler selects exactly the rows a worker may load and claim, and the rows with an expired lease whose retry time has not come |
| OutboundMessages.NothingStranded | apps/worker/src/channels/outbound-delivery-reconciler.service.ts:50-68 | once lease and retry time have passed, an unfinished row is selected and its claim succeeds; a finished row is never selected or claimed |
| DeliveryProtocol.DeliveryMutualExclusion | apps/worker/src/channels/channel-delivery.processor.ts:81-133 | in every run where claimants finish or stop within their lease and lease-blind writes stay off PROCESSING rows, at most one worker is between claim and finish |
| DeliveryProtocol.WorkersLeaveFinishedRowsAlone | apps/worker/src/channels/channel-delivery.processor.ts:186-300 | in those runs a worker step changes a finished row in exactly one case, a failure after the commit, which makes it DEAD_LETTER |
| DeliveryProtocol.EveryRunIsSound | apps/worker/src/channels/channel-delivery.processor.ts:135-231 | in every run at all, an attempt number reaches the provider at most once, at most one external message is stored, with the approved text, and the message is never stranded |
| DeliveryProtocol.AcceptedAtMostOnce | apps/worker/src/channels/channel-delivery.processor.ts:186-300 | in every disciplined run in which no job stops between acceptance and commit or fails from then on, no operator writes over a sent row, and no failure callback takes effect, a message reaches the provider at most once |
| DeliveryResends.SendableIsAccepted | apps/worker/src/channels/channel-delivery.processor.ts:103-186 | a row that may be sent, and whose next attempt number is free, reaches the provider once more |
| DeliveryResends.StopsResend | apps/worker/src/channels/channel-delivery.processor.ts:156-186 | a job that stops between acceptance and commit lets the next one send the message again |
| DeliveryResends.FailuresResend | apps/worker/src/channels/channel-delivery.processor.ts:233-300 | a failure after acceptance, before the commit or after it, followed by a replay, sends the message again |
| DeliveryResends.StaleReplaysResend | apps/api/src/channels/channels.service.ts:503-545 | a replay decided before the message was sent and written after it sends the message again |
| DeliveryResends.StaleCancelsResend | apps/api/src/channels/channels.service.ts:547-584 | a cancel written over a sent row lets such a replay through |
| DeliveryResends.FailureCallbacksResend | apps/api/src/channels/channels.service.ts:1037-1081 | a failure called back for a sent message sends it again |
| DeliveryResends.LeaseOverrunsResend | apps/worker/src/channels/channel-delivery.processor.ts:103-133 | a lease that runs out before its job commits lets the next one send the message again |
| DeliveryResends.SentUnderDecisions | apps/api/src/channels/channels.service.ts:503-584 | a message is sent while a replay and a cancel decided before still wait to be written |
| DeliveryResends.AcceptedIsReached | apps/worker/src/channels/channel-delivery.processor.ts:135-186 | any fresh message reaches the state between acceptance and commit, with its next attempt number free |
| DeliveryLimits.UndisciplinedStepsOpenHeldRows | apps/api/src/channels/channels.service.ts:503-545 | an overrun lease, a replay or a failure callback on a held row each make it claimable while it is held |
| DeliveryLimits.FinishedHeldRowsMove | apps/api/src/channels/channels.service.ts:547-584 | a cancel or a confirming callback on a held row finishes it, and the holder's own failure then moves the finished row |
| DeliveryLimits.LateFailureOnHeldRowBreaksExclusion | apps/worker/src/channels/channel-delivery.processor.ts:233-300 | a failure after one job's commit, on a row the next job already holds, lets a replay bring in a second holder |
| DeliveryLimits.HeldBesideAnnouncingIsReached | apps/api/src/channels/channels.service.ts:1037-1081 | the state of the last row is reached through a failure callback on a sent message |
| DeliveryLimits.SendableWhileHeld | apps/worker/src/channels/channel-delivery.processor.ts:103-133 | a held row that is claimable gets a second holder in two steps |
| DeliveryLimits.HoldersUndoForeignFinishes | apps/worker/src/channels/channel-delivery.processor.ts:203-289 | the finish writes of a holder overwrite a cancel or callback that came in between |
| DeliveryLimits.LateClaimBreaksExclusion | apps/worker/src/channels/channel-delivery.processor.ts:93-133 | a claim that reaches the database after its lease has ended lets a second worker in at once |
| DeliveryLimits.LateFailureResendsASentMessage | apps/worker/src/channels/channel-delivery.processor.ts:233-300 | a failure after the commit makes a SENT row a dead letter, which a replay makes sendable again |
| DeliveryAttempts.AttemptsStayWithinLimit | apps/worker/src/channels/channel-delivery.processor.ts:103-300 | in every disciplined run, stale reads and crashes below the limit included, in which a message at its limit sees no crash of its holder, no replay and no failure callback, the attempt count, every held attempt and every recorded attempt stay within the limit |
| DeliveryAttempts.LeaseOverrunsExceedTheAttemptLimit | apps/worker/src/channels/channel-delivery.processor.ts:103-133 | a lease overrun at the limit leads to an attempt beyond it |
| DeliveryAttempts.LateClaimsExceedTheAttemptLimit | apps/worker/src/channels/channel-delivery.processor.ts:93-133 | a claim of the last attempt that lands after its lease has ended leads to an attempt beyond the limit |
| DeliveryAttempts.CrashesExceedTheAttemptLimit | apps/worker/src/channels/channel-delivery.processor.ts:104-186 | a worker that stops anywhere while it holds the last attempt leaves the row open to an attempt beyond the limit |
| DeliveryAttempts.ReplaysExceedTheAttemptLimit | apps/api/src/channels/channels.service.ts:503-545 | a replay of a message at the limit leads to an attempt beyond it |
| DeliveryAttempts.FailureCallbacksExceedTheAttemptLimit | apps/api/src/channels/channels.service.ts:1037-1081 | a failure called back for a message at the limit leads to an attempt beyond it |
| DeliveryAttempts.LastAttemptIsSent | apps/worker/src/channels/channel-delivery.processor.ts:186-231 | a last attempt that commits leaves a sent row at the limit |
| DeliveryAttempts.LastAttemptIsDeadLettered | apps/worker/src/channels/channel-delivery.processor.ts:264-319 | a last attempt that fails leaves a dead letter at the limit, open to a replay |
| DeliveryAttempts.LastAttemptIsReached | apps/worker/src/channels/channel-delivery.processor.ts:135-186 | a message with one attempt reaches the state before them |
| DeliveryLimits.DifferingRowIsReached | apps/worker/src/channels/outbound-delivery-reconciler.service.ts:50-68 | the kind of row on which the reconciler and the claim differ is reached in a disciplined run, by a stale claim over a put-off message |
| DeliveryLimits.LateClaimIsReached | apps/worker/src/channels/channel-delivery.processor.ts:81-101 | the state before a late claim is reached from any fresh message |
| DeliveryLimits.HoldingIsReached | apps/worker/src/channels/channel-delivery.processor.ts:103-133 | the state in which a worker holds an attempt is reached from any fresh message |
| DeliveryLimits.SendingIsReached | apps/worker/src/channels/channel-delivery.processor.ts:135-186 | the state between acceptance and commit is reached from any fresh message |
| DeliveryJobs.DeliveryStore.SendOutboundMessage | apps/worker/src/channels/channel-delivery.processor.ts:81-349 | the job in place, from load to finish, changes message, attempts, failures and external messages as the composed writes do |
| DeliveryJobs.DeliveryStore.Fail | apps/worker/src/channels/channel-delivery.processor.ts:264-319 | the catch block schedules a retry or dead-letters, with one operational failure in the second case |
| DeliveryJobs.DeliveryStore.ReplayOutboundMessage | apps/api/src/channels/channels.service.ts:503-545 | a replay is refused for sent, delivered and cancelled messages, and otherwise makes the row pending and due |
| DeliveryJobs.DeliveryStore.CancelOutboundMessage | apps/api/src/channels/channels.service.ts:547-584 | a cancel is refused for sent, delivered and dead-lettered messages, and otherwise cancels |
| DeliveryJobs.DeliveryStore.ProcessDeliveryCallback | apps/api/src/channels/channels.service.ts:1037-1081 | a callback is ignored for an unknown message or one it tells nothing new about, and otherwise sets the status it reports |
| DeliveryJobs.BackoffBounds | apps/worker/src/channels/channel-delivery.processor.ts:40-45 | for every configured base, waits lie in [120, 72000] ms and never shrink from attempt to attempt |
| DeliveryJobs.BackoffDoubles | apps/worker/src/channels/channel-delivery.processor.ts:40-45 | for every base and attempt, the delay is a term and a fifth of it: the base, of at least 100 ms, for the first attempt, doubled for each further one, and at most a minute |
| DeliveryJobs.TotalWaitBounds | apps/worker/src/channels/channel-delivery.processor.ts:40-45 | the waits after n attempts total between 120 n and 72000 n ms |
| DeliveryJobs.AttemptBudget | apps/worker/src/channels/channel-delivery.processor.ts:93-319 | a fresh message that always fails retryably, whenever its jobs come, makes one attempt for each job that finds it due, up to exactly its maximum, waits the doubling delay and a fifth of it after each but the last, and ends in DEAD_LETTER with one operational failure |
| DeliveryJobs.ReplayBuysOneAttempt | apps/api/src/channels/channels.service.ts:513-524 | replaying an exhausted message leads to exactly one more attempt and one more failure |
| DeliveryJobs.FirstReceiptsKeepEvents | apps/api/src/channels/channels.service.ts:404-421 | suppressing repeated callbacks keeps each callback exactly once |
| DeliveryJobs.CallbacksConfluent | apps/api/src/channels/channels.service.ts:1037-1081 | any two orders and duplications of the same callbacks on a sent row both end in DELIVERED if one says so, dated by the first such callback, and otherwise in what the last new callback asks for |
| DeliveryOutcomes.JobsThatClaim | apps/worker/src/channels/channel-delivery.processor.ts:93-143 | a job claims exactly when the message is unfinished, due and not held under a lease that still runs; any other job changes nothing |
| DeliveryOutcomes.AcceptedJobLeaves | apps/worker/src/channels/channel-delivery.processor.ts:187-232 | an accepted job numbers its attempt, stores the text once and closes the row as SENT or DELIVERED |
| DeliveryOutcomes.RefusedJobLeaves | apps/worker/src/channels/channel-delivery.processor.ts:255-319 | a refused job is scheduled again after the doubling delay exactly when the refusal allows it and attempts are left, and otherwise given up with one failure |
| DeliveryOutcomes.CallbackWrites | apps/api/src/channels/channels.service.ts:1037-1081 | each callback's status: delivered, bounced, rejected and failed, accepted and sent; which are ignored, and which dates and error codes they write |
| DeliveryOutcomes.OperatorWrites | apps/api/src/channels/channels.service.ts:503-584 | which statuses refuse a replay and a cancel, and the columns each writes and leaves |
| DeliveryOutcomes.UndisturbedRefusedJob | apps/worker/src/channels/channel-delivery.processor.ts:81-349 | the interleaved steps of a job that nothing disturbs and the provider refuses leave the tables the whole job leaves, whatever the row was |
| DeliveryOutcomes.UndisturbedAcceptedJob | apps/worker/src/channels/channel-delivery.processor.ts:81-349 | so do those of a job the provider accepts, including the violation at a second acceptance |
| DeliveryWakeups.OutboundDeliveryReconciler.Reconcile | apps/worker/src/channels/outbound-delivery-reconciler.service.ts:42-98 | a running reconciler is skipped; otherwise each candidate's job is added unless the add throws, the number of those that were is returned, and the flag is reset |
| DeliveryWakeups.AddAllExactly | apps/worker/src/channels/outbound-delivery-reconciler.service.ts:72-90 | reconciling adds exactly the jobs of the candidates whose add succeeds and that the queue does not know, and forgets none |
| DeliveryWakeups.AcceptedCounts | apps/worker/src/channels/outbound-delivery-reconciler.service.ts:72-98 | the number reported is the number of selected rows whose add did not throw |
| DeliveryWakeups.WakeTakesEffectExactly | apps/api/src/channels/channels.service.ts:694-727 | an add, however old its read, leaves a job waiting for the message if and only if one waited before or the queue keeps no finished job under the number that was read |
| DeliveryWakeups.WakeupsArrive | apps/worker/src/channels/outbound-delivery-reconciler.service.ts:50-90 | in every run where jobs end only after their message was claimed and claims raise the count, an add leaves a job waiting or the message was claimed since the count was read |
| DeliveryWakeups.FinishedNumberLosesWakeups | apps/worker/src/channels/outbound-delivery-reconciler.service.ts:72-90 | with a finished job kept under the current number and none waiting, no number of wake-ups leaves a job waiting until the queue drops it |
| DeliveryWakeups.UnclaimedEndLosesWakeups | apps/worker/src/channels/outbound-delivery-reconciler.service.ts:72-90 | a first job that ends without claiming leads there |
| DeliveryWakeups.StaleClaimLosesWakeups | apps/worker/src/channels/channel-delivery.processor.ts:104-127 | so does a claim that writes back a count whose job has finished |
| DeliveryWakeups.OldReadAddsNothing | apps/api/src/channels/channels.service.ts:696-711 | an add under a count read before the message was claimed and its job ended leaves no job waiting |
| DeliveryWakeups.WorkerWakesItself | apps/worker/src/channels/channel-delivery.processor.ts:352-361 | the worker's own wake-up leaves a job waiting unless a finished job is kept under the same stamp |
| ApprovedText.ApprovedTextIntegrity | apps/api/src/approvals/approvals.controller.ts:98-157 | in every interleaving of agent retries, edits, sends, decisions and deliveries, a draft has at most one outbound message, and its text, every worker's copy of it and every external message stored for it are the response proposed by an approved approval of that draft |
| ApprovedText.DecisionsStand | apps/api/src/approvals/approvals.controller.ts:98-113 | a decided approval never changes again |
| ApprovedText.DraftDivergesExactly | apps/api/src/support/support.service.ts:399-423 | a draft stops showing the queued text exactly when a retry or a saved edit writes another |
| ApprovedText.SupportDesk.UpdateApproval | apps/api/src/approvals/approvals.controller.ts:87-193 | the decision transaction commits the decision, the draft (APPROVED with the proposed text, or REJECTED with its own) and the outbound message together or leaves everything as it was |
| ApprovedText.SupportDesk.CreateOutbound | apps/api/src/channels/channels.service.ts:586-692 | an approved draft gets its one outbound message, an existing one is left unchanged, and a blocked run or a missing address is an error |
| ApprovedText.SupportDesk.EditDraft | apps/api/src/support/support.service.ts:399-423 | an edit is refused exactly for sent drafts and otherwise changes the text alone |
| ApprovedText.SupportDesk.SendDraft | apps/api/src/support/support.service.ts:425-507 | a send needs an unsent draft, approved where the setting asks for it, and records the message text that was read |
| ApprovalOutcomes.DecisionCommitsExactly | apps/api/src/approvals/approvals.controller.ts:98-186 | a decision is taken if and only if the approval is pending and it does not approve a draft of a blocked run or one with no address |
| ApprovalOutcomes.DecisionLeaves | apps/api/src/approvals/approvals.controller.ts:98-186 | a committed decline leaves the linked draft REJECTED with its text, a committed approval leaves it APPROVED with the proposed text and queues it once; no other draft or approval changes |
| ApprovalOutcomes.ApprovedOnlyBy | apps/api/src/approvals/approvals.controller.ts:119-157 | a step makes a draft APPROVED only as an approving decision on it or as an agent draft written with that status |
| ApprovalOutcomes.DeclinedDraftsAreNotSendable | apps/api/src/support/support.service.ts:425-440 | after a committed decline, and any steps that do not approve the draft anew, the check before a send refuses it where approval is asked for |
| ApprovalOutcomes.SentMessagesWereApproved | apps/api/src/support/support.service.ts:425-507 | in every run of an organization that always asks for approval, each message sent by hand was at some time the text of a draft that stood APPROVED |
| ApprovalOutcomes.CheckedSendOutlivesDecline | apps/api/src/support/support.service.ts:433-457 | a send checked before a decline still goes out after it |
| ApprovalOutcomes.CheckedThenDeclinedIsReached | apps/api/src/support/support.service.ts:433-457 | that state is reached although every send asks for approval |
| ApprovalOutcomes.RunsHaveOneDraft | apps/worker/src/support.processor.ts:600-644 | over every interleaving, an agent run has at most one draft |
| RateLimit.SlidingBound | apps/api/src/rate-limit/rate-limit.service.ts:37-44 | every half-open interval of window length lets through at most 2 * limit - 1 requests, none if the limit is not positive |
| RateLimit.SlidingBoundIsAttained | apps/api/src/rate-limit/rate-limit.service.ts:37-44 | for every positive limit and window of two or more there is a trace that attains the bound |
| RateLimit.WindowsNeverOverlap | apps/api/src/rate-limit/rate-limit.service.ts:37-44 | two requests see the same window end, or the later one's window starts no earlier than the other's ends; rejected requests extend nothing |
| RateLimit.CounterCountsTheWindow | apps/api/src/rate-limit/rate-limit.service.ts:37-44 | the counter is the number of requests in its window, so the first requests up to the limit are the ones allowed |
| RateLimit.FirstRequestsAreAllowed | apps/api/src/rate-limit/rate-limit.service.ts:168-175 | in every trace, a request is told it is allowed if and only if it is among the first `limit` requests of its window, and how many of those are left |
| RateLimit.ResetIsExact | apps/api/src/rate-limit/rate-limit.service.ts:168-175 | while a window has time left the reset time is exactly that time, so a shorter wait finds it live |
| RateLimit.RateLimitService.Consume | apps/api/src/rate-limit/rate-limit.service.ts:151-188 | one key's counter changes and the caller is told its state; without Redis nothing changes and the fail mode decides |
| RateLimit.ToldTheTruth | apps/api/src/rate-limit/rate-limit.service.ts:168-175 | from any counter, over or not, waiting the reset time outlives the window, at its very last instant only if Redis has dropped the key, and the remaining count completes the counter to the limit |
| RateLimit.RemainingIsExact | apps/api/src/rate-limit/rate-limit.service.ts:168-175 | in every trace, of the later requests in a request's window exactly the next `remaining` are allowed |
| RateLimit.WaitingIsEnough | apps/api/src/rate-limit/rate-limit.service.ts:168-175 | after every trace, a request that has waited the reset time, and at the very last instant finds the key dropped, starts a window of its own |
| RefreshSessions.RotationConservesSessions | apps/api/src/auth/auth.service.ts:244-315 | over every interleaving, a session's token is exchanged at most once, a session has at most one successor, the sessions of one login include at most one unrevoked, and unrevoked sessions are the logins less those logged out |
| RefreshSessions.SessionsStayWithTheirUser | apps/api/src/auth/auth.service.ts:303-314 | over every interleaving, a session belongs to the user of the session it was exchanged for and of the login it descends from |
| RefreshSessions.ExchangesWereDue | apps/api/src/auth/auth.service.ts:284-302 | over every interleaving, each exchange presented its own session's hash and was committed before that session expired |
| RefreshSessions.SessionsOnlyEnd | apps/api/src/auth/auth.service.ts:284-346 | of a session only the revocation is ever written, never undone, and only by its own due exchange or its own logout |
| RefreshSessions.ChecksAdmitExactly | apps/api/src/auth/auth.service.ts:244-271 | a refresh gets under way exactly for an active user's unrevoked, unexpired session presented with its hash |
| RefreshSessions.SpentTokensArePowerless | apps/api/src/auth/auth.service.ts:284-300 | presenting the token of a revoked session, to refresh or to logout, leaves every session as it is |
| RefreshSessions.OneRefreshWins | apps/api/src/auth/auth.service.ts:282-315 | of two refreshes that checked the same live session, the first to commit creates its successor and the other changes nothing |
| RefreshSessions.AuthService.OpenSession | apps/api/src/auth/auth.service.ts:213-222 | a login adds one unrevoked session |
| RefreshSessions.AuthService.Refresh | apps/api/src/auth/auth.service.ts:234-325 | a refresh revokes its session and adds a successor of the same user together, only for a live session of an active user presented with its hash and unexpired at both readings, or changes nothing |
| RefreshSessions.AuthService.Logout | apps/api/src/auth/auth.service.ts:327-346 | a logout revokes the named session if it is unrevoked and changes nothing else |
| StableSort.SortIsTheStableSort | apps/api/src/operations/operations.service.ts:532 | a list is the sort's result if and only if it is sorted and elements with equal keys keep their order |
| StableSort.SortPermutes | apps/api/src/operations/operations.service.ts:532 | sorting gives a sorted permutation |
| StableSort.LimitPushdown | apps/api/src/operations/operations.service.ts:472-533 | cutting two sorted sources before concatenating, sorting and cutting gives the same list as not cutting them, ties included |
| AuditSearch.ClampLimit | apps/api/src/operations/operations.service.ts:27-33 | the limit used is the one asked for when that lies in [1, 1000], 1 or 1000 when it lies beyond, and 100 when none is given |
| AuditSearch.SearchSeesTheNewest | apps/api/src/operations/operations.service.ts:472-546 | the search filters the newest entries of the whole timeline |
| AuditSearch.FilterAfterLimitLosesMatches | apps/api/src/operations/operations.service.ts:533-546 | the answer is a prefix of the newest matching entries, and all of them if and only if the newest entries all match or no older one does |
| AuditSearch.SearchAnswersExactly | apps/api/src/operations/operations.service.ts:533-546 | the answer is made of exactly those newest entries that carry the actor type, the actor and, as status, the outcome asked for, newest first |
| AuditCsv.CsvRoundTrip | apps/api/src/operations/operations.service.ts:549-579 | reading the export by section 2 of RFC 4180 gives back the header and the guarded cells for every content |
| AuditCsv.HeaderNamesColumns | apps/api/src/operations/operations.service.ts:549-579 | the first record read back names the seven columns in order |
| AuditCsv.RecoveredCellsAreInert | apps/api/src/operations/operations.service.ts:35-39 | no recovered data cell starts with =, +, - or @, and a cell is recovered unchanged if and only if it did not start so, otherwise behind an apostrophe |
| AuditCsv.GuardedCollideExactly | apps/api/src/operations/operations.service.ts:35-39 | two different texts are exported alike exactly when one is a formula and the other that formula behind an apostrophe |
| JsonStrings.LiteralInjective | apps/api/src/channels/channel-sanitizer.ts:17-31 | a string literal and what follows it are determined by the text, for every sequence of UTF-16 units |
| JsonStrings.EscapeReads | apps/api/src/channels/channel-sanitizer.ts:17-31 | a reader for JSON string escapes gets back the string that was written |
| JsonStrings.EscapesAsSpecified | apps/api/src/channels/channel-sanitizer.ts:17-31 | each unit outside a surrogate pair is written as ECMAScript asks: a letter escape, four hexadecimal digits, or itself |
| CanonicalJson.PrintsAlikeExactly | apps/api/src/channels/channel-sanitizer.ts:17-31 | two JSON values print alike if and only if they are equal up to object key order, at any depth |
| CanonicalJson.PrintDetermines | apps/api/src/channels/channel-sanitizer.ts:17-31 | a printed value, and what follows it, are determined by the text |
| CanonicalJson.SamePrintAlike | apps/api/src/channels/channel-sanitizer.ts:25-30 | key order does not change the text |
| CanonicalJson.ObjectText | apps/api/src/channels/channel-sanitizer.ts:17-31 | an object of two members prints the smaller key first, in either order given, with braces, colons and a comma |
| KnowledgeSearch.CountTokenMatches | packages/db/src/knowledge-search.ts:25-36 | the count map computes the number of pairs of equal tokens |
| KnowledgeSearch.PairsSymmetric | packages/db/src/knowledge-search.ts:25-36 | the match count does not depend on which side is the haystack |
| KnowledgeSearch.RankIsTopK | packages/db/src/knowledge-search.ts:62-110 | the result is sorted by score then recency, as long as limit and matching articles allow, and no matching article left out outranks one in it |
| KnowledgeSearch.BuiltQueriesAreCanonical | packages/db/src/knowledge-search.ts:112-117 | tokenizing a built query gives the distinct tokens in order of first occurrence, and building again changes nothing |
| KnowledgeSearch.TokenizeJoined | packages/db/src/knowledge-search.ts:17-23 | words joined by spaces are tokenized back to themselves |
| KnowledgeScores.SeparatorsSplit | packages/db/src/knowledge-search.ts:17-23 | anything but a letter or a digit parts the words around it and is no word |
| KnowledgeScores.RunsAreWords | packages/db/src/knowledge-search.ts:17-23 | a run of letters and digits is one word, in lower case |
| KnowledgeScores.MatchesAreWorth | packages/db/src/knowledge-search.ts:74-83 | for every query, a word more in the title is worth 10 for each time the query has it, in the tags 6, in the body 2 |
| KnowledgeScores.AnswersAreOrdered | packages/db/src/knowledge-search.ts:99-107 | answers come by higher score, then by more recent update, then in the order the articles were given, for every limit |
| KnowledgeScores.AnswersAreAsMany | packages/db/src/knowledge-search.ts:98-107 | there are as many answers as matching articles within the limit, a negative limit dropping that many from the end |

## Left out

- Operator failure replay, and two executions of one support job at a time: the support job's find-then-create steps
  are not atomic, so `SupportRun` and `EndToEnd` let one execution of a job id run at a time and never reset a run.
- A thrown error whose catch block runs after another attempt of the same run has started.
- SupportRun.ThrownErrorLeaves: says what a catch block leaves when nothing interrupts it; an interrupted one is covered
  by the invariants only.
- ApprovedText.ApprovedTextIntegrity: does not include the ticket message that `sendDraft` records, because its text is
  the draft's and need not be approved when the setting does not ask for approval; where it does,
  `ApprovalOutcomes.SentMessagesWereApproved` covers it.
- EndToEnd.ExactlyOnceEffect: models one channel connection.
- InboundThreading.ConversationsAreComponents: assumes new ids and item 5's conditions on customers and thread ids; repeats are
  the subject of `InboundDedup`.
- KnowledgeSearch.RankIsTopK: takes a limit that is not negative; for the others see `KnowledgeScores`. Case folding and
  token boundaries are ASCII. Snippets are not modelled.
- AuditCsv.CsvRoundTrip: starts from the cells; dates, redaction and the payload summary are given as texts.
- AuditSearch.SearchSeesTheNewest: starts from the rows that meet the `where` clauses; the choice of date range and of the
  event type filter is not modelled.
- CanonicalJson.PrintsAlikeExactly: numbers are given by the text ECMAScript prints, so the shortest-digits algorithm is not
  modelled; an infinity (a literal too large to represent) counts as null, as it prints. Values that JSON cannot hold are left out.
- RateLimit.RateLimitService.Consume: keys are given; how a key is derived from a path, an address and a hash is not modelled.
- DeliveryWakeups.WakeupsArrive: asks that claims raise the count; which stale claims can lower it is left to `DeliveryProtocol`.
- Guardrails.RunAll: rounds a real completeness score; binary floating point is not modelled.
- Webhook signatures, password and token hashing, and token signing: a verified token or event is a value.
- `parseEvent` field checks and id normalisation (apps/api/src/channels/mock-email.provider.ts): events arrive parsed, with normalised ids.
- `classifyRetryableError` (apps/worker/src/queue/retry-classifier.ts): the theorems hold for every disposition it could return.
- `nextEventSequence` (packages/db/src/event-sequence.ts) and event payloads: events are kept in order, without numbers.
- Attachments, subjects, HTML bodies, connection status and tenant scoping; the text of prompts, models and detectors.
- Metrics, logs, health checks, configuration parsing, controllers, data-transfer validation and the web app.
