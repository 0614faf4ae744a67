# Verification of the gateway protocols

This Dafny project models the parts of the IoT gateway system that have to stay correct while
workers race, connections drop, requests get lost and agents crash, and proves what those parts
promise. The cloud is `cloud-api/app`, the edge is `edge-agent/iot_cx_agent`.

Verify it with `dafny verify dfyconfig.toml` (Dafny 4.11).

| file | what it is about |
|---|---|
| `JobQueue.dfy` | the job table, its racing claim passes, agents that run what they claim, a network that loses messages |
| `WriteBatches.dfy` | BACnet write batches: approval into one job per device, commands and the derived batch status |
| `WriteExecution.dfy` | the two together: how often a write command is dispatched |
| `CommandWait.dfy` | the generation counter that wakes long polls |
| `LegacyTrends.dfy` | the bounded trend queue, its at-least-once sender and the idempotent receiver |
| `LocalUpload.dfy` | the trend outbox: retry, quarantine, backfill and the bisecting uploader |
| `LocalSampling.dfy`, `BulkRead.dfy` | the budgeted sampler and the bulk read with its fallback |
| `LocalCollection.dfy` | what a sampling cycle leaves in the tables of samples and outbox rows |
| `Tunnels.dfy`, `Leases.dfy` | pending tunnel requests on connections that come and go; admission leases |
| `Inventory.dfy` | mirroring an edge's device snapshot |
| `MappingTemplates.dfy` | applying a mapping template and extracting one |
| `Alerts.dfy` | transition-based alerts with a delivery cap |
| `DuplicateIdentity.dfy` | the batched duplicate-identity query against the query for one gateway |
| `Cookies.dfy` | the cookie header parser and printer |
| `Grouping.dfy`, `Retry.dfy`, `Wrappers.dfy` | grouping by key, batching, powers of two, `Option` |

How the parts are put together: code that changes rows or fields in place is a class whose methods
are proved against a function of the old state, and the theorems are about that function; what it does to
each field is stated once more without it, in the method's own contract or in a lemma named `...Tells`. Where
several processes take part there is a state machine over their steps, and the theorems hold for
every sequence of steps. Clocks, network outcomes, BACnet answers, lock timing and the server's
answers are parameters, so a theorem holds for whatever they turn out to be. The cloud transport of
trend samples is gated by a constant today; here the gate is a parameter and the code behind it is
what is proved.

Places where the code does less than one might expect, each with its condition, which is exact except where it says otherwise:

* A job that is not a write job can be queued and run again after its result was applied: the
  requeue of a stale claim is an unconditional write (`ReportedLeavesOnlyByRequeue`,
  `ReadJobCanRunAgainAfterItsResult`).
* Two results of one batch that overlap under read-committed isolation leave the batch out of step
  exactly if no further command of it is claimed, and open although every job has reported exactly if
  the jobs of all further commands have reported (`OverlapIsOutOfStepExactly`, `OverlapLeavesOpenExactly`).
  It then stays open until one of its jobs reports a second time (`LeftOpenStep`, `LeftOpenForGood`),
  and there is a run to such a state (`OverlappingReportsLeaveBatchOpen`).
* A result that overlaps the claim of another job of its batch leaves the batch queued while a command
  is claimed, exactly if no further command is claimed, until the claimed job reports
  (`ClaimOverlapIsOutOfStepExactly`, `ClaimOverlapIsRepaired`, `OverlappingClaimLeavesBatchQueued`).
  Two claims do not disturb each other (`ClaimsDoNotInterfere`), and with atomic endpoints none of
  this can happen (`ConsistentExec`). Overlaps of more than two endpoints are not treated.
* The expiry task of a lease misses its own lease, and so does not close the tunnel, exactly if some
  operation saw the lease expired before the task ran (`AnswersAgree`,
  `ExpiryTaskCanMissItsLease`). Every job poll is such an operation.
* Applying a mapping template fails at the commit exactly if it would bind a role that a disabled
  point of the device holds (`CommitsUnlessADisabledPointHoldsTheRole`).
* The rows that a duplicate-identity query selects depend on the order of heartbeats of one time
  exactly if such a tie straddles its row limit, and the values of a field exactly if one of them can
  be left out: no surely selected row has it, and the tied rows without it can fill the room
  (`SelectionIsUniqueWithoutATie`, `ValuesAlikeExactly`). If no value of any field can be left out
  there is one verdict (`OneVerdict`), a sufficient condition; otherwise the batched query can
  disagree with the single one (`TieAtTheCutDecides`).
* A sampling cycle keeps to its budget whatever happens exactly if the sum over its due groups of the
  longest run of leading batches within the whole budget is within the budget: the attempts of a run
  that raises are not charged, so each group may get all of it (`CycleKeepsItsBudgetExactly`,
  `WorstCycle`, `CycleCanExceedItsBudget`).
* A sample and its outbox row are two inserts, and the handler around a group commits what the first
  one did. Samples and outbox rows are in bijection exactly if no outbox insert has failed
  (`MirroredExactly`); a cycle keeps the bijection exactly if none of its runs ends at an outbox row
  that cannot be inserted, and a sample without a row is never sent (`CycleMirrorsExactly`,
  `OrphanForGood`, `FailedInsertLeavesAnOrphan`, `WorstCycleLeavesOrphans`, `CycleCanLeaveOrphans`).

## Model

| member | source | states |
|---|---|---|
| JobQueue.JobTable.StaleClaims | cloud-api/app/main.py:4547-4555 | finds exactly the rows of the gateway that are claimed, are no write jobs and were claimed before the cutoff |
| JobQueue.JobTable.RequeueStale | cloud-api/app/main.py:4556-4560 | the found rows go back to the queue whatever they hold by then; no other row changes |
| JobQueue.JobTable.NextQueued | cloud-api/app/main.py:4566-4577 | the oldest queued job of the gateway by creation time and id, or none exactly if there is none |
| JobQueue.JobTable.ConditionalClaim | cloud-api/app/main.py:4579-4590 | succeeds exactly if the row is still queued, and then changes that row alone |
| JobQueue.JobTable.ClaimNextJobOnce | cloud-api/app/main.py:4537-4608 | in an undisturbed pass every stale claim of the gateway that is no write job is queued again or is the one the pass claims, every other row but the claimed one is as it was, and what is claimed is the oldest of the rows that were queued or stale; none is claimed exactly if there was none |
| JobQueue.JobTable.ReceiveResult | cloud-api/app/main.py:4653-4668 | refused for an unknown job or another gateway's; otherwise that row alone gets the posted status and the completion time, and no stale scan or selection finds it again |
| JobQueue.ScanFindsExactly | cloud-api/app/main.py:4547-4555 | a worker's scan remembers exactly the gateway's claims of jobs that are no write jobs from before the cutoff |
| JobQueue.InvExec | cloud-api/app/main.py:4537-4608 | the protocol invariant holds after every interleaving of scans, requeues, selections, claims, results, crashes and losses |
| JobQueue.WriteRunsAtMostOnce | edge-agent/iot_cx_agent/jobs.py:184-216 | in every run a write job is claimed, executed and reported at most once, and no job is executed more often than claimed or reported more often than executed |
| JobQueue.WriteNeverReturnsToQueue | cloud-api/app/main.py:4539-4543 | a write job that has left the queue is never queued or claimed again |
| JobQueue.ReportedWriteIsFinal | cloud-api/app/main.py:4539-4543 | after a write job's result was applied it was claimed and run exactly once and stays reported for ever |
| JobQueue.ReportedLeavesOnlyByRequeue | cloud-api/app/main.py:4556-4560 | a reported job loses its result exactly when a worker commits the requeue of a claim it read before |
| JobQueue.ReadJobCanRunAgainAfterItsResult | cloud-api/app/main.py:4547-4560 | a reachable state in which a read job with an applied result has run twice |
| WriteBatches.WriteStore.RequestWrites | cloud-api/app/main.py:3490-3524 | a new batch awaiting approval with one open command per write, unclaimed and in no job; everything else as it was |
| WriteBatches.WriteStore.ApproveBatch | cloud-api/app/main.py:3528-3575 | refused unless the batch awaits approval; otherwise it is queued with one queued job per device, and its commands are queued in the job of their own device |
| WriteBatches.WriteStore.RefreshBatchStatus | cloud-api/app/main.py:1487-1508 | completed, failed or deferred exactly if all commands are, partial if they all have answers but not one kind, and otherwise open; a completion time exactly if nothing is open |
| WriteBatches.WriteStore.ClaimJob | cloud-api/app/main.py:4579-4602 | the job is claimed, exactly its queued commands are claimed with it, and its batches get the status their commands imply |
| WriteBatches.WriteStore.ReceiveResult | cloud-api/app/main.py:1546-1602 | each command of the job has succeeded if the job completed and the first entry for its point is good, is deferred if the job is and there is no entry that counts, and has failed otherwise; its batches get the status their commands imply |
| WriteBatches.IndexResults | cloud-api/app/main.py:1562-1571 | the first result per point counts |
| WriteBatches.ApprovalPartitions | cloud-api/app/main.py:3545-3572 | the jobs' commands are together exactly the batch's, none lost or duplicated, one job per device |
| WriteBatches.ApprovedCommand | cloud-api/app/main.py:3545-3572 | every command of the batch is in the one new job of its device and queued |
| WriteBatches.ApprovedJob | cloud-api/app/main.py:3545-3572 | every write of a new job is a command of this batch on this device that names this job |
| WriteBatches.ConsistentExec | cloud-api/app/main.py:1487-1602 | in every run of atomic endpoints each approved batch's status and completion time are those its commands imply |
| WriteBatches.InStepTells | cloud-api/app/main.py:1487-1508 | a batch in step is completed, failed or deferred exactly if all its commands are |
| WriteBatches.TerminalIffAllJobsReported | cloud-api/app/main.py:1494-1508 | an approved batch is terminal exactly if all jobs made from it have reported |
| WriteBatches.TerminalIsFinal | cloud-api/app/main.py:1487-1508 | a terminal batch never becomes non-terminal |
| WriteBatches.OverlapIsOutOfStepExactly | cloud-api/app/main.py:1574-1602 | two results that overlap leave the batch out of step exactly if no further command of it is claimed |
| WriteBatches.OverlapLeavesOpenExactly | cloud-api/app/main.py:1574-1602 | they leave it open with every job reported exactly if the jobs of all further commands have reported |
| WriteBatches.LeftOpenStep | cloud-api/app/main.py:1487-1602 | a batch left open becomes terminal exactly when one of its jobs reports again, and otherwise stays open |
| WriteBatches.LeftOpenForGood | cloud-api/app/main.py:1487-1602 | so it stays open in every run without a second report |
| WriteBatches.OverlappingReportsLeaveBatchOpen | cloud-api/app/main.py:1574-1602 | a run from empty tables after which two overlapping results leave the batch out of step and open |
| WriteBatches.ClaimOverlapIsOutOfStepExactly | cloud-api/app/main.py:1487-1508 | a result that overlaps the claim of another job of the batch leaves it out of step exactly if no further command of it is claimed |
| WriteBatches.ClaimOverlapIsRepaired | cloud-api/app/main.py:1487-1602 | the claimed job's own result puts the batch right |
| WriteBatches.OverlappingClaimLeavesBatchQueued | cloud-api/app/main.py:4591-4602 | a run from empty tables after which a result that overlaps a claim leaves the batch queued while a command is claimed |
| WriteBatches.ClaimsDoNotInterfere | cloud-api/app/main.py:4579-4602 | two claims that overlap leave the batch in step |
| WriteExecution.JobsAndRowsAgree | cloud-api/app/main.py:4537-4608 | in every run of approvals and of all steps on the job table each write job has a row of its own with the same status, and no job lists a command twice |
| WriteExecution.CommandDispatchedAtMostOnce | edge-agent/iot_cx_agent/jobs.py:184-216 | over all jobs a write command is dispatched at most once, not before it is claimed, and exactly once when it has its answer |
| WriteExecution.DispatchedWithItsJob | cloud-api/app/main.py:3545-3572 | a command is dispatched exactly as often as its own job is run |
| CommandWait.CommandWaitNotifier.Notify | cloud-api/app/main.py:272-283 | raises the gateway's generation by one and wakes exactly the gateway's waiters |
| CommandWait.CommandWaitNotifier.BeginWait | cloud-api/app/main.py:285-296 | registers a waiter exactly if the generation is still current |
| CommandWait.CommandWaitNotifier.EndWait | cloud-api/app/main.py:297-308 | the waiter leaves the table and everything else stays; a wake-up and a timeout are counted each in its own counter and a cancellation in neither |
| CommandWait.InvExec | cloud-api/app/main.py:4616-4648 | the invariant of polls, waiters and notifications holds in every run |
| CommandWait.NoLostWakeUp | cloud-api/app/main.py:4625-4646 | a sleeping poll with no wake-up on its way has the current generation, and every job its last scan missed has its notification still to come |
| CommandWait.PendingNotificationWakes | cloud-api/app/main.py:272-283 | that notification lets the sleeping poll wake up |
| CommandWait.PollScansAgain | cloud-api/app/main.py:4625-4646 | a poll that is woken, times out or finds a notification in between reads the current generation and sees every job committed by then |
| CommandWait.PollFallsAsleep | cloud-api/app/main.py:285-296 | a poll whose generation is current sleeps with a waiter of its own |
| CommandWait.CommitAndNotify | cloud-api/app/main.py:272-283 | a commit and its notification leave the job, one generation more, and exactly the gateway's waiters woken |
| LegacyTrends.SyncQueue.QueueTrendSample | edge-agent/iot_cx_agent/db.py:317-337 | a sample is stored exactly if fewer than the maximum are pending; the sampling time moves with it |
| LegacyTrends.SyncQueue.MarkUploaded | edge-agent/iot_cx_agent/db.py:354-363 | the named rows are uploaded without a retry time, all others are as they were, and the backlog shrinks by the named rows that were pending |
| LegacyTrends.SyncQueue.RecordFailure | edge-agent/iot_cx_agent/db.py:378-391 | the named pending rows have one more attempt and the retry time, all others are as they were, and the backlog is as long as before |
| LegacyTrends.SyncQueue.UploadPendingTrendSamples | edge-agent/iot_cx_agent/trends.py:753-787 | success takes exactly the offered rows off the backlog; failure takes none off and puts exactly the offered rows off until their common retry time; with nothing due or the gate shut nothing changes |
| LegacyTrends.DueFromProps | edge-agent/iot_cx_agent/db.py:340-351 | the batch is due rows in order, at most the limit, and a due row that is not in it comes after all of a full batch |
| LegacyTrends.RetryTimeIs | edge-agent/iot_cx_agent/trends.py:774-781 | the retry time is the delay of the named row tried most often |
| LegacyTrends.TakeTells | edge-agent/iot_cx_agent/trends.py:57-65 | a sample is taken exactly if the point has none or its interval is over and the backlog is below its bound, and is then a pending row, untried and due at once |
| LegacyTrends.TrendStore.UploadTrendSamples | cloud-api/app/main.py:3902-3940 | accepted exactly if 1 to 500 samples, no point and time twice, all points known; then every sample is stored, its own value unless there was one, and nothing else changes; otherwise nothing does, with 422 for the first two reasons and 403 for a foreign point |
| LegacyTrends.DistinctByCount | cloud-api/app/main.py:3912-3914 | comparing the number of keys with the number of distinct keys detects a repeated key exactly |
| LegacyTrends.HandleStores | cloud-api/app/main.py:3921-3940 | handling a request, once or again, stores all its samples and keeps the cloud a part of the edge's queue |
| LegacyTrends.HandleTells | cloud-api/app/main.py:3902-3940 | a request is handled once, and stores all its samples or none |
| LegacyTrends.ExactlyOnce | edge-agent/iot_cx_agent/trends.py:753-815 | under any loss, retry and crash: what is marked uploaded is in the cloud with the edge's value, the cloud holds only queued samples, one per point and time, and the backlog keeps its bound |
| LegacyTrends.DrainedQueueIsMirrored | edge-agent/iot_cx_agent/trends.py:753-787 | with nothing pending the cloud holds exactly the queued samples |
| LegacyTrends.CleanCycleUploads | edge-agent/iot_cx_agent/trends.py:753-787 | a cycle that nothing disturbs uploads every row it offers, whatever happened before |
| Retry.RetryBacksOff | edge-agent/iot_cx_agent/trends.py:171-177 | the delay never shrinks with more failures, starts at the base and stays under the cap |
| Retry.RetryDoubles | edge-agent/iot_cx_agent/trends.py:171-177 | the delay is the base at first and doubles with each of the first six failures, under the cap |
| Retry.CeilLog2Exact | edge-agent/iot_cx_agent/trends.py:629-631 | the depth of a bisection of n rows is the least d with n <= 2^d |
| LocalUpload.LocalUploader.UploadPending | edge-agent/iot_cx_agent/trends.py:563-649 | with the gate shut nothing happens; otherwise the store becomes what one delivery of the offered rows makes of it, and the count is the number of rows that became uploaded |
| LocalUpload.LocalUploader.DeliverBatch | edge-agent/iot_cx_agent/trends.py:604-643 | the recursion applies exactly the effects, requests and abort of the delivery function |
| LocalUpload.LocalUploader.DeliverHalves | edge-agent/iot_cx_agent/trends.py:629-632 | the halves in turn; an abort in the first skips the second |
| LocalUpload.LocalUploader.RecordFailure | edge-agent/iot_cx_agent/trends.py:168-185 | every row of the batch gets one more attempt and one common retry time |
| LocalUpload.LocalUploader.SetAside | edge-agent/iot_cx_agent/trends.py:188-204 | one row goes to quarantine and stays pending with one more attempt |
| LocalUpload.OfferedProps | edge-agent/iot_cx_agent/trends.py:580-600 | the offered rows are eligible, in outbox order and at most the limit |
| LocalUpload.OfferedExactly | edge-agent/iot_cx_agent/trends.py:580-600 | the offer is the first rows, up to the limit, that are pending, not in quarantine, due or forced, and on a retry tried before: only such rows, and none is passed over |
| LocalUpload.DeliveryShape | edge-agent/iot_cx_agent/trends.py:604-632 | for any server the batch splits in order into settled rows, one contiguous postponed segment and untouched rows; it aborts exactly if some row is postponed |
| LocalUpload.EveryEffectHasItsCause | edge-agent/iot_cx_agent/trends.py:604-643 | a row is uploaded, quarantined or put off because of the answer to a request that sent it: accepted; sent alone and refused for good; no answer, 408, 429 or a server error, with the delay of the row tried most often |
| LocalUpload.UploadSplitsRows | edge-agent/iot_cx_agent/trends.py:563-649 | the same split read off the outbox, field by field: uploaded, in quarantine with its event, status and attempt, one more attempt and a retry time, or unchanged; rows not offered are as they were |
| LocalUpload.BisectionIsExact | edge-agent/iot_cx_agent/trends.py:604-632 | if the server rejects exactly the batches with a poison row, exactly the poison rows are quarantined and the others uploaded |
| LocalUpload.UploadSortsRows | edge-agent/iot_cx_agent/trends.py:563-649 | the same of the stored rows after an upload |
| LocalUpload.RequestBound | edge-agent/iot_cx_agent/trends.py:625-632 | k poison rows among n cost at most 1 + 2 k ceil(log2 n) requests |
| LocalUpload.RequestsAtMostTwiceTheRows | edge-agent/iot_cx_agent/trends.py:625-632 | no answers at all can cost more than 2 n - 1 requests |
| LocalUpload.RejectingAllCostsMost | edge-agent/iot_cx_agent/trends.py:625-632 | rejecting every batch costs exactly 2 n - 1 requests |
| LocalUpload.OutboxMirrorsSamples | edge-agent/iot_cx_agent/trends.py:245-275 | in every run of the two inserts, upload, retry and backfill each outbox row keeps its event id and its sample, and no two rows share either |
| LocalUpload.StepTells | edge-agent/iot_cx_agent/trends.py:718-749 | what each step changes: a new row is pending and untried, and a backfill makes exactly the earliest uploaded rows of its range, up to its limit, pending and due again |
| LocalUpload.MirroredExactly | edge-agent/iot_cx_agent/trends.py:245-275 | samples and outbox rows are in bijection exactly if no outbox insert has failed and none is still to come |
| LocalUpload.OrphanForGood | edge-agent/iot_cx_agent/trends.py:551-556 | a sample whose outbox insert failed never gets a row |
| LocalUpload.FailedInsertLeavesAnOrphan | edge-agent/iot_cx_agent/trends.py:256-274 | one failed insert leaves a sample without a row |
| LocalCollection.CycleMirrorsExactly | edge-agent/iot_cx_agent/trends.py:517-560 | a cycle keeps the bijection exactly if none of its runs ends at an outbox row that cannot be inserted, and adds as many rows as samples were recorded |
| LocalCollection.OrphansAreFailedInserts | edge-agent/iot_cx_agent/trends.py:551-556 | a run leaves a sample without a row exactly if it raises at a sample whose outbox row, unlike those before it, cannot be inserted |
| LocalCollection.WorstCycleLeavesOrphans | edge-agent/iot_cx_agent/trends.py:551-556 | whatever the groups, if a due group can be read at all there are failures with which every cycle breaks the bijection |
| LocalCollection.CycleCanLeaveOrphans | edge-agent/iot_cx_agent/trends.py:551-556 | a cycle that leaves two samples without rows |
| LocalUpload.QuarantineIsFinal | edge-agent/iot_cx_agent/trends.py:718-749 | a quarantined row stays quarantined and pending, and no later upload or backfill takes it |
| BulkRead.ReadBulk | edge-agent/iot_cx_agent/bacnet.py:1077-1262 | ends early for exactly the first of four reasons; otherwise one value per point in request order, from the batch's answer or else the point's own read, with its priority array if asked for; the failed batches and the fallbacks are counted; failed exactly if no value is good |
| BulkRead.ReadChunk | edge-agent/iot_cx_agent/bacnet.py:1137-1236 | the values of one batch, each from the batch's answer or else the point's own read, and the number of fallback reads |
| BulkRead.ByIdFinds | edge-agent/iot_cx_agent/trends.py:417-421 | with distinct ids the join by point id finds each point's own value |
| BulkRead.JoinGivesOwnValue | edge-agent/iot_cx_agent/bacnet.py:1117-1236 | joined by id, each point has the value and the priority array of its own object |
| LocalSampling.SampleBatch | edge-agent/iot_cx_agent/trends.py:417-471 | each sample says what was read for its point: without a value no reading and "error" exactly if there is an error text, else the reading and the status, "missing" if that is empty; the samples are those of the points up to the first that cannot be recorded, each counted as stored and under its own status |
| LocalSampling.SampleDevice | edge-agent/iot_cx_agent/trends.py:346-471 | the samples are those of a prefix of the device's points, each from the read of its own batch (an error exactly if that read raised or answered with an error text), the rest is deferred, and it yields only where the next batch would exceed the budget, live work waits or the read finds the runtime busy; it raises exactly at a sample that cannot be recorded |
| LocalSampling.SampleGroup | edge-agent/iot_cx_agent/trends.py:300-494 | stored = attempted = returned + missing + error within the budget, each by the samples' statuses, which say what was read for their points; stored + deferred is the number of points unless the runtime was busy at the start, and something is deferred exactly if there was a reason to stop, which then holds at the batch after the attempted ones; or it raises within an attempted batch |
| LocalSampling.SamplesAreOfAPrefix | edge-agent/iot_cx_agent/trends.py:231-239 | points come sorted by device, so the samples are those of a prefix of the group's points |
| LocalSampling.SampleHoldsOwnValue | edge-agent/iot_cx_agent/trends.py:417-471 | with the bulk reader's answers each sample holds the value of its own object |
| LocalSampling.SampleCycle | edge-agent/iot_cx_agent/trends.py:517-560 | each group runs exactly if it is due and some budget is left, with what the groups before it left; stored is what was charged, within the budget |
| LocalSampling.CycleKeepsItsBudgetExactly | edge-agent/iot_cx_agent/trends.py:517-560 | a cycle over given groups keeps to its budget whatever happens exactly if the sum of what its due groups can cost, each its longest run of leading batches within the whole budget, is within the budget |
| LocalSampling.CycleCostsAtMost | edge-agent/iot_cx_agent/trends.py:517-560 | no cycle attempts more than its groups can cost |
| LocalSampling.WorstCycle | edge-agent/iot_cx_agent/trends.py:545-556 | when in every due group the outbox row of the last sample within the budget cannot be inserted, every cycle attempts exactly that much and charges nothing |
| LocalSampling.RaisesCostOneBudgetEach | edge-agent/iot_cx_agent/trends.py:545-556 | without a raise a cycle keeps to its budget, and each raise costs one budget more at most |
| LocalSampling.CycleCanExceedItsBudget | edge-agent/iot_cx_agent/trends.py:551-556 | a cycle of two due groups of one point and a budget of one that attempts two points |
| Tunnels.GatewayTunnel.FailPending | cloud-api/app/tunnel.py:165-169 | every pending future that is undone fails, and nothing stays pending |
| Tunnels.TunnelManager.Register | cloud-api/app/tunnel.py:175-182 | the new connection takes over and exactly the undone futures of the old one fail |
| Tunnels.TunnelManager.Unregister | cloud-api/app/tunnel.py:184-187 | a connection that was replaced unregisters nothing and fails nothing |
| Tunnels.TunnelManager.CloseGateway | cloud-api/app/tunnel.py:201-216 | reports whether there was a connection, removes it and fails its undone futures |
| Tunnels.TunnelManager.BeginRequest | cloud-api/app/tunnel.py:112-121 | a request registers one new undone future on the gateway's current connection, or there is none |
| Tunnels.TunnelManager.ResolveResponse | cloud-api/app/tunnel.py:140-163 | a message resolves at most the undone future of its own connection with its own id |
| Tunnels.EventLoop.Handle | cloud-api/app/main.py:2577-2587 | of the futures that are undone exactly those resolve that the event may resolve, with its outcome, no other future changes, and the connections and requests are those the event leaves |
| Tunnels.HandleNext | cloud-api/app/tunnel.py:102-216 | the event that resolved a future stays the only one |
| Tunnels.Drive | cloud-api/app/tunnel.py:102-216 | in every run a future that is done was resolved by one event (its message, its timeout or its connection's removal) and has the outcome that event gave, and an undone one is on the registered connection |
| Leases.TunnelAllowlist.ExpireLocked | cloud-api/app/tunnel.py:84-87 | exactly the leases that are over are dropped |
| Leases.TunnelAllowlist.Reserve | cloud-api/app/tunnel.py:37-45 | granted exactly if the gateway has a live lease or fewer leases than the maximum are live; what is over is dropped and every other live lease stays |
| Leases.TunnelAllowlist.Allows | cloud-api/app/tunnel.py:52-59 | true exactly for a live lease; a lease that is over is dropped |
| Leases.TunnelAllowlist.RemoveIfCurrent | cloud-api/app/tunnel.py:65-70 | removes exactly if the stored expiry is the given one |
| Leases.TunnelAllowlist.ExpiresAt | cloud-api/app/tunnel.py:72-76 | the expiry of a live lease, after dropping what is over |
| Leases.StepRefines | cloud-api/app/tunnel.py:30-87 | one operation on the lazy store answers as on the plain map, unless it is an expiry task that finds its lease gone |
| Leases.StoredUnlessSwept | cloud-api/app/tunnel.py:37-87 | in every run a latest lease is missing from the store exactly if some operation saw it expired |
| Leases.AnswersAgree | cloud-api/app/tunnel.py:30-92 | in every run all queries answer as the plain map of latest reservations read through "expires later than now"; the one exception has an exact condition |
| Leases.SupersededExpiryKeepsTheLease | cloud-api/app/main.py:2373-2379 | the expiry task of a renewed lease removes nothing |
| Leases.LeasesBounded | cloud-api/app/tunnel.py:37-45 | neither stored nor live leases ever exceed a fixed maximum |
| Leases.ExpiryTaskCanMissItsLease | cloud-api/app/main.py:2378-2379 | a query at the instant of expiry makes the task return before it closes the tunnel |
| Inventory.RetireMissing | cloud-api/app/main.py:4018-4029 | exactly the enabled points whose key is not kept are retired, with that time and nothing else changed, and counted |
| Inventory.MirrorItems | cloud-api/app/main.py:4030-4062 | every snapshot point is active and counted once, keeps its role or has none if it is new, and has the raw value, else the displayed one, else the old one, and the snapshot's reading if there is one; the other points are as they were |
| Inventory.EdgeInventory.RetireAbsent | cloud-api/app/main.py:3964-3979 | exactly the enabled mirrored devices that the snapshot lacks are retired with their points, and no other row changes |
| Inventory.EdgeInventory.EdgeSyncInventory | cloud-api/app/main.py:3943-4064 | field by field what becomes of every device and point: mirrored, created, retired or untouched, with each role kept; and counters that account for every snapshot item, every new row and every row switched off |
| Inventory.SyncMirrorsTheSnapshot | cloud-api/app/main.py:3943-4064 | afterwards the enabled mirrored profiles are the snapshot's, each device has exactly its snapshot points enabled, other devices are untouched and profiles stay unique |
| Inventory.SecondSyncChangesNothing | cloud-api/app/main.py:3943-4064 | the same snapshot again creates and retires nothing, and at the same time changes nothing |
| MappingTemplates.SavedDevice.ApplyRule | cloud-api/app/main.py:3163-3192 | one rule has the outcome that its suited points, the earlier rules and the roles in use determine |
| MappingTemplates.SavedDevice.ApplyMappingTemplate | cloud-api/app/main.py:3150-3195 | the points, outcomes and tally are those that the points before the run determine, each stated in their own fields; committed exactly if no two points then have one role, else undone |
| MappingTemplates.RunTells | cloud-api/app/main.py:3163-3195 | a point is bound by the first rule that suits it alone if neither has a role or holder yet, and no other point changes; each outcome and count follows |
| MappingTemplates.BindingsAreNeverOverwritten | cloud-api/app/main.py:3177-3192 | a bound point keeps role and label, and a disabled point is not touched |
| MappingTemplates.RolesStayUniqueAmongEnabled | cloud-api/app/main.py:3186-3192 | roles stay unique among enabled points |
| MappingTemplates.CommitsUnlessADisabledPointHoldsTheRole | cloud-api/app/main.py:3158-3194 | the commit succeeds exactly if no role the run binds is held by a disabled point |
| MappingTemplates.ADisabledHolderBlocksTheCommit | cloud-api/app/models.py:495-502 | a device on which applying a template violates the unique index |
| MappingTemplates.EveryRuleIsTallied | cloud-api/app/main.py:3159-3195 | every rule is counted in exactly one outcome |
| MappingTemplates.MatchedCountsTheGainers | cloud-api/app/main.py:3189-3192 | `matched` is the number of points that gained a role |
| MappingTemplates.SecondRunChangesNothing | cloud-api/app/main.py:3150-3195 | applying again changes no point; what was bound is retained, every other outcome repeats |
| MappingTemplates.ExtractTells | cloud-api/app/main.py:3204-3209 | one optional rule per bound point in their order, with its name, type and label, unless none is bound or a bound one has no name |
| MappingTemplates.ExtractThenApplyRestores | cloud-api/app/main.py:3198-3209 | on an unbound copy, in any rule order, a role and label come back exactly if no other point looks the same to the rule; nothing else is bound |
| Alerts.AlertEvaluator.Process | cloud-api/app/main.py:4456-4504 | one condition: transition, attempt within the cap, acknowledgement and event, as the description of one step has them |
| Alerts.ProcessedTells | cloud-api/app/main.py:4456-4504 | that description in the state's fields: a flip takes the time and is pending again, an event tells of a pending flip alone, and it stays pending exactly if there is a webhook and it was not delivered |
| Alerts.AlertEvaluator.Evaluate | cloud-api/app/main.py:4507-4527 | every checked condition that differs from its state has an event of this time and stays pending exactly if there is a webhook and it was not delivered; what did not flip keeps its transition time; one event a condition, the first up to the cap attempted; nothing else changes |
| Alerts.GatewaysGiveDistinctKeys | cloud-api/app/main.py:4507-4527 | distinct gateways give distinct conditions |
| Alerts.ConditionsInOrder | cloud-api/app/main.py:4507-4527 | two conditions per gateway in order; an offline gateway has no backlog |
| Alerts.EvaluationIs | cloud-api/app/main.py:4456-4504 | attempts are the cap or all that is pending, exactly the first pending conditions are attempted, and no other state changes |
| Alerts.EventsTellTheConditions | cloud-api/app/main.py:4472-4504 | the n-th event is that of the n-th pending condition, with its alert or recovery, the time of its flip and whether it was delivered, and there are no others |
| Alerts.EachFlipIsDeliveredAtMostOnce | cloud-api/app/main.py:4464-4493 | over any evaluations and delivery outcomes, between two deliveries of a condition it has flipped |
| Alerts.NoWebhookAcknowledges | cloud-api/app/main.py:4475-4477 | without a webhook nothing is delivered and a webhook configured later is told nothing of it |
| Alerts.PendingDrainsByTheCap | cloud-api/app/main.py:4478-4493 | with constant conditions and an accepting webhook max(0, P - j cap) flips are pending after j runs |
| DuplicateIdentity.VerdictOnSameRows | cloud-api/app/main.py:478-497 | the verdict depends on the set of rows alone |
| DuplicateIdentity.VerdictTells | cloud-api/app/main.py:478-497 | the verdict, its reasons in order and its sets, from the non-empty values of the rows |
| DuplicateIdentity.DuplicateIdentityStatuses | cloud-api/app/main.py:512-523 | one entry per gateway that has a row, suspected exactly if its rows have two machine ids, two primary MACs, or two hostnames and two addresses, with the reasons and counts |
| DuplicateIdentity.SelectionIsUniqueWithoutATie | cloud-api/app/main.py:467-474 | the newest rows within the limit do not depend on the order of ties exactly if no tie straddles the limit |
| DuplicateIdentity.NewestAreSelected | cloud-api/app/main.py:467-474 | without such a tie a row is selected exactly if it is the gateway's, not before the cutoff, and has fewer newer ones than the limit |
| DuplicateIdentity.DistinctTimesLeaveNoTie | cloud-api/app/main.py:470-472 | distinct times leave no such tie |
| DuplicateIdentity.BatchAgreesWithSingle | cloud-api/app/main.py:464-523 | without a tie at its cut every asked gateway gets the verdict of its own query, also if it has no recent heartbeat |
| DuplicateIdentity.ValuesAlikeExactly | cloud-api/app/main.py:467-482 | all orders of ties give a field the same values exactly if none of its values can be left out |
| DuplicateIdentity.OneVerdict | cloud-api/app/main.py:467-497 | if no value of any field can be left out, all orders of ties come to one verdict |
| DuplicateIdentity.TieAtTheCutDecides | cloud-api/app/main.py:467-474 | 201 heartbeats of one time on which two permitted orders give different verdicts |
| Cookies.ParseCookiePairs | cloud-api/app/main.py:1210-1218 | the loop computes the parse |
| Cookies.ParseTells | cloud-api/app/main.py:1210-1218 | the pairs are those of the parts between the semicolons, in their order; a part without "=" or with nothing before it is no pair |
| Cookies.PartTells | cloud-api/app/main.py:1215-1217 | a part's pair is what stands before and after its first "=", without the outer spaces |
| Cookies.SplitTells | cloud-api/app/main.py:1214 | the parts have no semicolon and make up the header again |
| Cookies.DeduplicateCookieHeader | cloud-api/app/main.py:1229-1240 | the loop with its set of seen names keeps exactly the first occurrences |
| Cookies.ParsedIffWellFormed | cloud-api/app/main.py:1210-1240 | exactly the well-formed pair lists are the parse of some header |
| Cookies.WellFormedPairsParseBack | cloud-api/app/main.py:1240 | a printed list of such pairs parses back to itself |
| Cookies.JoinTells | cloud-api/app/main.py:1240 | the printed list is the printed pairs with a semicolon and a space between |
| Cookies.FirstOccurrencesKeepEachName | cloud-api/app/main.py:1233-1239 | every name is kept, once |
| Cookies.FirstOccurrencesAreFirst | cloud-api/app/main.py:1233-1239 | the pair kept for a name is the first that has it |
| Cookies.DeduplicationRoundTrip | cloud-api/app/main.py:1229-1240 | for every header the forwarded one parses to the first occurrences with distinct names, and forwarding it again changes nothing |

## Left out

- HTTP, WebSocket, SQL and JSON plumbing, authentication, access scoping, HTML pages, tunnel URL and script rewriting, migrations and the upgrade tools: they carry none of the properties above.
- Parsing of BACnet tool output: the parsed readings are an input of the bulk read.
- BulkRead.ReadBulk: does not model the route diagnostics, the raw outputs and the decoding of a priority array into the active priority, which do not decide which value a point gets.
- WriteBatches.WriteStore.ApproveBatch: does not model two administrators approving one batch at the same time, because each endpoint is one transaction here.
- WriteBatches.ClaimOverlapIsOutOfStepExactly: treats two endpoints at a time; overlaps of three or more are not modelled.
- WriteBatches.WriteStore.ReceiveResult: does not model the error messages of the commands and copying a read-back value into the saved point.
- CommandWait.NoLostWakeUp: is about jobs committed by endpoints that notify in the same process and that the poll's last scan had not seen; approving a write batch and requeueing a stale claim do not notify, and a poll that saw a job but lost the race for its claim may sleep while another job waits.
- LegacyTrends.CleanCycleUploads: needs an upload batch of at most 500, because the cloud never accepts a larger one.
- LegacyTrends.ExactlyOnce: does not model cloud retention deleting samples.
- WriteExecution.CommandDispatchedAtMostOnce: counts the dispatch of a job to the edge's own write adapter, which is not part of this model, and takes the posting of a result and its effect on the batch as one transaction.
- LocalUpload.OutboxMirrorsSamples: an agent that dies during an upload or between the two inserts leaves what its database rolls back to.
- LocalSampling.SampleGroup: of the group's run row only whether it can be written is modelled, and log lines are not, so neither is the fact that a partly deferred group waits for its next interval.
- Leases.AnswersAgree: takes the operations in the order in which they hold the lock and their clock readings as monotone in that order; in the code the clock is read just before the lock.
- Leases.ExpiryTaskCanMissItsLease: the operator sessions that the expiry task revokes are not modelled.
- Tunnels.Drive: a response whose body is not valid base64 ends its socket before any future is resolved, and is a socket end here; the closing of the socket itself is not modelled.
- Inventory.EdgeInventory.EdgeSyncInventory: row identifiers and the `created_at` columns are not modelled; metadata values of a wrong type count as absent, as in the code.
- MappingTemplates.SavedDevice.ApplyMappingTemplate: the check that template and device share a graphic template, and the timestamps, are not modelled; text folding is an arbitrary function.
- Alerts.AlertEvaluator.Evaluate: how heartbeat age and oldest pending sample make a gateway offline or its backlog stale is an input.
- DuplicateIdentity.OneVerdict: gives a sufficient condition for one verdict; the exact one is given for each field, since other values can still come to the same verdict.
- DuplicateIdentity.BatchAgreesWithSingle: the text of the detail message is represented by the counts and sets it is built from.
- Mutual exclusion of the BACnet lock file: creation and the write of the process id are separate steps, and stale locks are removed unconditionally, so it is not claimed.
- The safe cookie summary, saved-point reads, weather and store hours: they would only add easy members.
