# Zcash payment service: verified model

A Dafny 4.11 model of a payment service that watches a Zcash chain for incoming receipts, keeps a
per-address index of what was paid, and notifies shops by webhook. The model covers

- the receipt ledger and its derived totals, as an object whose methods are the database transactions;
- the webhook outbox: versions, deliveries, acknowledgements, retries and crash recovery;
- the sync worker's iteration as a state machine over a chain that grows, is reorganized and rewinds
  while a delivery worker and HTTP handlers act in between, and which may be interrupted anywhere;
- the network between the outbox and a version-gated receiver, and the two shop plugins that hold,
  release, settle and complete orders;
- the arithmetic around it: amounts as text, round-up prices, retry delays, payment URIs.

`dafny verify dfyconfig.toml` checks the whole project.

## Modules

| file | contents |
|---|---|
| `Receipts.dfy` | shared datatypes, sums over finite maps, the receipt rows and what each bulk operation does to them |
| `Totals.dfy` | the per-address index, recomputation, and why recomputing the touched addresses is enough |
| `Reconciliation.dfy` | chains, scans, the laws of range reconciliation: adoption, batching, repetition |
| `Outbox.dfy` | deliveries, acknowledgements and the invariant of one address |
| `Schedule.dfy` | how attempts end, what queueing adds, what waits until when, and what the worker takes |
| `Database.dfy` | the database as a value, every transaction as a step, invariants and progress of all runs |
| `AppDb.dfy` | the database as an object; loops and in-place updates proved against the order-independent functions |
| `ScanPlan.dfy`, `Downloads.dfy` | which heights an iteration scans, the ordered bounded downloader, and its runs with fetches that complete in any order |
| `Convergence.dfy`, `SyncProtocol.dfy`, `SyncRuns.dfy`, `SyncDepths.dfy`, `SyncResults.dfy`, `Handoff.dfy` | the iteration as a state machine, its invariants, and what whole runs achieve |
| `StaleArray.dfy`, `Witnesses.dfy` | runs that show where the service does less than one might expect |
| `SyncWorker.dfy` | the iteration as the program runs it on the database object, shown to follow the state machine |
| `EndToEnd.dfy` | the outbox, a lossy, duplicating, reordering network, and a receiver |
| `Ingest.dfy` | attribution of scanned receipts |
| `Vendure.dfy`, `PrestaShop.dfy`, `ShopAtRest.dfy` | the shop plugins, and what an acknowledged event means to a shop |
| `Backoff.dfy`, `Decimals.dfy`, `Amounts.dfy`, `Price.dfy`, `PaymentUri.dfy` | retry delays, decimal text, amounts, prices, payment URIs |

A function named like an operation (`Reconciled`, `Acknowledged`, `Step`) says row by row or field
by field what the operation does; a method of a class does it with the loops and assignments of the
source and ensures that its new state is the function of the old one; lemmas state what holds of the
function, of every reachable state, or of whole runs.

## Assumptions

- A receipt keeps its address (fingerprints are unique per pool, src/db.rs:1742). Range
  reconciliation needs this only of rows it does not read; `TotalsIndex.ReconcileMisses` gives the
  exact condition.
- During one iteration the chain up to the sampled tip does not change; between iterations anything
  may happen to it above a height that the next overlap window still covers. Whatever an iteration
  leaves in which the chain did change, the next one repairs (`SyncResults.LedgerHeals`).
- The receipts of the chain lie at or above the wallet's birthday and tips are below 2^32 - 1.
- `REQUIRED_CONFIRMATIONS` is fixed along a run; the change of the setting is a transaction of its own.
- A PrestaShop state change and its status hook succeed or fail together; a later hook may still
  throw. PrestaShop's two module states differ from each other and from the closing states, and the
  awaiting state is not a paid one. An order that was given to another module is not given back.
- Administrators move a settled Vendure payment only to the cancelled state and a cancelled one nowhere.

## Where the code does less than one might expect

- The finalized total takes height 0 for final while the chain is shorter than the finality depth
  (`TotalsIndex.FinalizedIsDeep`, `Witnesses.FinalizedTooEarly`).
- A delivery that is given up for good can take the only notification of a total with it: an event of
  an already failed version is never queued again (`Outbox.FailureLosesExactly`, `Witnesses.RefusedDeliveryIsLost`).
- Changing `REQUIRED_CONFIRMATIONS` changes arrays without an event, except when it is turned off for
  an address that never had one (`Database.RebuildIsSilent`, `Witnesses.RebuildLosesArray`).
- An iteration that is interrupted after its overlap scan can leave an address with the array of a tip
  the chain fell back from (`StaleArray.InterruptionLeavesStaleArray`). A later iteration repairs
  exactly the addresses it recomputes, among them all with a row that is not current for its tip
  (`SyncResults.IterationHeals`); from then on the array stays right (`SyncResults.ArraysConverge`).
- Service and plugins do not trim the same characters, so a text with U+0085 or U+FEFF around an amount
  is read by one of them only (`Amounts.ReceiversAgree`, `Amounts.ReceiversDiffer`). Formatted amounts
  hold neither.
- A closing state that the shop also counts as paid is treated as paid first: a short order in it goes
  on hold (`PrestaShop.ClosedMovesExactly`).
- The Vendure webhook acknowledges an event it ignores because the service disowned it while asked; if
  the total recovers before the success is recorded, no further event comes
  (`ShopAtRest.AcknowledgedButNotLearned`, `Witnesses.DisownedEventCanBeTheLast`).
- From 2^63 seconds on, a retry delay can jump to the cap early (`Backoff.DelayDoubles`, `Backoff.DelayJumps`).
- The batch loop does not end for the largest 32-bit height (`ScanPlan.BatchingStops`).

## Model

| member | source | states |
|---|---|---|
| AppDatabase.AppDb.QuerySum | src/db.rs:2166-2169 | summing the selected rows one by one gives their total, in whatever order they come |
| AppDatabase.AppDb.ReceivedByConfirmations | src/db.rs:2306-2336 | adding each receipt into every slot it reaches gives, at index i, the sum of the receipts with at least i confirmations |
| AppDatabase.AppDb.RecomputeAddress | src/db.rs:2197-2293 | the new figures of one address; dirty under the next version exactly if the reported pair changed |
| AppDatabase.AppDb.RecomputeAddressTotals | src/db.rs:2197-2293 | recomputes the touched addresses and no other |
| AppDatabase.AppDb.ApplyAttributedReceipts | src/db.rs:771-826 | rows and index after the upserts; nothing changes if an address is unknown |
| AppDatabase.AppDb.AdvanceReceiptMaturity | src/db.rs:828-889 | every active mined row gets depth and eligibility for the tip; reports the addresses it changed |
| AppDatabase.AppDb.RevokeMinedReceiptsAboveTip | src/db.rs:1069-1135 | revokes exactly the active mined rows above the tip |
| AppDatabase.AppDb.ReconcileAttributedReceiptsInRange | src/db.rs:891-1067 | the window's mined rows become the scanned ones and vanished ones are revoked; all or nothing |
| AppDatabase.AppDb.ReconcileMempoolSnapshot | src/db.rs:1151-1339 | provisional rows follow the mempool; missing ones are revoked only on request; stale ones stop counting |
| AppDatabase.AppDb.ApplyRequiredConfirmations | src/db.rs:308-351 | a new setting rebuilds every array at its own tip and raises no event |
| AppDatabase.AppDb.IssueAddress | src/db.rs:557-588 | a new address starts with an empty index entry |
| AppDatabase.AppDb.RecordSyncStatus | src/db.rs:432-530 | records tip and scanned height and nothing else of the model |
| AppDatabase.AppDb.QueueOne | src/db.rs:1358-1453 | a dirty address is compared with its newest outstanding delivery past the acknowledged one, and queued if it differs |
| AppDatabase.AppDb.QueueWebhookDeliveries | src/db.rs:1341-1356 | queues the given addresses one after the other |
| AppDatabase.AppDb.QueueAllDirtyWebhookDeliveries | src/db.rs:1455-1468 | at start-up every dirty address is queued, in ascending order, and none is left dirty |
| AppDatabase.AppDb.ClaimReadyWebhookDelivery | src/db.rs:1506-1535 | claims the oldest ready delivery, or none is ready |
| AppDatabase.AppDb.RecordWebhookDeliverySuccess | src/db.rs:1537-1593 | logs the attempt, moves the acknowledgement unless it is already newer, and queues again in the same transaction |
| AppDatabase.AppDb.RecordWebhookDeliveryRetry | src/db.rs:1595-1618 | logs the attempt and schedules the next one |
| AppDatabase.AppDb.RecordWebhookDeliveryPermanentFailure | src/db.rs:1619-1641 | logs the attempt and ends the delivery |
| AppDatabase.AppDb.RecoverInterruptedWebhookDeliveries | src/db.rs:1470-1504 | every interrupted delivery, and no other, waits again from now on, without using an attempt |
| AppDatabase.AppDb.FinishDelivery | src/webhook_delivery.rs:118-246 | exactly by status code and attempts: 2xx succeeds; no answer, 429 and 5xx wait until the given time while an attempt is left; everything else is given up |
| AppDatabase.AppDb.DeliverReadyOnce | src/webhook_delivery.rs:87-249 | one turn of the worker: the oldest ready delivery ends, by status code and attempts, in success, in a retry after the doubled delay, or for good |
| Schedule.FinishedExactly | src/webhook_delivery.rs:118-246 | how an attempt ends, in status codes and attempts, and what it leaves alone |
| Schedule.SucceededExactly | src/db.rs:1537-1593 | a success is acknowledged unless a later one was, and the address is compared again at once |
| Schedule.QueuedExactly | src/db.rs:1358-1453 | exactly when queueing adds an event, which one, and whether the address is clean or waits afterwards |
| Schedule.ClaimsExactly | src/db.rs:1506-1535 | exactly which delivery a claim takes, by state, time and age, and that no other claim takes it while it is sent |
| Schedule.WaitsExactly | src/db.rs:1470-1618 | for every step of every actor, which deliveries wait and until when: after a retry from its time on, after an interruption from the recovery on |
| Schedule.OutstandingIsTaken | src/db.rs:1506-1535 | in every reachable state what is neither ended nor being sent is queued or has a time; from then on a claim takes it or an older one, and not before |
| Schedule.AttemptsAreBounded | src/webhook_delivery.rs:118-246 | in every reachable state the receiver was asked at most the maximum number of times per event |
| Sums.TotalRemove | src/db.rs:2166-2182 | a sum does not depend on the order of its rows |
| Receipts.FirstSeenSurvives | src/db.rs:1239-1243 | being seen again or mined does not restart the clock of a mempool receipt |
| Receipts.ReconciledRowExactly | src/db.rs:940-1050 | the row a scan leaves: the scanned receipt with the clock of the mempool row it replaces, or the old one, revoked if it vanished |
| Receipts.SnapshotRowExactly | src/db.rs:1184-1335 | the row a snapshot leaves: as read, with its clock and freshness, or revoked, refreshed or left alone |
| Receipts.LastWins | src/db.rs:771-826 | of receipts scanned twice the last one counts |
| Receipts.CountsWhileFresh | src/db.rs:1184-1335 | a mempool receipt counts exactly in mempool mode and within 24 hours of its first observation |
| TotalsIndex.RecomputeKeepsIndex | src/db.rs:2197-2293 | if every moved address is touched, recomputing the touched ones keeps the whole index right |
| TotalsIndex.FinalizedWithinTotal | src/db.rs:2230-2233 | the finalized part lies within the total, so the recent part is never negative |
| TotalsIndex.ArrayShape | src/db.rs:2306-2336 | the array starts at the total and never increases with depth |
| TotalsIndex.FinalizedIsDeep | src/db.rs:2206-2210 | the finalized total is the sum at the finality depth exactly if the chain is that long or nothing was received at height 0 |
| TotalsIndex.ArraysCoincide | src/db.rs:2306-2336 | the arrays at two tips are equal exactly if no receipt with a value reaches another slot |
| Witnesses.FinalizedTooEarly | src/db.rs:2206-2210 | a run in which a receipt in block 0 of a two-block chain counts as final at depth 2 of 3 |
| TotalsIndex.ApplyTouches | src/db.rs:805-811 | apply moves no row of an address it does not mark |
| TotalsIndex.ReconcileMisses | src/db.rs:1040-1046 | reconciliation overlooks an unmarked address exactly when a row it did not read leaves that address |
| TotalsIndex.ReconcileTouches | src/db.rs:952-1046 | reconciliation moves no row of an address it does not mark |
| TotalsIndex.RevokeTouches | src/db.rs:1080-1118 | revocation moves no row of an address it does not mark |
| TotalsIndex.MatureTouches | src/db.rs:840-876 | the maturity pass moves no row of an address it does not mark |
| TotalsIndex.SnapshotTouches | src/db.rs:1210-1330 | the snapshot moves no row of an address it does not mark, though it compares with rows as they were before any write |
| TotalsIndex.OnlyMovedAreTouched | src/db.rs:828-889 | cleanup and maturity pass touch an address exactly if a row of it moves |
| TotalsIndex.ReconcileTouchesMoved | src/db.rs:953-1050 | range reconciliation touches an address only if a row of it moves |
| TotalsIndex.SnapshotTouchesMoved | src/db.rs:1209-1330 | so does the snapshot, if nothing was read twice |
| Reconciliation.ReconcileAdopts | src/db.rs:891-1067 | scanning a window over a ledger that held another chain leaves the scanned chain there |
| Reconciliation.AdoptsExactly | src/db.rs:891-1067 | a window scan adopts the new chain exactly if what lies below the window and was not found again is already the new chain's |
| Reconciliation.SplitRows | src/wallet_runtime.rs:1008-1053 | two adjacent reconciliations do to every row what one does, also to receipts that cross the split |
| Reconciliation.SplitReconciliation | src/wallet_runtime.rs:1008-1053 | and leave the same totals, finalized parts, arrays and tips for every address |
| Reconciliation.BatchingKeepsMeaning | src/wallet_runtime.rs:753-779 | however a range is cut into batches, the rows are those of one reconciliation |
| Reconciliation.BatchingKeepsFigures | src/wallet_runtime.rs:1036-1053 | and every address has the totals, finalized part, array and tip of one reconciliation |
| Reconciliation.RepeatedReconciliation | src/db.rs:891-1067 | repeating a reconciliation at the same tip touches no address and changes no entry, version or dirty state |
| Outbox.NoLostNotification | src/db.rs:1358-1453 | without a permanent failure since the acknowledgement, a quiet address has said its last word |
| Outbox.FailureLosesExactly | src/db.rs:1619-1641 | giving up loses a notification exactly if it was the newest outstanding one and what remains differs |
| Witnesses.RefusedDeliveryIsLost | src/db.rs:1619-1641 | a run with one payment and one refused delivery: the total never reaches the receiver |
| Outbox.EnqueueKeepsOutbox | src/db.rs:1358-1453 | queueing keeps the invariant, settles a dirty address and leaves the others alone |
| Outbox.EnqueueInOrder | src/db.rs:1358-1453 | the addresses are queued one after the other, in their order |
| Outbox.SuccessKeepsOutbox | src/db.rs:1537-1593 | a success, also a late one, keeps the invariant |
| Outbox.FailureKeepsOutbox | src/db.rs:1619-1641 | a permanent failure keeps the invariant |
| Outbox.RecomputeKeepsAddress | src/db.rs:2243-2263 | a changed pair under a new dirty version keeps the invariant |
| Database.StepKeeps | src/db.rs:771-1641 | every transaction of every actor keeps rows, index, outbox and attempts consistent |
| Database.RunsAreOk | src/db.rs:771-1641 | they are consistent in every reachable state of any interleaving |
| Database.RunsAdvance | src/db.rs:1358-1641 | over any run versions, deliveries, attempts and acknowledgements only move forward, and a version names one pair |
| Database.VersionCountsChanges | src/db.rs:2243-2246 | in every reachable state the version of an address is the number of times its reported pair changed |
| Database.IndexIsRight | src/db.rs:2197-2336 | in every reachable state total, finalized part, recent part and array are the sums over the rows that they stand for |
| Database.NothingIsLost | src/db.rs:1358-1593 | in every reachable state a quiet address without a failure since its acknowledgement has said its last word |
| Database.DeliveriesAreOrdered | src/db.rs:1566-1582 | per address ids and versions rise together, an event names one pair, and the acknowledged delivery is the last that succeeded |
| Database.DeliveriesEnd | src/webhook_delivery.rs:284-289 | attempts equal the log, never exceed the maximum, end the delivery when used up, and a final state is final |
| Database.RebuildKeepsIndex | src/db.rs:308-351 | a new setting leaves the index right under that setting |
| Database.RebuildIsSilent | src/db.rs:308-351 | a change of the setting keeps a quiet address's last word true exactly if the setting is the same, or is turned off for an address that never had an array |
| Witnesses.RebuildLosesArray | src/db.rs:308-351 | a run to a paid, fully notified address; turning the setting on then gives it a visible array no event announces |
| ScanPlan.WindowsMeet | src/wallet_runtime.rs:811-847 | overlap window and forward scan leave no height between them, and the window is as large as the finality depth |
| ScanPlan.BatchesTile | src/wallet_runtime.rs:890-904 | the batches tile the range without gap or overlap, all but the last exactly as large as asked for |
| ScanPlan.BatchingStops | src/wallet_runtime.rs:890-904 | the last batch is the last exactly if the final height is below the largest 32-bit number |
| ScanPlan.DecisionTiles | src/wallet_runtime.rs:753-809 | an iteration scans every height from its first window to the tip exactly once, and the parts of the plan it unwraps are there |
| ScanPlan.PlanExactly | src/wallet_runtime.rs:753-809 | the worker is caught up exactly at the tip, and announces catching up exactly from the threshold on |
| ScanPlan.ThroughExactly | src/wallet_runtime.rs:365-387 | a completed iteration has scanned through the tip unless the wallet is born above it |
| ScanPlan.SpawnFetches | src/wallet_runtime.rs:932-938 | the window of fetches is filled in order, exactly up to the concurrency unless no batch is left |
| ScanPlan.RunOrderedDownloads | src/wallet_runtime.rs:912-955 | what is sent is a prefix of the batches in height order that ends at the first failure, at the end, or when the receiver is gone |
| Downloads.DownloadsInOrder | src/wallet_runtime.rs:906-955 | with fetches completing in any order and with any result: at most the concurrency in flight; sent, in flight and remaining are all batches; results are sent in height order up to the first failure |
| Convergence.RevokeTrims | src/wallet_runtime.rs:273-283 | the cleanup leaves the old chain through the sampled tip |
| Convergence.OverlapAdopts | src/wallet_runtime.rs:285-289 | the overlap scan replaces the old chain by the new one |
| Convergence.BatchAdopts | src/wallet_runtime.rs:1036-1053 | each forward batch extends the adopted chain |
| Convergence.ReceiptsFollow | src/db.rs:2264-2290 | during an iteration each array is either at the new tip or as the last iteration left it |
| Convergence.MaturityExactly | src/db.rs:828-889 | the maturity pass brings an array to the tip exactly if it touches the address or the array was there |
| Convergence.MaturityCompletes | src/wallet_runtime.rs:389-395 | an array as the last iteration left it is brought to the tip, also when the address is skipped |
| SyncRuns.StepLedger | src/wallet_runtime.rs:255-443 | every step of worker, network and other actors keeps the ledger on the chain, also a step that interrupts the iteration |
| SyncDepths.StepDepths | src/wallet_runtime.rs:255-443 | every step keeps stored depths and arrays at the tip or on their way to it |
| SyncResults.SyncRunsAreOk | src/wallet_runtime.rs:255-443 | ledger, depths and database are right in every reachable state of the protocol |
| SyncResults.LedgerConverges | src/wallet_runtime.rs:255-443 | after every completed iteration the active mined receipts are exactly the best chain's up to the sampled tip |
| SyncResults.LedgerHeals | src/wallet_runtime.rs:255-443 | from any ledger, one that mixes two chains included, as long as the overlap window reaches down to where it agrees with the chain, the next completed iteration leaves exactly the chain's receipts |
| SyncResults.MaturityRepairs | src/db.rs:828-889 | the maturity pass leaves the right array exactly if it touches the address or no receipt reaches another slot than at the recorded tip of the array |
| SyncResults.DepthsConverge | src/wallet_runtime.rs:285-403 | after every completed iteration, whatever was interrupted before, every row stores its depth for the tip, and an address reads the array computed from scratch exactly if no receipt reaches another slot than at the recorded tip of the array |
| SyncResults.ArraysConverge | src/wallet_runtime.rs:285-403 | every array is right if no iteration was interrupted since the start, or since the address last read a right one |
| SyncResults.IterationHeals | src/wallet_runtime.rs:285-403 | an iteration ends with the right array exactly if it recomputed the address or the array was right already, and it recomputes every address with a row that is not current or is moved |
| SyncResults.TotalsConverge | src/wallet_runtime.rs:255-443 | after it every address reports what the chain pays it at the configured depth, plus fresh mempool receipts in mempool mode only |
| StaleArray.InterruptionLeavesStaleArray | src/wallet_runtime.rs:285-395 | a run of the protocol: an interruption between overlap scan and maturity pass followed by a rewind leaves an array one confirmation too deep after a completed iteration |
| SyncWorker.CleanUp | src/wallet_runtime.rs:255-283 | samples the tip and cleans up above it; only addresses it reports are owed a notification |
| SyncWorker.ScanOverlap | src/wallet_runtime.rs:285-305 | scans the overlap window again and leaves none of the addresses it or the cleanup changed dirty, or ends the iteration |
| SyncWorker.MarkCatchingUp | src/wallet_runtime.rs:327-365 | records that a long forward scan starts, without moving the scanned height |
| SyncWorker.ScanForward | src/wallet_runtime.rs:958-1112 | reconciles, queues and records batch after batch until nothing is left below the tip, or ends the iteration; no address is left dirty by it |
| SyncWorker.ScanChain | src/wallet_runtime.rs:255-387 | cleanup, overlap, announcement of a long scan and forward scan, with everyone told about every change |
| SyncWorker.MatureAll | src/wallet_runtime.rs:389-396 | the maturity pass as a step of the state machine, with every address it touched queued |
| SyncWorker.ReadMempool | src/wallet_runtime.rs:639-690 | missing receipts are revoked exactly if the scan reached the tip and the tip is confirmed after the reading |
| SyncWorker.ReconcileCurrentMempool | src/wallet_runtime.rs:617-722 | everything read is recorded, every provisional row counts exactly while it is fresh, and once the tip is confirmed every active one is in the mempool; the changes are queued |
| SyncWorker.SyncWithLightwalletd | src/wallet_runtime.rs:225-443 | one iteration on the database object follows the state machine and completes if every receipt served belongs to an issued address; then the active mined receipts are the node's chain, provisional rows follow the mempool, every address reports its worth, and every change has been announced |
| SyncWorker.PathConverges | src/wallet_runtime.rs:225-443 | any path that completes an iteration leaves the ledger with the chain |
| Handoff.SnapshotRevokesExactly | src/db.rs:1215-1235 | a snapshot revokes a receipt exactly if it may, and the receipt is provisional, absent and not read again |
| Handoff.ApplyHandsOver | src/wallet_runtime.rs:663-711 | because the tip is checked after the snapshot is in hand, revocation spares every transaction that is in the mempool or a block |
| Handoff.NoFalseZero | src/wallet_runtime.rs:398-405 | a transaction that appears at any time and stays in the mempool until it is mined for good keeps its receipt active from the moment it is recorded, in every run |
| Handoff.TotalHoldsReceipt | src/db.rs:1151-1339 | in mempool mode the reported total holds such a receipt's value all along, as long as every snapshot it waits through is applied within 24 hours |
| EndToEnd.ReceiverConverges | src/db.rs:1427-1593 | once nothing about an address is dirty or outstanding, the receiver stores exactly the pair the service reports |
| EndToEnd.ChainReachesReceiver | src/wallet_runtime.rs:255-443 | what the receiver stores at rest, at any time after a completed iteration while its ledger stands, is what the chain pays |
| EndToEnd.WorldRunsAreOk | plugins/vendure/src/lib/decide.ts:45-49 | with posts lost, duplicated and reordered the receiver holds the newest message it took and every success was taken |
| Ingest.AttributeScannedReceipts | src/receipt_ingest.rs:7-60 | keeps exactly the receipts of issued addresses in order, and fails exactly if one of them overflows |
| Ingest.AttributionIsScan | src/receipt_ingest.rs:7-60 | what a scan of blocks hands to reconciliation is the issued addresses' part of those blocks |
| Ingest.AttributionIsProvisional | src/receipt_ingest.rs:26-40 | what a mempool reading hands to the snapshot carries no height and no depth |
| Ingest.AttributedExactly | src/receipt_ingest.rs:7-60 | exactly which receipts are attributed, with their owner, value, depth and the time of the reading |
| Ingest.AttributedInOrder | src/receipt_ingest.rs:7-60 | receipts are attributed one by one, in the order they were scanned |
| Vendure.PaymentRecord.Apply | plugins/vendure/src/webhook.service.ts:89-234 | one event on the payment row: the whole new state and the reply; a retry leaves everything as it was |
| Vendure.PaymentRecord.Settle | plugins/vendure/src/webhook.service.ts:216-229 | the settlement is refused, or did not stick, or is recorded, with a review if the order was cancelled meanwhile |
| Vendure.RecordsOnlyNewer | plugins/vendure/src/lib/decide.ts:45-49 | an event is recorded exactly if the reply says so, and only if it is newer |
| Vendure.SettlesExactly | plugins/vendure/src/webhook.service.ts:204-229 | the webhook settles exactly an open, unflagged payment that both the event and the service cover |
| Vendure.ReleasesExactly | plugins/vendure/src/webhook.service.ts:175-192 | a hold is lifted exactly if nothing is flagged or closed and both totals cover the amount |
| Vendure.ShortIsHeld | plugins/vendure/src/lib/decide.ts:58-77 | every recorded event leaves a settled payment that is short of funds on hold |
| Vendure.HoldExactly | plugins/vendure/src/lib/decide.ts:58-77 | a hold begins exactly with a newer event on a settled payment short of funds, and ends exactly as a release |
| Vendure.ReviewExactly | plugins/vendure/src/webhook.service.ts:107-112 | a payment is flagged exactly by a newer event after it was closed, or by a settlement of a cancelled order |
| Vendure.AnswersExactly | plugins/vendure/src/webhook.service.ts:147-234 | exactly which events are stale, superseded or come back |
| Vendure.RecordedExactly | plugins/vendure/src/webhook.service.ts:124-129 | what a recorded event stores, and that nothing else moves but by a settlement |
| Vendure.RunAdvances | plugins/vendure/src/webhook.service.ts:89-234 | over any run versions never fall and the review flag is never lost |
| Vendure.RecordedVersionsIncrease | plugins/vendure/src/webhook.service.ts:231-233 | recorded versions strictly increase along a run |
| Vendure.SettledOnce | plugins/vendure/src/webhook.service.ts:204-229 | the webhook settles a payment at most once in any run |
| Vendure.ShortStaysHeld | plugins/vendure/src/webhook.service.ts:141-148 | after a recorded event, until an administrator acts, a settled payment short of funds is on hold |
| PrestaShop.Module.AfterStatusChange | plugins/prestashop/zcashpayment/zcashpayment.php:597-616 | leaving the hold clears the module's mark, closing sets the review flag |
| PrestaShop.Module.SetState | plugins/prestashop/zcashpayment/zcashpayment.php:290-305 | a state change with its hook, and whether the order got there |
| PrestaShop.Module.AutoHold | plugins/prestashop/zcashpayment/classes/ZcashPaymentWebhook.php:172-206 | the mark is kept only on an order that really is on hold |
| PrestaShop.Module.Apply | plugins/prestashop/zcashpayment/classes/ZcashPaymentWebhook.php:52-166 | one event on order and record: the whole new state and the reply, with the re-read after the service was asked |
| PrestaShop.CompletesExactly | plugins/prestashop/zcashpayment/classes/ZcashPaymentWebhook.php:112-145 | an awaiting order is completed exactly if it is unflagged, unchanged and covered by event and service |
| PrestaShop.RecoversExactly | plugins/prestashop/zcashpayment/classes/ZcashPaymentWebhook.php:133-137 | the module's hold ends exactly if the order is covered, and then in the remembered state |
| PrestaShop.ClosedMovesExactly | plugins/prestashop/zcashpayment/classes/ZcashPaymentWebhook.php:98-111 | the webhook moves a closed order exactly if its state also counts as paid and funds are short, and then to the hold state |
| PrestaShop.FlaggedIsLeftAlone | plugins/prestashop/zcashpayment/classes/ZcashPaymentWebhook.php:79-98 | a flagged order stays flagged and is at most put on hold |
| PrestaShop.ShortIsHeld | plugins/prestashop/zcashpayment/classes/ZcashPaymentWebhook.php:92-104 | every recorded event is newer than all before and leaves no paid order short of funds |
| PrestaShop.AsksExactly | plugins/prestashop/zcashpayment/classes/ZcashPaymentWebhook.php:74-121 | exactly about which orders the service is asked |
| PrestaShop.MovesExactly | plugins/prestashop/zcashpayment/classes/ZcashPaymentWebhook.php:92-145 | to which state an event moves the order, in every case |
| PrestaShop.ReviewExactly | plugins/prestashop/zcashpayment/classes/ZcashPaymentWebhook.php:74-111 | exactly when an event flags the order for review; a partial payment never does |
| PrestaShop.AnswersExactly | plugins/prestashop/zcashpayment/classes/ZcashPaymentWebhook.php:52-166 | the reply to every event |
| PrestaShop.RecordedExactly | plugins/prestashop/zcashpayment/classes/ZcashPaymentWebhook.php:132-166 | what is recorded, and the total stored before a completion |
| PrestaShop.MarkExactly | plugins/prestashop/zcashpayment/classes/ZcashPaymentWebhook.php:172-206 | when the mark of the module's own hold is set, cleared and kept |
| PrestaShop.HookExactly | plugins/prestashop/zcashpayment/zcashpayment.php:597-616 | what a state change does to mark and flag |
| PrestaShop.MarksAreTrue | plugins/prestashop/zcashpayment/classes/ZcashPaymentWebhook.php:172-206 | in every reachable state the mark stands only on a held order and remembers a paid state |
| PrestaShop.RecoveryRestores | plugins/prestashop/zcashpayment/classes/ZcashPaymentWebhook.php:133-145 | over a run, recovery puts the order back into exactly the state it had when the hold began |
| PrestaShop.CompletedOnce | plugins/prestashop/zcashpayment/classes/ZcashPaymentWebhook.php:112-145 | unless a merchant reopens the order, the webhook completes it at most once |
| PrestaShop.ShortStaysHeld | plugins/prestashop/zcashpayment/classes/ZcashPaymentWebhook.php:92-104 | over a run, after a recorded event no paid order is short of its recorded funds until a merchant changes its state |
| PrestaShop.RecordedVersionsIncrease | plugins/prestashop/zcashpayment/classes/ZcashPaymentWebhook.php:62-65 | recorded versions strictly increase along a run |
| ShopAtRest.PluginSeesConfirmed | plugins/vendure/src/lib/zcash.ts:128-144 | the amount a plugin settles on is the sum of the receipts with the required confirmations, exactly up to 100 of them and 10^18 zatoshis |
| ShopAtRest.AcknowledgedButNotLearned | plugins/vendure/src/webhook.service.ts:204-215 | an acknowledged event leaves the shop ignorant exactly if the service disowned it while it asked |
| ShopAtRest.RetryComesBack | plugins/vendure/src/webhook.service.ts:78-87 | an event the shop could not apply is attempted again from the scheduled time on while an attempt is left |
| ShopAtRest.FailureComesBack | plugins/prestashop/zcashpayment/classes/ZcashPaymentWebhook.php:92-145 | the same for the replies of the PrestaShop module |
| Witnesses.DisownedEventCanBeTheLast | plugins/vendure/src/webhook.service.ts:204-215 | a run of the service in which such an event is the last one, with a covered payment left unsettled |
| Backoff.DelayAt | src/webhook_delivery.rs:271-282 | exactly when one delay is the doubled base up to the cap |
| Backoff.DelayDoubles | src/webhook_delivery.rs:271-282 | every delay is, exactly if the base is zero or the cap at most 2^63 times the base, in particular for every cap up to 2^63 |
| Backoff.DelayGrows | src/webhook_delivery.rs:271-282 | for every base and cap the delay never shrinks and never exceeds the cap |
| Backoff.DelayJumps | src/webhook_delivery.rs:271-282 | with a larger cap a base of one second reaches it too early |
| Backoff.RetryOpen | src/webhook_delivery.rs:64-85 | the sleeps between attempts to open the database double from 250 ms up to 30 s |
| Amounts.FormatRoundTrip | src/db.rs:2189-2195 | the service reads its own amount text back exactly if the amount is not negative |
| Amounts.ReformatKeepsValue | src/service.rs:452-475 | formatting any accepted text again keeps its value |
| Amounts.ServiceReads | src/service.rs:452-475 | the service reads every amount that fits an i64, in any white space of its own, and nothing from a text with a byte order mark |
| Amounts.ScriptReads | plugins/vendure/src/lib/zcash.ts:9-20 | the plugins read every amount below 10^18 zatoshis, in any white space of theirs, and nothing from a text with a next-line character |
| Amounts.ReceiversAgree | plugins/vendure/src/lib/zcash.ts:9-20 | up to ten significant digits before the point, plugins and service read the same from a text exactly unless it is an amount with just one of the characters U+0085 and U+FEFF around it |
| Amounts.ReceiversDiffer | plugins/vendure/src/lib/zcash.ts:9-20 | two such texts: one only the service reads, one only the plugins read |
| Amounts.ReceiversReadFormat | plugins/vendure/src/lib/zcash.ts:9-27 | plugins read a formatted amount exactly if it is below 10^18 zatoshis |
| Amounts.RemainderAddsUp | src/service.rs:502-510 | after a partial payment, what is asked for and what was received add up to what was requested |
| Amounts.RemainderCompletes | src/service.rs:477-485 | paying the remaining amount, and nothing less, completes the payment |
| Amounts.StatusExactly | src/service.rs:477-485 | which status a payment has, unreadable requests included, and that the remainder is the request otherwise |
| Amounts.ConfirmedExactly | plugins/vendure/src/lib/zcash.ts:128-144 | which arrays a plugin rejects, and what it takes from the others |
| Amounts.SettledZat | plugins/vendure/src/lib/zcash.ts:128-144 | the loop takes the last element of a well-formed array, or the total when there is none |
| Amounts.ConfirmedIsLastDepth | plugins/vendure/src/lib/zcash.ts:128-144 | for every array the service sends that is its last depth, exactly up to 101 elements and 10^18 zatoshis |
| Price.ExactCeiling | plugins/vendure/src/lib/zcash.ts:44-58 | the price is the least zatoshi count not below amount times rate |
| Price.ZecIsTaken | plugins/vendure/src/lib/zcash.ts:44-48 | an amount in ZEC is taken as it is, if positive and below 10^18 zatoshis |
| Price.SameNumberSamePrice | plugins/vendure/src/lib/zcash.ts:29-58 | the price depends on the number alone, not on its text |
| Price.MinorUnitsExact | plugins/vendure/src/lib/zcash.ts:64-76 | the text of an amount in minor units denotes exactly that amount |
| Price.VendurePrice | plugins/vendure/src/lib/zcash.ts:44-76 | an order in minor units is priced at the exact ceiling |
| Price.ExpandedExact | plugins/medusa/src/lib/zcash.ts:61-75 | expanding an exponent and stripping zeros denotes exactly the number given |
| Price.ScientificRead | plugins/medusa/src/lib/zcash.ts:61-65 | every number text with an exponent is read as the number it shows |
| Price.ScientificOnly | plugins/medusa/src/lib/zcash.ts:61-65 | and no other text is |
| Price.MedusaPrice | plugins/medusa/src/lib/zcash.ts:44-96 | exactly which amounts are accepted, and that each is priced at the exact ceiling of the number it stands for |
| PaymentUri.Base64UrlUnpadded | src/service.rs:537-549 | the chunk loop computes the unpadded base64url text |
| PaymentUri.Base64RoundTrip | src/service.rs:537-549 | the decoder of section 5 of RFC 4648 inverts it on every byte string |
| PaymentUri.EncodeUriComponent | src/service.rs:551-562 | the loop computes the percent-encoded text |
| PaymentUri.EncodedByteExactly | src/service.rs:551-562 | exactly the unreserved characters stay, and the others become upper-case escapes |
| PaymentUri.PercentRoundTrip | src/service.rs:551-562 | the decoding of section 2.1 of RFC 3986 inverts it on every byte string |
| PaymentUri.BlankIsWhite | src/service.rs:519-528 | a field is left out exactly if all its characters are Unicode white space |
| PaymentUri.BuildQrText | src/service.rs:512-535 | blank fields are left out and the others appear in order |
| PaymentUri.UriText | src/service.rs:512-535 | the text of a request with all fields, and of one with none |
| PaymentUri.UriRoundTrip | src/service.rs:512-562 | a reader recovers address, amount, memo and message exactly if the address holds no question mark |

## Left out

- Networking, HTTP routing, signatures, JSON, note decryption, address derivation, schema migrations, environment parsing, the pay page and logging: I/O and external libraries; scanned receipts, HTTP outcomes and live answers are inputs.
- `state_version` of a receipt row, `observed_at`, `dirty_reason`, `dirty_since_height`, `last_changed_at`, `finalized_through_height`, reconciliation counts, reorg notes and scan epochs: bookkeeping no decision of the modelled code depends on.
- Request and response bodies, status codes and durations of logged attempts: the log keeps which delivery was attempted.
- Timestamps are integers; the service compares them as text and can fail to format a retry time beyond the calendar.
- SQLite's own integer overflow of sums: sums are unbounded, as the money supply keeps them far below the limit.
- The text of the stored arrays and of event ids: an array is a sequence, an event id the pair of address and version.
- A transaction that fails because a referenced address does not exist changes nothing; other database errors are interruptions of the iteration.
- A worker without a node address or scanning key only records a blocked status and scans nothing.
- SyncWorker.SyncWithLightwalletd: takes its steps without the other actors in between; the interleavings are those of the state machine it follows.
- The batch commit and the status record behind it are one step; an interruption between the two is not modelled.
- SyncResults.ArraysConverge: asks that no iteration was interrupted since the address last read a right array, because it is false otherwise.
- EndToEnd.ReceiverConverges: asks that no delivery was given up since the acknowledged one, because it is false otherwise.
- AppDatabase.AppDb.RecordSyncStatus: records the two heights; the state text, scan epoch and catch-up times of the source are not modelled.
- AppDatabase.AppDb.DeliverReadyOnce: the claim and the recording of its outcome without another actor in between; the interleavings are those of the runs in Database.
- PrestaShop.MarksAreTrue: a database error in the middle of a webhook is not modelled; the source then stops between two writes.
- The per-order lock of the PrestaShop module: state changes by merchants happen between events or while the service is asked.
- The texts, notes, events and history entries the plugins write.
- WooCommerce, Easy Digital Downloads and the Medusa route: close variants of the two modelled appliers.
- Floating point in the PrestaShop price conversion: the exact integer conversion of the other plugins is modelled.
- `readState` of the Vendure plugin, which repairs malformed metadata: the metadata is a record.
- ScanPlan.RunOrderedDownloads: each fetch yields its result when it is awaited; fetches that complete in any order are those of the runs in Downloads.
