# StrataSync client replica: model and proofs

A client of StrataSync keeps a local copy of the rows it may read, follows one server-ordered log
of changes, shows its own unconfirmed writes on top, and sends those writes to the server. This
project models that client in Dafny and proves what it keeps: through crashes, redelivery,
reconnects, membership changes, re-bootstraps, cancelled sends and answers that arrive late.
`dafny verify dfyconfig.toml` checks everything.

## How it is built

An event of a state machine is the code between two awaits. Storage serves its calls in the order
they are made, so a storage call takes effect at the event that makes it; what the code does after
its await is another event, with anything else in between. (A call that fails without effect is
the failure of the event before it.)

- **Rows and the log.** `Records`, `ServerLog` and `DeltaApplier` say what an action does to a
  table; replaying a slice absorbs any part of it that was already applied. `DeltaStaging` resolves
  a packet in memory and flushes it as one batch, which is proved to be direct application.
- **Replica protocol.** `Replica` is a machine over the log, the disk, the cursor, readers tagged
  with the snapshot they read against, owed re-bootstraps and the job that holds the state lock.
  Any event may be followed by a halt and a restart. `SyncClients` is the same client as an object
  with mutable fields: one method for each event, and whole calls composed of them. `Handlers` is
  what other "bootstrap required" answers do at an await of the code that holds the lock. `AsyncQueues`
  is the lock, `Gates` and `CatchUp` the paged catch-up, `DeliveredPackets` its link to the protocol.
- **Optimistic view.** `PendingReplay` replays the outbox, `OptimisticView` is the identity-map
  batch of a packet with echo suppression and conflict rollback, `Overlay` proves that every row
  stays its stored row overlaid with the outbox. `Privacy` is the replacement of local state under
  a pending membership change.
- **Send protocol.** `Queues`, `Outbox` (the machine), `OutboxInvariant`, `OutboxTheorems`,
  `OutboxDiscard` and `OutboxAck` cover queueing, sending, failing, replaying from disk, discarding
  and acknowledging under every interleaving; `OutboxManagers` is the manager as an object.
- **Self-contained parts.** `ChangeTracking`, `History`, `LruMap`, `SyncIds`, `SyncActionStore`,
  `YDocument` and `DeltaStream`.

What an operation means is stated apart from the function that computes it: field by field for a sync
action (`DeltaApplier.EntryDoes`), a pending transaction (`PendingReplay.Replayed`), a rollback
(`OptimisticView.RolledBack`) and a mutation (`History.Performed`); place by place for every filtered
list; and field of the state by field of the state for the events of the send protocol and of the
stream (`OutboxTheorems.RowChanges`, `Sends`, `DeltaStream.LinkChanges`).

## What the proofs found

Each of these is a lemma with the exact condition or a constructed run.

- A discarded transaction can still be sent, if and only if a replay already holds its row or it
  waits in the retry backlog and a send takes the backlog while the discard awaits storage
  (`OutboxDiscard.DiscardIsFinal`).
- An acknowledged transaction is sent again if and only if a storage call fails while the rest of
  its own answer is handled (`OutboxAck.AcknowledgedIsPutBack`, `PutBackIsSentAgain`).
- A "bootstrap required" answer is handled outside the state lock. The latch it writes is dropped
  without a reconcile exactly by a commit that cleared storage while the flag was not set and
  completes its last write (`Replica.LatchDroppedExactly`, `FlaggedLatchDroppedExactly`). If its
  flag is set only after that, the flag stands in memory with no latch on disk, and a crash
  restarts without quarantine (`Replica.PendingIsDurable`, `AddedAccessCommitDropsLatch`,
  `QuarantineWithoutLatch`).
- A re-bootstrap that runs without its latch can be interrupted where rollback data of unreadable
  rows is still stored. Every crash finds storage latched or clean exactly if no pending transaction
  needs the latch; or the latch was on disk when storage was cleared, and the commit is one under
  quarantine or leaves clean storage (`Privacy.LocalState.Rebootstrap`; the failing image is
  `Privacy.UnlatchedReconcileExposes`).
- A handler that sets its flag after the snapshot has filled the identity maps empties them, and
  the end of the commit or of the reconcile unsets that flag; then the maps show nothing but what
  pending inserts create, and nothing in the call fills them again (`Privacy.LocalState.Rebootstrap`,
  its clauses for `emptied`).
- A subscription opened on a socket that is still live gets what the old stream left on it. It
  stays without a gap exactly if all of that starts at or below its cursor, which fails on the
  ordinary path of a re-bootstrap (`DeltaStream.StaysGapFreeExactly`, `ResubscribeOnLiveSocket`).
  The replica protocol takes the condition as given.
- Coalesced catch-up differs from page-by-page application exactly when a later page of a chunk
  has a group action and an earlier one moves the cursor (`CatchUp.CoalescingIsInvisible`).
- Confirming by create ignores the model name (`OptimisticView.CreateOfAnotherModelConfirms`), and
  a field one echo derives sticks when a later suppressed echo wrote it. The view of a row touched
  only by own echoes survives exactly if each field nothing left in the outbox overwrites ends as
  the leaving transactions and the derived fields left it (`Overlay.RowOverlay`); with the echoes in
  outbox order, if the last derived value is the last written (`Overlay.EchoesStand`,
  `EarlierDerivationSticks`). An unarchive counts as having written nothing, so an archive echoed
  after it in one packet is such a case.
- An archive without a timestamp is stamped from the clock, so redelivering it moves the row
  (`DeltaApplier.RedeliveredArchive`); model names share row keys exactly if one continues the
  other with a colon (`DeltaStaging.ModelNamesCollide`).
- A negative or fractional limit, an id of 10000 digits and an identity-map limit between 0 and 1
  break the index path, the key order and the survival of the entry just written
  (`SyncActionStore.IndexAgreesWithScan`, `ScanOrderIsNumeric`, `SyncIds.ShorterKeyFirstExactly`,
  `KeyOrderBreaks`, `LruMap.JustWrittenSurvives`).
- The cursor of a resubscribe is read before the wait for a token. It is behind the largest id
  received exactly if a larger one arrived during the wait (`DeltaStream.SubscribeCursorLags`,
  `CursorBehind`); packets then overlap and leave no gap.

## What the main results ask for

- `Replica`: packets are slices of the log with ascending ids, a slice starts at or below where its
  reader stands (what a stream without a gap delivers), and a snapshot is the fold of the log up to
  its id; the run-bound catch-up in bootstrap mode `auto` or `full`.
- `Overlay`: a row has a fixed set of fields, a put carries all of them, an update changes neither
  the primary key nor the field `id`; pending transactions are well formed (an insert finds no row,
  everything else finds one). If a packet touches a row only through own echoes, or not at all, no
  conflict is rolled back on it, no delete on it leaves the outbox, and a row storage did not have is
  inserted by what leaves (with nothing echoed, nothing leaves). Every other row needs nothing of this.
- `Privacy`: nothing of the entry state; the snapshot holds rows of registered models.
- `OutboxTheorems.SendOrder` and `SendCarriesOwed`: no replay from disk in the run.
- `History`: a mutation finds its row (an insert does not), and its snapshot is taken from the rows
  it runs on.
- `DeltaStream.YieldedCover`: the socket the subscription starts on carries nothing that starts
  above it.
- `YDocument`: a sync step 2 covers the server's updates up to its number together with what the
  document held when it asked; a numbered update carries the update of that number.

## Model

| member | source | states |
|---|---|---|
| `ServerLog.SliceAbsorbs` | packages/core/src/sync/delta-applier.ts:99-157 | Replaying any part of a slice and then the whole slice leaves the rows the slice alone leaves: redelivery and overlap are harmless |
| `ServerLog.FoldByRow` | packages/core/src/sync/delta-applier.ts:99-157 | A fold over a whole table is, row by row, the effect of the slice on that row: overwrite it or merge into it |
| `ServerLog.TruthExtends` | packages/core/src/sync/delta-applier.ts:204-246 | The snapshot at b is the snapshot at a with the slice (a, b] replayed |
| `DeltaApplier.EntryDoes` | packages/core/src/sync/delta-applier.ts:99-157 | Action by action and field by field: a create replaces the row, its key filled in; an update, archive or unarchive gives its fields to a present row only, the archive its timestamp and the unarchive null; a delete removes it; every other row, unregistered model and membership or coverage action changes nothing. The rows it leaves are the only ones of which that is true |
| `DeltaApplier.FoldDoes` | packages/core/src/sync/delta-applier.ts:204-246 | So folding a packet does its actions one after the other |
| `DeltaApplier.RedeliveryChangesNothing` | packages/core/src/sync/delta-applier.ts:99-157 | A packet whose archives carry their timestamp can be applied again at any later time without changing a row |
| `DeltaApplier.RedeliveredArchive` | packages/core/src/transaction/archive.ts:43-48 | Applying an archive twice equals applying it once if and only if it carries its timestamp, the row is absent, or the clock did not move |
| `DeltaStaging.ModelKeyInjective` | packages/client/src/utils.ts:4-5 | Row keys are injective for model names without a colon |
| `DeltaStaging.ModelNamesCollide` | packages/client/src/utils.ts:4-5 | Two model names can share a row key if and only if one of them is the other, a colon and whatever follows |
| `DeltaStaging.WriteBatchHits` | packages/storage-idb/src/adapter.ts:712-738 | In a batch with one operation per row, each row ends as its own operation leaves it |
| `DeltaStaging.WriteBatchMisses` | packages/storage-idb/src/adapter.ts:712-738 | A row no operation of the batch names is untouched |
| `DeltaStaging.Staging.Get` | packages/client/src/sync/delta-pipeline.ts:1021-1040 | A read returns the row direct application would have stored so far, and caching it changes nothing |
| `DeltaStaging.Staging.Stage` | packages/client/src/sync/delta-pipeline.ts:1042-1059 | Staging a row stands for storing it, and defers one merge operation carrying it |
| `DeltaStaging.Staging.Put` | packages/client/src/sync/delta-pipeline.ts:1093-1097 | A put replaces the row, with its primary key filled in |
| `DeltaStaging.Staging.Patch` | packages/client/src/sync/delta-pipeline.ts:1076-1092 | A patch merges into a present row and does nothing to an absent one |
| `DeltaStaging.Staging.Delete` | packages/client/src/sync/delta-pipeline.ts:1062-1074 | A delete stands for removing the row, whatever was staged for it |
| `DeltaStaging.Staging.MergeAndPut` | packages/core/src/sync/delta-applier.ts:77-94 | An archive or unarchive merges into a present row and is skipped for an absent one |
| `DeltaStaging.Staging.ApplySingleAction` | packages/core/src/sync/delta-applier.ts:99-157 | One staged action is one step of direct application, deferred operation included, and does to the rows what the action says, field by field |
| `DeltaStaging.OneDeferred` | packages/client/src/sync/delta-pipeline.ts:1042-1075 | An action defers one operation, on its own row, carrying the row it leaves; none exactly if it does nothing |
| `DeltaStaging.Staging.FlushYields` | packages/client/src/sync/delta-pipeline.ts:1126-1128 | Writing the collapsed batch, one operation per key, turns storage into the table direct application would have produced |
| `DeltaStaging.CollectDeferredDeltaOps` | packages/client/src/sync/delta-pipeline.ts:1106-1129 | For every packet: the flushed table is what its actions do one after the other, deletes and archives included, and the deferred operations carry the rows direct application would have stored at their point |
| `Replica.StepKeeps` | packages/client/src/sync/delta-pipeline.ts:736-950 | Every event keeps the replica invariant: delivery, application, flush, cursor write, each await of a latch write and of the flag after it, every stage of a snapshot commit and of the reconcile, failure, crash, restart, and the "bootstrap required" handlers that run outside the state lock |
| `Replica.RunKeeps` | packages/client/src/sync/delta-pipeline.ts:736-950 | So does every run, on a log that only grows |
| `Replica.Convergence` | packages/client/src/sync/delta-pipeline.ts:790-840 | At every point of every run, replaying the log from the persisted cursor over the stored rows gives the server rows at the largest id ever flushed; a replica that owes nothing and has its cursor there stores exactly those rows |
| `Replica.NoMembershipChangeLost` | packages/client/src/sync/delta-pipeline.ts:765-788 | Whenever the persisted cursor has passed a group action, the stored rows grew from a snapshot taken at or past it; the same for the cursor in memory while nothing is owed |
| `Replica.OwedHoldsEverything` | packages/client/src/sync/delta-pipeline.ts:779-788 | Corollary: while a re-bootstrap is owed no packet moves the cursor or touches a stored row |
| `Replica.PendingIsDurable` | packages/client/src/sync/delta-pipeline.ts:472-490 | The flag in memory has no latch on disk if and only if the reconcile is between its last two steps, or the flag was set after a commit had already cleared its latch |
| `Replica.CrashInCommitRebootstraps` | packages/client/src/sync/bootstrap-runner.ts:42-72 | From the first row dropped to the last metadata write a crash restarts into a bootstrap; with the flag set, the restart is in quarantine if and only if the flag had not lost its latch |
| `Replica.LatchIsCleared` | packages/client/src/sync-orchestrator.ts:333-349 | A persisted latch is cleared by exactly two events: the last step of a reconcile, and the last write of a commit without quarantine |
| `Replica.LatchDroppedExactly` | packages/client/src/sync/bootstrap-runner.ts:170-191 | Over every run without a reconcile, a latch is dropped if and only if a commit that cleared storage while the flag was not set completes its last write |
| `Replica.FlaggedLatchDroppedExactly` | packages/client/src/sync/bootstrap-runner.ts:145-191 | Once the flag is set too, only a commit already past clearing storage without quarantine can drop the latch, and it does exactly if it completes; every later commit is quarantined, restarts included |
| `Replica.BareAt` | packages/client/src/sync/bootstrap-runner.ts:145-164 | At any point of a run the commit under way is one without quarantine if and only if it cleared storage while the flag was not set and nothing has ended it |
| `Replica.AddedAccessCommitDropsLatch` | packages/client/src/sync/bootstrap-runner.ts:162-191 | From every state where only an added-access re-bootstrap is owed there is a run in which a "bootstrap required" answer loses its latch to the commit before its flag is set, and a crash then restarts into a plain hydration |
| `Replica.QuarantineWithoutLatch` | packages/client/src/sync/bootstrap-runner.ts:145-164 | If the reconcile of that commit fails, the next commit quarantines without a latch: a crash after it has cleared storage bootstraps, but not in quarantine |
| `Replica.FlushSettles` | packages/client/src/sync/delta-pipeline.ts:819-835 | Rows flushed before the cursor moves leave every earlier replay point valid |
| `Replica.AcceptKeeps` | packages/client/src/sync/delta-pipeline.ts:765-805 | The dispatch of a packet (stale snapshot, group action, held, already applied, to be written) keeps the invariant in each case |
| `Replica.ClearStorageKeeps` | packages/client/src/sync/bootstrap-runner.ts:222-235 | Clearing storage for a snapshot keeps the invariant |
| `Replica.WriteSnapshotKeeps` | packages/client/src/sync/bootstrap-runner.ts:236-241 | Writing the snapshot rows keeps it |
| `Replica.PersistSnapshotKeeps` | packages/client/src/sync/bootstrap-runner.ts:175-192 | The last metadata write of a commit keeps it |
| `Replica.FinishReconcileKeeps` | packages/client/src/sync/delta-pipeline.ts:397-411 | The last step of the reconcile, the flag after the latch, keeps it |
| `SyncClients.SyncCursor.Advance` | packages/client/src/sync/cursor.ts:88-99 | The cursor moves to the larger id, and says whether it moved |
| `SyncClients.SyncClient.Start` | packages/client/src/sync-orchestrator.ts:303-331 | A start loads cursor and latch from storage: the protocol event Start |
| `SyncClients.SyncClient.BootstrapIfNeeded` | packages/client/src/sync/bootstrap-runner.ts:34-72 | Hydration happens exactly when storage is complete, the cursor is not zero and no latch is set |
| `SyncClients.SyncClient.ApplyDeltaPacket` | packages/client/src/sync/delta-pipeline.ts:765-805 | The code up to the first write is the protocol event Accept in every branch |
| `SyncClients.SyncClient.FlushRows` | packages/client/src/sync/delta-pipeline.ts:1106-1129 | The flush stores the fold of the actions above the cursor and leaves the cursor alone |
| `SyncClients.SyncClient.ApplyPacket` | packages/client/src/sync/delta-pipeline.ts:751-806 | A packet from the first check to the persisted cursor: dropped if read against another snapshot; a group action makes a re-bootstrap owed and moves nothing; held while one is owed; otherwise the rows become the fold of the part above the cursor and both cursors stand at its end. In each case the reader has given the packet back |
| `Handlers.AnswersExactly` | packages/client/src/sync/delta-pipeline.ts:472-490 | Whatever handlers run at an await: the flag is set exactly if one that has written the latch wakes up, and the latch is written exactly if one arrives while the flag is not set |
| `SyncClients.SyncClient.Meanwhile` | packages/client/src/sync/delta-pipeline.ts:342-366 | "Bootstrap required" handlers, in any order with the code that holds the state lock, do exactly that to the latch, the flag and their own number, and nothing else |
| `SyncClients.SyncClient.ClearForSnapshot` | packages/client/src/sync/bootstrap-runner.ts:125-164 | A commit up to the cleared storage, other handlers running at every await: failing at any of them it leaves a re-bootstrap owed, or has changed nothing but the latch and the flag |
| `SyncClients.SyncClient.Commit` | packages/client/src/sync/bootstrap-runner.ts:125-198 | From there it ends with rows, metadata and both cursors at the snapshot and the latch on disk exactly if the flag is set, or fails with a re-bootstrap still owed |
| `SyncClients.SyncClient.Resume` | packages/client/src/sync/delta-pipeline.ts:391-412 | After the commit the added-access debt is settled and the outbox reconciled; undisturbed, neither flag nor latch is left |
| `SyncClients.SyncClient.BootstrapAndResume` | packages/client/src/sync/delta-pipeline.ts:368-412 | The whole call under the state lock, with other handlers at every await: landed, the client holds the snapshot and owes nothing for added access, and undisturbed neither flag nor latch is left; failed, a re-bootstrap is owed, or the snapshot is in place, or nothing but latch and flag has changed |
| `DeliveredPackets.CatchUpApplies` | packages/client/src/sync/delta-pipeline.ts:771-830 | What the catch-up takes the application of a packet for is what the replica protocol does with the slice of the log it stands for |
| `Gates.Gate.TakeHold` | packages/client/src/internal/gate.ts:15-17 | A hold closes the gate until it is released |
| `Gates.Gate.Release` | packages/client/src/internal/gate.ts:18-31 | A hold counts once however often it is released; the last one resolves every waiter in order |
| `Gates.Gate.WhenOpen` | packages/client/src/internal/gate.ts:40-48 | Resolves at once when open, waits otherwise |
| `AsyncQueues.AsyncQueue.Run` | packages/client/src/internal/async-queue.ts:22-28 | A task is queued behind every task submitted before it |
| `AsyncQueues.AsyncQueue.StartNext` | packages/client/src/internal/async-queue.ts:22-28 | The task that starts is the first one submitted that has not settled, and only when none runs |
| `AsyncQueues.AsyncQueue.Settle` | packages/client/src/internal/async-queue.ts:22-28 | A task settles its own promise and no other, failed or not |
| `AsyncQueues.SettlesInOrder` | packages/client/src/internal/async-queue.ts:3-10 | Corollary: tasks settle in submission order, one at a time |
| `CatchUp.Pager.FetchAndApplyDeltaPages` | packages/client/src/sync/delta-pipeline.ts:596-679 | Paging goes on while there is more and the cursor moves: a success ends at an answer without a page, or for another run, or at a page that is the last or does not advance. The packets handed on are the fetched pages in order, merged chunk by chunk, each chunk up to the cap; a page is left out only when the run is over or a fetch failed; the gate is as it was on every exit |
| `CatchUp.Pager.ReadPages` | packages/client/src/sync/delta-pipeline.ts:634-672 | The paging loop: the gate is held, once, exactly if the first page has a successor, and every page was asked for where the one before ended |
| `CatchUp.StopsAtHead` | packages/client/src/sync/delta-pipeline.ts:655-665 | If a page has a successor exactly when it ends below the head, a paging that stops at a page ends at the head exactly if it is the last one, and always does if its pages move the cursor |
| `CatchUp.MergedIsPaged` | packages/client/src/sync/delta-pipeline.ts:587-595 | Without a group action, one merged packet does what its pages do one by one |
| `CatchUp.CoalescingIsInvisible` | packages/client/src/sync/delta-pipeline.ts:587-595 | Merging a chunk is invisible if and only if a re-bootstrap was owed already, the chunk has no group action, or the pages before the first one end at or below the cursor |
| `CatchUp.CatchUpIsInvisible` | packages/client/src/sync/delta-pipeline.ts:587-595 | A whole catch-up without group actions leaves the rows and cursor of page-by-page application |
| `PendingReplay.IdentityMaps.ReplayOne` | packages/client/src/sync/pending-hydration.ts:38-84 | One replayed transaction changes its own row and no other: an insert adds an absent row, a delete removes it, the others give a present row their payload, an unarchive a null archivedAt |
| `PendingReplay.IdentityMaps.ApplyPending` | packages/client/src/sync/pending-hydration.ts:30-85 | Each row ends as the replay of its own transactions, in outbox order |
| `PendingReplay.OnExactly` | packages/client/src/sync/pending-hydration.ts:30-85 | Those are exactly the pending transactions on the row, each at its place |
| `PendingReplay.DeleteForgets` | packages/client/src/sync/pending-hydration.ts:58-61 | A replay that contains a delete forgets where it started |
| `PendingReplay.ReplayIsMerge` | packages/client/src/sync/pending-hydration.ts:38-84 | A well-formed replay without deletes is one merge of everything written, insert included |
| `PendingReplay.ReplayIsIdempotent` | packages/client/src/sync/pending-hydration.ts:30-85 | Replaying a well-formed outbox onto a row that already carries it changes nothing, reinsert after delete included |
| `OptimisticView.DeferredOnRow` | packages/client/src/sync/delta-pipeline.ts:1042-1075 | The deferred operations of a packet, seen from one row, are that row's own actions |
| `OptimisticView.Rollback` | packages/client/src/client.ts:157-211 | A rollback changes its own row only: an insert goes, a deleted row comes back as its original, an update gets back the fields of its original and no other, an archive state its archivedAt; and it never inserts a partial row |
| `OptimisticView.RollbackConflicts` | packages/client/src/sync/delta-pipeline.ts:890-898 | The deferred conflicts are rolled back in order |
| `OptimisticView.ApplyOps` | packages/client/src/sync/delta-pipeline.ts:904-933 | Own echoes are skipped, derived fields aside, exactly while nothing else in the packet wrote the row |
| `OptimisticView.SlotReads` | packages/client/src/sync/delta-pipeline.ts:904-933 | Field by field: a suppressed echo brings the fields its transaction did not write and no other; every other merge gives the row all its fields; a removal removes it |
| `OptimisticView.ApplyBatch` | packages/client/src/sync/delta-pipeline.ts:872-938 | Each row ends as: rolled back, then the operations, then the replay of what stays in the outbox |
| `OptimisticView.ConfirmFromActions` | packages/client/src/outbox-manager.ts:809-839 | The confirmed ids are those the packet names, plus pending inserts a create without a transaction id duplicates |
| `OptimisticView.CreateOfAnotherModelConfirms` | packages/client/src/outbox-manager.ts:860-885 | A create without a transaction id confirms every pending insert of its model id, whatever the model, though it writes that insert's row only if the model is the same |
| `OptimisticView.BuildOwnClientTxIds` | packages/client/src/sync/delta-pipeline.ts:994-1005 | The echoes to suppress: ids in the packet this runtime made, without the rolled-back ones |
| `OptimisticView.RecordOwnWrittenFields` | packages/client/src/sync/delta-pipeline.ts:848-854 | The fields each local transaction wrote, as recorded before confirmation |
| `OptimisticView.OwnWrittenExactly` | packages/client/src/sync/delta-pipeline.ts:848-854 | A transaction is known, with the fields of its payload, exactly if it is pending and local |
| `Overlay.WrittenSlot` | packages/client/src/sync/delta-pipeline.ts:900-933 | Once an operation has written the row, the row is what the operations say |
| `Overlay.SuppressedExactly` | packages/client/src/sync/delta-pipeline.ts:905-925 | A packet writes a row as a whole unless all its operations on it are merges that echo own transactions and the row is there to keep |
| `Overlay.RemainingExactly` | packages/client/src/outbox-manager.ts:809-839 | What stays in the outbox is exactly what was not taken out, in outbox order |
| `Overlay.StoredIsMerge` | packages/client/src/sync/delta-pipeline.ts:1042-1099 | A row no action deletes ends as the merge of all that was written to it |
| `Overlay.EchoLastWrite` | packages/client/src/sync/delta-pipeline.ts:976-992 | Field by field, the transactions leaving the outbox and the derived fields together write what their echoes write if and only if no echo derives the field or the last value derived is the last value written |
| `Overlay.EchoesStand` | packages/client/src/sync/delta-pipeline.ts:976-992 | When the echoes are those of the leaving transactions, in outbox order, a field stands if and only if no echo derives it or the last value derived is the last value written |
| `Overlay.EchoesSettle` | packages/client/src/sync/delta-pipeline.ts:905-925 | Such echoes settle the row: no delete leaves with them, and an echoed insert is the only one |
| `Overlay.EchoedRow` | packages/client/src/sync/delta-pipeline.ts:905-925 | A row touched only by own echoes, suppressed but for derived fields, equals the stored row under the remaining outbox if and only if every field nothing left in the outbox overwrites ends as the leaving transactions and the derived fields left it, in whatever order the echoes come and whether or not each still has its transaction |
| `Overlay.RowOverlay` | packages/client/src/sync/delta-pipeline.ts:842-938 | If a row of the maps is its stored row overlaid with the outbox, it is so after the packet, echo suppression and conflict rollback included, if and only if the packet writes the row as a whole or every field nothing left in the outbox overwrites stands |
| `Overlay.GoneExactly` | packages/client/src/sync/delta-pipeline.ts:842-871 | A transaction leaves the outbox with a packet if and only if a conflict rolled it back, the cursor completes it, the packet carries it, or the packet carries a create without a transaction for the id it inserts |
| `Overlay.ApplyDeltaPacket` | packages/client/src/sync/delta-pipeline.ts:807-938 | The same for the whole code path, from staging to the identity-map batch, in both directions; the stored rows are what the actions of the packet do, one after the other |
| `Overlay.EarlierDerivationSticks` | packages/client/src/sync/delta-pipeline.ts:913-924 | The smallest row that does not stand: a field one echo derives and a later suppressed echo wrote stays at the derived value, wrong unless the two agree |
| `Privacy.LocalState.Await` | packages/client/src/sync/delta-pipeline.ts:342-366 | At an await storage keeps its rows, outbox and withheld ids, whatever "bootstrap required" handlers run meanwhile; a handler that wakes up empties the maps, and a latch is never unset; so all its crash points are safe exactly if the first is |
| `Privacy.LocalState.Quarantine` | packages/client/src/sync/bootstrap-runner.ts:145-161 | Whenever this step quarantines, the latch is on disk before a row changes and nothing stays visible; when it does not, it changes nothing |
| `Privacy.LocalState.CommitBootstrapRows` | packages/client/src/sync/bootstrap-runner.ts:222-257 | Stored rows and identity maps become the snapshot and nothing else, at no point complete; its crash points are safe exactly if the latch was set, or every pending transaction is withheld and restores nothing |
| `Privacy.LocalState.CommitSnapshot` | packages/client/src/sync/bootstrap-runner.ts:125-198 | From any state: the crash points of a commit are all latched or clean if and only if no pending transaction needs the latch, or storage was latched when it was cleared and the commit is under quarantine or leaves clean storage |
| `Privacy.LocalState.PersistMetadata` | packages/client/src/sync/bootstrap-runner.ts:165-192 | The last write keeps the latch exactly under quarantine, whatever handlers wrote before it |
| `Privacy.LocalState.PreparePending` | packages/client/src/sync/pending-hydration.ts:98-129 | The outbox is sorted into replayable, withheld and to be sanitized by whether the target is readable |
| `Privacy.LocalState.EraseOriginals` | packages/client/src/sync-orchestrator.ts:472-478 | Rollback data is erased one original at a time, in any order, each at its own crash point; latched or clean storage stays so at every one |
| `Privacy.LocalState.ApplyPendingAfterReplacement` | packages/client/src/sync-orchestrator.ts:446-486 | Afterwards every pending transaction without a target is withheld and cannot restore one, durably; its crash points are latched or clean if and only if storage was when it began, latch or no latch |
| `Privacy.LocalState.ReconcilePrivacy` | packages/client/src/sync/delta-pipeline.ts:397-411 | The reconcile ends with clean storage, the latch and the flag cleared, and no row shown that is not stored |
| `Privacy.LocalState.ReplayOutbox` | packages/client/src/sync-orchestrator.ts:446-486 | Without a reconcile the outbox and the withheld ids are untouched, and every visible row, and every row with nothing withheld, ends as the replay of everything pending on it |
| `Privacy.ReplayedExactly` | packages/client/src/sync/pending-hydration.ts:131-145 | A transaction is replayed exactly if it is not withheld or its row is visible, at its place in the outbox |
| `Privacy.ReplayableExactly` | packages/client/src/sync/pending-hydration.ts:98-129 | After a reconcile, exactly if its row is shown |
| `Privacy.LocalState.Rebootstrap` | packages/client/src/sync/delta-pipeline.ts:386-412 | From any state, handlers running at every await: every crash finds storage latched or clean if and only if no pending transaction needs the latch, or storage was latched when it was cleared and the commit is under quarantine or leaves clean storage. Under quarantine, or with the flag set by the end of the commit, the outbox is sanitized; otherwise clean storage stays clean if and only if every transaction whose row the snapshot lost is withheld and restores nothing |
| `Privacy.UnlatchedReconcileExposes` | packages/client/src/sync/delta-pipeline.ts:397-411 | The image of the reconcile whose latch a commit dropped: complete, unlatched storage with one delete pending on a row the snapshot lost, which a rejection brings back |
| `Privacy.HydrationRevealsNothing` | packages/client/src/sync/pending-hydration.ts:131-145 | Hydrating from clean storage replays nothing onto an absent row |
| `Privacy.RollbackRevealsNothing` | packages/client/src/client.ts:157-211 | Over clean storage no rollback of a pending transaction restores an absent row |
| `Privacy.UnsanitizedRollbackReveals` | packages/client/src/sync/pending-hydration.ts:87-97 | Corollary: unsanitized, a rollback restores an absent row exactly for a delete that kept its original |
| `OutboxInvariant.StepKeeps` | packages/client/src/outbox-manager.ts:76-949 | Every event of the send protocol keeps one owner per transaction and an exact claimed set; apart from queueing and a replay read it only takes transactions out of the line |
| `OutboxInvariant.RunKeeps` | packages/client/src/outbox-manager.ts:76-949 | So does every run |
| `OutboxTheorems.SingleOwner` | packages/client/src/outbox-manager.ts:95-101 | No transaction is queued twice, the claimed set is exactly what will be released, and a replay never holds a claimed transaction |
| `OutboxTheorems.RowsLeave` | packages/client/src/outbox-manager.ts:596-616 | Corollary: an event takes a row out of the durable outbox if and only if it discards or confirms it, rejects it on its own, or settles it with a refusal or with nothing left to wait for |
| `OutboxTheorems.RowsArrive` | packages/client/src/outbox-manager.ts:256-293 | Only queueing adds a row: stamped with the next index, waiting to be sent |
| `OutboxTheorems.RowChanges` | packages/client/src/outbox-manager.ts:621-692 | For every event, the state of a row that stays: sent by the send that carries it, queued again by a failure or a replay that finds nobody sending it, and once acknowledged waiting for its own sync id or, without one, for the largest the answer mentions |
| `OutboxTheorems.Sends` | packages/client/src/outbox-manager.ts:435-455 | What goes to the transport: the marked batch without what was discarded since, in order, at the call of it only, and nothing if that leaves nothing |
| `OutboxTheorems.OwedChanges` | packages/client/src/outbox-manager.ts:495-520 | A transaction is owed from the failure that puts it back until a send carries it |
| `OutboxTheorems.QueueChanges` | packages/client/src/outbox-manager.ts:322-361 | The send queue is first in, first out, and a discard waits for storage once |
| `OutboxTheorems.LineOrdered` | packages/client/src/outbox-manager.ts:256-293 | Every event keeps failed, in-flight, waiting and pending transactions in batchIndex order |
| `OutboxTheorems.SendOrder` | packages/client/src/outbox-manager.ts:337-361 | Over every run without a replay from disk that line is strictly increasing |
| `OutboxTheorems.SendCarriesOwed` | packages/client/src/outbox-manager.ts:388-433 | A batch handed to the transport carries, in order and ahead of everything queued, every transaction an earlier failure put back and nobody dropped |
| `OutboxDiscard.GoneStays` | packages/client/src/outbox-manager.ts:379-386 | Once no sender can hand a discarded transaction on, no event changes that or sends it |
| `OutboxDiscard.DiscardIsFinal` | packages/client/src/outbox-manager.ts:601-616 | For every reachable state: a discarded transaction can still be sent if and only if a replay already holds its row, or it waits in the retry backlog with no replay next in line |
| `OutboxAck.StepAckSafe` | packages/client/src/outbox-manager.ts:621-692 | While storage does not fail, no event gives an acknowledged transaction back to a sender |
| `OutboxAck.AcknowledgedStays` | packages/client/src/outbox-manager.ts:645-681 | An acknowledged transaction is in no later batch, its row keeps waiting for the cursor, and no replay takes it |
| `OutboxAck.AcknowledgedIsPutBack` | packages/client/src/outbox-manager.ts:455-471 | An acknowledged transaction becomes owed again if and only if storage fails while its own batch's answer is handled |
| `OutboxAck.PutBackIsSentAgain` | packages/client/src/outbox-manager.ts:461-471 | And then it does reach the server a second time, unless it was dropped or a replay comes first |
| `OutboxAck.RejectionsBounded` | packages/client/src/outbox-manager.ts:523-573 | One send makes at most as many invalid-batch rounds as it has transactions |
| `Outbox.Highest` | packages/client/src/outbox-manager.ts:627-632 | The completion id is the largest of the answer's own sync id and those of its results |
| `OutboxManagers.OutboxManager.constructor` | packages/client/src/outbox-manager.ts:287-293 | The index sequence starts above everything persisted |
| `OutboxManagers.OutboxManager.Claim` | packages/client/src/outbox-manager.ts:363-367 | Exactly the given ids are added |
| `OutboxManagers.OutboxManager.Release` | packages/client/src/outbox-manager.ts:369-377 | Exactly the given ids leave the claimed and the discarded set |
| `OutboxManagers.OutboxManager.WithoutDiscarded` | packages/client/src/outbox-manager.ts:379-386 | What is left is the batch without discarded ids, in order |
| `OutboxManagers.OutboxManager.TakeRetryBacklog` | packages/client/src/outbox-manager.ts:389-399 | The owed transactions come first, none twice, and the backlog is empty |
| `OutboxManagers.OutboxManager.QueueTransaction` | packages/client/src/outbox-manager.ts:256-272 | Stamped, persisted, claimed and batched: the protocol event Enqueue |
| `OutboxManagers.OutboxManager.FlushBatch` | packages/client/src/outbox-manager.ts:321-346 | The pending batch becomes one queued send |
| `OutboxManagers.OutboxManager.SendBatch` | packages/client/src/outbox-manager.ts:412-433 | sendBatch up to its first await carries the backlog and claims it |
| `OutboxManagers.OutboxManager.StartSend` | packages/client/src/outbox-manager.ts:349-361 | The next queued send starts: the protocol event StartSend |
| `OutboxManagers.OutboxManager.SendClaimedBatch` | packages/client/src/outbox-manager.ts:435-452 | With transactions being discarded at every await while the rows are marked sent, the transport gets the claimed batch in order without any of them, and every row it gets that is still stored is marked sent |
| `OutboxManagers.OutboxManager.CallTransport` | packages/client/src/outbox-manager.ts:446-456 | What goes to the transport leaves out everything discarded by then |
| `OutboxManagers.OutboxManager.DiscardTransaction` | packages/client/src/outbox-manager.ts:601-611 | The discard up to its await |
| `OutboxManagers.OutboxManager.FinishDiscard` | packages/client/src/outbox-manager.ts:612-616 | The discard after it |
| `OutboxManagers.OutboxManager.HighestSyncId` | packages/client/src/outbox-manager.ts:627-632 | The loop over the results computes the completion id |
| `OutboxManagers.OutboxManager.HandleMutateResult` | packages/client/src/outbox-manager.ts:621-634 | The answer is taken up with everything unresolved |
| `OutboxManagers.OutboxManager.PushBack` | packages/client/src/outbox-manager.ts:495-521 | A failed batch goes back, without what was discarded |
| `OutboxManagers.OutboxManager.ResetSentRows` | packages/client/src/outbox-manager.ts:736-744 | Exactly the unclaimed sent rows become queued |
| `OutboxManagers.OutboxManager.ReplayPersisted` | packages/client/src/outbox-manager.ts:721-747 | A replay forgets the backlog and keeps the unclaimed rows |
| `OutboxManagers.OutboxManager.Finally` | packages/client/src/outbox-manager.ts:369-377 | One finally block releases exactly its batch |
| `ChangeTracking.Model.SetProperty` | packages/core/src/model/observability.ts:102-124 | A local edit changes the value, counts as one change, keeps the first original and leaves the server value alone; the same value again changes nothing |
| `ChangeTracking.Model.ApplyUpdate` | packages/core/src/model/base-model.ts:201-242 | A property without local changes takes the server value, one with them keeps them, and the server value becomes what they are measured against; afterwards exactly the properties that differ from it are tracked as modified, and exactly those that were modified or whose value changed count as touched |
| `ChangeTracking.Model.CaptureChangeSnapshot` | packages/core/src/model/base-model.ts:156-189 | The snapshot holds exactly the properties whose value differs from the server's, with both values |
| `ChangeTracking.Model.Save` | packages/core/src/model/base-model.ts:272-292 | At any moment: a save starts if none has its turn, and otherwise waits; it sends exactly the unsent difference, and nothing if there is none |
| `ChangeTracking.Model.StartPersist` | packages/core/src/model/base-model.ts:294-317 | A save that is woken up sends what is unsent by then |
| `ChangeTracking.Model.EndTurn` | packages/core/src/model/base-model.ts:284-291 | The turn passes to a waiting save as long as there is one, also from a save that failed or had nothing to send |
| `ChangeTracking.Model.ClearSavedChanges` | packages/core/src/model/base-model.ts:381-396 | What the store accepted becomes the server's value, property by property, and a saved property stays modified exactly if it has been edited away from it |
| `ChangeTracking.Model.ApplySaveResult` | packages/core/src/model/base-model.ts:398-410 | The answer counts exactly where nothing changed since the save was captured |
| `ChangeTracking.Model.FinishSave` | packages/core/src/model/base-model.ts:318-328 | Property by property: where nothing changed since the save was captured the answer becomes the value and the known server value; everywhere else the value stays, edits with it, and is measured against the saved one, or the known one if the save did not carry it |
| `ChangeTracking.Model.FailSave` | packages/core/src/model/base-model.ts:318-328 | A store that throws leaves exactly the captured difference unsent, apart from what has changed since |
| `History.ApplyPerforms` | packages/client/src/client.ts:233-288 | A mutation does, field by field, what it was asked to: a create stores the payload, an update gives the row the payload and keeps the rest, an archive or unarchive sets archivedAt alone, a delete removes the row, and no other row changes; it fails exactly if there is no row to change |
| `History.UndoRestores` | packages/client/src/history-manager.ts:150-257 | Undoing a recorded mutation gives back the rows it ran on, and redoing it the rows it left, for every action |
| `History.ChangeRestored` | packages/client/src/history-manager.ts:189-203 | Restoring overwritten fields, absent ones as null, gives back the row |
| `History.HistoryManager.Record` | packages/client/src/history-manager.ts:56-76 | An entry goes to the innermost open group, or alone onto the undo stack, which clears redo |
| `History.HistoryManager.Mutate` | packages/client/src/client.ts:128-139 | A mutation that runs on the store does what it was asked to, is recorded with its transaction and keeps both stacks fit for undoing and redoing, alone or in a group; one that fails changes nothing |
| `History.HistoryManager.EndGroup` | packages/client/src/history-manager.ts:98-107 | A finished group joins its parent or the undo stack, and the stacks stay fit for undoing and redoing |
| `History.HistoryManager.NothingCaptured` | packages/client/src/history-manager.ts:112-122 | With no group open, the stacks the recorded mutations built are exactly what undo and redo ask for |
| `History.HistoryManager.RemoveByTxId` | packages/client/src/history-manager.ts:129-147 | Exactly the groups carrying the transaction go, and open captures are invalidated |
| `History.WithoutTxExactly` | packages/client/src/history-manager.ts:136-146 | What stays on a stack is every group that does not carry the transaction, in order |
| `History.HistoryManager.ApplyHistoryOperation` | packages/client/src/client.ts:233-288 | The operations of an undo or redo run like any mutation, and are not recorded while history is suppressed |
| `History.HistoryManager.RollbackHistoryEntries` | packages/client/src/history-manager.ts:348-368 | The compensation undoes exactly what ran, if none of it fails |
| `History.HistoryManager.UndoEntries` | packages/client/src/history-manager.ts:282-294 | The undo operations run last entry first, until one fails |
| `History.HistoryManager.Undo` | packages/client/src/history-manager.ts:271-308 | Undo gives back the rows before the group, and the group carries the transactions of its own operations from then on; failing midway with working compensations it changes nothing |
| `History.HistoryManager.Redo` | packages/client/src/history-manager.ts:314-346 | Redo performs the mutations of the group again, field by field and in order, with new transactions; failing midway with working compensations it changes nothing |
| `History.HistoryManager.UndoThenRedo` | packages/client/src/history-manager.ts:271-346 | n undos and then n redos restore the rows and both stacks' entries |
| `LruMap.IdentityMap.Touch` | packages/client/src/identity-map.ts:283-287 | The entry becomes the newest and no other moves |
| `LruMap.IdentityMap.EvictIfNeeded` | packages/client/src/identity-map.ts:289-317 | The newest entries within the limit stay, and the listener hears the rest in order |
| `LruMap.IdentityMap.Get` | packages/client/src/identity-map.ts:104-110 | A hit is a touch |
| `LruMap.IdentityMap.Set` | packages/client/src/identity-map.ts:122-128 | After a set the limit holds and the entry is the newest |
| `LruMap.IdentityMap.Update` | packages/client/src/identity-map.ts:133-149 | An update of a present entry touches it |
| `LruMap.IdentityMap.Merge` | packages/client/src/identity-map.ts:154-172 | After a merge the limit holds, as long as it was not lowered |
| `LruMap.IdentityMap.Delete` | packages/client/src/identity-map.ts:177-182 | An entry leaves the map and the order together |
| `LruMap.KeptIsNewest` | packages/client/src/identity-map.ts:294-304 | Eviction keeps the end of the order, no more than the limit and no less |
| `LruMap.EvictedWereOlder` | packages/client/src/identity-map.ts:294-304 | Every evicted entry was last touched before every entry that stays |
| `LruMap.JustWrittenSurvives` | packages/client/src/identity-map.ts:289-304 | The entry just written survives if and only if the limit has room for one: a limit between 0 and 1 evicts it |
| `SyncIds.CompareTextExactly` | packages/core/src/sync/sync-id.ts:39-45 | Text comparison is by code units: a prefix sorts first, and otherwise the text that is smaller where they first differ |
| `SyncIds.CompareIsNumeric` | packages/core/src/sync/sync-id.ts:32-47 | Comparing two ids is comparing their values |
| `SyncIds.KeyOrder` | packages/storage-idb/src/adapter.ts:97-105 | Key order is numeric order and key equality numeric equality for ids of at most 9999 significant digits |
| `SyncIds.SameLengthKeys` | packages/storage-idb/src/adapter.ts:97-105 | Ids with equally many significant digits sort by value, however many |
| `SyncIds.ShorterKeyFirstExactly` | packages/storage-idb/src/adapter.ts:97-105 | An id with fewer significant digits sorts first if and only if the two length prefixes are equally long, or its length is below the leading digits of the other length, or equal to them and its digits sort before what follows |
| `SyncIds.KeyOrderBreaks` | packages/storage-idb/src/adapter.ts:97-105 | Every id of 1000 to 9999 digits sorts above every id of 10000 |
| `SyncActionStore.ActionStore.ScanIndex` | packages/storage-idb/src/adapter.ts:851-865 | The cursor loop returns a prefix of the index records above the bound |
| `SyncActionStore.ActionStore.GetSyncActions` | packages/storage-idb/src/adapter.ts:841-876 | Both paths, index and full scan |
| `SyncActionStore.ActionStore.PruneSyncActions` | packages/storage-idb/src/adapter.ts:888-908 | The cursor deletes exactly what is not above the id |
| `SyncActionStore.SameRecords` | packages/storage-idb/src/adapter.ts:841-876 | Both paths find the same records in the same order |
| `SyncActionStore.IndexAgreesWithScan` | packages/storage-idb/src/adapter.ts:853-875 | They return the same if and only if there is no limit, nothing matches, the limit is not negative and whole or large enough, or it is negative and the slice keeps one record |
| `SyncActionStore.PruneIsExact` | packages/storage-idb/src/adapter.ts:888-908 | Pruning keeps an action if and only if its id is numerically larger |
| `SyncActionStore.ScanOrderIsNumeric` | packages/storage-idb/src/adapter.ts:868-875 | The scan orders ids of any length by value; the index puts an id of 10000 digits before every id of 1000 to 9999 |
| `YDocument.Document.Connect` | packages/y-doc/src/document-manager.ts:127-157 | The first connect, and a retry after the document gave up, ask the server for what is missing or wait for the transport, and the first one buffers what the document holds; any other changes nothing but the count, and a retry is not counted |
| `YDocument.Document.Disconnect` | packages/y-doc/src/document-manager.ts:159-176 | One disconnect for each counted connect: the last one detaches the handler and gives up what was pending, an earlier one changes nothing else |
| `YDocument.Document.LocalUpdate` | packages/y-doc/src/document-manager.ts:544-564 | A local update is sent when connected and buffered otherwise |
| `YDocument.Document.FlushPendingLocalUpdates` | packages/y-doc/src/document-manager.ts:653-664 | Everything buffered is sent as one update |
| `YDocument.Document.SeedPendingContent` | packages/y-doc/src/document-manager.ts:457-473 | Pending initial content becomes a local edit, once, if and only if the document has no text |
| `YDocument.Document.HandleSyncStep2` | packages/y-doc/src/document-manager.ts:676-712 | An accepted answer is absorbed with the initial content, everything buffered is sent, the number moves to the answer's and the document is complete up to it; any other answer changes nothing |
| `YDocument.Document.HandleUpdate` | packages/y-doc/src/document-manager.ts:714-753 | The next update is absorbed, an old one ignored, and a gap asks for a resync and changes nothing else |
| `YDocument.Document.HandleError` | packages/y-doc/src/document-manager.ts:755-770 | A retryable error schedules one retry at a time, a bounded number of them; then, or for any other error, the document gives up |
| `YDocument.Document.TransportChanged` | packages/y-doc/src/document-manager.ts:365-412 | An outage marks an active document as connecting and nothing else |
| `YDocument.CaughtUpHoldsAll` | packages/y-doc/src/document-manager.ts:676-753 | Corollary: a document at the last number holds every server update |
| `DeltaStream.Subscription.Next` | packages/transport-graphql/src/websocket.ts:229-250 | The consumer gets the oldest queued packet, the end, the error, or waits |
| `DeltaStream.Subscription.HandleMessage` | packages/transport-graphql/src/websocket.ts:669-689 | A packet, whichever subscription it was sent for, goes to the waiting consumer or to the end of the queue and moves the resume cursor; nobody gets it when none is active |
| `DeltaStream.Subscription.Close` | packages/transport-graphql/src/websocket.ts:405-418 | A waiting consumer is told the stream is done |
| `DeltaStream.Subscription.Fail` | packages/transport-graphql/src/websocket.ts:420-435 | A waiting consumer is rejected, and so is every later one |
| `DeltaStream.Subscription.SocketOpens` | packages/transport-graphql/src/websocket.ts:114-132 | A new socket starts with nothing on the wire |
| `DeltaStream.Subscription.BeginSubscribe` | packages/transport-graphql/src/websocket.ts:564-590 | The cursor read is the initial one or the largest received |
| `DeltaStream.Subscription.FinishSubscribe` | packages/transport-graphql/src/websocket.ts:591-617 | The cursor read before the wait is sent on the socket it was read for or not at all |
| `DeltaStream.LinkChanges` | packages/transport-graphql/src/websocket.ts:564-617 | For every event, what becomes of the socket: a cursor waits for its token once and goes out on its own socket or not at all, packets and cursors are read in the order they were sent, and what was on a socket goes with it |
| `DeltaStream.Receives` | packages/transport-graphql/src/websocket.ts:669-689 | A packet that arrives belongs to the subscription until it ends and to nobody after, and moves its cursor up to it, never back |
| `DeltaStream.SubscribeCursorLags` | packages/transport-graphql/src/websocket.ts:574-617 | When it goes out it is the largest id received if and only if no larger one arrived during the wait, and never above it |
| `DeltaStream.CursorBehind` | packages/transport-graphql/src/websocket.ts:590-617 | It does lag: a larger packet on the wire when the wait begins and arriving before it ends |
| `DeltaStream.GapFreeCovers` | packages/transport-graphql/src/websocket.ts:669-689 | Gap-free packets carry every id from the first cursor to the furthest they reach |
| `DeltaStream.Subscription.constructor` | packages/transport-graphql/src/websocket.ts:201-227 | A subscription may start on a live socket with an earlier stream still on it; it is without a gap exactly if what that socket carries starts at or below its cursor |
| `DeltaStream.StepKeeps` | packages/transport-graphql/src/websocket.ts:198-264 | Every event, reconnects included, keeps a stream without a gap |
| `DeltaStream.StaysGapFreeExactly` | packages/transport-graphql/src/websocket.ts:201-227 | Over every run a subscription stays without a gap if and only if there is no live socket, or everything it carries (packets, sent cursors, cursors waiting for a token, the server's position) starts at or below what the subscription will have seen by then |
| `DeltaStream.ResubscribeOnLiveSocket` | packages/transport-graphql/src/websocket.ts:251-271 | It fails when an ended subscription's socket stays open: a packet that arrives while nobody is subscribed is dropped, and the next one reaches the new subscription first |
| `DeltaStream.YieldedCover` | packages/transport-graphql/src/websocket.ts:198-264 | On a socket that starts below it, the packets given to the consumer leave no gap across reconnects |
| `DeltaStream.NothingLost` | packages/transport-graphql/src/websocket.ts:674-689 | What arrived is what was given plus what is queued, in order, and a waiting consumer means an empty queue |

## Left out

- Replica.Convergence: does not cover `bootstrapMode: "local"`, a public `syncNow()` without a run token, `clearAll`, or another tab writing the same storage.
- Replica.StepKeeps: a `stop()` and `start()` within one process, after which a continuation of the earlier run may still write the latch or set the flag of the next one, is not an event; an end of a run is a crash. The authorized group lists themselves are not part of the state; whether a group action only adds access is an input of the event.
- OutboxTheorems.SendOrder: does not order previous-session rows replayed in several batches against new writes.
- OutboxInvariant.StepKeeps: one lifecycle; a dispose and the calls it leaves behind are not modelled, nor `batchMutations: false`, rows from other tabs, and rows persisted before transactions carried a `batchIndex`.
- OutboxAck.AcknowledgedIsPutBack: storage calls fail only while an answer is handled; a failure while rows are marked sent or put back is not modelled. The reads and writes for one rejected transaction are one event, and so are the resets of sent rows in one replay.
- OutboxManagers.OutboxManager.ReplayPersisted: seeding the index sequence again from the rows read is omitted; those rows never lie above it within one lifecycle.
- Overlay.RowOverlay: a row touched only by own echoes, or not at all, is not covered when a conflict is rolled back on it, when a pending delete of it leaves the outbox, or when storage had no such row and an insert of it leaves unechoed, or stays although an echo stores the row.
- Overlay.ApplyDeltaPacket: the choice of conflicts (rebase) and the transactions the cursor completes are inputs; withheld transactions, lazy loads and eviction are not part of the view.
- Privacy.LocalState.Rebootstrap: runs under the state lock to its end, and every crash point is recorded; new mutations and rejected transactions in between are not part of it, nor a `stop()`.
- ChangeTracking.Model.ApplyUpdate: `preserveChanges: false`, serializers other than the identity and the create path of `save` are left out.
- OutboxTheorems.RowsLeave: a discard, a confirmation and a completion up to the cursor are one event.
- SyncActionStore.IndexAgreesWithScan: limits are real numbers; NaN and Infinity are left out.
- SyncClients.SyncClient.ApplyPacket: storage failures inside a packet, and handlers that run at its awaits, are covered by the replica protocol only.
- History.HistoryManager.Undo: rows that are not loaded and rejected transactions, which remove groups from the stacks, are outside the round trip.
- DeltaStream.Subscription.HandleMessage: binary frames, whose decoding may reorder, are left out; frames are strings.
- YDocument.Document.HandleSyncStep2: the contents of a document and its merge are abstracted to the set of updates absorbed.
- Archive timestamps written as ISO strings: a stored timestamp is a number.
- Coverage loads, partial indexes and lazy loading: they write the identity maps outside these invariants.
- Events, reactivity, timers and retry delays, quota errors, auth tokens and sockets beyond their effect on ordering.
- The server packages, the CLI, the framework providers, the website and the demos.
