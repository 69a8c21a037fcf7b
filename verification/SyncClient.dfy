/**
 * The sync client as the object it is: a cursor, the orchestrator's flags and the storage it
 * writes. One method for each piece of code between two awaits, proved to be its event of the
 * replica protocol; the calls composed of them are proved to do what they are for.
 */
module SyncClients {
  import opened Records
  import opened ServerLog
  import opened Replica
  import opened Handlers

  /** The sync cursor: guarded advance, unguarded set from a snapshot. */
  class SyncCursor {
    var lastSyncId: nat
    var snapshot: nat

    constructor (snapshot: nat)
      ensures lastSyncId == 0 && this.snapshot == snapshot
    {
      lastSyncId, this.snapshot := 0, snapshot;
    }

    method Hydrate(persisted: nat)
      modifies this`lastSyncId
      ensures lastSyncId == persisted
    {
      lastSyncId := persisted;
    }

    /** The snapshot is authoritative: the cursor may go back, and the count tells the readers. */
    method SetFromBootstrap(syncId: nat)
      modifies this
      ensures lastSyncId == syncId && snapshot == old(snapshot) + 1
    {
      lastSyncId := syncId;
      snapshot := snapshot + 1;
    }

    /** advance up to its write: the cursor only moves forward, and only then is there a write. */
    method Advance(syncId: nat) returns (advanced: bool)
      modifies this`lastSyncId
      ensures lastSyncId == Max(old(lastSyncId), syncId) && (advanced <==> lastSyncId > old(lastSyncId))
    {
      if syncId <= lastSyncId {
        return false;
      }
      lastSyncId := syncId;
      return true;
    }
  }

  class SyncClient {
    const cursor: SyncCursor
    var storage: Disk
    var phase: Phase
    var groupChangePending: bool
    var addedAccessOwed: bool
    /** "bootstrap required" handlers suspended on the latch write they made */
    var handlers: nat
    /** the live stream and the pagers, and the actions of the packet each has in hand */
    var readers: map<nat, Reader>
    var actions: map<nat, Log>
    /** the suspended call that holds the state lock */
    var job: Job
    ghost var log: Log
    ghost var high: nat
    ghost var base: nat
    ghost var unbacked: bool

    ghost function View(): State
      reads this, cursor
    {
      State(log, storage, phase, cursor.lastSyncId, cursor.snapshot, groupChangePending, addedAccessOwed, handlers,
            readers, job, high, base, unbacked)
    }

    constructor ()
      ensures View() == INITIAL && actions == map[] && fresh(cursor)
    {
      cursor := new SyncCursor(0);
      storage, phase, groupChangePending, addedAccessOwed := EMPTY_DISK, Stopped, false, false;
      handlers, readers, actions, job, log, high, base, unbacked := 0, map[], map[], Idle, [], 0, 0, false;
    }

    function HandlerState(): Handling
      reads this
    {
      Handling(storage.latch, groupChangePending, handlers)
    }

    /** Reader r has its packet, action by action. */
    ghost predicate InHand(r: nat)
      reads this, cursor
    {
      && HoldsPacket(View(), r) && r in actions
      && var p := readers[r].packet.value;
         p.after <= p.last && actions[r] == log[p.after..p.last]
    }

    /** `actions.some(isGroupChangeAction)` */
    static method SomeGroupChange(actions: Log) returns (found: bool)
      ensures found <==> exists i :: 0 <= i < |actions| && actions[i].GroupChange?
    {
      found := false;
      for i := 0 to |actions|
        invariant !found && forall j :: 0 <= j < i ==> !actions[j].GroupChange?
      {
        if actions[i].GroupChange? {
          return true;
        }
      }
    }

    /** Is anything left of the packet above the cursor? */
    static method NothingAbove(actions: Log, from: nat) returns (empty: bool)
      requires from <= |actions|
      ensures empty <==> forall i :: from <= i < |actions| ==> actions[i].Gap?
    {
      empty := true;
      for i := from to |actions|
        invariant empty && forall j :: from <= j < i ==> actions[j].Gap?
      {
        if !actions[i].Gap? {
          return false;
        }
      }
    }

    method Start()
      requires phase == Stopped
      modifies this, cursor
      ensures View() == old(View()).(phase := Starting, cursor := old(storage).cursor, pending := old(storage).latch,
                                     owed := false, handlers := 0, readers := map[], job := Idle, unbacked := false)
    {
      groupChangePending := storage.latch;
      cursor.Hydrate(storage.cursor);
      phase, addedAccessOwed, handlers, readers, actions, job, unbacked := Starting, false, 0, map[], map[],
        Idle, false;
    }

    /** bootstrapIfNeeded in mode auto: hydrate when storage is complete and nothing is owed, else download. */
    method BootstrapIfNeeded() returns (needsBootstrap: bool)
      requires phase == Starting && job.Idle?
      modifies this`phase
      ensures needsBootstrap == MustBootstrap(storage)
      ensures View() == if needsBootstrap then old(View()) else old(View()).(phase := Live)
    {
      needsBootstrap := storage.latch || !storage.complete || storage.cursor == 0;
      if !needsBootstrap {
        phase := Live;
      }
    }

    /** The packet is done with. */
    method SettlePacket(r: nat)
      requires HoldsPacket(View(), r)
      modifies this`readers, this`job
      ensures View() == Settle(old(View()), r) && HandedBack(old(readers), readers, r)
    {
      var reader := readers[r];
      readers := readers[r := Reader(reader.tag, Max(reader.pos, reader.packet.value.last), None)];
      job := Idle;
    }

    /** applyDeltaPacket up to its first write. */
    method ApplyDeltaPacket(r: nat, onlyAddsAccess: bool)
      requires phase == Live && job.Idle? && InHand(r)
      requires cursor.snapshot == readers[r].tag && !groupChangePending && !addedAccessOwed
               ==> readers[r].packet.value.after <= cursor.lastSyncId
      modifies this`storage, this`readers, this`job, this`high, cursor
      ensures View() == Dispatch(old(View()), r, onlyAddsAccess)
      ensures if job.Idle? then HandedBack(old(readers), readers, r) else job.reader == r && readers == old(readers)
    {
      var p := readers[r].packet.value;
      if cursor.snapshot != readers[r].tag {
        SettlePacket(r);
        return;
      }
      var group := SomeGroupChange(actions[r]);
      GroupInSlice(log, p.after, p.last);
      if group {
        if onlyAddsAccess && !groupChangePending {
          job := Granting(r);
          return;
        }
        if !groupChangePending {
          storage := storage.(latch := true);
        }
        job := Latching(r, groupChangePending);
        return;
      }
      if groupChangePending || addedAccessOwed || p.last <= cursor.lastSyncId {
        SettlePacket(r);
        return;
      }
      var empty := NothingAbove(actions[r], cursor.lastSyncId - p.after);
      GapsInSlice(log, p.after, cursor.lastSyncId, p.last);
      if empty {
        var _ := cursor.Advance(p.last);
        high := Max(high, p.last);
        job := Advancing(r);
        return;
      }
      job := Writing(r);
    }

    /** The rows of the packet above the cursor, in one batch; the cursor has not moved. */
    method FlushRows()
      requires job.Writing? && InHand(job.reader) && cursor.lastSyncId <= Last(View(), job.reader)
      requires readers[job.reader].packet.value.after <= cursor.lastSyncId
      modifies this`storage, this`high, this`job
      ensures View() == Do(old(View()), Replica.FlushRows)
      ensures storage == old(storage).(rows := Fold(old(storage).rows,
                                                    log[cursor.lastSyncId..Last(old(View()), old(job.reader))]))
              && job == Written(old(job.reader))
    {
      hide Fold;
      var r := job.reader;
      var p := readers[r].packet.value;
      var from := cursor.lastSyncId - p.after;
      var rows := FoldFrom(storage.rows, actions[r], from);
      assert actions[r][from..] == log[cursor.lastSyncId..p.last];
      storage := storage.(rows := rows);
      high := Max(high, p.last);
      job := Written(r);
    }

    static method FoldFrom(rows: Table, actions: Log, from: nat) returns (after: Table)
      requires from <= |actions|
      ensures after == Fold(rows, actions[from..])
    {
      after := rows;
      for i := from to |actions|
        invariant after == Fold(rows, actions[from..i])
      {
        assert actions[from..i + 1][..i - from] == actions[from..i];
        after := Apply(after, actions[i]);
      }
      assert actions[from..|actions|] == actions[from..];
    }

    method AdvanceCursor()
      requires job.Written? && HoldsPacket(View(), job.reader)
      modifies this`job, cursor
      ensures View() == Do(old(View()), AdvanceMemory)
      ensures cursor.lastSyncId == Max(old(cursor.lastSyncId), Last(old(View()), old(job.reader)))
              && job == Advancing(old(job.reader))
    {
      var _ := cursor.Advance(readers[job.reader].packet.value.last);
      job := Advancing(job.reader);
    }

    method PersistCursor()
      requires job.Advancing? && HoldsPacket(View(), job.reader)
      modifies this`storage, this`readers, this`job
      ensures View() == Do(old(View()), Replica.PersistCursor)
      ensures storage == old(storage).(cursor := cursor.lastSyncId, synced := true) && job.Idle?
      ensures HandedBack(old(readers), readers, old(job).reader)
    {
      storage := storage.(cursor := cursor.lastSyncId, synced := true);
      SettlePacket(job.reader);
    }

    /** After the latch write of a change that may revoke access: the flag. */
    method FlagGroupChange()
      requires job.Latching? && HoldsPacket(View(), job.reader)
      modifies this`readers, this`job, this`groupChangePending
      ensures View() == Do(old(View()), Replica.FlagGroupChange)
      ensures groupChangePending == (old(groupChangePending) || !old(job).wasPending) && job.Idle?
      ensures HandedBack(old(readers), readers, old(job).reader)
    {
      if !job.wasPending {
        groupChangePending := true;
      }
      SettlePacket(job.reader);
    }

    /** After the group list of a change that only adds access is stored: it is owed in memory alone. */
    method OweAddedAccess()
      requires job.Granting? && HoldsPacket(View(), job.reader)
      modifies this`readers, this`job, this`addedAccessOwed
      ensures View() == Do(old(View()), Replica.OweAddedAccess)
      ensures addedAccessOwed && job.Idle? && HandedBack(old(readers), readers, old(job).reader)
    {
      addedAccessOwed := true;
      SettlePacket(job.reader);
    }

    /**
     * handleBootstrapRequired, outside the state lock, in any order with the code that holds it: the
     * protocol's RequireBootstrap for an answer that arrives, its FlagRequired for a handler that
     * wakes up.
     */
    method Meanwhile(answers: seq<bool>)
      requires phase == Live && Inv(View())
      modifies this`storage, this`handlers, this`groupChangePending, this`unbacked
      ensures Inv(View()) && OnlyHandlers(old(View()), View())
      ensures HandlerState() == Answered(old(HandlerState()), answers)
      ensures storage == old(storage).(latch := storage.latch) && (old(groupChangePending) ==> groupChangePending)
      ensures answers == [] ==> View() == old(View())
    {
      hide Inv, Answered;
      NoAnswer(HandlerState());
      assert answers[..0] == [];
      for i := 0 to |answers|
        invariant Inv(View()) && OnlyHandlers(old(View()), View())
        invariant HandlerState() == Answered(old(HandlerState()), answers[..i])
        invariant i == 0 ==> View() == old(View())
      {
        OneMoreAnswer(old(HandlerState()), answers[..i], answers[i]);
        assert answers[..i + 1] == answers[..i] + [answers[i]];
        if answers[i] {
          if !groupChangePending {
            RequireBootstrapKeeps(View());
            storage, handlers := storage.(latch := true), handlers + 1;
          }
        } else if handlers > 0 {
          FlagRequiredKeeps(View());
          groupChangePending, handlers, unbacked := true, handlers - 1, !storage.latch;
        }
      }
      assert answers[..|answers|] == answers;
    }

    /** The lock is taken for a snapshot of the server at `at`. */
    method BeginFetch(at: nat)
      requires Enabled(View(), Fetch(at))
      modifies this`job
      ensures View() == Do(old(View()), Fetch(at))
      ensures job == Snapshotting(at, Fetched, false)
    {
      job := Snapshotting(at, Fetched, false);
    }

    /** commitSnapshot up to the latch write, if it has to quarantine. */
    method Quarantine()
      requires AtStage(View(), Fetched) && OwesQuarantine(View())
      modifies this`storage, this`job
      ensures View() == Do(old(View()), Replica.Quarantine)
      ensures job == old(job).(stage := Quarantining)
    {
      storage := storage.(latch := true);
      job := job.(stage := Quarantining);
    }

    method ClearStorage()
      requires (AtStage(View(), Quarantining) || (AtStage(View(), Fetched) && !OwesQuarantine(View())))
      modifies this`storage, this`groupChangePending, this`job
      ensures View() == Do(old(View()), Replica.ClearStorage)
      ensures AtStage(View(), Cleared) && job.at == old(job).at && job.quarantine == groupChangePending
              && log == old(log)
    {
      if job.stage == Quarantining {
        groupChangePending := true;
      }
      storage := EMPTY_DISK.(latch := storage.latch);
      job := Snapshotting(job.at, Cleared, groupChangePending);
    }

    /** `rows` is the snapshot the server took at the job's sync id. */
    method WriteSnapshot(rows: Table)
      requires AtStage(View(), Cleared) && job.at <= |log| && rows == Truth(log, job.at)
      modifies this`storage, this`job, this`high, this`base
      ensures View() == Do(old(View()), Replica.WriteSnapshot)
      ensures storage.rows == rows && job == old(job).(stage := RowsWritten)
    {
      hide Fold;
      storage := storage.(rows := rows);
      high, base := job.at, job.at;
      job := job.(stage := RowsWritten);
    }

    method SetCursorFromSnapshot()
      requires AtStage(View(), RowsWritten)
      modifies this`job, cursor
      ensures View() == Do(old(View()), SetFromBootstrap)
      ensures cursor.lastSyncId == job.at && cursor.snapshot == old(cursor.snapshot) + 1
              && job == old(job).(stage := CursorSet)
    {
      cursor.SetFromBootstrap(job.at);
      job := job.(stage := CursorSet);
    }

    method PersistSnapshot()
      requires AtStage(View(), CursorSet)
      modifies this`storage, this`groupChangePending, this`job, this`unbacked
      ensures View() == Do(old(View()), Replica.PersistSnapshot)
      ensures storage == Disk(old(storage).rows, cursor.lastSyncId, true, true, job.quarantine)
              && job == old(job).(stage := Committed)
      ensures groupChangePending == (old(groupChangePending) && job.quarantine)
    {
      if !job.quarantine {
        groupChangePending := false;
      }
      storage := Disk(storage.rows, cursor.lastSyncId, true, true, job.quarantine);
      job, unbacked := job.(stage := Committed), false;
    }

    /** The added-access debt is settled; whether the flag is set decides whether the outbox is sanitized. */
    method BeginReconcile()
      requires AtStage(View(), Committed)
      modifies this`addedAccessOwed, this`job
      ensures View() == Do(old(View()), Replica.BeginReconcile)
      ensures !addedAccessOwed && job == old(job).(stage := Reconciling, quarantine := groupChangePending)
    {
      addedAccessOwed := false;
      job := job.(stage := Reconciling, quarantine := groupChangePending);
    }

    method ClearLatch()
      requires AtStage(View(), Reconciling) && job.quarantine
      modifies this`storage, this`job
      ensures View() == Do(old(View()), Replica.ClearLatch)
      ensures storage == old(storage).(latch := false) && job == old(job).(stage := LatchCleared)
    {
      storage := storage.(latch := false);
      job := job.(stage := LatchCleared);
    }

    method FinishReconcile()
      requires (AtStage(View(), LatchCleared) || (AtStage(View(), Reconciling) && !job.quarantine))
      modifies this`groupChangePending, this`phase, this`job, this`unbacked
      ensures View() == Do(old(View()), Replica.FinishReconcile)
      ensures job.Idle? && phase == Live
              && groupChangePending == (old(groupChangePending) && old(job).stage != LatchCleared)
    {
      if job.stage == LatchCleared {
        groupChangePending, unbacked := false, false;
      }
      phase, job := Live, Idle;
    }

    /** A storage call threw: the lock is released where the call stood. */
    method Abandon()
      requires job.Snapshotting? && job.stage != LatchCleared
      modifies this`phase, this`job
      ensures View() == Do(old(View()), Replica.Abandon)
    {
      phase, job := if phase == Starting then Recovering else phase, Idle;
    }

    // ---- whole calls, with the handlers of other answers running at every await

    /** An await of the commit: other handlers run, and the storage call may turn out to have failed. */
    method Await(answers: seq<bool>, fails: bool)
      requires phase == Live && Inv(View()) && job.Snapshotting? && job.stage != LatchCleared
      modifies this`storage, this`handlers, this`groupChangePending, this`unbacked, this`job
      ensures Inv(View()) && OnlyHandlers(old(View()), View())
      ensures HandlerState() == Answered(old(HandlerState()), answers)
      ensures storage == old(storage).(latch := storage.latch) && (old(groupChangePending) ==> groupChangePending)
      ensures job == if fails then Idle else old(job)
      ensures answers == [] ==> View() == old(View()).(job := job)
    {
      hide Inv;
      Meanwhile(answers);
      if fails {
        AbandonKeeps(View());
        job := Idle;
      }
    }

    /** The latch write of a commit that has to quarantine, and the await after it. */
    method QuarantineIfOwed(answers: seq<bool>, fails: bool)
      requires phase == Live && Inv(View()) && AtStage(View(), Fetched)
      modifies this`storage, this`handlers, this`groupChangePending, this`unbacked, this`job
      ensures Inv(View()) && OnlyHandlers(old(View()), View())
      ensures job.Idle? || (job.Snapshotting? && job.at == old(job.at)
                            && (job.stage == Quarantining || (job.stage == Fetched && !OwesQuarantine(View()))))
      ensures job.Idle? ==> fails
      ensures HandlerState()
              == if old(OwesQuarantine(View())) then Answered(Handling(true, false, old(handlers)), answers)
                 else old(HandlerState())
    {
      hide Inv, Answered;
      if (storage.complete || storage.synced || storage.rows != map[]) && !groupChangePending && !addedAccessOwed {
        QuarantineKeeps(View());
        Quarantine();
        Await(answers, fails);
      }
    }

    /** commitSnapshot up to the cleared storage, under quarantine where it owes one. */
    method ClearForSnapshot(answers: seq<seq<bool>>, fails: nat) returns (cleared: bool)
      requires phase == Live && Inv(View()) && AtStage(View(), Fetched) && |answers| == 3
      modifies this`storage, this`handlers, this`groupChangePending, this`unbacked, this`job
      ensures Inv(View()) && SameProgress(old(View()), View())
      ensures cleared ==> AtStage(View(), Cleared) && job.at == old(job.at)
      ensures !cleared ==> job.Idle? && (groupChangePending || addedAccessOwed || OnlyHandlers(old(View()), View()))
      ensures fails >= 3 ==> cleared
    {
      hide Inv, Do, OwesQuarantine;
      Await(answers[0], fails == 0);
      if fails == 0 {
        return false;
      }
      QuarantineIfOwed(answers[1], fails == 1);
      if job.Idle? {
        return false;
      }
      ClearStorageKeeps(View());
      ClearStorage();
      StillOwed(View());
      Await(answers[2], fails == 2);
      cleared := fails != 2;
    }

    /** commitBootstrapRows' batch, then the cursor in memory. */
    method FillFromSnapshot(rows: Table, answers: seq<bool>, fails: bool)
      requires phase == Live && Inv(View()) && AtStage(View(), Cleared) && job.at <= |log| && rows == Truth(log, job.at)
      modifies this, cursor
      ensures Inv(View()) && phase == Live && log == old(log) && addedAccessOwed == old(addedAccessOwed)
      ensures if fails then job.Idle? && (groupChangePending || addedAccessOwed)
              else AtStage(View(), CursorSet) && job.at == old(job.at) && storage.rows == rows
                   && cursor.lastSyncId == job.at && cursor.snapshot == old(cursor.snapshot) + 1
    {
      hide Inv, Do, OnlyHandlers, Fold, Truth;
      StillOwed(View());
      WriteSnapshotKeeps(View());
      WriteSnapshot(rows);
      Await(answers, fails);
      if !fails {
        SetFromBootstrapKeeps(View());
        SetCursorFromSnapshot();
      }
    }

    /** The models are marked persisted, then the last metadata is written. */
    method PersistMetadata(answers: seq<bool>, fails: bool)
      requires phase == Live && Inv(View()) && AtStage(View(), CursorSet)
      modifies this
      ensures Inv(View()) && phase == Live && log == old(log) && addedAccessOwed == old(addedAccessOwed)
      ensures if fails then job.Idle? && (groupChangePending || addedAccessOwed)
              else AtStage(View(), Committed) && job.at == old(job.at) && storage.complete
                   && storage.rows == old(storage).rows && storage.cursor == cursor.lastSyncId
                   && (groupChangePending <==> storage.latch)
    {
      hide Inv, Do, OnlyHandlers;
      StillOwed(View());
      Await(answers, fails);
      if !fails {
        QuarantineIsFlagged(View());
        PersistSnapshotKeeps(View());
        PersistSnapshot();
      }
    }

    /** The outbox is sanitized, if the flag is set, and replayed. */
    method ReconcileOutbox(answers: seq<seq<bool>>, fails: bool)
      requires phase == Live && Inv(View()) && AtStage(View(), Committed) && |answers| == 2
      modifies this
      ensures Inv(View()) && phase == Live && log == old(log) && !addedAccessOwed
      ensures storage == old(storage).(latch := storage.latch)
      ensures if fails then job.Idle? else AtStage(View(), Reconciling) && (job.quarantine ==> groupChangePending)
      ensures !fails && NoAnswers(answers) ==>
                job.quarantine == groupChangePending == old(groupChangePending) && storage == old(storage)
      ensures HandlerState() == Answered(Answered(old(HandlerState()), answers[0]), answers[1])
    {
      hide Inv, Do, OnlyHandlers, Answered;
      Await(answers[0], false);
      BeginReconcileKeeps(View());
      BeginReconcile();
      Await(answers[1], fails);
    }

    /** If the outbox was sanitized, the latch is cleared and then the flag. */
    method ClearFlag(answers: seq<bool>)
      requires phase == Live && Inv(View()) && AtStage(View(), Reconciling)
      modifies this
      ensures Inv(View()) && phase == Live && job.Idle? && log == old(log) && addedAccessOwed == old(addedAccessOwed)
      ensures storage == old(storage).(latch := storage.latch)
      ensures old(job).quarantine && answers == [] ==> !groupChangePending && !storage.latch
      ensures !old(job).quarantine ==> groupChangePending == old(groupChangePending) && storage == old(storage)
      ensures HandlerState()
              == if old(job).quarantine then
                   Answered(Handling(false, old(groupChangePending), old(handlers)), answers).(flag := false)
                 else old(HandlerState())
    {
      hide Inv, Do, OnlyHandlers, Answered;
      if job.quarantine {
        ClearLatchKeeps(View());
        ClearLatch();
        Meanwhile(answers);
      }
      FinishReconcileKeeps(View());
      FinishReconcile();
    }

    /**
     * A packet under the state lock from the first check to the persisted cursor, with no other
     * handler in between: dropped if it was read against another snapshot; a membership change
     * makes a re-bootstrap owed and moves nothing; while one is owed the packet is held; otherwise
     * the rows grow by the part of the packet above the cursor and both cursors move to its end.
     */
    method ApplyPacket(r: nat, onlyAddsAccess: bool)
      requires phase == Live && job.Idle? && Inv(View()) && InHand(r)
      modifies this, cursor
      ensures Inv(View()) && phase == Live && job.Idle? && log == old(log)
      ensures PacketApplied(old(View()), View(), old(readers[r]).tag, old(readers[r]).packet.value, onlyAddsAccess)
      ensures HandedBack(old(readers), readers, r)
    {
      hide Inv, Do, Fold, HasGroupChange, AllGaps, HandedBack;
      ghost var s, p := View(), readers[r].packet.value;
      AcceptKeeps(View(), r, onlyAddsAccess);
      ReaderBehind(View(), r);
      ApplyDeltaPacket(r, onlyAddsAccess);
      if !job.Idle? {
        if job.Advancing? {
          GapsApplied(s.disk.rows, log, s.cursor, p.last);
        }
        FinishPacket();
      }
    }

    /** From the first write of a packet to the end of its turn. */
    method FinishPacket()
      requires Inv(View()) && (job.Granting? || job.Latching? || job.Writing? || job.Advancing?)
      requires HoldsPacket(View(), job.reader)
      requires job.Writing? ==> InHand(job.reader) && cursor.lastSyncId <= Last(View(), job.reader)
                                && readers[job.reader].packet.value.after <= cursor.lastSyncId
      modifies this, cursor
      ensures Inv(View()) && phase == old(phase) && job.Idle? && log == old(log)
      ensures HandedBack(old(readers), readers, old(job).reader)
      ensures old(job).Granting? ==> addedAccessOwed && groupChangePending == old(groupChangePending)
      ensures old(job).Latching? ==> groupChangePending && addedAccessOwed == old(addedAccessOwed)
      ensures old(job).Granting? || old(job).Latching? ==>
                storage == old(storage) && cursor.lastSyncId == old(cursor.lastSyncId)
      ensures old(job).Writing? || old(job).Advancing? ==>
                groupChangePending == old(groupChangePending) && addedAccessOwed == old(addedAccessOwed)
      ensures old(job).Writing? ==>
                var last := Last(old(View()), old(job.reader));
                && storage.rows == Fold(old(storage).rows, log[old(cursor.lastSyncId)..last])
                && storage.cursor == cursor.lastSyncId == last
      ensures old(job).Advancing? ==>
                storage == old(storage).(cursor := cursor.lastSyncId, synced := true)
                && cursor.lastSyncId == old(cursor.lastSyncId)
    {
      hide Inv, Do, Fold, HandedBack;
      if job.Granting? || job.Latching? {
        OweRebootstrap();
      } else if job.Writing? {
        FlushToEnd();
      } else {
        CursorToDisk();
      }
    }

    /** The await of a membership change, and the flag after it. */
    method OweRebootstrap()
      requires Inv(View()) && (job.Granting? || job.Latching?) && HoldsPacket(View(), job.reader)
      modifies this`readers, this`job, this`groupChangePending, this`addedAccessOwed
      ensures Inv(View()) && job.Idle? && HandedBack(old(readers), readers, old(job).reader)
      ensures if old(job).Granting? then addedAccessOwed && groupChangePending == old(groupChangePending)
              else groupChangePending && addedAccessOwed == old(addedAccessOwed)
    {
      hide Inv;
      if job.Granting? {
        GrantKeeps(View());
        OweAddedAccess();
      } else {
        LatchKeeps(View());
        if job.wasPending {
          WasPendingStill(View());
        }
        FlagGroupChange();
      }
    }

    method CursorToDisk()
      requires Inv(View()) && job.Advancing? && HoldsPacket(View(), job.reader)
      modifies this`storage, this`readers, this`job
      ensures Inv(View()) && storage == old(storage).(cursor := cursor.lastSyncId, synced := true) && job.Idle?
      ensures HandedBack(old(readers), readers, old(job).reader)
    {
      hide Inv;
      PersistCursorKeeps(View());
      PersistCursor();
    }

    /** The rows of the packet above the cursor, then the cursor in memory, then on disk. */
    method FlushToEnd()
      requires Inv(View()) && job.Writing? && InHand(job.reader) && cursor.lastSyncId <= Last(View(), job.reader)
      requires readers[job.reader].packet.value.after <= cursor.lastSyncId
      modifies this, cursor
      ensures Inv(View()) && phase == old(phase) && job.Idle? && log == old(log)
      ensures HandedBack(old(readers), readers, old(job).reader)
      ensures groupChangePending == old(groupChangePending) && addedAccessOwed == old(addedAccessOwed)
      ensures var last := Last(old(View()), old(job.reader));
              && storage.rows == Fold(old(storage).rows, log[old(cursor.lastSyncId)..last])
              && storage.cursor == cursor.lastSyncId == last
    {
      hide Inv, Fold;
      FlushKeeps(View());
      FlushRows();
      AdvanceMemoryKeeps(View());
      AdvanceCursor();
      CursorToDisk();
    }

    /**
     * bootstrapAndResume under the state lock: replace the local rows by a snapshot the server took
     * and reconcile the outbox. If it lands, rows, metadata and both cursors are the snapshot's and
     * nothing is owed for added access; undisturbed by other answers, neither flag nor latch is left.
     * If it fails before that, a re-bootstrap is still owed, which holds every packet, or nothing
     * has changed but the latch and the flag.
     */
    method BootstrapAndResume(at: nat, rows: Table, answers: seq<seq<bool>>, fails: nat) returns (landed: bool)
      requires phase == Live && Inv(View()) && Enabled(View(), Fetch(at)) && rows == Truth(log, at) && |answers| == 8
      modifies this, cursor
      ensures Inv(View()) && phase == Live && job.Idle? && log == old(log)
      ensures landed ==> Holds(rows, at) && !addedAccessOwed && cursor.snapshot == old(cursor.snapshot) + 1
      ensures landed && NoAnswers(answers) ==> !groupChangePending && !storage.latch
      ensures !landed ==> groupChangePending || addedAccessOwed || Holds(rows, at) || OnlyHandlers(old(View()), View())
      ensures fails >= 6 ==> landed
    {
      hide Inv, Do, Fold, Truth, OwesQuarantine;
      FetchKeeps(View(), at);
      BeginFetch(at);
      landed := ClearForSnapshot(answers[..3], fails);
      if landed {
        landed := Commit(rows, answers[3..5], fails);
      }
      if landed {
        landed := Resume(answers[5..], fails);
      }
    }

    method Commit(rows: Table, answers: seq<seq<bool>>, fails: nat) returns (committed: bool)
      requires phase == Live && Inv(View()) && AtStage(View(), Cleared) && job.at <= |log| && rows == Truth(log, job.at)
      requires |answers| == 2
      modifies this, cursor
      ensures Inv(View()) && phase == Live && log == old(log)
      ensures if committed then
                && AtStage(View(), Committed) && Holds(rows, old(job.at)) && (groupChangePending <==> storage.latch)
                && cursor.snapshot == old(cursor.snapshot) + 1
              else job.Idle? && (groupChangePending || addedAccessOwed)
      ensures fails != 3 && fails != 4 ==> committed
    {
      hide Inv, Do, OnlyHandlers, Fold, Truth;
      FillFromSnapshot(rows, answers[0], fails == 3);
      if fails == 3 {
        return false;
      }
      PersistMetadata(answers[1], fails == 4);
      committed := fails != 4;
    }

    method Resume(answers: seq<seq<bool>>, fails: nat) returns (done: bool)
      requires phase == Live && Inv(View()) && AtStage(View(), Committed) && |answers| == 3
      modifies this
      ensures Inv(View()) && phase == Live && job.Idle? && log == old(log) && !addedAccessOwed
      ensures storage == old(storage).(latch := storage.latch)
      ensures done && NoAnswers(answers) && old(groupChangePending <==> storage.latch)
              ==> !groupChangePending && !storage.latch
      ensures fails != 5 ==> done
    {
      hide Inv, Do, OnlyHandlers;
      ReconcileOutbox(answers[..2], fails == 5);
      if fails == 5 {
        return false;
      }
      ClearFlag(answers[2]);
      done := true;
    }

    /** The stored rows are the snapshot, and both cursors stand at it. */
    ghost predicate Holds(rows: Table, at: nat)
      reads this, cursor
    {
      storage.complete && storage.rows == rows && storage.cursor == at && cursor.lastSyncId == at
    }
  }

  /** The reader has given its packet back and stands at its end, or further; no other reader moved. */
  ghost predicate HandedBack(before: map<nat, Reader>, after: map<nat, Reader>, r: nat) {
    && r in before && before[r].packet.Some? && after.Keys == before.Keys
    && after[r] == Reader(before[r].tag, Max(before[r].pos, before[r].packet.value.last), None)
    && forall q :: q in before && q != r ==> after[q] == before[q]
  }

  /** What a packet p read against snapshot `tag` does to the client. */
  ghost predicate PacketApplied(s: State, s': State, tag: nat, p: Packet, onlyAddsAccess: bool)
    requires p.last <= |s.log|
  {
    if tag == s.snapshot && HasGroupChange(s.log, p.after, p.last) then
      && s'.disk == s.disk.(latch := s'.disk.latch) && s'.cursor == s.cursor
      && (if onlyAddsAccess && !s.pending then s'.owed && s'.disk == s.disk
          else s'.pending && (s'.disk.latch || s.pending))
    else if tag != s.snapshot || s.pending || s.owed || p.last <= s.cursor then
      s'.disk == s.disk && s'.cursor == s.cursor && s'.pending == s.pending && s'.owed == s.owed
    else
      && s'.disk.rows == Fold(s.disk.rows, s.log[s.cursor..p.last])
      && s'.disk.cursor == s'.cursor == p.last && s'.pending == s.pending && s'.owed == s.owed
  }

  lemma GapsApplied(rows: Table, log: Log, from: nat, to: nat)
    requires from <= to <= |log| && AllGaps(log, from, to)
    ensures Fold(rows, log[from..to]) == rows
  {
    GapsFold(rows, log[from..to]);
  }

  lemma WasPendingStill(s: State)
    requires Inv(s) && s.job.Latching? && s.job.wasPending
    ensures s.pending
  {
  }

  lemma ReaderBehind(s: State, r: nat)
    requires Inv(s) && s.phase == Live && s.job.Idle? && HoldsPacket(s, r)
    ensures s.readers[r].tag == s.snapshot && !s.pending && !s.owed ==> s.readers[r].packet.value.after <= s.cursor
  {
  }

  /** At most the latch, the flag, their handlers and the lock have changed, and neither is unset. */
  ghost predicate OnlyHandlers(before: State, after: State) {
    && after == before.(disk := before.disk.(latch := after.disk.latch), pending := after.pending,
                        handlers := after.handlers, unbacked := after.unbacked, job := after.job)
    && (before.disk.latch ==> after.disk.latch) && (before.pending ==> after.pending)
  }

  ghost predicate SameProgress(before: State, after: State) {
    && after.log == before.log && after.phase == before.phase && after.owed == before.owed
    && after.readers == before.readers && after.cursor == before.cursor && after.snapshot == before.snapshot
  }

  /** While a live commit has storage cleared, the re-bootstrap it serves is owed. */
  lemma StillOwed(s: State)
    requires Inv(s) && s.phase == Live && Replacing(s.job)
    ensures s.pending || s.owed
  {
  }

  lemma QuarantineIsFlagged(s: State)
    requires Inv(s) && s.job.Snapshotting?
    ensures s.job.quarantine ==> s.pending
  {
  }

  ghost predicate NoAnswers(answers: seq<seq<bool>>) {
    forall i :: 0 <= i < |answers| ==> answers[i] == []
  }

  lemma GroupInSlice(log: Log, a: nat, b: nat)
    requires a <= b <= |log|
    ensures HasGroupChange(log, a, b) <==> exists i :: 0 <= i < |log[a..b]| && log[a..b][i].GroupChange?
  {
    if HasGroupChange(log, a, b) {
      var i :| a <= i < b && log[i].GroupChange?;
      assert log[a..b][i - a] == log[i];
    }
  }

  lemma GapsInSlice(log: Log, a: nat, c: nat, b: nat)
    requires a <= c <= b <= |log|
    ensures AllGaps(log, c, b) <==> forall i :: c - a <= i < |log[a..b]| ==> log[a..b][i].Gap?
  {
    forall i | c <= i < b ensures log[i] == log[a..b][i - a] {
    }
  }
}
