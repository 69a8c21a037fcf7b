/**
 * The outbox manager as the object it is: fields updated in place, one method for each piece of
 * code that runs between two awaits, each proved to be the event of the protocol it stands for.
 */
module OutboxManagers {
  import opened Records
  import opened Queues
  import opened Outbox

  class OutboxManager {
    /** the persisted outbox */
    var storage: Rows
    var pendingBatch: seq<Tx>
    var sendQueue: seq<Waiting>
    var claimedTxIds: set<nat>
    var discardedClaims: set<nat>
    var retryBacklog: seq<Tx>
    var nextBatchIndex: nat
    /** the suspended calls: the running job, its finally blocks, the rest of a replay, discards */
    var job: Job
    var frames: seq<seq<Tx>>
    var replaying: bool
    var replayRest: seq<Tx>
    var discards: map<nat, nat>
    ghost var sends: seq<seq<Tx>>
    ghost var used: set<nat>
    ghost var dropped: set<nat>
    ghost var acked: set<nat>
    ghost var owed: set<Tx>

    ghost function View(): State
      reads this
    {
      State(storage, nextBatchIndex, pendingBatch, sendQueue, claimedTxIds, discardedClaims, retryBacklog, job, frames,
            replaying, replayRest, discards, sends, used, dropped, acked, owed)
    }

    /** A new session over a persisted outbox: the sequence is seeded above every row in it. */
    constructor (persisted: Rows, order: seq<nat>)
      requires forall id :: id in persisted <==> id in order
      ensures Initial(View()) && storage == persisted
    {
      storage := persisted;
      pendingBatch, sendQueue, retryBacklog, frames, replayRest := [], [], [], [], [];
      claimedTxIds, discardedClaims, discards := {}, {}, map[];
      job, replaying := Idle, false;
      sends, used, dropped, acked, owed := [], persisted.Keys, {}, {}, {};
      var next: nat := 0;
      for i := 0 to |order|
        invariant forall k :: 0 <= k < i ==> persisted[order[k]].index < next
      {
        if persisted[order[i]].index >= next {
          next := persisted[order[i]].index + 1;
        }
      }
      nextBatchIndex := next;
      forall id | id in persisted ensures persisted[id].index < next {
        var k :| 0 <= k < |order| && order[k] == id;
      }
    }

    method Claim(transactions: seq<Tx>)
      modifies this`claimedTxIds
      ensures claimedTxIds == old(claimedTxIds) + Ids(transactions)
    {
      for i := 0 to |transactions|
        invariant claimedTxIds == old(claimedTxIds) + Ids(transactions[..i])
      {
        claimedTxIds := claimedTxIds + {transactions[i].id};
        TakeOne(transactions, i);
      }
      assert transactions[..|transactions|] == transactions;
    }

    method Release(transactions: seq<Tx>)
      modifies this`claimedTxIds, this`discardedClaims
      ensures claimedTxIds == old(claimedTxIds) - Ids(transactions)
      ensures discardedClaims == old(discardedClaims) - Ids(transactions)
    {
      for i := 0 to |transactions|
        invariant claimedTxIds == old(claimedTxIds) - Ids(transactions[..i])
        invariant discardedClaims == old(discardedClaims) - Ids(transactions[..i])
      {
        claimedTxIds := claimedTxIds - {transactions[i].id};
        discardedClaims := discardedClaims - {transactions[i].id};
        TakeOne(transactions, i);
      }
      assert transactions[..|transactions|] == transactions;
    }

    /** `transactions.filter((tx) => !ids.has(tx.clientTxId))` */
    static method Filter(transactions: seq<Tx>, ids: set<nat>) returns (kept: seq<Tx>)
      ensures kept == Without(transactions, ids)
    {
      kept := [];
      for i := 0 to |transactions|
        invariant kept == Without(transactions[..i], ids)
      {
        WithoutSnoc(transactions[..i], transactions[i], ids);
        assert transactions[..i + 1] == transactions[..i] + [transactions[i]];
        if transactions[i].id !in ids {
          kept := kept + [transactions[i]];
        }
      }
      assert transactions[..|transactions|] == transactions;
    }

    method WithoutDiscarded(transactions: seq<Tx>) returns (kept: seq<Tx>)
      ensures kept == Without(transactions, discardedClaims)
    {
      if discardedClaims == {} {
        WithoutNothing(transactions, {});
        return transactions;
      }
      kept := Filter(transactions, discardedClaims);
    }

    method TakeRetryBacklog(transactions: seq<Tx>) returns (owedFirst: seq<Tx>)
      modifies this`retryBacklog
      ensures owedFirst == Without(old(retryBacklog), Ids(transactions)) + transactions
      ensures retryBacklog == []
    {
      if retryBacklog == [] {
        WithoutSelf(retryBacklog, transactions);
        assert [] + transactions == transactions;
        return transactions;
      }
      var requested: set<nat> := {};
      for i := 0 to |transactions|
        invariant requested == Ids(transactions[..i]) && retryBacklog == old(retryBacklog)
      {
        requested := requested + {transactions[i].id};
        TakeOne(transactions, i);
      }
      assert transactions[..|transactions|] == transactions;
      var owedHere := Filter(retryBacklog, requested);
      retryBacklog := [];
      owedFirst := owedHere + transactions;
    }

    method QueueTransaction(id: nat)
      requires id !in used
      modifies this`nextBatchIndex, this`storage, this`claimedTxIds, this`pendingBatch, this`used
      ensures View() == Enqueued(old(View()), id)
    {
      hide Ids, Without;
      var tx := Tx(id, nextBatchIndex);
      nextBatchIndex := nextBatchIndex + 1;
      storage := storage[id := Row(tx.index, Queued)];
      claimedTxIds := claimedTxIds + {id};
      pendingBatch := pendingBatch + [tx];
      used := used + {id};
    }

    /** dispatchBatch claims what is claimed already, and queues the send. */
    method FlushBatch()
      requires Inv(View())
      modifies this`pendingBatch, this`sendQueue, this`claimedTxIds
      ensures View() == if old(pendingBatch) == [] then old(View()) else Flushed(old(View()))
    {
      hide Inv, Ids;
      PendingIsClaimed(View());
      if pendingBatch == [] {
        return;
      }
      var batch := pendingBatch;
      pendingBatch := [];
      Claim(batch);
      sendQueue := sendQueue + [Send(batch)];
      assert claimedTxIds == old(claimedTxIds);
    }

    /** sendBatch up to its first await. */
    method SendBatch(requested: seq<Tx>)
      modifies this`retryBacklog, this`claimedTxIds, this`frames, this`job
      ensures View() == BeginSend(old(View()), requested)
    {
      hide Ids, Without;
      var transactions := TakeRetryBacklog(requested);
      WithoutSelf(old(retryBacklog), requested);
      if transactions == [] {
        job := Unwinding;
        return;
      }
      var carried := transactions[..|transactions| - |requested|];
      assert carried == Without(old(retryBacklog), Ids(requested));
      CarryOwed(carried, transactions);
    }

    /** What is owed is claimed for this send, until its finally block. */
    method CarryOwed(carried: seq<Tx>, transactions: seq<Tx>)
      modifies this`claimedTxIds, this`frames, this`job
      ensures View() == old(View()).(claimed := old(claimedTxIds) + Ids(carried), frames := [carried] + old(frames),
                                     job := Marking(Without(transactions, old(discardedClaims)), transactions))
    {
      hide Ids, Without;
      Claim(carried);
      var todo := WithoutDiscarded(transactions);
      frames := [carried] + frames;
      job := Marking(todo, transactions);
    }

    /** The next job on the queue is a send. */
    method StartSend()
      requires sendQueue != [] && sendQueue[0].Send?
      modifies this`sendQueue, this`retryBacklog, this`claimedTxIds, this`frames, this`job
      ensures View() == SendStarted(old(View()))
    {
      var batch := sendQueue[0].batch;
      sendQueue := sendQueue[1..];
      frames := [batch] + frames;
      SendBatch(batch);
    }

    method MarkTransactionSent()
      requires job.Marking? && job.todo != []
      modifies this`storage, this`job
      ensures View() == old(View()).(outbox := SetState(old(storage), old(job).todo[0].id, Sent),
                                     job := Marking(old(job).todo[1..], old(job).batch))
    {
      var tx := job.todo[0];
      storage := SetState(storage, tx.id, Sent);
      job := Marking(job.todo[1..], job.batch);
    }

    /** After the last row is marked: the call of the transport, unless everything was discarded. */
    method CallTransport() returns (batch: seq<Tx>)
      requires job.Marking? && job.todo == []
      modifies this`job, this`sends, this`owed
      ensures View() == Mutated(old(View()))
      ensures batch == Without(old(job).batch, discardedClaims)
      ensures batch != [] ==> sends == old(sends) + [batch] && job == InFlight(batch)
    {
      batch := WithoutDiscarded(job.batch);
      WithoutMembers(job.batch, discardedClaims);
      if batch == [] {
        job := Unwinding;
        return;
      }
      job := InFlight(batch);
      sends := sends + [batch];
      owed := set t | t in owed && t !in batch;
    }

    /**
     * sendClaimedBatch up to the transport: the rows are marked sent one by one, other transactions
     * being discarded at the awaits in between. The transport gets the claimed batch, in order,
     * without any of those, and every row it gets that is still stored is marked sent.
     */
    method SendClaimedBatch(meanwhile: seq<Option<nat>>, firstHandle: nat) returns (batch: seq<Tx>)
      requires job.Marking? && |meanwhile| == |job.todo| && Ids(job.todo) == Ids(job.batch) - discardedClaims
      requires Ids(job.batch) <= claimedTxIds && Ids(job.batch) !! Ids(pendingBatch)
      requires forall h :: h in discards ==> h < firstHandle
      modifies this
      ensures batch == Without(old(job).batch, discardedClaims) && old(discardedClaims) <= discardedClaims
      ensures forall i :: 0 <= i < |meanwhile| && meanwhile[i].Some? ==> meanwhile[i].value !in Ids(batch)
      ensures forall id :: id in Ids(batch) && id in storage ==> storage[id].state.Sent?
      ensures batch != [] ==> sends == old(sends) + [batch] && job == InFlight(batch)
    {
      hide Without;
      ghost var claimed, todo := job.batch, job.todo;
      for i := 0 to |meanwhile|
        invariant job == Marking(todo[i..], claimed) && sends == old(sends)
        invariant Ids(claimed) <= claimedTxIds && Ids(claimed) !! Ids(pendingBatch)
        invariant old(discardedClaims) <= discardedClaims && forall h :: h in discards ==> h < firstHandle + i
        invariant forall j ::
                    0 <= j < i && meanwhile[j].Some? && meanwhile[j].value in Ids(claimed)
                    ==> meanwhile[j].value in discardedClaims
        invariant forall id :: id in Ids(todo[..i]) && id in storage ==> storage[id].state.Sent?
      {
        TakeOne(todo, i);
        MarkOne(meanwhile[i], firstHandle + i);
      }
      assert todo[..|todo|] == todo;
      WithoutIds(claimed, discardedClaims);
      batch := CallTransport();
    }

    /** One row is marked sent, and one transaction discarded while that is written. */
    method MarkOne(discarded: Option<nat>, handle: nat)
      requires job.Marking? && job.todo != []
      requires Ids(job.batch) <= claimedTxIds && Ids(job.batch) !! Ids(pendingBatch) && handle !in discards
      modifies this`storage, this`job, this`pendingBatch, this`claimedTxIds, this`discardedClaims, this`discards,
               this`dropped
      ensures job == Marking(old(job).todo[1..], old(job).batch)
      ensures Ids(job.batch) <= claimedTxIds && Ids(job.batch) !! Ids(pendingBatch)
      ensures old(discardedClaims) <= discardedClaims && discards.Keys <= old(discards).Keys + {handle}
      ensures discarded.Some? && discarded.value in Ids(job.batch) ==> discarded.value in discardedClaims
      ensures forall id :: id in storage ==>
                id in old(storage)
                && (storage[id].state.Sent? <==> old(storage)[id].state.Sent? || id == old(job).todo[0].id)
    {
      hide Without, Ids;
      MarkTransactionSent();
      if discarded.Some? {
        WithoutIds(pendingBatch, {discarded.value});
        DiscardTransaction(handle, discarded.value);
      }
    }

    /** A batched transaction leaves pendingBatch; a dispatched one is marked for its sender to skip. */
    method Withdraw(id: nat)
      modifies this`pendingBatch, this`claimedTxIds, this`discardedClaims
      ensures pendingBatch == Drop(old(View()), id).pending
      ensures claimedTxIds == Drop(old(View()), id).claimed
      ensures discardedClaims == Drop(old(View()), id).discarded
    {
      var batched := |pendingBatch|;
      FilterLength(pendingBatch, id);
      pendingBatch := Filter(pendingBatch, {id});
      if |pendingBatch| != batched {
        claimedTxIds := claimedTxIds - {id};
      } else if id in claimedTxIds {
        discardedClaims := discardedClaims + {id};
      }
    }

    /** discardTransaction up to its await. */
    method DiscardTransaction(handle: nat, id: nat)
      requires handle !in discards
      modifies this`pendingBatch, this`claimedTxIds, this`discardedClaims, this`storage, this`discards, this`dropped
      ensures View() == Drop(old(View()), id).(discards := old(discards)[handle := id])
    {
      hide Ids, Without;
      Withdraw(id);
      storage := storage - {id};
      discards := discards[handle := id];
      dropped := dropped + {id};
    }

    /** discardTransaction after its await. */
    method FinishDiscard(handle: nat)
      requires handle in discards
      modifies this`retryBacklog, this`discards
      ensures View() == old(View()).(backlog := Without(old(retryBacklog), {old(discards)[handle]}),
                                     discards := old(discards) - {handle})
    {
      retryBacklog := Filter(retryBacklog, {discards[handle]});
      discards := discards - {handle};
    }

    static method HighestSyncId(results: seq<TxResult>, lastSyncId: nat) returns (highest: nat)
      ensures highest == Highest(results, lastSyncId)
    {
      highest := lastSyncId;
      for i := 0 to |results|
        invariant highest == Highest(results[..i], lastSyncId)
      {
        assert results[..i + 1][..i] == results[..i];
        if results[i].syncId.Some? {
          highest := Max(highest, results[i].syncId.value);
        }
      }
      assert results[..|results|] == results;
    }

    method HandleMutateResult(results: seq<TxResult>, lastSyncId: nat)
      requires job.InFlight?
      modifies this`job
      ensures job == Settling(results, Highest(results, lastSyncId), old(job).batch, old(job).batch)
    {
      var highest := HighestSyncId(results, lastSyncId);
      job := Settling(results, highest, job.batch, job.batch);
    }

    /** handleTransportFailure after its last write. */
    method PushBack()
      requires job.Requeueing? && job.todo == []
      modifies this`retryBacklog, this`owed, this`job
      ensures View() == Requeued(old(View()))
    {
      var kept := WithoutDiscarded(job.batch);
      retryBacklog := retryBacklog + kept;
      owed := owed + set t | t in kept;
      job := Unwinding;
    }

    /** A row that was sent and never answered can be tried again. */
    method ResetSentRows(unclaimed: seq<Tx>)
      modifies this`storage
      ensures storage == ResetSent(old(storage), Ids(unclaimed))
    {
      NothingReset(storage);
      assert unclaimed[..0] == [];
      for i := 0 to |unclaimed|
        invariant storage == ResetSent(old(storage), Ids(unclaimed[..i]))
      {
        var tx := unclaimed[i];
        TakeOne(unclaimed, i);
        ResetOne(old(storage), Ids(unclaimed[..i]), tx.id);
        if tx.id in storage && storage[tx.id].state.Sent? {
          storage := SetState(storage, tx.id, Queued);
        }
      }
      assert unclaimed[..|unclaimed|] == unclaimed;
    }

    /** replayPersisted after its read: forget the backlog, keep the unclaimed rows. */
    method ReplayPersisted()
      requires job.Reading?
      modifies this`retryBacklog, this`storage, this`replaying, this`replayRest, this`job
      ensures View() == OutboxRead(old(View()))
    {
      hide Ids, Without, ResetSent, SetState;
      retryBacklog := [];
      var unclaimed := Filter(job.rows, claimedTxIds);
      ResetSentRows(unclaimed);
      replaying, replayRest, job := true, unclaimed, Replaying;
    }

    /** One finally block. */
    method Finally()
      requires frames != []
      modifies this`claimedTxIds, this`discardedClaims, this`frames, this`job
      ensures View() == Released(old(View()))
    {
      Release(frames[0]);
      job := if |frames| > 1 then Unwinding else if replaying then Replaying else Idle;
      frames := frames[1..];
    }
  }

  lemma PendingIsClaimed(s: State)
    requires Inv(s)
    ensures Ids(s.pending) <= s.claimed
  {
    IdsConcat(Flatten(s.frames) + Flatten(Batches(s.waiting)), s.pending);
    assert Claims(s) == Flatten(s.frames) + Flatten(Batches(s.waiting)) + s.pending;
  }

  lemma TakeOne(ts: seq<Tx>, i: nat)
    requires i < |ts|
    ensures Ids(ts[..i + 1]) == Ids(ts[..i]) + {ts[i].id}
  {
    assert ts[..i + 1] == ts[..i] + [ts[i]];
    IdsConcat(ts[..i], [ts[i]]);
    assert Ids([ts[i]]) == {ts[i].id};
  }

  lemma {:induction false} WithoutSnoc(ts: seq<Tx>, t: Tx, ids: set<nat>)
    ensures Without(ts + [t], ids) == Without(ts, ids) + (if t.id in ids then [] else [t])
  {
    if ts == [] {
      assert ts + [t] == [t] && [t][1..] == [];
    } else {
      assert (ts + [t])[1..] == ts[1..] + [t];
      WithoutSnoc(ts[1..], t, ids);
    }
  }

  /** An empty backlog has nothing to carry, an empty request leaves nothing out. */
  lemma WithoutSelf(backlog: seq<Tx>, requested: seq<Tx>)
    ensures backlog == [] ==> Without(backlog, Ids(requested)) == []
    ensures requested == [] ==> Without(backlog, Ids(requested)) == backlog
  {
    NoIds();
    WithoutNothing(backlog, {});
  }

  lemma NothingReset(rows: Rows)
    ensures ResetSent(rows, Ids([])) == rows
  {
    NoIds();
  }

  lemma ResetOne(rows: Rows, done: set<nat>, id: nat)
    ensures var before := ResetSent(rows, done);
            ResetSent(rows, done + {id})
            == if id in before && before[id].state.Sent? then SetState(before, id, Queued) else before
  {
  }

  /** A filter on one id shortens the list exactly when the id is in it. */
  lemma FilterLength(ts: seq<Tx>, id: nat)
    ensures |Without(ts, {id})| != |ts| <==> id in Ids(ts)
  {
    if id in Ids(ts) {
      WithoutShrinks(ts, {id}, id);
    } else {
      WithoutNothing(ts, {id});
    }
  }
}
