/** What the outbox guarantees over every run. */
module OutboxTheorems {
  import opened Records
  import opened Queues
  import opened Outbox
  import opened OutboxInvariant

  ghost predicate Reachable(s: State) {
    exists start, run :: Initial(start) && Legal(start, run) && Run(start, run) == s
  }

  lemma ReachableInv(s: State)
    requires Reachable(s)
    ensures Inv(s)
  {
    var start, run :| Initial(start) && Legal(start, run) && Run(start, run) == s;
    InitialInv(start);
    RunKeeps(start, run);
  }

  /**
   * Single ownership: no transaction is queued twice, whatever the interleaving, and the batch
   * a replay is about to take holds nothing that another sender has claimed.
   */
  lemma SingleOwner(s: State)
    requires Reachable(s)
    ensures Distinct(Line(s))
    ensures s.claimed == Ids(Flatten(s.frames)) + Ids(Tail(s))
    ensures Ids(s.replayRest) !! s.claimed
    ensures JobFree(s.job) ==> s.claimed == Ids(Tail(s))
  {
    ReachableInv(s);
    LineParts(s);
    ClaimParts(s);
    NoIds();
  }

  /**
   * A transaction leaves the durable outbox exactly when it is discarded or confirmed, rejected on
   * its own, or settled by its answer: refused, or accepted with nothing left to wait for.
   */
  lemma RowsLeave(s: State, e: Event, id: nat)
    requires Enabled(s, e) && id in s.outbox
    ensures id !in Do(s, e).outbox
      <==> || (e.DiscardBegin? && e.id == id)
           || (e.RejectBatch? && e.id == id)
           || (e.SettleOne? && s.job.results[0].id == id && id in Ids(s.job.batch)
               && (s.job.results[0].success ==> s.job.results[0].syncId == None && s.job.highest == 0))
  {
    hide Distinct, Flatten, Batches, Without, Sub, Line, Claims, Tail;
  }

  /** Only queueing adds a row: stamped with the next index, waiting to be sent. */
  lemma RowsArrive(s: State, e: Event, id: nat)
    requires Enabled(s, e) && id !in s.outbox
    ensures id in Do(s, e).outbox <==> e == Enqueue(id)
    ensures e == Enqueue(id) ==>
              Do(s, e).outbox[id] == Row(s.nextIndex, Queued) && Do(s, e).nextIndex == s.nextIndex + 1
  {
    hide Distinct, Flatten, Batches, Without, Sub, Line, Claims, Tail;
  }

  /**
   * What one event makes of a persisted row that stays: marked sent by the send that carries it,
   * queued again by a failure, by a batch rejected for another transaction or by a replay that finds
   * nobody sending it, and waiting once its answer is in, for its own sync id if the answer gives
   * one and for the largest the answer mentions if not.
   */
  lemma RowChanges(s: State, e: Event, id: nat)
    requires Inv(s) && Enabled(s, e) && id in s.outbox && id in Do(s, e).outbox
    ensures var before, after := s.outbox[id], Do(s, e).outbox[id];
            && after.index == before.index
            && after.state
               == if e.MarkOne? && s.job.todo[0].id == id then Sent
                  else if (e.RequeueOne? || e.RetryOne?) && s.job.todo[0].id == id then Queued
                  else if e.ReplayRead? && before.state.Sent? && id in Ids(s.job.rows) && id !in s.claimed then Queued
                  else if e.SettleOne? && s.job.results[0].id == id && id in Ids(s.job.batch) then
                    AwaitingSync(if s.job.results[0].syncId.Some? then s.job.results[0].syncId.value
                                 else s.job.highest)
                  else before.state
  {
    hide Inv, Do, Ids;
    if e.SettleOne? {
      RowSettles(s, id);
    } else if e.ReplayRead? {
      RowReset(s, id);
    } else {
      RowMarked(s, e, id);
    }
  }

  lemma RowSettles(s: State, id: nat)
    requires Enabled(s, SettleOne) && id in s.outbox && id in Do(s, SettleOne).outbox
    ensures var r := s.job.results[0];
            Do(s, SettleOne).outbox[id]
            == if r.id == id && id in Ids(s.job.batch) then
                 s.outbox[id].(state := AwaitingSync(if r.syncId.Some? then r.syncId.value else s.job.highest))
               else s.outbox[id]
  {
    hide Distinct, Flatten, Batches, Without, Sub, Line, Claims, Tail, Ids;
  }

  lemma RowReset(s: State, id: nat)
    requires Enabled(s, ReplayRead) && id in s.outbox
    ensures id in Do(s, ReplayRead).outbox
            && Do(s, ReplayRead).outbox[id]
               == if s.outbox[id].state.Sent? && id in Ids(s.job.rows) && id !in s.claimed
                  then s.outbox[id].(state := Queued) else s.outbox[id]
  {
    hide Distinct, Flatten, Batches, Without, Sub, Line, Claims, Tail, Ids;
    WithoutIds(s.job.rows, s.claimed);
  }

  lemma RowMarked(s: State, e: Event, id: nat)
    requires Inv(s) && Enabled(s, e) && id in s.outbox && id in Do(s, e).outbox && !e.SettleOne? && !e.ReplayRead?
    ensures Do(s, e).outbox[id]
            == if e.MarkOne? && s.job.todo[0].id == id then s.outbox[id].(state := Sent)
               else if (e.RequeueOne? || e.RetryOne?) && s.job.todo[0].id == id then s.outbox[id].(state := Queued)
               else s.outbox[id]
  {
    hide Distinct, Flatten, Batches, Without, Sub, Line, Claims, Tail, ClaimsExact, JobShape, Ids, Settle, ResetSent;
  }

  /**
   * What goes to the transport: at the call of it, and then only, the batch that was marked, without what
   * was discarded since, in order, and nothing if that leaves nothing.
   */
  lemma Sends(s: State, e: Event)
    requires Enabled(s, e)
    ensures !e.Mutate? ==> Do(s, e).sends == s.sends
    ensures e.Mutate? && (forall t :: t in s.job.batch ==> t.id in s.discarded) ==>
              Do(s, e).sends == s.sends && Do(s, e).job.Unwinding?
    ensures e.Mutate? && (exists t :: t in s.job.batch && t.id !in s.discarded) ==>
              exists batch ::
                && Do(s, e).sends == s.sends + [batch] && Do(s, e).job == InFlight(batch)
                && batch != [] && Sub(batch, s.job.batch)
                && forall t :: t in batch <==> t in s.job.batch && t.id !in s.discarded
  {
    hide Distinct, Flatten, Batches, Line, Claims, Tail, Ids, Settle, Drop, ResetSent, Highest;
    if !e.Mutate? {
      OthersSendNothing(s, e);
    } else {
      var batch := Without(s.job.batch, s.discarded);
      WithoutMembers(s.job.batch, s.discarded);
      SubWithout(s.job.batch, s.discarded);
      if t :| t in s.job.batch && t.id !in s.discarded {
        assert t in batch;
      }
    }
  }

  lemma OthersSendNothing(s: State, e: Event)
    requires Enabled(s, e) && !e.Mutate?
    ensures Do(s, e).sends == s.sends
  {
    hide Distinct, Flatten, Batches, Line, Claims, Tail, Ids, ResetSent, Highest, Without, Sub;
  }

  /** A transaction is owed from the failure that put it back until a send carries it. */
  lemma OwedChanges(s: State, e: Event)
    requires Enabled(s, e)
    ensures forall t :: t in Do(s, e).owed <==>
              || (e.RequeueDone? && t in s.job.batch && t.id !in s.discarded)
              || (t in s.owed && !(e.Mutate? && t in s.job.batch && t.id !in s.discarded))
  {
    hide Distinct, Flatten, Batches, Sub, Line, Claims, Tail, Ids;
    if e.Mutate? || e.RequeueDone? {
      WithoutMembers(s.job.batch, s.discarded);
    }
  }

  /** What counts as acknowledged, and what as dropped. */
  lemma HistoryChanges(s: State, e: Event)
    requires Enabled(s, e)
    ensures forall id :: id in Do(s, e).acked <==>
              || id in s.acked
              || (e.SettleOne? && s.job.results[0].id == id && id in Ids(s.job.batch) && s.job.results[0].success
                  && (s.job.results[0].syncId.Some? || s.job.highest > 0))
    ensures forall id :: id in Do(s, e).dropped <==>
              || id in s.dropped || (e.DiscardBegin? && e.id == id) || (e.RejectBatch? && e.id == id)
              || (e.SettleOne? && s.job.results[0].id == id && id in Ids(s.job.batch)
                  && (s.job.results[0].success ==> s.job.results[0].syncId == None && s.job.highest == 0))
  {
    hide Distinct, Flatten, Batches, Sub, Line, Claims, Tail, Ids, Without;
  }

  /** The send queue is first in, first out, and a discard waits for storage once. */
  lemma QueueChanges(s: State, e: Event)
    requires Enabled(s, e)
    ensures (e.StartSend? || e.StartReplay?) ==> s.waiting == [s.waiting[0]] + Do(s, e).waiting
    ensures !(e.StartSend? || e.StartReplay?) ==>
              Do(s, e).waiting == s.waiting + (if e.Flush? then [Send(s.pending)]
                                               else if e.QueueReplay? then [Replay] else [])
    ensures Do(s, e).discards == if e.DiscardBegin? then s.discards[e.handle := e.id]
                                 else if e.DiscardEnd? then s.discards - {e.handle} else s.discards
  {
    hide Distinct, Flatten, Batches, Without, Sub, Line, Claims, Tail, Ids;
  }

  /** A failure ends the replay it happens in: whatever the replay had left is read again by the next one. */
  lemma FailureEndsReplay(s: State, e: Event)
    requires Enabled(s, e) && (e.TransportFails? || e.ResultsFault?)
    ensures !Do(s, e).replaying && Do(s, e).replayRest == [] && Do(s, e).job == Requeueing(s.job.batch, s.job.batch)
  {
  }

  // ---- send order

  /** Nothing is replayed from disk: order is only promised within one session. */
  ghost predicate ReplayFree(s: State) {
    && !s.replaying && !s.job.Reading? && s.replayRest == []
    && forall i :: 0 <= i < |s.waiting| ==> s.waiting[i].Send?
  }

  /** What a failure put back is at the head of the line, or in the batch about to be sent. */
  ghost predicate OwedKept(s: State) {
    forall t :: t in s.owed ==> t.id in s.dropped || t in s.backlog || (s.job.Marking? && t in s.job.batch)
  }

  ghost predicate Ordered(s: State) {
    && ReplayFree(s)
    && Increasing(Line(s))
    && (forall t :: t in Line(s) ==> t.index < s.nextIndex)
    && s.discards.Values <= s.dropped
    && OwedKept(s)
  }

  lemma AppendIncreasing(ts: seq<Tx>, t: Tx)
    requires Increasing(ts) && forall u :: u in ts ==> u.index < t.index
    ensures Increasing(ts + [t])
  {
    forall i, j | 0 <= i < j < |ts + [t]| ensures (ts + [t])[i].index < (ts + [t])[j].index {
      if j == |ts| {
        assert ts[i] in ts;
      }
    }
  }

  /** The line stays in batchIndex order. */
  lemma LineOrdered(s: State, e: Event)
    requires Inv(s) && Ordered(s) && Enabled(s, e) && !e.QueueReplay? && !e.ReplayRead?
    ensures Increasing(Line(Do(s, e)))
    ensures forall t :: t in Line(Do(s, e)) ==> t.index < Do(s, e).nextIndex
  {
    hide Increasing, Inv, Sub;
    StepKeeps(s, e);
    if e.Enqueue? {
      AppendIncreasing(Line(s), Tx(e.id, s.nextIndex));
    } else {
      SubKeeps(Line(Do(s, e)), Line(s));
      SubMembers(Line(Do(s, e)), Line(s));
    }
  }

  lemma SubMembers(a: seq<Tx>, b: seq<Tx>)
    requires Sub(a, b)
    ensures forall t :: t in a ==> t in b
  {
    forall t | t in a ensures t in b {
      SubIn(a, b, t);
    }
  }

  lemma OwedAfterSend(s: State, requested: seq<Tx>)
    requires Sending(s, requested)
    requires forall t :: t in s.owed ==> t.id in s.dropped || t in s.backlog || t in requested
    ensures OwedKept(BeginSend(s, requested))
  {
    BeginSendLine(s, requested);
  }

  lemma OwedAfterFilter(s: State, s': State, ids: set<nat>)
    requires OwedKept(s) && s'.backlog == Without(s.backlog, ids) && ids <= s'.dropped
    requires s'.owed == s.owed && s.dropped <= s'.dropped && !s.job.Marking?
    ensures OwedKept(s')
  {
    WithoutMembers(s.backlog, ids);
  }

  /** What is owed stays at the head of the line until a send carries it or it is dropped. */
  lemma OwedStays(s: State, e: Event)
    requires Inv(s) && Ordered(s) && Enabled(s, e) && !e.QueueReplay?
    ensures OwedKept(Do(s, e)) && Do(s, e).discards.Values <= Do(s, e).dropped
  {
    hide Increasing, Flatten, Batches, Sub, Distinct;
    match e
    case StartSend => OwedAfterStart(s);
    case RetrySend =>
      if s.job.batch != [] {
        RetryIsSending(s);
        OwedAfterSend(s, s.job.batch);
      }
    case Mutate => OwedAfterMutate(s);
    case RequeueDone => WithoutMembers(s.job.batch, s.discarded);
    case SettleOne => WithoutMembers(s.backlog, {s.job.results[0].id});
    case RejectBatch(id) => WithoutMembers(s.backlog, {id});
    case DiscardEnd(d) =>
      WithoutMembers(s.backlog, {s.discards[d]});
      assert s.discards[d] in s.discards.Values;
    case _ =>
  }

  lemma OwedAfterStart(s: State)
    requires Inv(s) && Ordered(s) && s.job.Idle? && s.waiting != [] && s.waiting[0].Send?
    ensures OwedKept(SendStarted(s))
  {
    StartIsSending(s);
    var batch := s.waiting[0].batch;
    OwedAfterSend(s.(waiting := s.waiting[1..], frames := [batch] + s.frames), batch);
  }

  lemma OwedAfterMutate(s: State)
    requires Inv(s) && Ordered(s) && s.job.Marking?
    ensures OwedKept(Mutated(s))
    ensures Without(s.job.batch, s.discarded) != [] ==>
              forall t :: t in s.owed && t.id !in s.dropped ==> t in Without(s.job.batch, s.discarded)
  {
    WithoutMembers(s.job.batch, s.discarded);
  }

  lemma StepOrdered(s: State, e: Event)
    requires Inv(s) && Ordered(s) && Enabled(s, e) && !e.QueueReplay?
    ensures Ordered(Do(s, e))
  {
    hide Increasing, Inv;
    OwedStays(s, e);
    LineOrdered(s, e);
    StillReplayFree(s, e);
  }

  lemma StillReplayFree(s: State, e: Event)
    requires ReplayFree(s) && Enabled(s, e) && !e.QueueReplay?
    ensures ReplayFree(Do(s, e))
  {
    hide Without, Ids, SetState, ResetSent, Highest, Lists;
  }

  ghost predicate WithoutReplay(run: seq<Event>) {
    forall i :: 0 <= i < |run| ==> !run[i].QueueReplay?
  }

  lemma {:induction false} RunOrdered(s: State, run: seq<Event>)
    requires Inv(s) && Ordered(s) && Legal(s, run) && WithoutReplay(run)
    ensures Inv(Run(s, run)) && Ordered(Run(s, run))
    decreases |run|
  {
    if run != [] {
      StepKeeps(s, run[0]);
      StepOrdered(s, run[0]);
      RunOrdered(Do(s, run[0]), run[1..]);
    }
  }

  ghost predicate ReachableWithoutReplay(s: State) {
    exists start, run :: Initial(start) && Legal(start, run) && WithoutReplay(run) && Run(start, run) == s
  }

  lemma OrderedInv(s: State)
    requires ReachableWithoutReplay(s)
    ensures Inv(s) && Ordered(s)
  {
    var start, run :| Initial(start) && Legal(start, run) && WithoutReplay(run) && Run(start, run) == s;
    InitialInv(start);
    assert Line(start) == [];
    RunOrdered(start, run);
  }

  /**
   * Send order: over every run without a replay from disk, what failed at the transport, then
   * the batch being sent, then the batches waiting, then the batch being collected are in
   * strictly increasing batchIndex order.
   */
  lemma SendOrder(s: State)
    requires ReachableWithoutReplay(s)
    ensures Increasing(s.backlog + JobList(s.job) + Flatten(Batches(s.waiting)) + s.pending)
  {
    OrderedInv(s);
    assert Line(s) == s.backlog + JobList(s.job) + Flatten(Batches(s.waiting)) + s.pending;
  }

  /**
   * No send overtakes: the batch handed to the transport carries every transaction an earlier
   * failure put back and nobody dropped since, in order, and ahead of everything still queued.
   */
  lemma SendCarriesOwed(s: State)
    requires ReachableWithoutReplay(s) && Enabled(s, Mutate) && Do(s, Mutate).job.InFlight?
    ensures var batch := Do(s, Mutate).job.batch;
            && Do(s, Mutate).sends == s.sends + [batch]
            && Increasing(batch)
            && (forall t :: t in s.owed && t.id !in s.dropped ==> t in batch)
            && (forall t, u :: t in batch && u in Flatten(Batches(s.waiting)) + s.pending ==> t.index < u.index)
            && (forall t :: t in batch ==> t.id !in s.discarded)
  {
    hide Increasing, Distinct, Sub, Flatten, Batches;
    OrderedInv(s);
    OwedAfterMutate(s);
    MutateInOrder(s);
    WithoutMembers(s.job.batch, s.discarded);
  }

  lemma MutateInOrder(s: State)
    requires Inv(s) && Ordered(s) && s.job.Marking?
    ensures Increasing(Without(s.job.batch, s.discarded))
    ensures forall t, u :: t in Without(s.job.batch, s.discarded) && u in Tail(s) ==> t.index < u.index
  {
    hide Distinct, Sub, Flatten, Batches, Increasing, Ids;
    SubWithout(s.job.batch, s.discarded);
    SubKeeps(Without(s.job.batch, s.discarded), s.job.batch);
    SubMembers(Without(s.job.batch, s.discarded), s.job.batch);
    assert Line(s) == s.backlog + s.job.batch + Tail(s);
    IncreasingParts(s.backlog, s.job.batch, Tail(s));
  }

  lemma IncreasingParts(a: seq<Tx>, b: seq<Tx>, c: seq<Tx>)
    requires Increasing(a + b + c)
    ensures Increasing(b)
    ensures forall t, u :: t in b && u in c ==> t.index < u.index
  {
    var l := a + b + c;
    forall i, j | 0 <= i < j < |b| ensures b[i].index < b[j].index {
      assert l[|a| + i] == b[i] && l[|a| + j] == b[j];
    }
    forall t, u | t in b && u in c ensures t.index < u.index {
      var i :| 0 <= i < |b| && b[i] == t;
      var j :| 0 <= j < |c| && c[j] == u;
      assert l[|a| + i] == t && l[|a| + |b| + j] == u;
    }
  }
}
