/** An acknowledged transaction is never sent again, and the invalid-batch retries terminate. */
module OutboxAck {
  import opened Records
  import opened Queues
  import opened Outbox
  import opened OutboxInvariant
  import opened OutboxTheorems
  import opened OutboxDiscard

  /** What the running job may still put back or send. */
  function Owing(j: Job): seq<Tx> {
    if j.Settling? then j.unresolved else JobList(j)
  }

  function Todo(j: Job): seq<Tx> {
    match j
    case Marking(todo, _) => todo
    case Requeueing(todo, _) => todo
    case Retrying(todo, _) => todo
    case _ => []
  }

  /** No sender holds an acknowledged transaction, and its row awaits the sync cursor. */
  ghost predicate AckSafe(s: State) {
    && s.acked !! Ids(s.backlog) && s.acked !! Ids(Owing(s.job)) && s.acked !! Ids(s.replayRest)
    && s.acked !! Ids(Tail(s))
    && (s.job.Reading? ==> s.acked !! Ids(s.job.rows))
    && Ids(Todo(s.job)) <= Ids(JobList(s.job))
    && forall id :: id in s.acked && id in s.outbox ==> s.outbox[id].state.AwaitingSync?
  }

  lemma TodoTail(todo: seq<Tx>)
    requires todo != []
    ensures Ids(todo[1..]) <= Ids(todo) && todo[0].id in Ids(todo)
  {
    assert todo[0] in todo;
  }

  lemma AckAfterSend(s: State, requested: seq<Tx>)
    requires Sending(s, requested)
    requires s.acked !! Ids(s.backlog) && s.acked !! Ids(requested) && s.acked !! Ids(s.replayRest)
             && s.acked !! Ids(Tail(s))
    requires forall id :: id in s.acked && id in s.outbox ==> s.outbox[id].state.AwaitingSync?
    ensures AckSafe(BeginSend(s, requested))
  {
    hide Distinct, Ids, Flatten, Batches;
    BeginSendLine(s, requested);
    NoIds();
    IdsConcat(s.backlog, requested);
    WithoutIds(s.backlog + requested, s.discarded);
    assert Tail(BeginSend(s, requested)) == Tail(s);
  }

  lemma AckAfterStart(s: State)
    requires Inv(s) && AckSafe(s) && s.job.Idle? && s.waiting != [] && s.waiting[0].Send?
    ensures AckSafe(SendStarted(s))
  {
    hide Distinct, Ids, Sub, Inv;
    StartIsSending(s);
    var batch := s.waiting[0].batch;
    var s0 := s.(waiting := s.waiting[1..], frames := [batch] + s.frames);
    assert Batches(s.waiting) == [batch] + Batches(s.waiting[1..]);
    assert Batches(s.waiting)[1..] == Batches(s0.waiting);
    assert Tail(s) == batch + Tail(s0);
    IdsConcat(batch, Tail(s0));
    AckAfterSend(s0, batch);
  }

  lemma AckAfterReplayNext(s: State, n: nat)
    requires Inv(s) && AckSafe(s) && s.job.Replaying? && 1 <= n <= |s.replayRest|
    ensures AckSafe(ReplayBatch(s, n))
  {
    hide Distinct, Ids, Sub, Inv;
    ReplayIsSending(s, n);
    var batch, rest := s.replayRest[..n], s.replayRest[n..];
    assert s.replayRest == batch + rest;
    IdsConcat(batch, rest);
    var s0 := s.(replayRest := rest, claimed := s.claimed + Ids(batch), frames := [batch] + s.frames);
    assert Tail(s0) == Tail(s);
    AckAfterSend(s0, batch);
  }

  lemma AckAfterStartReplay(s: State, rows: seq<Tx>)
    requires Inv(s) && AckSafe(s) && Enabled(s, StartReplay(rows))
    ensures AckSafe(Do(s, StartReplay(rows)))
  {
    hide Distinct, Sub;
    assert [] + Batches(s.waiting[1..]) == Batches(s.waiting[1..]);
    assert Tail(Do(s, StartReplay(rows))) == Tail(s);
    forall t | t in rows ensures t.id !in s.acked {
      assert t.id in s.outbox;
    }
  }

  lemma AckAfterSendEvent(s: State, e: Event)
    requires Inv(s) && AckSafe(s) && Enabled(s, e) && SendEvent(e)
    ensures AckSafe(Do(s, e))
  {
    hide Distinct, Sub, Ids, Flatten, Batches;
    NoIds();
    match e
    case StartSend => AckAfterStart(s);
    case StartReplay(rows) => AckAfterStartReplay(s, rows);
    case ReplayRead => WithoutIds(s.job.rows, s.claimed);
    case ReplayNext(n) => AckAfterReplayNext(s, n);
    case RetrySend =>
      if s.job.batch != [] {
        RetryIsSending(s);
        AckAfterSend(s, s.job.batch);
      }
    case RequeueDone =>
      WithoutIds(s.job.batch, s.discarded);
      IdsConcat(s.backlog, Without(s.job.batch, s.discarded));
    case Unwind =>
  }

  lemma AckAfterQueue(s: State, e: Event)
    requires Inv(s) && AckSafe(s) && Enabled(s, e) && QueueEvent(e)
    ensures AckSafe(Do(s, e))
  {
    hide Distinct, Sub, Ids, Flatten;
    match e
    case Enqueue(id) => AckAfterEnqueue(s, id);
    case Flush =>
      TailAfterFlush(s);
      assert Tail(Do(s, e)) == Tail(s);
    case QueueReplay =>
      BatchesConcat(s.waiting, [Replay]);
      BatchesOne(Replay);
      assert Batches(s.waiting) + [] == Batches(s.waiting);
      assert Tail(Do(s, e)) == Tail(s);
    case DiscardBegin(_, id) => TailAfterDrop(s, id);
    case DiscardEnd(d) =>
      WithoutIds(s.backlog, {s.discards[d]});
      assert Tail(Do(s, e)) == Tail(s);
    case ReplayDone =>
      assert Tail(Do(s, e)) == Tail(s);
  }

  lemma AckAfterEnqueue(s: State, id: nat)
    requires Inv(s) && AckSafe(s) && id !in s.used
    ensures AckSafe(Enqueued(s, id))
  {
    hide Distinct, Sub, Flatten, Batches;
    assert Tail(Enqueued(s, id)) == Tail(s) + [Tx(id, s.nextIndex)];
    IdsConcat(Tail(s), [Tx(id, s.nextIndex)]);
  }

  lemma TailAfterDrop(s: State, id: nat)
    ensures Ids(Tail(Drop(s, id))) <= Ids(Tail(s))
  {
    WithoutIds(s.pending, {id});
    IdsConcat(Flatten(Batches(s.waiting)), s.pending);
    IdsConcat(Flatten(Batches(s.waiting)), Without(s.pending, {id}));
  }

  lemma AckAfterSettle(s: State)
    requires Inv(s) && AckSafe(s) && s.job.Settling? && s.job.results != []
    ensures AckSafe(Settle(s))
  {
    hide Distinct, Sub, Ids, Flatten, Batches;
    var r := s.job.results[0];
    NoIds();
    WithoutIds(s.job.unresolved, {r.id});
    WithoutIds(s.backlog, {r.id});
    LineParts(s);
    TailAfterDrop(s, r.id);
    var s' := Settle(s);
    if r.id in Ids(s.job.batch) {
      var s1 := s.(job := s'.job);
      if r.success && Needed(r, s.job.highest).Some? {
        assert Tail(s') == Tail(s);
      } else {
        assert Tail(s') == Tail(Drop(s, r.id));
      }
    } else {
      assert Tail(s') == Tail(s);
    }
  }

  lemma AckAfterReject(s: State, id: nat)
    requires Inv(s) && AckSafe(s) && s.job.InFlight?
    ensures AckSafe(Rejected(s, id))
  {
    hide Distinct, Sub, Ids, Flatten, Batches;
    WithoutIds(s.job.batch, {id});
    WithoutIds(s.backlog, {id});
    TailAfterDrop(s, id);
    assert Tail(Rejected(s, id)) == Tail(Drop(s, id));
  }

  /** One write to a row of the batch, or a move of the whole batch. */
  lemma AckAfterBatchMove(s: State, s': State)
    requires AckSafe(s)
    requires s' == s.(job := s'.job, outbox := s'.outbox, sends := s'.sends, owed := s'.owed,
                      replaying := s'.replaying, replayRest := s'.replayRest)
    requires s'.replayRest == s.replayRest || s'.replayRest == []
    requires Ids(Owing(s'.job)) <= Ids(Owing(s.job)) && Ids(Todo(s'.job)) <= Ids(JobList(s'.job)) && !s'.job.Reading?
    requires s'.outbox == s.outbox
             || exists id, state :: id in Ids(Owing(s.job)) && s'.outbox == SetState(s.outbox, id, state)
    ensures AckSafe(s')
  {
    hide Flatten, Batches;
    assert Tail(s') == Tail(s);
  }

  lemma AckAfterJobEvent(s: State, e: Event)
    requires Inv(s) && AckSafe(s) && Enabled(s, e) && !SendEvent(e) && !QueueEvent(e) && !e.ResultsFault?
    ensures AckSafe(Do(s, e))
  {
    hide Distinct, Sub, Ids, Flatten, Batches, AckSafe;
    if e.SettleOne? {
      AckAfterSettle(s);
    } else if e.RejectBatch? {
      AckAfterReject(s, e.id);
    } else {
      AckAfterMove(s, e);
    }
  }

  lemma AckAfterMove(s: State, e: Event)
    requires Inv(s) && AckSafe(s) && Enabled(s, e) && !SendEvent(e) && !QueueEvent(e) && !e.ResultsFault?
    requires !e.SettleOne? && !e.RejectBatch?
    ensures AckSafe(Do(s, e))
  {
    hide Distinct, Ids, Flatten, Batches;
    NoIds();
    if e.Mutate? {
      WithoutIds(s.job.batch, s.discarded);
    } else if e.MarkOne? || e.RequeueOne? || e.RetryOne? {
      TodoTail(s.job.todo);
      assert s.job.todo[0].id in Ids(Owing(s.job));
    }
    AckAfterBatchMove(s, Do(s, e));
  }

  lemma StepAckSafe(s: State, e: Event)
    requires Inv(s) && AckSafe(s) && Enabled(s, e) && !e.ResultsFault?
    ensures AckSafe(Do(s, e))
  {
    hide Inv, AckSafe;
    if SendEvent(e) {
      AckAfterSendEvent(s, e);
    } else if QueueEvent(e) {
      AckAfterQueue(s, e);
    } else {
      AckAfterJobEvent(s, e);
    }
  }

  ghost predicate WithoutFaults(run: seq<Event>) {
    forall i :: 0 <= i < |run| ==> !run[i].ResultsFault?
  }

  lemma {:induction false} RunAckSafe(s: State, run: seq<Event>)
    requires Inv(s) && AckSafe(s) && Legal(s, run) && WithoutFaults(run)
    ensures Inv(Run(s, run)) && AckSafe(Run(s, run))
    decreases |run|
  {
    if run != [] {
      StepKeeps(s, run[0]);
      StepAckSafe(s, run[0]);
      RunAckSafe(Do(s, run[0]), run[1..]);
    }
  }

  /** Reachable while no storage call has failed in the handling of an answer. */
  ghost predicate ReachableWithoutFaults(s: State) {
    exists start, run :: Initial(start) && Legal(start, run) && WithoutFaults(run) && Run(start, run) == s
  }

  lemma AckSafeInv(s: State)
    requires ReachableWithoutFaults(s)
    ensures Inv(s) && AckSafe(s)
  {
    var start, run :| Initial(start) && Legal(start, run) && WithoutFaults(run) && Run(start, run) == s;
    InitialInv(start);
    RunAckSafe(start, run);
  }

  /** No regress: an acknowledged transaction is in no later batch, and its row keeps waiting for the cursor. */
  lemma AcknowledgedStays(s: State, e: Event, id: nat)
    requires ReachableWithoutFaults(s) && Enabled(s, e) && !e.ResultsFault? && id in s.acked
    ensures id in Do(s, e).acked
    ensures id in Do(s, e).outbox ==> Do(s, e).outbox[id].state.AwaitingSync?
    ensures forall i :: |s.sends| <= i < |Do(s, e).sends| ==> id !in Ids(Do(s, e).sends[i])
    ensures e.ReplayRead? ==> id !in Ids(Do(s, e).replayRest)
  {
    hide Ids, Inv, Sub, Distinct, Flatten, Batches;
    AckSafeInv(s);
    StepAckSafe(s, e);
    SendsGrow(s, e);
    assert id !in Ids(Owing(s.job));
  }

  /**
   * The one way an acknowledged transaction becomes owed again: a storage call fails while the
   * rest of its answer is handled, and the whole batch is put back.
   */
  lemma AcknowledgedIsPutBack(s: State, e: Event, id: nat)
    requires ReachableWithoutFaults(s) && Enabled(s, e) && id in s.acked
    ensures id in Ids(Owing(Do(s, e).job)) <==> e.ResultsFault? && id in Ids(s.job.batch)
  {
    hide Ids, Inv, Sub, Distinct, Flatten, Batches;
    AckSafeInv(s);
    if !e.ResultsFault? {
      StepAckSafe(s, e);
    }
  }

  /** And from there it does reach the server a second time, unless it was dropped or a replay is next. */
  lemma PutBackIsSentAgain(s: State, id: nat)
    requires Reachable(s) && Enabled(s, ResultsFault) && id in Ids(s.job.batch) && id !in s.discarded
    requires s.waiting == [] || s.waiting[0].Send?
    ensures SentLater(Do(s, ResultsFault), id)
  {
    ReachableInv(s);
    StepKeeps(s, ResultsFault);
    RequeuedThenSent(Do(s, ResultsFault), id);
  }

  lemma {:induction false} RequeuedThenSent(s: State, id: nat)
    requires Inv(s) && s.job.Requeueing? && id in Ids(s.job.batch) && id !in s.discarded
    requires s.replayRest == [] && (s.waiting == [] || s.waiting[0].Send?)
    ensures SentLater(s, id)
    decreases if s.job.Requeueing? then |s.job.todo| else 0
  {
    hide Sub, Distinct, Flatten, Batches, Ids;
    if s.job.todo == [] {
      StepKeeps(s, RequeueDone);
      WithoutIds(s.job.batch, s.discarded);
      IdsConcat(s.backlog, Without(s.job.batch, s.discarded));
      BacklogThenSent(Do(s, RequeueDone), id);
      SentStepEarlier(s, RequeueDone, id);
    } else {
      StepKeeps(s, RequeueOne);
      RequeuedThenSent(Do(s, RequeueOne), id);
      SentStepEarlier(s, RequeueOne, id);
    }
  }

  // ---- the invalid-batch retries

  function Rejections(run: seq<Event>): nat {
    if run == [] then 0 else (if run[0].RejectBatch? then 1 else 0) + Rejections(run[1..])
  }

  /** One for each batch rejected in the run. */
  lemma {:induction false} RejectionsExactly(run: seq<Event>) returns (places: seq<nat>)
    ensures |places| == Rejections(run)
    ensures forall i :: 0 <= i < |places| ==> places[i] < |run|
    ensures forall i, j :: 0 <= i < j < |places| ==> places[i] < places[j]
    ensures forall i :: 0 <= i < |run| ==> (i in places <==> run[i].RejectBatch?)
  {
    if run == [] {
      places := [];
    } else {
      var rest := RejectionsExactly(run[1..]);
      places := if run[0].RejectBatch? then [0] + Shifted(rest) else Shifted(rest);
      forall i | 0 <= i < |run| ensures i in places <==> run[i].RejectBatch? {
        if i > 0 {
          ShiftedHas(rest, i - 1);
          assert run[1..][i - 1] == run[i];
        } else {
          ShiftedHas(rest, 0);
        }
      }
    }
  }

  /** The run stays inside one sendBatch call, its invalid-batch retries included. */
  ghost predicate InsideOneSend(s: State, run: seq<Event>)
    requires Legal(s, run)
    decreases |run|
  {
    run == [] || (Busy(s.job) && InsideOneSend(Do(s, run[0]), run[1..]))
  }

  lemma StepShrinks(s: State, e: Event)
    requires Inv(s) && Busy(s.job) && Enabled(s, e)
    ensures |JobList(Do(s, e).job)| + (if e.RejectBatch? then 1 else 0) <= |JobList(s.job)|
  {
    hide Distinct, Flatten, Batches, Ids, Without, Sub;
    if e.Mutate? {
      SubWithout(s.job.batch, s.discarded);
      SubLength(Without(s.job.batch, s.discarded), s.job.batch);
    } else if e.SettleDone? {
      SubLength(s.job.unresolved, s.job.batch);
    } else if e.RejectBatch? {
      WithoutShrinks(s.job.batch, {e.id}, e.id);
    } else if e.RetrySend? && s.job.batch != [] {
      RetryIsSending(s);
      BeginSendLine(s, s.job.batch);
    }
  }

  /** Each round drops one transaction, so one send makes at most as many rounds as it has transactions. */
  lemma {:induction false} RejectionsBounded(s: State, run: seq<Event>)
    requires Inv(s) && Legal(s, run) && InsideOneSend(s, run)
    ensures Rejections(run) <= |JobList(s.job)|
    decreases |run|
  {
    if run != [] {
      StepKeeps(s, run[0]);
      StepShrinks(s, run[0]);
      RejectionsBounded(Do(s, run[0]), run[1..]);
    }
  }
}
