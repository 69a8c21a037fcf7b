/**
 * Every event of the outbox keeps one owner per transaction and an exact claimed set. A claim is
 * held by the pending batch, by a batch waiting on the send queue or by a send that has not
 * unwound yet; the line of transactions still to be sent holds each one once.
 */
module OutboxInvariant {
  import opened Queues
  import opened Outbox

  predicate Busy(j: Job) {
    !JobFree(j) && !j.Unwinding?
  }

  lemma SubLine(a: seq<Tx>, a': seq<Tx>, j: seq<Tx>, j': seq<Tx>, r: seq<Tx>, r': seq<Tx>, t: seq<Tx>, t': seq<Tx>)
    requires Sub(a', a) && Sub(j', j) && Sub(r', r) && Sub(t', t)
    ensures Sub(a' + j' + r' + t', a + j + r + t)
  {
    SubConcat(a', a, j', j);
    SubConcat(a' + j', a + j, r', r);
    SubConcat(a' + j' + r', a + j + r, t', t);
  }

  /** Where the transactions of one place in the line are not. */
  lemma LineParts(s: State)
    requires Distinct(Line(s))
    ensures Ids(s.backlog) !! Ids(JobList(s.job)) && Ids(s.backlog + JobList(s.job)) !! Ids(s.replayRest)
    ensures Ids(s.backlog) !! Ids(s.replayRest) && Ids(JobList(s.job)) !! Ids(s.replayRest)
    ensures Ids(s.backlog + JobList(s.job) + s.replayRest) !! Ids(Tail(s))
    ensures Ids(s.backlog) !! Ids(Tail(s)) && Ids(JobList(s.job)) !! Ids(Tail(s)) && Ids(s.replayRest) !! Ids(Tail(s))
    ensures Ids(Line(s)) == Ids(s.backlog) + Ids(JobList(s.job)) + Ids(s.replayRest) + Ids(Tail(s))
  {
    PartsDisjoint(s.backlog + JobList(s.job) + s.replayRest, Tail(s));
    PartsDisjoint(s.backlog + JobList(s.job), s.replayRest);
    PartsDisjoint(s.backlog, JobList(s.job));
    IdsConcat(s.backlog, JobList(s.job));
    IdsConcat(s.backlog + JobList(s.job), s.replayRest);
    IdsConcat(s.backlog + JobList(s.job) + s.replayRest, Tail(s));
  }

  lemma ClaimParts(s: State)
    requires Distinct(Claims(s))
    ensures Distinct(Flatten(s.frames)) && Distinct(Tail(s)) && Ids(Flatten(s.frames)) !! Ids(Tail(s))
    ensures Ids(Claims(s)) == Ids(Flatten(s.frames)) + Ids(Tail(s))
  {
    PartsDisjoint(Flatten(s.frames), Tail(s));
    IdsConcat(Flatten(s.frames), Tail(s));
  }

  /** The line only loses transactions. */
  lemma Shrinks(s: State, s': State)
    requires OneOwner(s) && Sub(Line(s'), Line(s))
    ensures Distinct(Line(s')) && Ids(Line(s')) <= s.used
  {
    SubKeeps(Line(s'), Line(s));
    SubIds(Line(s'), Line(s));
  }

  lemma {:induction false} BatchesConcat(a: seq<Waiting>, b: seq<Waiting>)
    ensures Batches(a + b) == Batches(a) + Batches(b)
  {
    if a == [] {
      assert a + b == b;
    } else {
      var head := if a[0].Send? then [a[0].batch] else [];
      BatchesConcat(a[1..], b);
      assert (a + b)[0] == a[0] && (a + b)[1..] == a[1..] + b;
      assert head + (Batches(a[1..]) + Batches(b)) == head + Batches(a[1..]) + Batches(b);
    }
  }

  lemma BatchesOne(w: Waiting)
    ensures Batches([w]) == if w.Send? then [w.batch] else []
  {
    assert [w][1..] == [];
  }

  lemma FlattenOne(batch: seq<Tx>)
    ensures Flatten([batch]) == batch
  {
    assert [batch][1..] == [];
    assert batch + Flatten([]) == batch;
  }

  lemma TailAfterFlush(s: State)
    ensures Flatten(Batches(s.waiting + [Send(s.pending)])) == Tail(s)
  {
    BatchesConcat(s.waiting, [Send(s.pending)]);
    BatchesOne(Send(s.pending));
    FlattenConcat(Batches(s.waiting), [s.pending]);
    FlattenOne(s.pending);
  }

  lemma FlushKeeps(s: State)
    requires Inv(s)
    ensures Inv(Flushed(s)) && Line(Flushed(s)) == Line(s)
  {
    TailAfterFlush(s);
    assert Tail(Flushed(s)) == Tail(s);
  }

  lemma QueueReplayKeeps(s: State)
    requires Inv(s)
    ensures Inv(s.(waiting := s.waiting + [Replay])) && Line(s.(waiting := s.waiting + [Replay])) == Line(s)
  {
    BatchesConcat(s.waiting, [Replay]);
    BatchesOne(Replay);
    assert Batches(s.waiting) + [] == Batches(s.waiting);
    assert Tail(s.(waiting := s.waiting + [Replay])) == Tail(s);
  }

  /** A transaction with a new id joins the end of a queue. */
  lemma Append(ts: seq<Tx>, t: Tx)
    requires Distinct(ts) && t.id !in Ids(ts)
    ensures Distinct(ts + [t]) && Ids(ts + [t]) == Ids(ts) + {t.id}
  {
    assert Ids([t]) == {t.id};
    Join(ts, [t]);
    IdsConcat(ts, [t]);
  }

  lemma EnqueueQueues(s: State, id: nat)
    requires Inv(s) && id !in s.used
    ensures var t := Tx(id, s.nextIndex);
            var s' := Enqueued(s, id);
            && Line(s') == Line(s) + [t] && Distinct(Line(s')) && Ids(Line(s')) == Ids(Line(s)) + {id}
            && Claims(s') == Claims(s) + [t] && Distinct(Claims(s')) && Ids(Claims(s')) == Ids(Claims(s)) + {id}
            && Ids(s'.pending) == Ids(s.pending) + {id}
  {
    hide Flatten, Batches, Distinct, Ids;
    var t := Tx(id, s.nextIndex);
    var s' := Enqueued(s, id);
    assert Tail(s') == Tail(s) + [t];
    assert Line(s') == Line(s) + [t];
    assert Claims(s') == Claims(s) + [t];
    Append(Line(s), t);
    Append(Claims(s), t);
    ClaimParts(s);
    IdsConcat(Flatten(Batches(s.waiting)), s.pending);
    PartsDisjoint(Flatten(Batches(s.waiting)), s.pending);
    Append(s.pending, t);
  }

  lemma EnqueueKeeps(s: State, id: nat)
    requires Inv(s) && id !in s.used
    ensures Inv(Enqueued(s, id)) && Line(Enqueued(s, id)) == Line(s) + [Tx(id, s.nextIndex)]
  {
    hide Flatten, Batches, Distinct, Ids;
    LineParts(s);
    EnqueueQueues(s, id);
  }

  lemma StartReplayKeeps(s: State, rows: seq<Tx>)
    requires Inv(s) && s.job.Idle? && s.waiting != [] && s.waiting[0].Replay? && Lists(rows, s.outbox)
    ensures var s' := s.(waiting := s.waiting[1..], job := Reading(rows)); Inv(s') && Line(s') == Line(s)
  {
    var s' := s.(waiting := s.waiting[1..], job := Reading(rows));
    assert Batches(s.waiting) == Batches(s'.waiting) by {
      assert [] + Batches(s.waiting[1..]) == Batches(s.waiting[1..]);
    }
    assert Tail(s') == Tail(s);
    forall t | t in rows ensures t.id in s.used {
      assert t.id in s.outbox;
    }
  }

  /** Writing one row moves no transaction. */
  lemma WriteKeeps(s: State, id: nat, state: RowState, job: Job)
    requires Inv(s) && Busy(s.job) && !JobFree(job) && JobList(job) == JobList(s.job)
    requires job.Settling? ==> Sub(job.unresolved, job.batch)
    ensures var s' := s.(outbox := SetState(s.outbox, id, state), job := job);
            Inv(s') && Line(s') == Line(s)
  {
  }

  /** The job gives up part of its batch, the replay the rest of its rows. */
  lemma NarrowKeeps(s: State, job: Job, replaying: bool, replayRest: seq<Tx>)
    requires Inv(s) && Busy(s.job) && !JobFree(job) && Sub(JobList(job), JobList(s.job))
    requires (replaying == s.replaying && replayRest == s.replayRest) || (!replaying && replayRest == [])
    requires job.Settling? ==> Sub(job.unresolved, job.batch)
    ensures var s' := s.(job := job, replaying := replaying, replayRest := replayRest);
            Inv(s') && Sub(Line(s'), Line(s))
  {
    var s' := s.(job := job, replaying := replaying, replayRest := replayRest);
    SubRefl(s.backlog);
    SubRefl(s.replayRest);
    SubRefl(Tail(s));
    SubLine(s.backlog, s.backlog, JobList(s.job), JobList(job), s.replayRest, replayRest, Tail(s), Tail(s));
    Shrinks(s, s');
    SubIds(JobList(job), JobList(s.job));
  }

  /** sendBatch has been called for `requested`, whose claim its caller holds. */
  ghost predicate Sending(s: State, requested: seq<Tx>) {
    && Distinct(s.backlog + requested + s.replayRest + Tail(s))
    && Ids(s.backlog + requested + s.replayRest + Tail(s)) <= s.used
    && s.outbox.Keys <= s.used && s.acked <= s.used
    && Distinct(Claims(s)) && s.claimed == Ids(Claims(s)) && s.claimed <= s.used && s.claimed !! Ids(s.replayRest)
    && s.discarded <= s.claimed && s.discarded <= s.dropped && s.discarded !! Ids(s.pending)
    && Ids(requested) <= Ids(Flatten(s.frames))
    && Ids(s.backlog) !! Ids(Flatten(s.frames))
    && s.frames != []
    && (s.replayRest != [] ==> s.replaying)
  }

  lemma BeginSendLine(s: State, requested: seq<Tx>)
    requires Sending(s, requested)
    ensures Without(s.backlog, Ids(requested)) == s.backlog
    ensures Line(BeginSend(s, requested)) == s.backlog + requested + s.replayRest + Tail(s)
  {
    hide Distinct, Ids, Without, Sub, Flatten, Batches;
    PartsDisjoint(s.backlog + requested + s.replayRest, Tail(s));
    PartsDisjoint(s.backlog + requested, s.replayRest);
    PartsDisjoint(s.backlog, requested);
    WithoutNothing(s.backlog, Ids(requested));
    var s' := BeginSend(s, requested);
    assert Tail(s') == Tail(s);
    assert Line(s') == s.backlog + requested + s.replayRest + Tail(s);
  }

  lemma CarryClaims(s: State, requested: seq<Tx>)
    requires Sending(s, requested)
    ensures Distinct(s.backlog + Claims(s)) && Ids(s.backlog + Claims(s)) == Ids(s.backlog) + s.claimed
    ensures Ids(s.backlog) <= s.used && Ids(s.backlog) !! Ids(s.replayRest)
  {
    hide Distinct, Ids, Without, Sub, Flatten, Batches;
    PartsDisjoint(s.backlog + requested + s.replayRest, Tail(s));
    PartsDisjoint(s.backlog + requested, s.replayRest);
    PartsDisjoint(s.backlog, requested);
    IdsConcat(s.backlog, requested);
    IdsConcat(s.backlog + requested, s.replayRest);
    IdsConcat(s.backlog + requested + s.replayRest, Tail(s));
    ClaimParts(s);
    Join(s.backlog, Claims(s));
    IdsConcat(s.backlog, Claims(s));
  }

  lemma BeginSendClaims(s: State, requested: seq<Tx>)
    requires Sending(s, requested)
    ensures ClaimsExact(BeginSend(s, requested))
  {
    hide Distinct, Ids, Without, Sub, Batches;
    BeginSendLine(s, requested);
    CarryClaims(s, requested);
    var s' := BeginSend(s, requested);
    if s.backlog + requested != [] {
      assert s'.frames[1..] == s.frames;
      assert Tail(s') == Tail(s);
      assert Claims(s') == s.backlog + Claims(s);
      IdsConcat(s.backlog, requested);
      IdsConcat(s.backlog, Flatten(s.frames));
    }
  }

  lemma BeginSendKeeps(s: State, requested: seq<Tx>)
    requires Sending(s, requested)
    ensures Inv(BeginSend(s, requested))
    ensures Line(BeginSend(s, requested)) == s.backlog + requested + s.replayRest + Tail(s)
  {
    BeginSendLine(s, requested);
    BeginSendClaims(s, requested);
    assert s.backlog + requested == [] ==> s.backlog == [];
  }

  lemma StartIsSending(s: State)
    requires Inv(s) && s.job.Idle? && s.waiting != [] && s.waiting[0].Send?
    ensures var batch := s.waiting[0].batch;
            var s0 := s.(waiting := s.waiting[1..], frames := [batch] + s.frames);
            Sending(s0, batch) && s.backlog + batch + s0.replayRest + Tail(s0) == Line(s)
  {
    hide Distinct, Ids, Without, Sub;
    var batch := s.waiting[0].batch;
    var s0 := s.(waiting := s.waiting[1..], frames := [batch] + s.frames);
    assert Batches(s.waiting) == [batch] + Batches(s.waiting[1..]);
    assert Batches(s.waiting)[1..] == Batches(s0.waiting);
    assert Tail(s) == batch + Tail(s0);
    FlattenOne(batch);
    assert s0.frames == [batch];
    assert Claims(s0) == Claims(s);
    assert s.backlog + batch + s.replayRest + Tail(s0) == Line(s);
    LineParts(s);
    IdsConcat(batch, Tail(s0));
  }

  lemma StartSendKeeps(s: State)
    requires Inv(s) && s.job.Idle? && s.waiting != [] && s.waiting[0].Send?
    ensures Inv(SendStarted(s)) && Line(SendStarted(s)) == Line(s)
  {
    hide Distinct, Ids, Without, Sub, Inv;
    StartIsSending(s);
    var batch := s.waiting[0].batch;
    BeginSendKeeps(s.(waiting := s.waiting[1..], frames := [batch] + s.frames), batch);
  }

  /** The next rows of a replay are in nobody's hands. */
  lemma ReplayBatchFree(s: State, batch: seq<Tx>, rest: seq<Tx>)
    requires Inv(s) && s.job.Replaying? && s.replayRest == batch + rest
    ensures Distinct(batch + Tail(s)) && Ids(batch + Tail(s)) == Ids(batch) + Ids(Tail(s))
    ensures Ids(s.backlog) !! Ids(batch) && Ids(batch) <= s.used && Ids(batch) !! Ids(rest)
            && Ids(rest) <= Ids(s.replayRest)
    ensures s.backlog + batch + rest + Tail(s) == Line(s)
  {
    hide Flatten, Batches, Without, Sub;
    LineParts(s);
    assert Line(s) == s.backlog + s.replayRest + Tail(s);
    PartsDisjoint(s.backlog + s.replayRest, Tail(s));
    PartsDisjoint(s.backlog, s.replayRest);
    PartsDisjoint(batch, rest);
    IdsConcat(batch, rest);
    IdsConcat(batch, Tail(s));
    Join(batch, Tail(s));
  }

  lemma ReplayIsSending(s: State, n: nat)
    requires Inv(s) && s.job.Replaying? && n <= |s.replayRest|
    ensures var batch, rest := s.replayRest[..n], s.replayRest[n..];
            var s0 := s.(replayRest := rest, claimed := s.claimed + Ids(batch), frames := [batch] + s.frames);
            Sending(s0, batch) && s.backlog + batch + rest + Tail(s0) == Line(s)
  {
    hide Distinct, Ids, Without, Sub, Batches;
    var batch, rest := s.replayRest[..n], s.replayRest[n..];
    ReplayBatchFree(s, batch, rest);
    FlattenOne(batch);
    var s0 := s.(replayRest := rest, claimed := s.claimed + Ids(batch), frames := [batch] + s.frames);
    assert s0.frames == [batch];
    assert Claims(s) == Tail(s) && Claims(s0) == batch + Tail(s);
  }

  lemma ReplayNextKeeps(s: State, n: nat)
    requires Inv(s) && s.job.Replaying? && n <= |s.replayRest|
    ensures Inv(ReplayBatch(s, n)) && Line(ReplayBatch(s, n)) == Line(s)
  {
    hide Distinct, Ids, Without, Sub, Inv;
    ReplayIsSending(s, n);
    var batch := s.replayRest[..n];
    BeginSendKeeps(s.(replayRest := s.replayRest[n..], claimed := s.claimed + Ids(batch),
                      frames := [batch] + s.frames), batch);
  }

  lemma RetryIsSending(s: State)
    requires Inv(s) && s.job.Retrying? && s.job.batch != []
    ensures Sending(s, s.job.batch) && s.backlog + s.job.batch + s.replayRest + Tail(s) == Line(s)
  {
    hide Sub, Without, Flatten, Batches;
    assert s.backlog + s.job.batch + s.replayRest + Tail(s) == Line(s);
  }

  lemma RetrySendKeeps(s: State)
    requires Inv(s) && s.job.Retrying? && s.job.batch != []
    ensures Inv(BeginSend(s, s.job.batch)) && Line(BeginSend(s, s.job.batch)) == Line(s)
  {
    hide Sub, Without, Flatten, Batches, Inv;
    RetryIsSending(s);
    BeginSendKeeps(s, s.job.batch);
  }

  lemma RequeueDoneLine(s: State)
    requires Inv(s) && s.job.Requeueing?
    ensures var s' := Requeued(s);
            Sub(Line(s'), Line(s)) && Distinct(Line(s')) && Ids(Line(s')) <= s.used
  {
    hide Distinct, Sub, Ids, Flatten, Batches;
    var kept := Without(s.job.batch, s.discarded);
    SubWithout(s.job.batch, s.discarded);
    SubRefl(s.backlog);
    SubRefl(s.replayRest);
    SubRefl(Tail(s));
    SubLine(s.backlog, s.backlog, s.job.batch, kept, s.replayRest, s.replayRest, Tail(s), Tail(s));
    var s' := Requeued(s);
    assert Tail(s') == Tail(s);
    assert Line(s') == s.backlog + kept + s.replayRest + Tail(s);
    Shrinks(s, s');
  }

  lemma RequeueDoneKeeps(s: State)
    requires Inv(s) && s.job.Requeueing?
    ensures Inv(Requeued(s)) && Sub(Line(Requeued(s)), Line(s))
  {
    hide Distinct, Sub, Ids, Flatten, Batches;
    RequeueDoneLine(s);
    NoIds();
  }

  lemma UnwindKeeps(s: State)
    requires Inv(s) && s.job.Unwinding? && s.frames != []
    ensures Inv(Released(s)) && Line(Released(s)) == Line(s)
  {
    hide Distinct, Ids, Without, Sub, Batches;
    NoIds();
    var s' := Released(s);
    assert Claims(s) == s.frames[0] + Claims(s');
    PartsDisjoint(s.frames[0], Claims(s'));
    IdsConcat(s.frames[0], Claims(s'));
    assert Tail(s') == Tail(s);
  }

  /** What a replay keeps of the rows it read: issued, in nobody's hands, each once. */
  lemma UnclaimedRows(s: State)
    requires Inv(s) && s.job.Reading?
    ensures var rows := Without(s.job.rows, s.claimed);
            && Ids(rows) !! s.claimed && Ids(rows) <= s.used && s.claimed == Ids(Tail(s))
            && Distinct(rows + Tail(s)) && Ids(rows + Tail(s)) == Ids(rows) + Ids(Tail(s))
  {
    hide Without, Sub, Flatten, Batches;
    var rows := Without(s.job.rows, s.claimed);
    SubWithout(s.job.rows, s.claimed);
    SubKeeps(rows, s.job.rows);
    SubIds(rows, s.job.rows);
    WithoutIds(s.job.rows, s.claimed);
    ClaimParts(s);
    NothingFlat();
    NoIds();
    Join(rows, Tail(s));
    IdsConcat(rows, Tail(s));
  }

  lemma NothingFlat()
    ensures Flatten([]) == []
  {
  }

  lemma ReplayReadKeeps(s: State)
    requires Inv(s) && s.job.Reading?
    ensures Inv(OutboxRead(s))
  {
    hide Distinct, Without, Sub, Batches, Ids;
    NoIds();
    UnclaimedRows(s);
    var s' := OutboxRead(s);
    assert Tail(s') == Tail(s) && Claims(s') == Claims(s);
    assert Line(s') == s'.replayRest + Tail(s);
  }

  /** Taking one id out of pendingBatch takes exactly its claim away. */
  lemma DropClaims(s: State, id: nat)
    requires Inv(s)
    ensures ClaimsExact(Drop(s, id))
  {
    hide Flatten, Batches, Without, Sub;
    var s' := Drop(s, id);
    var front := Flatten(s.frames) + Flatten(Batches(s.waiting));
    assert Claims(s) == front + s.pending && Claims(s') == front + s'.pending;
    PartsDisjoint(front, s.pending);
    SubWithout(s.pending, {id});
    SubKeeps(s'.pending, s.pending);
    WithoutIds(s.pending, {id});
    Join(front, s'.pending);
    IdsConcat(front, s.pending);
    IdsConcat(front, s'.pending);
  }

  lemma DropKeeps(s: State, id: nat)
    requires Inv(s)
    ensures Inv(Drop(s, id)) && Sub(Line(Drop(s, id)), Line(s))
  {
    hide Flatten, Batches, Without, Sub, Distinct, Ids;
    var s' := Drop(s, id);
    DropClaims(s, id);
    SubWithout(s.pending, {id});
    SubRefl(Flatten(Batches(s.waiting)));
    SubConcat(Flatten(Batches(s.waiting)), Flatten(Batches(s.waiting)), s'.pending, s.pending);
    var front := s.backlog + JobList(s.job) + s.replayRest;
    SubRefl(front);
    SubConcat(front, front, Tail(s'), Tail(s));
    Shrinks(s, s');
  }

  lemma BacklogKeeps(s: State, ids: set<nat>)
    requires Inv(s)
    ensures var s' := s.(backlog := Without(s.backlog, ids)); Inv(s') && Sub(Line(s'), Line(s))
  {
    hide Flatten, Batches, Sub, Distinct, Ids;
    var s' := s.(backlog := Without(s.backlog, ids));
    SubWithout(s.backlog, ids);
    SubRefl(JobList(s.job));
    SubRefl(s.replayRest);
    SubRefl(Tail(s));
    SubLine(s.backlog, s'.backlog, JobList(s.job), JobList(s.job), s.replayRest, s.replayRest, Tail(s), Tail(s));
    Shrinks(s, s');
  }

  lemma DiscardKeeps(s: State, id: nat, discards: map<nat, nat>)
    requires Inv(s)
    ensures var s' := Drop(s, id).(discards := discards); Inv(s') && Sub(Line(s'), Line(s))
  {
    hide Flatten, Batches, Without, Sub, Distinct, Ids;
    DropKeeps(s, id);
    var s' := Drop(s, id).(discards := discards);
    assert Line(s') == Line(Drop(s, id)) && Claims(s') == Claims(Drop(s, id)) && Tail(s') == Tail(Drop(s, id));
  }

  /** A discard from inside the running job: its transaction is nowhere in the backlog. */
  lemma DropInJobKeeps(s: State, id: nat)
    requires Inv(s)
    ensures var s' := Drop(s, id).(backlog := Without(s.backlog, {id})); Inv(s') && Sub(Line(s'), Line(s))
  {
    hide Flatten, Batches, Without, Sub, Distinct, Ids;
    DropKeeps(s, id);
    BacklogKeeps(Drop(s, id), {id});
    var s' := Drop(s, id).(backlog := Without(s.backlog, {id}));
    SubTrans(Line(s'), Line(Drop(s, id)), Line(s));
  }

  lemma RejectedKeeps(s: State, id: nat)
    requires Inv(s) && s.job.InFlight?
    ensures Inv(Rejected(s, id)) && Sub(Line(Rejected(s, id)), Line(s))
  {
    hide Flatten, Batches, Without, Sub, Distinct, Ids;
    var s1 := Drop(s, id).(backlog := Without(s.backlog, {id}));
    DropInJobKeeps(s, id);
    var rest := Without(s.job.batch, {id});
    SubWithout(s.job.batch, {id});
    NarrowKeeps(s1, Retrying(rest, rest), s1.replaying, s1.replayRest);
    assert Rejected(s, id) == s1.(job := Retrying(rest, rest));
    SubTrans(Line(Rejected(s, id)), Line(s1), Line(s));
  }

  lemma SettleKeeps(s: State)
    requires Inv(s) && s.job.Settling? && s.job.results != []
    ensures Inv(Settle(s)) && Sub(Line(Settle(s)), Line(s))
  {
    hide Flatten, Batches, Without, Sub, Distinct;
    var r := s.job.results[0];
    var unresolved := if r.id in Ids(s.job.batch) then Without(s.job.unresolved, {r.id}) else s.job.unresolved;
    var s1 := s.(job := Settling(s.job.results[1..], s.job.highest, unresolved, s.job.batch));
    SubWithout(s.job.unresolved, {r.id});
    SubTrans(Without(s.job.unresolved, {r.id}), s.job.unresolved, s.job.batch);
    SubRefl(s.job.batch);
    NarrowKeeps(s, s1.job, s.replaying, s.replayRest);
    if r.id in Ids(s.job.batch) {
      LineParts(s);
      if r.success && Needed(r, s.job.highest).Some? {
        AckKeeps(s1, r.id, Needed(r, s.job.highest).value);
      } else {
        DropInJobKeeps(s1, r.id);
        SubTrans(Line(Settle(s)), Line(s1), Line(s));
      }
    }
  }

  lemma AckKeeps(s: State, id: nat, needed: nat)
    requires Inv(s) && id in s.used
    ensures var s' := s.(outbox := SetState(s.outbox, id, AwaitingSync(needed)), acked := s.acked + {id});
            Inv(s') && Line(s') == Line(s)
  {
  }

  // ---- every event

  predicate SendEvent(e: Event) {
    e.StartSend? || e.ReplayNext? || e.RetrySend? || e.RequeueDone? || e.Unwind? || e.ReplayRead? || e.StartReplay?
  }

  predicate QueueEvent(e: Event) {
    e.Enqueue? || e.Flush? || e.QueueReplay? || e.DiscardBegin? || e.DiscardEnd? || e.ReplayDone?
  }

  lemma SendEventKeeps(s: State, e: Event)
    requires Inv(s) && Enabled(s, e) && SendEvent(e)
    ensures Inv(Do(s, e))
    ensures !e.ReplayRead? ==> Sub(Line(Do(s, e)), Line(s))
  {
    hide Flatten, Batches, Without, Sub, Distinct, Ids;
    SubRefl(Line(s));
    match e
    case StartSend => StartSendKeeps(s);
    case ReplayNext(n) => ReplayNextKeeps(s, n);
    case RetrySend =>
      if s.job.batch == [] {
        NarrowKeeps(s, Unwinding, s.replaying, s.replayRest);
      } else {
        RetrySendKeeps(s);
      }
    case RequeueDone => RequeueDoneKeeps(s);
    case Unwind => UnwindKeeps(s);
    case ReplayRead => ReplayReadKeeps(s);
    case StartReplay(rows) => StartReplayKeeps(s, rows);
  }

  lemma QueueEventKeeps(s: State, e: Event)
    requires Inv(s) && Enabled(s, e) && QueueEvent(e)
    ensures Inv(Do(s, e))
    ensures !e.Enqueue? ==> Sub(Line(Do(s, e)), Line(s))
    ensures e.Enqueue? ==> Line(Do(s, e)) == Line(s) + [Tx(e.id, s.nextIndex)]
  {
    hide Flatten, Batches, Without, Sub, Distinct, Ids;
    SubRefl(Line(s));
    match e
    case Enqueue(id) => EnqueueKeeps(s, id);
    case Flush => FlushKeeps(s);
    case QueueReplay => QueueReplayKeeps(s);
    case DiscardBegin(d, id) => DiscardKeeps(s, id, s.discards[d := id]);
    case DiscardEnd(d) =>
      BacklogKeeps(s, {s.discards[d]});
      DiscardsKeep(s.(backlog := Without(s.backlog, {s.discards[d]})), s.discards - {d});
    case ReplayDone => ReplayDoneKeeps(s);
  }

  lemma DiscardsKeep(s: State, discards: map<nat, nat>)
    requires Inv(s)
    ensures Inv(s.(discards := discards)) && Line(s.(discards := discards)) == Line(s)
  {
  }

  lemma ReplayDoneKeeps(s: State)
    requires Inv(s) && s.job.Replaying? && s.replayRest == []
    ensures Inv(s.(replaying := false, job := Idle)) && Line(s.(replaying := false, job := Idle)) == Line(s)
  {
  }

  lemma JobEventKeeps(s: State, e: Event)
    requires Inv(s) && Enabled(s, e) && !SendEvent(e) && !QueueEvent(e)
    ensures Inv(Do(s, e)) && Sub(Line(Do(s, e)), Line(s))
  {
    hide Flatten, Batches, Without, Sub, Distinct, Ids;
    SubRefl(Line(s));
    match e
    case MarkOne => WriteKeeps(s, s.job.todo[0].id, Sent, Marking(s.job.todo[1..], s.job.batch));
    case RequeueOne => WriteKeeps(s, s.job.todo[0].id, Queued, Requeueing(s.job.todo[1..], s.job.batch));
    case RetryOne => WriteKeeps(s, s.job.todo[0].id, Queued, Retrying(s.job.todo[1..], s.job.batch));
    case Mutate => MutateKeeps(s);
    case TransportFails => FailingKeeps(s);
    case ResultsFault => FailingKeeps(s);
    case Answer(results, lastSyncId) =>
      SubRefl(s.job.batch);
      NarrowKeeps(s, Settling(results, Highest(results, lastSyncId), s.job.batch, s.job.batch), s.replaying,
                  s.replayRest);
    case SettleOne => SettleKeeps(s);
    case SettleDone => SettleDoneKeeps(s);
    case RejectBatch(id) => RejectedKeeps(s, id);
  }

  lemma FailingKeeps(s: State)
    requires Inv(s) && (s.job.InFlight? || s.job.Settling?)
    ensures Inv(Failing(s, s.job.batch)) && Sub(Line(Failing(s, s.job.batch)), Line(s))
  {
    hide Flatten, Batches, Without, Sub, Distinct, Ids;
    SubRefl(s.job.batch);
    NarrowKeeps(s, Requeueing(s.job.batch, s.job.batch), false, []);
  }

  lemma SettleDoneKeeps(s: State)
    requires Inv(s) && s.job.Settling?
    ensures var s' := s.(job := if s.job.unresolved == [] then Unwinding
                                else Requeueing(s.job.unresolved, s.job.unresolved));
            Inv(s') && Sub(Line(s'), Line(s))
  {
    hide Flatten, Batches, Without, Distinct, Ids;
    NarrowKeeps(s, if s.job.unresolved == [] then Unwinding else Requeueing(s.job.unresolved, s.job.unresolved),
                s.replaying, s.replayRest);
  }

  lemma MutateKeeps(s: State)
    requires Inv(s) && s.job.Marking?
    ensures Inv(Mutated(s)) && Sub(Line(Mutated(s)), Line(s))
  {
    hide Flatten, Batches, Without, Distinct, Ids;
    var batch := Without(s.job.batch, s.discarded);
    SubWithout(s.job.batch, s.discarded);
    NarrowKeeps(s, if batch == [] then Unwinding else InFlight(batch), s.replaying, s.replayRest);
    HistoryKeeps(s.(job := Mutated(s).job), Mutated(s).sends, Mutated(s).owed);
  }

  lemma HistoryKeeps(s: State, sends: seq<seq<Tx>>, owed: set<Tx>)
    requires Inv(s)
    ensures Inv(s.(sends := sends, owed := owed)) && Line(s.(sends := sends, owed := owed)) == Line(s)
  {
  }

  /** Every event keeps one owner per transaction and an exact claimed set. */
  lemma StepKeeps(s: State, e: Event)
    requires Inv(s) && Enabled(s, e)
    ensures Inv(Do(s, e))
    ensures !e.Enqueue? && !e.ReplayRead? ==> Sub(Line(Do(s, e)), Line(s))
    ensures e.Enqueue? ==> Line(Do(s, e)) == Line(s) + [Tx(e.id, s.nextIndex)]
  {
    hide Inv, Do, Line;
    if SendEvent(e) {
      SendEventKeeps(s, e);
    } else if QueueEvent(e) {
      QueueEventKeeps(s, e);
    } else {
      JobEventKeeps(s, e);
    }
  }

  lemma InitialInv(s: State)
    requires Initial(s)
    ensures Inv(s)
  {
    NoIds();
    assert Line(s) == [] && Claims(s) == [];
  }

  lemma {:induction false} RunKeeps(s: State, run: seq<Event>)
    requires Inv(s) && Legal(s, run)
    ensures Inv(Run(s, run))
    decreases |run|
  {
    if run != [] {
      StepKeeps(s, run[0]);
      RunKeeps(Do(s, run[0]), run[1..]);
    }
  }
}
