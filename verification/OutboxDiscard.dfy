/** When a discard is final, and when the transaction can still reach the server afterwards. */
module OutboxDiscard {
  import opened Queues
  import opened Outbox
  import opened OutboxInvariant
  import opened OutboxTheorems

  /** Some run from s hands the transport a batch with this id. */
  ghost predicate SentLater(s: State, id: nat) {
    exists run, i :: Legal(s, run) && |s.sends| <= i < |Run(s, run).sends| && id in Ids(Run(s, run).sends[i])
  }

  /** The next job to touch the backlog is a replay, which forgets it and reads storage instead. */
  predicate ReplayClearsBacklog(s: State) {
    s.job.Reading? || (s.replayRest == [] && s.waiting != [] && s.waiting[0].Replay?)
  }

  /**
   * A replay has read this transaction's row and not claimed it yet: no discard reaches the
   * replay's list. While the read is under way that takes a transaction no sender has claimed,
   * or one the discard itself takes out of the pending batch, claim and all.
   */
  predicate HeldByReplay(s: State, id: nat) {
    || id in Ids(s.replayRest)
    || (s.job.Reading? && id in Ids(s.job.rows) && (id !in s.claimed || id in Ids(s.pending)))
  }

  /**
   * The discard is too late: a replay holds the transaction, or it waits in the retry backlog and
   * a send may take that while the discard awaits storage (the discard filters the backlog only
   * afterwards).
   */
  predicate AtRisk(s: State, id: nat) {
    HeldByReplay(s, id) || (id in Ids(s.backlog) && !ReplayClearsBacklog(s))
  }

  /** No sender can hand this id to the transport any more. */
  ghost predicate Gone(s: State, id: nat) {
    && id in s.used && id !in s.outbox && id !in Ids(s.pending) && !HeldByReplay(s, id)
    && (id in Ids(JobList(s.job)) || id in Ids(Flatten(Batches(s.waiting))) ==> id in s.discarded)
    && (id in Ids(s.backlog) ==> ReplayClearsBacklog(s))
  }

  lemma DiscardMakesGone(s: State, d: nat, id: nat)
    requires Inv(s) && d !in s.discards && id in s.used && !AtRisk(s, id)
    ensures Gone(Do(s, DiscardBegin(d, id)), id)
  {
    hide Distinct, Sub, Flatten, Batches;
    LineParts(s);
    ClaimParts(s);
    WithoutIds(s.pending, {id});
    IdsConcat(Flatten(Batches(s.waiting)), s.pending);
    PartsDisjoint(Flatten(Batches(s.waiting)), s.pending);
  }

  lemma GoneAfterSend(s: State, requested: seq<Tx>, id: nat)
    requires Sending(s, requested)
    requires id in s.used && id !in s.outbox && id !in Ids(s.pending) && id !in Ids(s.replayRest)
    requires id !in Ids(s.backlog)
    requires id in Ids(requested) || id in Ids(Flatten(Batches(s.waiting))) ==> id in s.discarded
    ensures Gone(BeginSend(s, requested), id)
  {
    hide Distinct, Sub, Flatten, Batches;
    BeginSendLine(s, requested);
    IdsConcat(s.backlog, requested);
  }

  lemma GoneAfterStart(s: State, id: nat)
    requires Inv(s) && Gone(s, id) && s.job.Idle? && s.waiting != [] && s.waiting[0].Send?
    ensures Gone(SendStarted(s), id)
  {
    StartIsSending(s);
    var batch := s.waiting[0].batch;
    assert Batches(s.waiting) == [batch] + Batches(s.waiting[1..]);
    assert Batches(s.waiting)[1..] == Batches(s.waiting[1..]);
    IdsConcat(batch, Flatten(Batches(s.waiting[1..])));
    GoneAfterSend(s.(waiting := s.waiting[1..], frames := [batch] + s.frames), batch, id);
  }

  lemma GoneAfterReplayNext(s: State, n: nat, id: nat)
    requires Inv(s) && Gone(s, id) && s.job.Replaying? && 1 <= n <= |s.replayRest|
    ensures Gone(ReplayBatch(s, n), id)
  {
    ReplayIsSending(s, n);
    var batch, rest := s.replayRest[..n], s.replayRest[n..];
    assert s.replayRest == batch + rest;
    IdsConcat(batch, rest);
    GoneAfterSend(s.(replayRest := rest, claimed := s.claimed + Ids(batch), frames := [batch] + s.frames), batch, id);
  }

  lemma GoneAfterRelease(s: State, id: nat)
    requires Inv(s) && Gone(s, id) && s.job.Unwinding? && s.frames != []
    ensures Gone(Released(s), id)
  {
    hide Distinct, Sub, Batches;
    ClaimParts(s);
    NoIds();
    IdsConcat(Flatten(Batches(s.waiting)), s.pending);
    assert Flatten(s.frames) == s.frames[0] + Flatten(s.frames[1..]);
    IdsConcat(s.frames[0], Flatten(s.frames[1..]));
  }

  lemma GoneAfterQueue(s: State, e: Event, id: nat)
    requires Inv(s) && Gone(s, id) && Enabled(s, e) && QueueEvent(e)
    ensures Gone(Do(s, e), id)
  {
    hide Distinct, Sub;
    match e
    case Enqueue(_) => IdsConcat(s.pending, [Tx(e.id, s.nextIndex)]);
    case Flush =>
      TailAfterFlush(s);
      IdsConcat(Flatten(Batches(s.waiting)), s.pending);
    case QueueReplay =>
      BatchesConcat(s.waiting, [Replay]);
      BatchesOne(Replay);
      assert Batches(s.waiting) + [] == Batches(s.waiting);
    case DiscardBegin(_, other) => WithoutIds(s.pending, {other});
    case DiscardEnd(d) => WithoutIds(s.backlog, {s.discards[d]});
    case ReplayDone =>
  }

  lemma GoneAfterSendEvent(s: State, e: Event, id: nat)
    requires Inv(s) && Gone(s, id) && Enabled(s, e) && SendEvent(e)
    ensures Gone(Do(s, e), id)
  {
    hide Distinct, Sub, Ids, Flatten;
    match e
    case StartSend => GoneAfterStart(s, id);
    case StartReplay(rows) => GoneAfterStartReplay(s, rows, id);
    case ReplayRead =>
      WithoutIds(s.job.rows, s.claimed);
      NoIds();
    case ReplayNext(n) => GoneAfterReplayNext(s, n, id);
    case RetrySend =>
      NoIds();
      if s.job.batch != [] {
        RetryIsSending(s);
        GoneAfterSend(s, s.job.batch, id);
      }
    case RequeueDone => GoneAfterRequeue(s, id);
    case Unwind => GoneAfterRelease(s, id);
  }

  lemma GoneAfterStartReplay(s: State, rows: seq<Tx>, id: nat)
    requires Inv(s) && Gone(s, id) && Enabled(s, StartReplay(rows))
    ensures Gone(Do(s, StartReplay(rows)), id)
  {
    assert [] + Batches(s.waiting[1..]) == Batches(s.waiting[1..]);
    forall t | t in rows ensures t.id != id {
      assert t.id in s.outbox;
    }
  }

  lemma GoneAfterRequeue(s: State, id: nat)
    requires Inv(s) && Gone(s, id) && s.job.Requeueing?
    ensures Gone(Requeued(s), id)
  {
    var kept := Without(s.job.batch, s.discarded);
    WithoutIds(s.job.batch, s.discarded);
    IdsConcat(s.backlog, kept);
    NoIds();
  }

  /** A discard of any transaction leaves the gone ones gone. */
  lemma GoneAfterDrop(s: State, other: nat, id: nat)
    requires Gone(s, id)
    ensures Gone(Drop(s, other).(backlog := Without(s.backlog, {other})), id)
  {
    hide Flatten, Batches, Ids, Without;
    WithoutIds(s.pending, {other});
    WithoutIds(s.backlog, {other});
  }

  /** The job keeps part of its batch. */
  lemma GoneAfterNarrow(s: State, s': State, id: nat)
    requires Gone(s, id) && s' == s.(job := s'.job, outbox := s'.outbox, acked := s'.acked, sends := s'.sends,
                                     owed := s'.owed, replaying := s'.replaying, replayRest := s'.replayRest)
    requires Ids(JobList(s'.job)) <= Ids(JobList(s.job)) && s'.outbox.Keys <= s.outbox.Keys
    requires s'.replayRest == s.replayRest || s'.replayRest == []
    requires !s.job.Reading? && !s'.job.Reading?
    ensures Gone(s', id)
  {
    hide Flatten, Batches;
  }

  lemma GoneAfterSettle(s: State, id: nat)
    requires Gone(s, id) && s.job.Settling? && s.job.results != []
    ensures Gone(Settle(s), id)
  {
    hide Flatten, Batches, Ids, Without;
    var r := s.job.results[0];
    var unresolved := if r.id in Ids(s.job.batch) then Without(s.job.unresolved, {r.id}) else s.job.unresolved;
    var s1 := s.(job := Settling(s.job.results[1..], s.job.highest, unresolved, s.job.batch));
    GoneAfterNarrow(s, s1, id);
    if r.id in Ids(s.job.batch) {
      if r.success && Needed(r, s.job.highest).Some? {
        GoneAfterNarrow(s1, Settle(s), id);
      } else {
        GoneAfterDrop(s1, r.id, id);
      }
    }
  }

  lemma GoneAfterReject(s: State, other: nat, id: nat)
    requires Gone(s, id) && s.job.InFlight?
    ensures Gone(Rejected(s, other), id)
  {
    hide Flatten, Batches, Ids, Without;
    WithoutIds(s.job.batch, {other});
    GoneAfterDrop(s, other, id);
    GoneAfterNarrow(Drop(s, other).(backlog := Without(s.backlog, {other})), Rejected(s, other), id);
  }

  lemma GoneAfterJobEvent(s: State, e: Event, id: nat)
    requires Inv(s) && Gone(s, id) && Enabled(s, e) && !SendEvent(e) && !QueueEvent(e)
    ensures Gone(Do(s, e), id)
  {
    hide Distinct, Flatten, Batches, Ids, Without, Gone;
    NoIds();
    if e.SettleOne? {
      GoneAfterSettle(s, id);
    } else if e.RejectBatch? {
      GoneAfterReject(s, e.id, id);
    } else {
      if e.Mutate? {
        WithoutIds(s.job.batch, s.discarded);
      } else if e.SettleDone? {
        SubIds(s.job.unresolved, s.job.batch);
      }
      GoneAfterNarrow(s, Do(s, e), id);
    }
  }

  /** Gone is for good, and no step from there sends the transaction. */
  lemma GoneStays(s: State, e: Event, id: nat)
    requires Inv(s) && Gone(s, id) && Enabled(s, e)
    ensures Gone(Do(s, e), id)
    ensures s.sends <= Do(s, e).sends
    ensures forall i :: |s.sends| <= i < |Do(s, e).sends| ==> id !in Ids(Do(s, e).sends[i])
  {
    SendsGrow(s, e);
    if SendEvent(e) {
      GoneAfterSendEvent(s, e, id);
    } else if QueueEvent(e) {
      GoneAfterQueue(s, e, id);
    } else {
      GoneAfterJobEvent(s, e, id);
    }
  }

  /** Only the call of the transport adds a batch, and it leaves out what was discarded. */
  lemma SendsGrow(s: State, e: Event)
    requires Enabled(s, e)
    ensures s.sends <= Do(s, e).sends
    ensures e != Mutate ==> Do(s, e).sends == s.sends
    ensures forall i, id :: |s.sends| <= i < |Do(s, e).sends| && id in Ids(Do(s, e).sends[i]) ==>
                              e == Mutate && id in Ids(s.job.batch) && id !in s.discarded
  {
    hide Ids, Flatten, Batches;
    if e.Mutate? {
      WithoutIds(s.job.batch, s.discarded);
    }
  }

  lemma {:induction false} GoneNeverSent(s: State, run: seq<Event>, id: nat)
    requires Inv(s) && Gone(s, id) && Legal(s, run)
    ensures s.sends <= Run(s, run).sends
    ensures forall i :: |s.sends| <= i < |Run(s, run).sends| ==> id !in Ids(Run(s, run).sends[i])
    decreases |run|
  {
    if run != [] {
      GoneStays(s, run[0], id);
      StepKeeps(s, run[0]);
      GoneNeverSent(Do(s, run[0]), run[1..], id);
    }
  }

  // ---- the runs in which a discarded transaction is sent

  lemma SentStepEarlier(s: State, e: Event, id: nat)
    requires Enabled(s, e) && SentLater(Do(s, e), id)
    ensures SentLater(s, id)
  {
    hide Do, Enabled, Ids;
    SendsGrow(s, e);
    var s' := Do(s, e);
    var run, i :| Legal(s', run) && |s'.sends| <= i < |Run(s', run).sends| && id in Ids(Run(s', run).sends[i]);
    assert ([e] + run)[0] == e && ([e] + run)[1..] == run;
    assert Legal(s, [e] + run) && Run(s, [e] + run) == Run(s', run);
  }

  lemma SentNow(s: State, id: nat)
    requires s.job.Marking? && s.job.todo == [] && id in Ids(s.job.batch) && id !in s.discarded
    ensures SentLater(s, id)
  {
    WithoutIds(s.job.batch, s.discarded);
    NoIds();
    assert id in Ids(Without(s.job.batch, s.discarded));
    var s' := Do(s, Mutate);
    assert Legal(s', []) && [Mutate][1..] == [];
    assert Legal(s, [Mutate]) && Run(s, [Mutate]) == s';
    assert s'.sends[|s.sends|] == Without(s.job.batch, s.discarded);
  }

  lemma {:induction false} MarkedThenSent(s: State, id: nat)
    requires s.job.Marking? && id in Ids(s.job.batch) && id !in s.discarded
    ensures SentLater(s, id)
    decreases if s.job.Marking? then |s.job.todo| else 0
  {
    if s.job.todo == [] {
      SentNow(s, id);
    } else {
      MarkedThenSent(Do(s, MarkOne), id);
      SentStepEarlier(s, MarkOne, id);
    }
  }

  /** sendBatch sends what was requested, and carries the backlog. */
  lemma CarriedThenSent(s: State, requested: seq<Tx>, id: nat)
    requires Sending(s, requested) && (id in Ids(s.backlog) || id in Ids(requested)) && id !in s.discarded
    ensures SentLater(BeginSend(s, requested), id)
  {
    BeginSendLine(s, requested);
    NoIds();
    IdsConcat(s.backlog, requested);
    MarkedThenSent(BeginSend(s, requested), id);
  }

  lemma StartedThenSent(s: State, id: nat)
    requires Inv(s) && s.job.Idle? && s.waiting != [] && s.waiting[0].Send?
    requires id in Ids(s.backlog) && id !in s.discarded
    ensures SentLater(s, id)
  {
    StartIsSending(s);
    var batch := s.waiting[0].batch;
    CarriedThenSent(s.(waiting := s.waiting[1..], frames := [batch] + s.frames), batch, id);
    SentStepEarlier(s, StartSend, id);
  }

  lemma {:induction false} UnusedId(used: set<nat>) returns (id: nat)
    ensures id !in used && forall other :: other in used ==> other < id
  {
    if used == {} {
      id := 0;
    } else {
      var other :| other in used;
      var above := UnusedId(used - {other});
      id := if above > other then above else other + 1;
      assert used == (used - {other}) + {other};
    }
  }

  lemma IdleThenSent(s: State, id: nat)
    requires Inv(s) && s.job.Idle? && id in Ids(s.backlog) && !ReplayClearsBacklog(s)
    ensures SentLater(s, id)
  {
    LineParts(s);
    NoIds();
    assert Claims(s) == Tail(s);
    if s.waiting != [] {
      StartedThenSent(s, id);
    } else {
      var other := UnusedId(s.used);
      var s1 := Do(s, Enqueue(other));
      EnqueueKeeps(s, other);
      var s2 := Do(s1, Flush);
      FlushKeeps(s1);
      StartedThenSent(s2, id);
      SentStepEarlier(s1, Flush, id);
      SentStepEarlier(s, Enqueue(other), id);
    }
  }

  lemma ReplayBatchThenSent(s: State, id: nat)
    requires Inv(s) && s.job.Replaying? && s.replayRest != [] && id in Ids(s.backlog) && id !in s.discarded
    ensures SentLater(s, id)
  {
    hide Sub, Distinct, Ids, Inv, Line;
    ReplayIsSending(s, 1);
    var batch, rest := s.replayRest[..1], s.replayRest[1..];
    CarriedThenSent(s.(replayRest := rest, claimed := s.claimed + Ids(batch), frames := [batch] + s.frames), batch, id);
    SentStepEarlier(s, ReplayNext(1), id);
  }

  lemma ReplayingThenSent(s: State, id: nat)
    requires Inv(s) && s.job.Replaying? && id in Ids(s.backlog) && !ReplayClearsBacklog(s)
    ensures SentLater(s, id)
  {
    hide Sub, Distinct;
    if s.replayRest == [] {
      ReplayDoneKeeps(s);
      IdleThenSent(Do(s, ReplayDone), id);
      SentStepEarlier(s, ReplayDone, id);
    } else {
      LineParts(s);
      NoIds();
      assert Claims(s) == Tail(s);
      ReplayBatchThenSent(s, id);
    }
  }

  lemma {:induction false} BacklogThenSent(s: State, id: nat)
    requires Inv(s) && id in Ids(s.backlog) && !ReplayClearsBacklog(s)
    ensures SentLater(s, id)
    decreases |s.frames|
  {
    NoIds();
    if s.job.Idle? {
      IdleThenSent(s, id);
    } else if s.job.Replaying? {
      ReplayingThenSent(s, id);
    } else if s.job.Unwinding? {
      UnwindKeeps(s);
      BacklogThenSent(Do(s, Unwind), id);
      SentStepEarlier(s, Unwind, id);
    }
  }

  // ---- the same for a transaction a replay holds

  /** How far the running job is from the next batch of its replay. */
  function Rank(j: Job): nat {
    match j
    case Retrying(_, _) => 6
    case Marking(_, _) => 5
    case InFlight(_) => 4
    case Settling(_, _, _, _) => 3
    case Requeueing(_, _) => 2
    case Unwinding => 1
    case _ => 0
  }

  function StepsLeft(j: Job): nat {
    match j
    case Retrying(todo, _) => |todo|
    case Marking(todo, _) => |todo|
    case Settling(results, _, _, _) => |results|
    case Requeueing(todo, _) => |todo|
    case _ => 0
  }

  /** One step of the job towards its end, with nothing failing. */
  function Onward(s: State): Event
    requires Busy(s.job) || s.job.Unwinding?
  {
    match s.job
    case Retrying(todo, _) => if todo != [] then RetryOne else RetrySend
    case Marking(todo, _) => if todo != [] then MarkOne else Mutate
    case InFlight(_) => Answer([], 0)
    case Settling(results, _, _, _) => if results != [] then SettleOne else SettleDone
    case Requeueing(todo, _) => if todo != [] then RequeueOne else RequeueDone
    case _ => Unwind
  }

  lemma OnwardProgress(s: State)
    requires Inv(s) && (Busy(s.job) || s.job.Unwinding?)
    ensures Enabled(s, Onward(s))
    ensures var s' := Do(s, Onward(s));
            || Rank(s'.job) < Rank(s.job)
            || (Rank(s'.job) == Rank(s.job)
                && (StepsLeft(s'.job) < StepsLeft(s.job) || (s'.job == s.job && |s'.frames| < |s.frames|)))
  {
    hide Inv, Without, Ids, Flatten, Batches, Distinct, Sub;
    OnwardEnabled(s);
  }

  lemma OnwardEnabled(s: State)
    requires Inv(s) && (Busy(s.job) || s.job.Unwinding?)
    ensures Enabled(s, Onward(s)) && Do(s, Onward(s)).replayRest == s.replayRest
  {
    hide Without, Ids, Flatten, Batches, Distinct, Sub;
  }

  lemma ReplayedThenSent(s: State, id: nat)
    requires Inv(s) && s.job.Replaying? && id in Ids(s.replayRest)
    ensures SentLater(s, id)
  {
    hide Sub, Distinct, Ids, Inv, Line;
    HeldIsNotDiscarded(s, id);
    var n := |s.replayRest|;
    var batch, rest := s.replayRest[..n], s.replayRest[n..];
    ReplayIsSending(s, n);
    assert batch == s.replayRest;
    CarriedThenSent(s.(replayRest := rest, claimed := s.claimed + Ids(batch), frames := [batch] + s.frames), batch, id);
    SentStepEarlier(s, ReplayNext(n), id);
  }

  lemma HeldIsNotDiscarded(s: State, id: nat)
    requires Inv(s) && id in Ids(s.replayRest)
    ensures id !in s.discarded && s.replayRest != []
  {
    NoIds();
  }

  /** Whatever the job is doing, a run without failures reaches the replay's next batch. */
  lemma {:induction false} HeldThenSent(s: State, id: nat)
    requires Inv(s) && id in Ids(s.replayRest)
    ensures SentLater(s, id)
    decreases Rank(s.job), StepsLeft(s.job), |s.frames|
  {
    hide Sub, Distinct, Do, Enabled, Ids, ClaimsExact;
    NoIds();
    if s.job.Replaying? {
      ReplayedThenSent(s, id);
    } else {
      assert Busy(s.job) || s.job.Unwinding?;
      OnwardEnabled(s);
      OnwardProgress(s);
      StepKeeps(s, Onward(s));
      HeldThenSent(Do(s, Onward(s)), id);
      SentStepEarlier(s, Onward(s), id);
    }
  }

  lemma ReadThenSent(s: State, id: nat)
    requires Inv(s) && s.job.Reading? && id in Ids(s.job.rows) && id !in s.claimed
    ensures SentLater(s, id)
  {
    hide Sub, Distinct, Ids;
    WithoutIds(s.job.rows, s.claimed);
    StepKeeps(s, ReplayRead);
    HeldThenSent(Do(s, ReplayRead), id);
    SentStepEarlier(s, ReplayRead, id);
  }

  /** Discard is final exactly when it is not too late. */
  lemma DiscardIsFinal(s: State, d: nat, id: nat)
    requires Reachable(s) && d !in s.discards && id in s.used
    ensures SentLater(Do(s, DiscardBegin(d, id)), id) <==> AtRisk(s, id)
  {
    ReachableInv(s);
    var s' := Do(s, DiscardBegin(d, id));
    StepKeeps(s, DiscardBegin(d, id));
    if id in Ids(s.replayRest) {
      HeldThenSent(s', id);
    } else if HeldByReplay(s, id) {
      ReadThenSent(s', id);
    } else if AtRisk(s, id) {
      BacklogThenSent(s', id);
    } else {
      DiscardMakesGone(s, d, id);
      if SentLater(s', id) {
        var run, i :| Legal(s', run) && |s'.sends| <= i < |Run(s', run).sends| && id in Ids(Run(s', run).sends[i]);
        GoneNeverSent(s', run, id);
        assert false;
      }
    }
  }
}
