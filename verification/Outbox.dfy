/** The outbox send protocol as a state machine: one event per await. */
module Outbox {
  import opened Records
  import opened Queues

  datatype RowState = Queued | Sent | AwaitingSync(needed: nat)

  /** A persisted transaction. */
  datatype Row = Row(index: nat, state: RowState)

  type Rows = map<nat, Row>

  /** One entry of the server's answer to a mutation batch. */
  datatype TxResult = TxResult(id: nat, success: bool, syncId: Option<nat>)

  /** A job waiting on the send queue. */
  datatype Waiting = Send(batch: seq<Tx>) | Replay

  /** The job running on the send queue, and where it is. */
  datatype Job =
    | Idle
    /** a replay has asked storage for the outbox and got these rows */
    | Reading(rows: seq<Tx>)
    /** a replay is between two of its batches */
    | Replaying
    | Marking(todo: seq<Tx>, batch: seq<Tx>)
    | InFlight(batch: seq<Tx>)
    | Settling(results: seq<TxResult>, highest: nat, unresolved: seq<Tx>, batch: seq<Tx>)
    | Requeueing(todo: seq<Tx>, batch: seq<Tx>)
    | Retrying(todo: seq<Tx>, batch: seq<Tx>)
    /** the finally blocks are running */
    | Unwinding

  /**
   * One lifecycle: from the load of a persisted outbox to the next dispose. Storage serves its
   * calls in the order they are made, so a storage call takes effect at the event that makes it.
   */
  datatype State = State(
    outbox: Rows,
    nextIndex: nat,
    pending: seq<Tx>,
    waiting: seq<Waiting>,
    claimed: set<nat>,
    discarded: set<nat>,
    backlog: seq<Tx>,
    job: Job,
    /** what each enclosing finally block will release, innermost first */
    frames: seq<seq<Tx>>,
    replaying: bool,
    replayRest: seq<Tx>,
    /** discard calls waiting for storage, by handle */
    discards: map<nat, nat>,
    /** history: every batch handed to the transport */
    sends: seq<seq<Tx>>,
    /** history: ids ever issued, discarded, acknowledged */
    used: set<nat>,
    dropped: set<nat>,
    acked: set<nat>,
    /** history: transactions put back for a later send that no send has carried since */
    owed: set<Tx>)

  datatype Event =
    | Enqueue(id: nat)
    | Flush
    | QueueReplay
    | StartSend
    | StartReplay(rows: seq<Tx>)
    | ReplayRead
    | ReplayNext(n: nat)
    | ReplayDone
    | MarkOne
    | Mutate
    | TransportFails
    | RequeueOne
    | RequeueDone
    | Answer(results: seq<TxResult>, lastSyncId: nat)
    | SettleOne
    | SettleDone
    | ResultsFault
    | RejectBatch(id: nat)
    | RetryOne
    | RetrySend
    | Unwind
    | DiscardBegin(handle: nat, id: nat)
    | DiscardEnd(handle: nat)

  function SetState(rows: Rows, id: nat, state: RowState): Rows {
    if id in rows then rows[id := rows[id].(state := state)] else rows
  }

  /** What a replay reads: every row still queued or sent, in batchIndex order. */
  ghost predicate Lists(ts: seq<Tx>, rows: Rows) {
    && Distinct(ts)
    && (forall i, j :: 0 <= i < j < |ts| ==> ts[i].index <= ts[j].index)
    && forall t :: t in ts <==>
         t.id in rows && rows[t.id].index == t.index && (rows[t.id].state.Queued? || rows[t.id].state.Sent?)
  }

  /** The largest sync id an answer mentions; 0 is the zero sync id. */
  function Highest(results: seq<TxResult>, lastSyncId: nat): (h: nat)
    ensures lastSyncId <= h
    ensures forall i :: 0 <= i < |results| && results[i].syncId.Some? ==> results[i].syncId.value <= h
    ensures h == lastSyncId || exists i :: 0 <= i < |results| && results[i].syncId == Some(h)
  {
    if results == [] then lastSyncId
    else
      var h := Highest(results[..|results| - 1], lastSyncId);
      var last := results[|results| - 1];
      if last.syncId.Some? then Max(h, last.syncId.value) else h
  }

  /** The sync id an acknowledged transaction waits for; None completes it at once. */
  function Needed(r: TxResult, highest: nat): Option<nat> {
    if r.syncId.Some? then r.syncId else if highest == 0 then None else Some(highest)
  }

  function Batches(waiting: seq<Waiting>): seq<seq<Tx>> {
    if waiting == [] then []
    else (if waiting[0].Send? then [waiting[0].batch] else []) + Batches(waiting[1..])
  }

  function JobList(j: Job): seq<Tx> {
    match j
    case Marking(_, batch) => batch
    case InFlight(batch) => batch
    case Settling(_, _, _, batch) => batch
    case Requeueing(_, batch) => batch
    case Retrying(_, batch) => batch
    case _ => []
  }

  /** No batch is being sent or settled. */
  predicate JobFree(j: Job) {
    j.Idle? || j.Reading? || j.Replaying?
  }

  /** Everything queued behind the running job. */
  function Tail(s: State): seq<Tx> {
    Flatten(Batches(s.waiting)) + s.pending
  }

  /** Every transaction a sender holds, in the order the senders will carry it. */
  function Line(s: State): seq<Tx> {
    s.backlog + JobList(s.job) + s.replayRest + Tail(s)
  }

  /** What the claimed set stands for. */
  function Claims(s: State): seq<Tx> {
    Flatten(s.frames) + Tail(s)
  }

  /** sendBatch up to its first await. */
  function BeginSend(s: State, requested: seq<Tx>): State {
    var carried := Without(s.backlog, Ids(requested));
    var batch := carried + requested;
    if batch == [] then s.(job := Unwinding)
    else s.(backlog := [], claimed := s.claimed + Ids(carried), frames := [carried] + s.frames,
            job := Marking(Without(batch, s.discarded), batch))
  }

  /** discardTransaction up to and including its storage call. */
  function Drop(s: State, id: nat): State {
    var batched := id in Ids(s.pending);
    s.(pending := Without(s.pending, {id}),
       claimed := if batched then s.claimed - {id} else s.claimed,
       discarded := if !batched && id in s.claimed then s.discarded + {id} else s.discarded,
       outbox := s.outbox - {id}, dropped := s.dropped + {id})
  }

  function Settle(s: State): State
    requires s.job.Settling? && s.job.results != []
  {
    var r := s.job.results[0];
    var s1 := s.(job := s.job.(results := s.job.results[1..]));
    if r.id !in Ids(s.job.batch) then s1
    else
      var s2 := s1.(job := s1.job.(unresolved := Without(s.job.unresolved, {r.id})));
      if r.success && Needed(r, s.job.highest).Some? then
        s2.(outbox := SetState(s.outbox, r.id, AwaitingSync(Needed(r, s.job.highest).value)),
            acked := s.acked + {r.id})
      else Drop(s2, r.id).(backlog := Without(s.backlog, {r.id}))
  }

  ghost predicate Enabled(s: State, e: Event) {
    match e
    case Enqueue(id) => id !in s.used
    case Flush => s.pending != []
    case QueueReplay => true
    case StartSend => s.job.Idle? && s.waiting != [] && s.waiting[0].Send?
    case StartReplay(rows) => s.job.Idle? && s.waiting != [] && s.waiting[0].Replay? && Lists(rows, s.outbox)
    case ReplayRead => s.job.Reading?
    case ReplayNext(n) => s.job.Replaying? && 1 <= n <= |s.replayRest|
    case ReplayDone => s.job.Replaying? && s.replayRest == []
    case MarkOne => s.job.Marking? && s.job.todo != []
    case Mutate => s.job.Marking? && s.job.todo == []
    case TransportFails => s.job.InFlight?
    case RequeueOne => s.job.Requeueing? && s.job.todo != []
    case RequeueDone => s.job.Requeueing? && s.job.todo == []
    case Answer(_, _) => s.job.InFlight?
    case SettleOne => s.job.Settling? && s.job.results != []
    case SettleDone => s.job.Settling? && s.job.results == []
    case ResultsFault => s.job.Settling?
    case RejectBatch(id) => s.job.InFlight? && id in Ids(s.job.batch)
    case RetryOne => s.job.Retrying? && s.job.todo != []
    case RetrySend => s.job.Retrying? && s.job.todo == []
    case Unwind => s.job.Unwinding? && s.frames != []
    case DiscardBegin(d, id) => d !in s.discards
    case DiscardEnd(d) => d in s.discards
  }

  /** queueTransaction: stamped, persisted, claimed and batched. */
  function Enqueued(s: State, id: nat): State {
    s.(outbox := s.outbox[id := Row(s.nextIndex, Queued)], pending := s.pending + [Tx(id, s.nextIndex)],
       nextIndex := s.nextIndex + 1, claimed := s.claimed + {id}, used := s.used + {id})
  }

  function Flushed(s: State): State {
    s.(waiting := s.waiting + [Send(s.pending)], pending := [])
  }

  function SendStarted(s: State): State
    requires s.waiting != [] && s.waiting[0].Send?
  {
    BeginSend(s.(waiting := s.waiting[1..], frames := [s.waiting[0].batch] + s.frames), s.waiting[0].batch)
  }

  function ResetSent(rows: Rows, ids: set<nat>): Rows {
    map id | id in rows :: if rows[id].state.Sent? && id in ids then rows[id].(state := Queued) else rows[id]
  }

  /** The replay has its rows: the backlog is among them, and claimed rows belong to queued sends. */
  function OutboxRead(s: State): State
    requires s.job.Reading?
  {
    var unclaimed := Without(s.job.rows, s.claimed);
    s.(outbox := ResetSent(s.outbox, Ids(unclaimed)), backlog := [], replaying := true,
       replayRest := unclaimed, job := Replaying)
  }

  function ReplayBatch(s: State, n: nat): State
    requires n <= |s.replayRest|
  {
    var batch := s.replayRest[..n];
    BeginSend(s.(replayRest := s.replayRest[n..], claimed := s.claimed + Ids(batch),
                 frames := [batch] + s.frames), batch)
  }

  /** The call of transport.mutate, with whatever was not discarded while it was being marked. */
  ghost function Mutated(s: State): State
    requires s.job.Marking?
  {
    var batch := Without(s.job.batch, s.discarded);
    if batch == [] then s.(job := Unwinding)
    else s.(job := InFlight(batch), sends := s.sends + [batch], owed := set t | t in s.owed && t !in batch)
  }

  /** handleTransportFailure after its last write. */
  ghost function Requeued(s: State): State
    requires s.job.Requeueing?
  {
    var batch := Without(s.job.batch, s.discarded);
    s.(backlog := s.backlog + batch, owed := s.owed + (set t | t in batch), job := Unwinding)
  }

  /** An exception leaves the job: whatever the replay had left is dropped. */
  function Failing(s: State, batch: seq<Tx>): State {
    s.(job := Requeueing(batch, batch), replaying := false, replayRest := [])
  }

  /** The server named one transaction invalid: it is dropped, the others are tried again. */
  function Rejected(s: State, id: nat): State
    requires s.job.InFlight?
  {
    var rest := Without(s.job.batch, {id});
    Drop(s, id).(backlog := Without(s.backlog, {id}), job := Retrying(rest, rest))
  }

  /** One finally block. */
  function Released(s: State): State
    requires s.frames != []
  {
    s.(claimed := s.claimed - Ids(s.frames[0]), discarded := s.discarded - Ids(s.frames[0]),
       frames := s.frames[1..],
       job := if |s.frames| > 1 then Unwinding else if s.replaying then Replaying else Idle)
  }

  ghost function Do(s: State, e: Event): State
    requires Enabled(s, e)
  {
    match e
    case Enqueue(id) => Enqueued(s, id)
    case Flush => Flushed(s)
    case QueueReplay => s.(waiting := s.waiting + [Replay])
    case StartSend => SendStarted(s)
    case StartReplay(rows) => s.(waiting := s.waiting[1..], job := Reading(rows))
    case ReplayRead => OutboxRead(s)
    case ReplayNext(n) => ReplayBatch(s, n)
    case ReplayDone => s.(replaying := false, job := Idle)
    case MarkOne => s.(outbox := SetState(s.outbox, s.job.todo[0].id, Sent),
                       job := Marking(s.job.todo[1..], s.job.batch))
    case Mutate => Mutated(s)
    case TransportFails => Failing(s, s.job.batch)
    case RequeueOne => s.(outbox := SetState(s.outbox, s.job.todo[0].id, Queued),
                          job := Requeueing(s.job.todo[1..], s.job.batch))
    case RequeueDone => Requeued(s)
    case Answer(results, lastSyncId) =>
      s.(job := Settling(results, Highest(results, lastSyncId), s.job.batch, s.job.batch))
    case SettleOne => Settle(s)
    case SettleDone => s.(job := if s.job.unresolved == [] then Unwinding
                                 else Requeueing(s.job.unresolved, s.job.unresolved))
    case ResultsFault => Failing(s, s.job.batch)
    case RejectBatch(id) => Rejected(s, id)
    case RetryOne => s.(outbox := SetState(s.outbox, s.job.todo[0].id, Queued),
                        job := Retrying(s.job.todo[1..], s.job.batch))
    case RetrySend => if s.job.batch == [] then s.(job := Unwinding) else BeginSend(s, s.job.batch)
    case Unwind => Released(s)
    case DiscardBegin(d, id) => Drop(s, id).(discards := s.discards[d := id])
    case DiscardEnd(d) => s.(backlog := Without(s.backlog, {s.discards[d]}), discards := s.discards - {d})
  }

  ghost predicate Initial(s: State) {
    && s.pending == [] && s.waiting == [] && s.claimed == {} && s.discarded == {} && s.backlog == []
    && s.job.Idle? && s.frames == [] && !s.replaying && s.replayRest == [] && s.discards == map[]
    && s.sends == [] && s.used == s.outbox.Keys && s.dropped == {} && s.acked == {} && s.owed == {}
    && forall id :: id in s.outbox ==> s.outbox[id].index < s.nextIndex
  }

  ghost predicate Legal(s: State, run: seq<Event>)
    decreases |run|
  {
    run == [] || (Enabled(s, run[0]) && Legal(Do(s, run[0]), run[1..]))
  }

  ghost function Run(s: State, run: seq<Event>): State
    requires Legal(s, run)
    decreases |run|
  {
    if run == [] then s else Run(Do(s, run[0]), run[1..])
  }

  // ---- the invariant

  /** No transaction is in two places, and nothing is owed while the job holds a batch. */
  ghost predicate OneOwner(s: State) {
    && Distinct(Line(s))
    && (s.backlog != [] ==> JobFree(s.job) || s.job.Unwinding?)
    && Ids(Line(s)) <= s.used
    && s.outbox.Keys <= s.used
    && s.acked <= s.used
    && (s.job.Reading? ==> Distinct(s.job.rows) && Ids(s.job.rows) <= s.used)
    && (s.job.Settling? ==> Sub(s.job.unresolved, s.job.batch))
  }

  /** The claimed set is exactly what the running job and the queued batches will release. */
  ghost predicate ClaimsExact(s: State) {
    && Distinct(Claims(s))
    && s.claimed == Ids(Claims(s))
    && s.claimed <= s.used
    && s.claimed !! Ids(s.replayRest)
    && s.discarded <= s.claimed
    && s.discarded <= s.dropped && s.discarded !! Ids(s.pending)
    && Ids(JobList(s.job)) <= Ids(Flatten(s.frames))
  }

  ghost predicate JobShape(s: State) {
    && (JobFree(s.job) <==> s.frames == [])
    && (s.job.Idle? || s.job.Reading? ==> !s.replaying)
    && (s.job.Replaying? ==> s.replaying)
    && (s.replayRest != [] ==> s.replaying)
  }

  ghost predicate Inv(s: State) {
    OneOwner(s) && ClaimsExact(s) && JobShape(s)
  }
}
