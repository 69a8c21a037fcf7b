/** The replica protocol as a state machine: one event per await. */
module Replica {
  import opened Records
  import opened ServerLog

  /** What survives a crash. */
  datatype Disk = Disk(
    rows: Table,
    cursor: nat,
    /** bootstrapComplete, with the schema hash and the persisted-model marks beside it */
    complete: bool,
    /** lastSyncAt has been written */
    synced: bool,
    /** groupChangePending */
    latch: bool)

  /** A live stream or a catch-up pager: the snapshot it reads against and how far it has read. */
  datatype Reader = Reader(tag: nat, pos: nat, packet: Option<Packet>)

  /** Recovering: the one bootstrap attempt of this start has failed. */
  datatype Phase = Stopped | Starting | Recovering | Live

  /**
   * How far a commit has got: the snapshot is fetched; the latch of its quarantine is written;
   * storage is cleared; the rows are stored; the cursor is set; the last metadata is written; the
   * outbox is being reconciled; the latch is cleared again.
   */
  datatype Stage = Fetched | Quarantining | Cleared | RowsWritten | CursorSet | Committed | Reconciling | LatchCleared

  /** What holds the state lock, and how far it has got. */
  datatype Job =
    | Idle
    | Writing(reader: nat)
    | Written(reader: nat)
    | Advancing(reader: nat)
    | Latching(reader: nat, wasPending: bool)
    | Granting(reader: nat)
    | Snapshotting(at: nat, stage: Stage, quarantine: bool)

  /**
   * A local table and a cursor that follow the server log, through crashes, redelivery,
   * membership changes and re-bootstraps. An event is everything that runs between two awaits.
   */
  datatype State = State(
    log: Log,
    disk: Disk,
    phase: Phase,
    cursor: nat,
    snapshot: nat,
    pending: bool,
    owed: bool,
    /** "bootstrap required" handlers that wrote the latch and have not set the flag yet */
    handlers: nat,
    readers: map<nat, Reader>,
    job: Job,
    /** history: the largest id whose effect may be in the stored rows */
    high: nat,
    /** history: the id of the snapshot the stored rows grew from */
    base: nat,
    /** history: the flag in memory was set after a commit had cleared its latch from the disk */
    unbacked: bool)

  datatype Event =
    | Append(entry: Entry)
    | Start
    | Halt(snapshot: nat)
    | Hydrate
    | Fallback
    | Open(reader: nat)
    | Deliver(reader: nat, packet: Packet)
    | Close(reader: nat)
    | Accept(reader: nat, onlyAddsAccess: bool)
    | FlushRows
    | AdvanceMemory
    | PersistCursor
    | FlagGroupChange
    | OweAddedAccess
    | FailJob
    | RequireBootstrap
    | FlagRequired
    | Fetch(at: nat)
    | FetchFails
    | Quarantine
    | ClearStorage
    | WriteSnapshot
    | SetFromBootstrap
    | PersistSnapshot
    | BeginReconcile
    | ClearLatch
    | FinishReconcile
    | Abandon

  const EMPTY_DISK := Disk(map[], 0, false, false, false)

  const INITIAL := State([], EMPTY_DISK, Stopped, 0, 0, false, false, 0, map[], Idle, 0, 0, false)

  predicate HasGroupChange(log: Log, a: nat, b: nat)
    requires b <= |log|
  {
    exists i :: a <= i < b && log[i].GroupChange?
  }

  predicate AllGaps(log: Log, a: nat, b: nat)
    requires b <= |log|
  {
    forall i :: a <= i < b ==> log[i].Gap?
  }

  predicate ReplacesSnapshot(d: Disk) {
    d.complete || d.synced || d.rows != map[]
  }

  /** commitSnapshot has to persist the latch before it touches a row. */
  predicate OwesQuarantine(s: State) {
    ReplacesSnapshot(s.disk) && !s.pending && !s.owed
  }

  /** bootstrapIfNeeded hydrates from storage only when no bootstrap is needed. */
  predicate MustBootstrap(d: Disk) {
    d.latch || !d.complete || d.cursor == 0
  }

  predicate HoldsPacket(s: State, r: nat) {
    r in s.readers && s.readers[r].packet.Some? && s.readers[r].packet.value.last <= |s.log|
  }

  predicate AtStage(s: State, stage: Stage) {
    s.job.Snapshotting? && s.job.stage == stage
  }

  /** The code that holds the state lock has reader r's packet in hand. */
  predicate Handles(job: Job, r: nat) {
    !job.Idle? && !job.Snapshotting? && job.reader == r
  }

  predicate Enabled(s: State, e: Event) {
    match e
    case Append(_) => true
    case Start => s.phase == Stopped
    case Halt(_) => true
    case Hydrate => s.phase == Starting && s.job.Idle? && !MustBootstrap(s.disk)
    case Fallback => s.phase == Recovering && s.job.Idle? && !s.pending && s.disk.rows != map[]
    case Open(r) => s.phase == Live && r !in s.readers
    case Deliver(r, p) =>
      && s.phase == Live && r in s.readers && s.readers[r].packet.None?
      && p.after <= s.readers[r].pos && p.after <= p.last <= |s.log|
    case Close(r) => r in s.readers && !Handles(s.job, r)
    case Accept(r, _) => s.phase == Live && s.job.Idle? && HoldsPacket(s, r)
    case FlushRows => s.job.Writing? && HoldsPacket(s, s.job.reader) && s.cursor <= Last(s, s.job.reader)
    case AdvanceMemory => s.job.Written? && HoldsPacket(s, s.job.reader)
    case PersistCursor => s.job.Advancing? && HoldsPacket(s, s.job.reader)
    case FlagGroupChange => s.job.Latching? && HoldsPacket(s, s.job.reader)
    case OweAddedAccess => s.job.Granting? && HoldsPacket(s, s.job.reader)
    case FailJob => !s.job.Idle? && !s.job.Snapshotting?
    case RequireBootstrap => s.phase == Live
    case FlagRequired => s.handlers > 0
    case Fetch(at) =>
      && s.job.Idle? && at <= |s.log|
      && (s.phase == Starting || (s.phase == Live && (s.pending || s.owed || ReplacesSnapshot(s.disk))))
    case FetchFails => s.phase == Starting && s.job.Idle?
    case Quarantine => AtStage(s, Fetched) && OwesQuarantine(s)
    case ClearStorage => AtStage(s, Quarantining) || (AtStage(s, Fetched) && !OwesQuarantine(s))
    case WriteSnapshot => AtStage(s, Cleared) && s.job.at <= |s.log|
    case SetFromBootstrap => AtStage(s, RowsWritten)
    case PersistSnapshot => AtStage(s, CursorSet)
    case BeginReconcile => AtStage(s, Committed)
    case ClearLatch => AtStage(s, Reconciling) && s.job.quarantine
    case FinishReconcile => AtStage(s, LatchCleared) || (AtStage(s, Reconciling) && !s.job.quarantine)
    case Abandon => s.job.Snapshotting? && s.job.stage != LatchCleared
  }

  function Last(s: State, r: nat): nat
    requires HoldsPacket(s, r)
  {
    s.readers[r].packet.value.last
  }

  /** The reader's packet is done with, applied or not. */
  function Settle(s: State, r: nat): State
    requires HoldsPacket(s, r)
  {
    var reader := s.readers[r];
    s.(job := Idle, readers := s.readers[r := Reader(reader.tag, Max(reader.pos, Last(s, r)), None)])
  }

  /**
   * applyDeltaPacket up to its first await, under the state lock. A change that may revoke access
   * makes its latch write there and sets the flag after it.
   */
  function Dispatch(s: State, r: nat, onlyAddsAccess: bool): State
    requires Enabled(s, Accept(r, onlyAddsAccess))
  {
    var p := s.readers[r].packet.value;
    if s.readers[r].tag != s.snapshot then Settle(s, r)
    else if HasGroupChange(s.log, p.after, p.last) then
      if onlyAddsAccess && !s.pending then s.(job := Granting(r))
      else s.(disk := s.disk.(latch := s.disk.latch || !s.pending), job := Latching(r, s.pending))
    else if s.pending || s.owed || p.last <= s.cursor then Settle(s, r)
    else if AllGaps(s.log, s.cursor, p.last) then
      s.(cursor := p.last, high := Max(s.high, p.last), job := Advancing(r))
    else s.(job := Writing(r))
  }

  function Do(s: State, e: Event): State
    requires Enabled(s, e)
  {
    match e
    case Append(entry) => s.(log := s.log + [entry])
    case Start => s.(phase := Starting, cursor := s.disk.cursor, pending := s.disk.latch, owed := false,
                     handlers := 0, readers := map[], job := Idle, unbacked := false)
    case Halt(k) => s.(phase := Stopped, cursor := 0, snapshot := k, pending := false, owed := false,
                       handlers := 0, readers := map[], job := Idle, unbacked := false)
    case Hydrate => s.(phase := Live)
    case Fallback => s.(phase := Live)
    case Open(r) => s.(readers := s.readers[r := Reader(s.snapshot, s.cursor, None)])
    case Deliver(r, p) => s.(readers := s.readers[r := s.readers[r].(packet := Some(p))])
    case Close(r) => s.(readers := s.readers - {r})
    case Accept(r, onlyAddsAccess) => Dispatch(s, r, onlyAddsAccess)
    case FlushRows =>
      var last := Last(s, s.job.reader);
      s.(disk := s.disk.(rows := Fold(s.disk.rows, s.log[s.cursor..last])),
         high := Max(s.high, last), job := Written(s.job.reader))
    case AdvanceMemory => s.(cursor := Max(s.cursor, Last(s, s.job.reader)), job := Advancing(s.job.reader))
    case PersistCursor => Settle(s.(disk := s.disk.(cursor := s.cursor, synced := true)), s.job.reader)
    case FlagGroupChange => Settle(s.(pending := s.pending || !s.job.wasPending), s.job.reader)
    case OweAddedAccess => Settle(s.(owed := true), s.job.reader)
    case FailJob => s.(job := Idle, readers := s.readers - {s.job.reader})
    case RequireBootstrap =>
      if s.pending then s else s.(disk := s.disk.(latch := true), handlers := s.handlers + 1)
    case FlagRequired => s.(pending := true, handlers := s.handlers - 1, unbacked := !s.disk.latch)
    case Fetch(at) => s.(job := Snapshotting(at, Fetched, false))
    case FetchFails => s.(phase := Recovering)
    case Quarantine => s.(disk := s.disk.(latch := true), job := s.job.(stage := Quarantining))
    case ClearStorage =>
      var quarantine := s.pending || s.job.stage == Quarantining;
      s.(disk := EMPTY_DISK.(latch := s.disk.latch), pending := quarantine,
         job := Snapshotting(s.job.at, Cleared, quarantine))
    case WriteSnapshot =>
      s.(disk := s.disk.(rows := Truth(s.log, s.job.at)), high := s.job.at, base := s.job.at,
         job := s.job.(stage := RowsWritten))
    case SetFromBootstrap =>
      s.(cursor := s.job.at, snapshot := s.snapshot + 1, job := s.job.(stage := CursorSet))
    case PersistSnapshot =>
      s.(disk := Disk(s.disk.rows, s.cursor, true, true, s.job.quarantine),
         pending := s.pending && s.job.quarantine, job := s.job.(stage := Committed), unbacked := false)
    case BeginReconcile =>
      s.(owed := false, job := s.job.(stage := Reconciling, quarantine := s.pending))
    case ClearLatch => s.(disk := s.disk.(latch := false), job := s.job.(stage := LatchCleared))
    case FinishReconcile =>
      var reconciled := s.job.stage == LatchCleared;
      s.(pending := s.pending && !reconciled, unbacked := s.unbacked && !reconciled, phase := Live, job := Idle)
    case Abandon => s.(job := Idle, phase := if s.phase == Starting then Recovering else s.phase)
  }

  ghost predicate Legal(s: State, run: seq<Event>)
    decreases |run|
  {
    run == [] || (Enabled(s, run[0]) && Legal(Do(s, run[0]), run[1..]))
  }

  ghost function Run(s: State, run: seq<Event>): State
    requires Legal(s, run)
    decreases |run|
  {
    if run == [] then s else Run(Do(s, run[0]), run[1..])
  }

  // ---- the invariant

  /** Replaying the log from c over the stored rows yields the server's rows at `high`. */
  ghost predicate SettledFrom(s: State, c: nat) {
    c <= s.high <= |s.log| && Fold(s.disk.rows, s.log[c..s.high]) == Truth(s.log, s.high)
  }

  /** No membership change lies above the snapshot in use and at or below c. */
  ghost predicate CoveredTo(s: State, c: nat) {
    c <= |s.log| && forall i :: s.base <= i < c ==> !s.log[i].GroupChange?
  }

  ghost predicate DiskInv(s: State) {
    && s.base <= |s.log|
    && SettledFrom(s, s.disk.cursor)
    && CoveredTo(s, s.disk.cursor)
    && (!s.disk.synced ==> s.disk.cursor == 0)
  }

  ghost predicate ReadersInv(s: State) {
    forall r :: r in s.readers ==>
      && s.readers[r].tag <= s.snapshot
      && (s.readers[r].packet.Some? ==> s.readers[r].packet.value.last <= |s.log|)
  }

  /** Every reader of the snapshot in use continues at or below the cursor. */
  ghost predicate NoReaderAhead(s: State) {
    forall r :: r in s.readers && s.readers[r].tag == s.snapshot ==>
      && s.readers[r].pos <= s.cursor
      && (s.readers[r].packet.Some? ==> s.readers[r].packet.value.after <= s.cursor)
  }

  ghost predicate MemoryInv(s: State) {
    s.disk.cursor <= s.cursor && SettledFrom(s, s.cursor) && CoveredTo(s, s.cursor)
  }

  ghost predicate ApplyInv(s: State) {
    s.job.Writing? || s.job.Written? || s.job.Advancing? ==>
      && s.phase == Live
      && MemoryInv(s)
      && HoldsPacket(s, s.job.reader)
      && s.readers[s.job.reader].tag == s.snapshot
      && (s.job.Advancing? ==> Last(s, s.job.reader) <= s.cursor)
      && (!s.job.Advancing? ==>
            && s.cursor <= Last(s, s.job.reader)
            && !HasGroupChange(s.log, s.cursor, Last(s, s.job.reader)))
      && (s.job.Written? ==> SettledFrom(s, Last(s, s.job.reader)))
  }

  /** Nothing has been replaced yet. */
  predicate Untouched(job: Job) {
    job.Snapshotting? ==> job.stage == Fetched || job.stage == Quarantining
  }

  /** Storage is cleared and the last metadata is not written: storage is incomplete. */
  predicate Replacing(job: Job) {
    job.Snapshotting? && job.stage in {Cleared, RowsWritten, CursorSet}
  }

  /** The last metadata is written. */
  predicate Replaced(job: Job) {
    job.Snapshotting? && job.stage in {Committed, Reconciling, LatchCleared}
  }

  ghost predicate SnapshotInv(s: State) {
    s.job.Snapshotting? ==>
      && (s.phase == Starting || s.phase == Live)
      && s.job.at <= |s.log|
      && (s.phase == Live && s.job.stage == Fetched ==> s.pending || s.owed || ReplacesSnapshot(s.disk))
      && (Untouched(s.job) ==> !s.job.quarantine)
      && (s.phase == Live && Replacing(s.job) && !s.job.quarantine ==> s.owed)
      && (s.job.quarantine ==> s.pending)
      && (Replacing(s.job) ==> s.disk.cursor == 0 && !s.disk.complete && !s.disk.synced)
      && (s.job.stage == Cleared ==> s.disk.rows == map[])
      && (s.job.stage == RowsWritten || s.job.stage == CursorSet || Replaced(s.job) ==>
            s.disk.rows == Truth(s.log, s.job.at) && s.high == s.base == s.job.at)
      && (s.job.stage == CursorSet || Replaced(s.job) ==> s.cursor == s.job.at && NoReaderAhead(s))
      && (Replaced(s.job) ==> s.disk.cursor == s.cursor && s.disk.complete && s.disk.synced)
      && (s.phase == Starting ==> !s.owed && s.readers == map[])
      && (s.phase == Starting && s.job.stage == Fetched ==> s.cursor == s.disk.cursor)
      && (s.phase == Starting && !s.pending && s.job.stage in {Cleared, RowsWritten} ==> s.cursor == 0)
  }

  /** The flag in memory has its latch on disk, but for the two ways it can lose it. */
  ghost predicate LatchInv(s: State) {
    && (s.handlers > 0 ==> s.phase == Live)
    && (s.pending && !s.disk.latch <==> s.unbacked || AtStage(s, LatchCleared))
    && (AtStage(s, LatchCleared) ==> s.job.quarantine)
    && (AtStage(s, Quarantining) ==> s.disk.latch)
    && (s.job.Latching? ==> if s.job.wasPending then s.pending else s.disk.latch)
    && (AtStage(s, Committed) && s.job.quarantine ==> s.disk.latch)
  }

  ghost predicate Inv(s: State) {
    && DiskInv(s)
    && ReadersInv(s)
    && ApplyInv(s)
    && SnapshotInv(s)
    && LatchInv(s)
    && (s.phase == Starting ==> s.job.Idle? || s.job.Snapshotting?)
    && (s.phase == Starting && s.job.Idle? ==> s.cursor == s.disk.cursor && s.pending == s.disk.latch)
    && (s.phase == Starting || s.phase == Recovering ==> s.readers == map[] && !s.owed)
    && (s.phase == Recovering ==> s.job.Idle?)
    && (s.phase == Stopped ==> !s.pending && s.job.Idle? && s.readers == map[])
    && (s.phase != Stopped && !s.pending && !s.owed && Untouched(s.job) ==> MemoryInv(s) && NoReaderAhead(s))
  }

  // ---- every event keeps it

  /** A flush of the slice (cursor, last] leaves every earlier replay point settled. */
  lemma FlushSettles(s: State, c: nat, last: nat, rows: Table, high: nat)
    requires c <= s.cursor <= last <= |s.log|
    requires SettledFrom(s, c) && SettledFrom(s, s.cursor)
    requires rows == Fold(s.disk.rows, s.log[s.cursor..last]) && high == Max(s.high, last)
    ensures Fold(rows, s.log[c..high]) == Truth(s.log, high)
    ensures Fold(rows, s.log[last..high]) == Truth(s.log, high)
  {
    FoldToHigh(s, c, high);
    SplitSlice(s.log, c, s.cursor, last);
    SplitSlice(s.log, c, last, high);
    SliceAbsorbs(s.disk.rows, s.log[c..s.cursor], s.log[s.cursor..last], s.log[last..high]);
    FoldToHigh(s, s.cursor, high);
    SplitSlice(s.log, s.cursor, last, high);
    FoldConcat(s.disk.rows, s.log[s.cursor..last], s.log[last..high]);
  }

  lemma FoldToHigh(s: State, c: nat, high: nat)
    requires SettledFrom(s, c) && s.high <= high <= |s.log|
    ensures Fold(s.disk.rows, s.log[c..high]) == Truth(s.log, high)
  {
    SplitSlice(s.log, c, s.high, high);
    FoldConcat(s.disk.rows, s.log[c..s.high], s.log[s.high..high]);
    TruthExtends(s.log, s.high, high);
  }

  /** A slice of gaps changes no row. */
  lemma {:induction false} GapsFold(rows: Table, es: Log)
    requires forall i :: 0 <= i < |es| ==> es[i].Gap?
    ensures Fold(rows, es) == rows
  {
    if es != [] {
      GapsFold(rows, es[..|es| - 1]);
    }
  }

  lemma AppendSettled(s: State, entry: Entry, c: nat)
    requires SettledFrom(s, c)
    ensures SettledFrom(s.(log := s.log + [entry]), c)
  {
    TruthStable(s.log, [entry], s.high);
    assert (s.log + [entry])[c..s.high] == s.log[c..s.high];
  }

  lemma AppendJobKeeps(s: State, entry: Entry)
    requires ApplyInv(s) && SnapshotInv(s)
    ensures ApplyInv(s.(log := s.log + [entry])) && SnapshotInv(s.(log := s.log + [entry]))
  {
    if s.job.Snapshotting? {
      TruthStable(s.log, [entry], s.job.at);
      if MemoryInv(s) {
        AppendSettled(s, entry, s.cursor);
      }
    } else if s.job.Writing? || s.job.Written? || s.job.Advancing? {
      AppendSettled(s, entry, s.cursor);
      if s.job.Written? {
        AppendSettled(s, entry, Last(s, s.job.reader));
      }
    }
  }

  lemma AppendKeeps(s: State, entry: Entry)
    requires Inv(s)
    ensures Inv(s.(log := s.log + [entry]))
  {
    AppendSettled(s, entry, s.disk.cursor);
    AppendJobKeeps(s, entry);
    if MemoryInv(s) {
      AppendSettled(s, entry, s.cursor);
    }
  }

  /** A packet may be dropped when it is stale, when a re-bootstrap is owed, or when it is old. */
  lemma SettleKeeps(s: State, r: nat)
    requires Inv(s) && s.phase == Live && s.job.Idle? && HoldsPacket(s, r)
    requires s.readers[r].tag != s.snapshot || s.pending || s.owed || Last(s, r) <= s.cursor
    ensures Inv(Settle(s, r))
  {
    hide Fold, Truth;
  }

  /** An all-gap packet moves the cursor past ids that change no row. */
  lemma GapsKeep(s: State, r: nat)
    requires Inv(s) && s.phase == Live && s.job.Idle? && HoldsPacket(s, r)
    requires s.readers[r].tag == s.snapshot && !s.pending && !s.owed && s.cursor < Last(s, r)
    requires AllGaps(s.log, s.cursor, Last(s, r))
    ensures Inv(s.(cursor := Last(s, r), high := Max(s.high, Last(s, r)), job := Advancing(r)))
  {
    var last := Last(s, r);
    GapsFold(s.disk.rows, s.log[s.cursor..last]);
    FlushSettles(s, s.disk.cursor, last, s.disk.rows, Max(s.high, last));
    FlushSettles(s, s.cursor, last, s.disk.rows, Max(s.high, last));
  }

  lemma ClaimKeeps(s: State, r: nat)
    requires Inv(s) && s.phase == Live && s.job.Idle?
    ensures Inv(s.(job := Granting(r)))
    ensures Inv(s.(disk := s.disk.(latch := s.disk.latch || !s.pending), job := Latching(r, s.pending)))
  {
    hide Fold, Truth;
  }

  /** A packet without a membership change continues at or below the cursor. */
  lemma WritingKeeps(s: State, r: nat)
    requires Inv(s) && s.phase == Live && s.job.Idle? && HoldsPacket(s, r)
    requires s.readers[r].tag == s.snapshot && !s.pending && !s.owed && s.cursor < Last(s, r)
    requires !HasGroupChange(s.log, s.readers[r].packet.value.after, Last(s, r))
    ensures Inv(s.(job := Writing(r)))
  {
    assert !HasGroupChange(s.log, s.cursor, Last(s, r));
  }

  lemma AcceptKeeps(s: State, r: nat, onlyAddsAccess: bool)
    requires Inv(s) && s.phase == Live && s.job.Idle? && HoldsPacket(s, r)
    ensures Inv(Dispatch(s, r, onlyAddsAccess))
  {
    var p := s.readers[r].packet.value;
    if s.readers[r].tag != s.snapshot {
      SettleKeeps(s, r);
    } else if HasGroupChange(s.log, p.after, p.last) {
      ClaimKeeps(s, r);
    } else if s.pending || s.owed || p.last <= s.cursor {
      SettleKeeps(s, r);
    } else if AllGaps(s.log, s.cursor, p.last) {
      GapsKeep(s, r);
    } else {
      WritingKeeps(s, r);
    }
  }

  lemma FlushKeeps(s: State)
    requires Inv(s) && Enabled(s, FlushRows)
    ensures Inv(Do(s, FlushRows))
  {
    var s' := Do(s, FlushRows);
    FlushSettles(s, s.disk.cursor, Last(s, s.job.reader), s'.disk.rows, s'.high);
    FlushSettles(s, s.cursor, Last(s, s.job.reader), s'.disk.rows, s'.high);
  }

  /** A snapshot absorbs the log below it. */
  lemma SnapshotSettles(log: Log, at: nat)
    requires at <= |log|
    ensures Fold(Truth(log, at), log[0..at]) == Truth(log, at) == Fold(Truth(log, at), log[at..at])
  {
    assert [] + log[..at] + [] == log[..at] == log[0..at];
    SliceAbsorbs(map[], [], log[..at], []);
  }

  lemma WriteSnapshotKeeps(s: State)
    requires Inv(s) && AtStage(s, Cleared) && s.job.at <= |s.log|
    ensures Inv(Do(s, WriteSnapshot))
  {
    hide Fold, Truth;
    SnapshotSettles(s.log, s.job.at);
  }

  lemma ClearStorageKeeps(s: State)
    requires Inv(s) && (AtStage(s, Quarantining) || (AtStage(s, Fetched) && !OwesQuarantine(s)))
    ensures Inv(Do(s, ClearStorage))
  {
    hide Fold;
    assert s.log[0..s.high] == s.log[..s.high];
  }

  lemma LifecycleKeeps(s: State, e: Event)
    requires Inv(s) && Enabled(s, e)
    requires e.Start? || e.Halt? || e.Hydrate? || e.Fallback?
    ensures Inv(Do(s, e))
  {
    hide Fold, Truth;
  }

  lemma OpenKeeps(s: State, r: nat)
    requires Inv(s) && s.phase == Live && r !in s.readers
    ensures Inv(s.(readers := s.readers[r := Reader(s.snapshot, s.cursor, None)]))
  {
    hide Fold, Truth;
  }

  lemma DeliverKeeps(s: State, r: nat, p: Packet)
    requires Inv(s) && Enabled(s, Deliver(r, p))
    ensures Inv(s.(readers := s.readers[r := s.readers[r].(packet := Some(p))]))
  {
    hide Fold, Truth;
  }

  lemma CloseKeeps(s: State, r: nat)
    requires Inv(s) && Enabled(s, Close(r))
    ensures Inv(s.(readers := s.readers - {r}))
  {
    hide Fold, Truth;
  }

  lemma RequireBootstrapKeeps(s: State)
    requires Inv(s) && s.phase == Live && !s.pending
    ensures Inv(s.(disk := s.disk.(latch := true), handlers := s.handlers + 1))
  {
    hide Fold, Truth;
  }

  lemma FlagRequiredKeeps(s: State)
    requires Inv(s) && s.handlers > 0
    ensures Inv(s.(pending := true, handlers := s.handlers - 1, unbacked := !s.disk.latch))
  {
    hide Fold, Truth;
  }

  lemma AdvanceMemoryKeeps(s: State)
    requires Inv(s) && Enabled(s, AdvanceMemory)
    ensures Inv(s.(cursor := Max(s.cursor, Last(s, s.job.reader)), job := Advancing(s.job.reader)))
  {
    hide Fold, Truth;
  }

  lemma PersistCursorKeeps(s: State)
    requires Inv(s) && Enabled(s, PersistCursor)
    ensures Inv(Settle(s.(disk := s.disk.(cursor := s.cursor, synced := true)), s.job.reader))
  {
    hide Fold, Truth;
  }

  lemma FailJobKeeps(s: State)
    requires Inv(s) && Enabled(s, FailJob)
    ensures Inv(s.(job := Idle, readers := s.readers - {s.job.reader}))
  {
    hide Fold, Truth;
  }

  lemma LatchKeeps(s: State)
    requires Inv(s) && Enabled(s, FlagGroupChange)
    ensures Inv(Settle(s.(pending := s.pending || !s.job.wasPending), s.job.reader))
  {
    hide Fold, Truth;
  }

  lemma GrantKeeps(s: State)
    requires Inv(s) && Enabled(s, OweAddedAccess)
    ensures Inv(Settle(s.(owed := true), s.job.reader))
  {
    hide Fold, Truth;
  }

  lemma SetFromBootstrapKeeps(s: State)
    requires Inv(s) && AtStage(s, RowsWritten)
    ensures Inv(Do(s, SetFromBootstrap))
  {
    hide Fold, Truth;
  }

  lemma PersistSnapshotKeeps(s: State)
    requires Inv(s) && AtStage(s, CursorSet)
    ensures Inv(Do(s, PersistSnapshot))
  {
    hide Fold, Truth;
    SnapshotSettles(s.log, s.job.at);
  }

  lemma BeginReconcileKeeps(s: State)
    requires Inv(s) && AtStage(s, Committed)
    ensures Inv(Do(s, BeginReconcile))
  {
    hide Fold, Truth;
  }

  lemma ClearLatchKeeps(s: State)
    requires Inv(s) && AtStage(s, Reconciling) && s.job.quarantine
    ensures Inv(Do(s, ClearLatch))
  {
    hide Fold, Truth;
  }

  /** The last step of a re-bootstrap: from here on the cursor is the snapshot's. */
  lemma FinishReconcileKeeps(s: State)
    requires Inv(s) && (AtStage(s, LatchCleared) || (AtStage(s, Reconciling) && !s.job.quarantine))
    ensures Inv(Do(s, FinishReconcile))
  {
    hide Fold, Truth;
  }

  lemma AbandonKeeps(s: State)
    requires Inv(s) && s.job.Snapshotting? && s.job.stage != LatchCleared
    ensures Inv(Do(s, Abandon))
  {
    hide Fold, Truth;
    SnapshotSettles(s.log, s.job.at);
  }

  lemma FetchKeeps(s: State, at: nat)
    requires Inv(s) && Enabled(s, Fetch(at))
    ensures Inv(s.(job := Snapshotting(at, Fetched, false)))
  {
    hide Fold, Truth;
  }

  lemma FetchFailsKeeps(s: State)
    requires Inv(s) && Enabled(s, FetchFails)
    ensures Inv(s.(phase := Recovering))
  {
    hide Fold, Truth;
  }

  lemma QuarantineKeeps(s: State)
    requires Inv(s) && AtStage(s, Fetched) && OwesQuarantine(s)
    ensures Inv(Do(s, Quarantine))
  {
    hide Fold, Truth;
  }

  predicate CommitEvent(e: Event) {
    e.Quarantine? || e.ClearStorage? || e.WriteSnapshot? || e.SetFromBootstrap? || e.PersistSnapshot?
    || e.BeginReconcile? || e.ClearLatch? || e.FinishReconcile? || e.Abandon?
  }

  predicate PacketEvent(e: Event) {
    e.Accept? || e.FlushRows? || e.AdvanceMemory? || e.PersistCursor? || e.FlagGroupChange?
    || e.OweAddedAccess? || e.FailJob?
  }

  lemma CommitEventKeeps(s: State, e: Event)
    requires Inv(s) && Enabled(s, e) && CommitEvent(e)
    ensures Inv(Do(s, e))
  {
    hide Inv, Do;
    match e
    case Quarantine => QuarantineKeeps(s);
    case ClearStorage => ClearStorageKeeps(s);
    case WriteSnapshot => WriteSnapshotKeeps(s);
    case SetFromBootstrap => SetFromBootstrapKeeps(s);
    case PersistSnapshot => PersistSnapshotKeeps(s);
    case BeginReconcile => BeginReconcileKeeps(s);
    case ClearLatch => ClearLatchKeeps(s);
    case FinishReconcile => FinishReconcileKeeps(s);
    case Abandon => AbandonKeeps(s);
  }

  lemma PacketEventKeeps(s: State, e: Event)
    requires Inv(s) && Enabled(s, e) && PacketEvent(e)
    ensures Inv(Do(s, e))
  {
    hide Inv;
    match e
    case Accept(r, additive) => AcceptKeeps(s, r, additive);
    case FlushRows => FlushKeeps(s);
    case AdvanceMemory => AdvanceMemoryKeeps(s);
    case PersistCursor => PersistCursorKeeps(s);
    case FlagGroupChange => LatchKeeps(s);
    case OweAddedAccess => GrantKeeps(s);
    case FailJob => FailJobKeeps(s);
  }

  lemma OtherEventKeeps(s: State, e: Event)
    requires Inv(s) && Enabled(s, e) && !CommitEvent(e) && !PacketEvent(e)
    ensures Inv(Do(s, e))
  {
    hide Inv;
    match e
    case Append(entry) => AppendKeeps(s, entry);
    case Open(r) => OpenKeeps(s, r);
    case Deliver(r, p) => DeliverKeeps(s, r, p);
    case Close(r) => CloseKeeps(s, r);
    case RequireBootstrap => if !s.pending { RequireBootstrapKeeps(s); }
    case FlagRequired => FlagRequiredKeeps(s);
    case Fetch(at) => FetchKeeps(s, at);
    case FetchFails => FetchFailsKeeps(s);
    case _ => LifecycleKeeps(s, e);
  }

  /** Every event of the protocol keeps the invariant. */
  lemma StepKeeps(s: State, e: Event)
    requires Inv(s) && Enabled(s, e)
    ensures Inv(Do(s, e))
  {
    if CommitEvent(e) {
      CommitEventKeeps(s, e);
    } else if PacketEvent(e) {
      PacketEventKeeps(s, e);
    } else {
      OtherEventKeeps(s, e);
    }
  }

  /** Accepting a packet leaves the log and a latch alone and starts no commit. */
  lemma AcceptLeaves(s: State, r: nat, onlyAddsAccess: bool)
    requires Enabled(s, Accept(r, onlyAddsAccess))
    ensures var s' := Dispatch(s, r, onlyAddsAccess);
            && s'.log == s.log && (s.disk.latch ==> s'.disk.latch) && !s'.job.Snapshotting?
            && s'.phase == s.phase && s'.pending == s.pending
  {
  }

  /** The server never takes back an id it has assigned. */
  lemma LogGrows(s: State, e: Event)
    requires Enabled(s, e)
    ensures s.log <= Do(s, e).log
  {
    hide Fold, Truth, Dispatch;
    if e.Accept? {
      AcceptLeaves(s, e.reader, e.onlyAddsAccess);
    }
  }

  lemma {:induction false} RunKeeps(s: State, run: seq<Event>)
    requires Inv(s) && Legal(s, run)
    ensures Inv(Run(s, run))
    ensures s.log <= Run(s, run).log
    decreases |run|
  {
    if run != [] {
      StepKeeps(s, run[0]);
      LogGrows(s, run[0]);
      RunKeeps(Do(s, run[0]), run[1..]);
    }
  }

  lemma InitialInv()
    ensures Inv(INITIAL)
  {
  }

  // ---- what the protocol guarantees over every run

  ghost predicate Reachable(s: State) {
    exists run :: Legal(INITIAL, run) && Run(INITIAL, run) == s
  }

  lemma ReachableInv(s: State)
    requires Reachable(s)
    ensures Inv(s)
  {
    var run :| Legal(INITIAL, run) && Run(INITIAL, run) == s;
    InitialInv();
    RunKeeps(INITIAL, run);
  }

  /**
   * Crash-safe convergence. At every point of every run, so whatever is left on disk by a
   * crash there, replaying the log from the persisted cursor over the stored rows gives the
   * rows the server had at `high`, the largest id ever flushed. While nothing is owed the same
   * holds from the cursor in memory, so a replica whose cursor is at `high` stores exactly the
   * server's rows.
   */
  lemma Convergence(s: State)
    requires Reachable(s)
    ensures s.disk.cursor <= s.high <= |s.log|
    ensures Fold(s.disk.rows, s.log[s.disk.cursor..s.high]) == Truth(s.log, s.high)
    ensures s.disk.cursor == s.high ==> s.disk.rows == Truth(s.log, s.disk.cursor)
    ensures s.phase == Live && !s.pending && !s.owed && s.job.Idle? ==>
              && s.cursor <= s.high
              && Fold(s.disk.rows, s.log[s.cursor..s.high]) == Truth(s.log, s.high)
              && (s.cursor == s.high ==> s.disk.rows == Truth(s.log, s.cursor))
              && (s.cursor == |s.log| ==> s.disk.rows == Truth(s.log, |s.log|))
  {
    ReachableInv(s);
    if s.disk.cursor == s.high {
      assert s.log[s.disk.cursor..s.high] == [];
    }
    if s.cursor == s.high {
      assert s.log[s.cursor..s.high] == [];
    }
  }

  /**
   * No membership change is lost, restarts included: whenever the persisted cursor has
   * passed a membership change, the stored rows grew from a snapshot taken at or past it.
   * While nothing is owed this also holds of the cursor in memory.
   */
  lemma NoMembershipChangeLost(s: State, i: nat)
    requires Reachable(s) && i < |s.log| && s.log[i].GroupChange?
    ensures i + 1 <= s.disk.cursor ==> i + 1 <= s.base
    ensures s.phase == Live && !s.pending && !s.owed && s.job.Idle? && i + 1 <= s.cursor ==> i + 1 <= s.base
  {
    ReachableInv(s);
  }

  /** While a re-bootstrap is owed no packet moves the cursor or touches a stored row. */
  lemma OwedHoldsEverything(s: State, r: nat, onlyAddsAccess: bool)
    requires Reachable(s) && Enabled(s, Accept(r, onlyAddsAccess)) && (s.pending || s.owed)
    ensures var s' := Do(s, Accept(r, onlyAddsAccess));
            && s'.cursor == s.cursor && s'.disk == s.disk.(latch := s'.disk.latch)
            && !s'.job.Writing? && !s'.job.Advancing?
  {
    hide Fold, Truth;
  }

  // ---- the latch

  /**
   * When the flag in memory has no latch on disk: between the two last steps of a reconcile, and
   * after a flag that was set once a commit had already cleared its latch.
   */
  lemma PendingIsDurable(s: State)
    requires Reachable(s)
    ensures s.pending && !s.disk.latch <==> s.unbacked || AtStage(s, LatchCleared)
  {
    ReachableInv(s);
  }

  /**
   * A crash anywhere inside a commit. From the first row dropped to the last metadata write the
   * next start cannot hydrate: it has to bootstrap. Whether it starts in quarantine is told by
   * the history alone: it does, unless the flag had lost its latch.
   */
  lemma CrashInCommitRebootstraps(s: State, k: nat)
    requires Reachable(s) && s.job.Snapshotting?
    ensures var restarted := Do(Do(s, Halt(k)), Start);
            && (Replacing(s.job) ==> !Enabled(restarted, Hydrate))
            && (restarted.pending ==> !Enabled(restarted, Hydrate))
            && (AtStage(s, Quarantining) ==> restarted.pending)
            && (s.pending && !AtStage(s, LatchCleared) ==> (restarted.pending <==> !s.unbacked))
            && (AtStage(s, Committed) && s.job.quarantine ==> restarted.pending)
  {
    ReachableInv(s);
  }

  /** Two events clear the latch: the last step of a reconcile, and the last write of a commit without quarantine. */
  lemma LatchIsCleared(s: State, e: Event)
    requires Enabled(s, e) && s.disk.latch
    ensures !Do(s, e).disk.latch <==> e == ClearLatch || (e == PersistSnapshot && !s.job.quarantine)
  {
    hide Fold, Truth, Dispatch;
    if e.Accept? {
      AcceptLeaves(s, e.reader, e.onlyAddsAccess);
    }
  }

  /** The state after the first i events. */
  ghost function StateAt(s: State, run: seq<Event>, i: nat): State
    requires Legal(s, run) && i <= |run|
    decreases i
  {
    if i == 0 then s else StateAt(Do(s, run[0]), run[1..], i - 1)
  }

  /** A commit without quarantine is between clearing storage and its last write. */
  predicate BareCommit(s: State) {
    Replacing(s.job) && !s.job.quarantine
  }

  predicate EndsCommit(e: Event) {
    e.PersistSnapshot? || e.Abandon? || e.Halt? || e.Start?
  }

  /** Event j clears storage while the flag is not set, and without quarantine. */
  ghost predicate ClearsUnflagged(s: State, run: seq<Event>, j: nat)
    requires Legal(s, run) && j < |run|
  {
    run[j].ClearStorage? && !StateAt(s, run, j).pending && AtStage(StateAt(s, run, j), Fetched)
  }

  ghost predicate NoEnd(run: seq<Event>, from: nat, to: nat)
    requires to <= |run|
  {
    forall k :: from <= k < to ==> !EndsCommit(run[k])
  }

  /** A commit that cleared storage while the flag was not set is under way after i events. */
  ghost predicate UnderWay(s: State, run: seq<Event>, i: nat)
    requires Legal(s, run) && i <= |run|
  {
    (BareCommit(s) && NoEnd(run, 0, i))
    || exists j :: 0 <= j < i && ClearsUnflagged(s, run, j) && NoEnd(run, j + 1, i)
  }

  lemma BareStep(s: State, e: Event)
    requires Enabled(s, e)
    ensures BareCommit(Do(s, e))
            <==> (BareCommit(s) && !EndsCommit(e)) || (e.ClearStorage? && !s.pending && AtStage(s, Fetched))
  {
    hide Fold, Truth, Dispatch;
    if e.Accept? {
      AcceptLeaves(s, e.reader, e.onlyAddsAccess);
    }
  }

  /** One event on: what was under way in the rest of the run. */
  lemma UnderWayStep(s: State, run: seq<Event>, i: nat)
    requires Legal(s, run) && 0 < i <= |run|
    ensures UnderWay(s, run, i) <==> UnderWay(Do(s, run[0]), run[1..], i - 1)
  {
    hide Do, Enabled, BareCommit, EndsCommit, AtStage;
    var s1, rest := Do(s, run[0]), run[1..];
    BareStep(s, run[0]);
    assert NoEnd(rest, 0, i - 1) <==> NoEnd(run, 1, i) by {
      assert forall k :: 1 <= k < i ==> run[k] == rest[k - 1];
      assert forall k :: 0 <= k < i - 1 ==> rest[k] == run[k + 1];
    }
    assert NoEnd(run, 0, i) <==> !EndsCommit(run[0]) && NoEnd(run, 1, i);
    assert StateAt(s, run, 0) == s;
    assert run[0].ClearStorage? && !s.pending && AtStage(s, Fetched) ==> ClearsUnflagged(s, run, 0);
    if j :| 0 <= j < i && ClearsUnflagged(s, run, j) && NoEnd(run, j + 1, i) {
      assert forall k :: j <= k < i - 1 ==> rest[k] == run[k + 1];
      assert j > 0 ==> ClearsUnflagged(s1, rest, j - 1) && NoEnd(rest, j, i - 1);
    }
    if j :| 0 <= j < i - 1 && ClearsUnflagged(s1, rest, j) && NoEnd(rest, j + 1, i - 1) {
      assert forall k :: j + 2 <= k < i ==> run[k] == rest[k - 1];
      assert ClearsUnflagged(s, run, j + 1) && NoEnd(run, j + 2, i);
    }
  }

  /** So a commit without quarantine is one that cleared storage while the flag was not set. */
  lemma {:induction false} BareAt(s: State, run: seq<Event>, i: nat)
    requires Legal(s, run) && i <= |run|
    ensures BareCommit(StateAt(s, run, i)) <==> UnderWay(s, run, i)
    decreases i
  {
    hide Do, Enabled, BareCommit, EndsCommit, AtStage;
    if i > 0 {
      BareAt(Do(s, run[0]), run[1..], i - 1);
      UnderWayStep(s, run, i);
    }
  }

  ghost predicate LatchDropped(s: State, run: seq<Event>)
    requires Legal(s, run)
  {
    exists i :: 0 <= i <= |run| && !StateAt(s, run, i).disk.latch
  }

  ghost predicate NoReconcile(run: seq<Event>) {
    forall i :: 0 <= i < |run| ==> !run[i].ClearLatch?
  }

  /** Event i is the last write of a commit that cleared storage while the flag was not set. */
  ghost predicate CompletesBareCommit(s: State, run: seq<Event>, i: nat)
    requires Legal(s, run) && i < |run|
  {
    run[i].PersistSnapshot? && UnderWay(s, run, i)
  }

  ghost predicate BareCommitCompletes(s: State, run: seq<Event>)
    requires Legal(s, run)
  {
    exists i :: 0 <= i < |run| && CompletesBareCommit(s, run, i)
  }

  lemma DroppedStep(s: State, run: seq<Event>)
    requires Legal(s, run) && run != [] && s.disk.latch
    ensures LatchDropped(s, run) <==> LatchDropped(Do(s, run[0]), run[1..])
  {
    hide Do, Enabled;
    var s1, rest := Do(s, run[0]), run[1..];
    if i :| 0 <= i <= |run| && !StateAt(s, run, i).disk.latch {
      assert i > 0 && StateAt(s, run, i) == StateAt(s1, rest, i - 1);
    }
    if i :| 0 <= i <= |rest| && !StateAt(s1, rest, i).disk.latch {
      assert StateAt(s, run, i + 1) == StateAt(s1, rest, i);
    }
  }

  lemma CompletesStep(s: State, run: seq<Event>)
    requires Legal(s, run) && run != []
    ensures BareCommitCompletes(s, run)
            <==> (run[0].PersistSnapshot? && BareCommit(s)) || BareCommitCompletes(Do(s, run[0]), run[1..])
  {
    hide Do, Enabled, UnderWay, BareCommit;
    var s1, rest := Do(s, run[0]), run[1..];
    BareAt(s, run, 0);
    assert CompletesBareCommit(s, run, 0) <==> run[0].PersistSnapshot? && BareCommit(s);
    if i :| 0 < i < |run| && CompletesBareCommit(s, run, i) {
      UnderWayStep(s, run, i);
      assert CompletesBareCommit(s1, rest, i - 1);
    }
    if i :| 0 <= i < |rest| && CompletesBareCommit(s1, rest, i) {
      UnderWayStep(s, run, i + 1);
      assert CompletesBareCommit(s, run, i + 1);
    }
  }

  /**
   * A latch is dropped without a reconcile exactly when a commit that cleared storage while the
   * flag was not set completes its last write.
   */
  lemma {:induction false} LatchDroppedExactly(s: State, run: seq<Event>)
    requires Legal(s, run) && s.disk.latch && NoReconcile(run)
    ensures LatchDropped(s, run) <==> BareCommitCompletes(s, run)
    decreases |run|
  {
    hide Do, CompletesBareCommit;
    if run == [] {
    } else {
      LatchIsCleared(s, run[0]);
      DroppedStep(s, run);
      CompletesStep(s, run);
      if Do(s, run[0]).disk.latch {
        LatchDroppedExactly(Do(s, run[0]), run[1..]);
      } else {
        assert !StateAt(Do(s, run[0]), run[1..], 0).disk.latch;
      }
    }
  }

  /** The latch holds, and in memory the flag is set wherever a commit can start. */
  ghost predicate Latched(s: State) {
    s.disk.latch && (s.phase == Stopped || s.pending)
  }

  lemma LatchedStep(s: State, e: Event)
    requires Inv(s) && Enabled(s, e) && Latched(s) && !e.ClearLatch?
    ensures Latched(Do(s, e)) <==> !(e.PersistSnapshot? && BareCommit(s))
    ensures Latched(Do(s, e)) <==> Do(s, e).disk.latch
    ensures BareCommit(Do(s, e)) <==> BareCommit(s) && !EndsCommit(e)
  {
    hide Fold, Truth, Dispatch, DiskInv, ReadersInv, ApplyInv, MemoryInv, NoReaderAhead;
    BareStep(s, e);
    LatchIsCleared(s, e);
    if e.Accept? {
      AcceptLeaves(s, e.reader, e.onlyAddsAccess);
    }
  }

  /** The commit under way in s, without quarantine, is the first to end, and it completes. */
  ghost predicate Completes(run: seq<Event>) {
    exists i :: 0 <= i < |run| && run[i].PersistSnapshot? && NoEnd(run, 0, i)
  }

  /**
   * Once the flag is set too, only a commit that is already past clearing storage can drop the
   * latch: every later one is quarantined, on this side of a restart and on the other.
   */
  lemma {:induction false} FlaggedLatchDroppedExactly(s: State, run: seq<Event>)
    requires Inv(s) && Latched(s) && Legal(s, run) && NoReconcile(run)
    ensures LatchDropped(s, run) <==> BareCommit(s) && Completes(run)
    decreases |run|
  {
    if run == [] {
    } else {
      var s1, rest := Do(s, run[0]), run[1..];
      StepKeeps(s, run[0]);
      LatchedStep(s, run[0]);
      DroppedStep(s, run);
      if s1.disk.latch {
        FlaggedLatchDroppedExactly(s1, rest);
      } else {
        assert !StateAt(s1, rest, 0).disk.latch && NoEnd(run, 0, 0);
      }
    }
  }

  lemma Extend(s: State, e: Event) returns (s': State)
    requires Reachable(s) && Enabled(s, e)
    ensures s' == Do(s, e) && Reachable(s')
  {
    s' := Do(s, e);
    var run :| Legal(INITIAL, run) && Run(INITIAL, run) == s;
    RunSnoc(INITIAL, run, e);
  }

  lemma {:induction false} RunSnoc(s: State, run: seq<Event>, e: Event)
    requires Legal(s, run) && Enabled(Run(s, run), e)
    ensures Legal(s, run + [e]) && Run(s, run + [e]) == Do(Run(s, run), e)
    decreases |run|
  {
    if run == [] {
      assert Legal(Do(s, e), []) && (run + [e])[1..] == [];
    } else {
      RunSnoc(Do(s, run[0]), run[1..], e);
      assert (run + [e])[1..] == run[1..] + [e];
    }
  }

  /**
   * It happens: a "bootstrap required" answer that arrives while an added-access commit is past
   * clearing storage writes its latch, the commit's last write clears it, and only then is the
   * flag set. From every state in which only an added-access re-bootstrap is owed there is a
   * run to a state with the flag set and no latch, from which a crash restarts into a plain
   * hydration.
   */
  lemma AddedAccessCommitDropsLatch(s: State, k: nat)
    requires Reachable(s) && s.phase == Live && s.job.Idle? && s.owed && !s.pending
    ensures exists s' :: Reachable(s') && s'.pending && s'.unbacked && Enabled(Do(Do(s', Halt(k)), Start), Hydrate)
  {
    var cleared := AddedAccessCommitClears(s);
    var t := FlagWithoutLatch(cleared);
    assert Enabled(Do(Do(t, Halt(k)), Start), Hydrate);
  }

  lemma AddedAccessCommitClears(s: State) returns (t: State)
    requires Reachable(s) && s.phase == Live && s.job.Idle? && s.owed && !s.pending
    ensures Reachable(t) && t.phase == Live && t.job == Snapshotting(|t.log|, Cleared, false) && !t.pending
            && |t.log| > 0
  {
    hide Fold, Truth;
    t := Extend(s, Append(Gap));
    t := Extend(t, Fetch(|t.log|));
    t := Extend(t, ClearStorage);
  }

  lemma FlagWithoutLatch(s: State) returns (t: State)
    requires Reachable(s) && s.phase == Live && s.job == Snapshotting(|s.log|, Cleared, false) && !s.pending
    ensures Reachable(t) && t.phase == Live && AtStage(t, Committed) && t.pending && t.unbacked
    ensures t.disk.complete && t.disk.cursor == |s.log| && !t.disk.latch && t.log == s.log
  {
    hide Fold, Truth;
    t := AnswerDuringCommit(s);
    t := Extend(t, PersistSnapshot);
    t := Extend(t, FlagRequired);
  }

  lemma AnswerDuringCommit(s: State) returns (t: State)
    requires Reachable(s) && s.phase == Live && s.job == Snapshotting(|s.log|, Cleared, false) && !s.pending
    ensures Reachable(t) && t.phase == Live && t.job == Snapshotting(|s.log|, CursorSet, false)
    ensures !t.pending && t.handlers > 0 && t.cursor == |s.log| && t.log == s.log
  {
    hide Fold, Truth;
    t := Extend(s, WriteSnapshot);
    t := Extend(t, SetFromBootstrap);
    t := Extend(t, RequireBootstrap);
  }

  /**
   * If the reconcile of that commit then fails, the next commit quarantines without a latch: a
   * crash after it has cleared storage bootstraps, but not in quarantine.
   */
  lemma QuarantineWithoutLatch(s: State, k: nat)
    requires Reachable(s) && s.phase == Live && s.job.Idle? && s.owed && !s.pending
    ensures exists s' :: Reachable(s') && AtStage(s', Cleared) && s'.job.quarantine
                         && !Do(Do(s', Halt(k)), Start).pending
  {
    hide Fold, Truth;
    var t := AddedAccessCommitClears(s);
    t := FlagWithoutLatch(t);
    t := Extend(t, Abandon);
    t := Extend(t, Fetch(|t.log|));
    t := Extend(t, ClearStorage);
    assert !Do(Do(t, Halt(k)), Start).pending;
  }
}
