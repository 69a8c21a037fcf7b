/**
 * Grouped undo and redo with compensation. A row is held without its null fields, since a field
 * without a value and a field holding null read the same.
 */
module History {
  import opened Records
  import opened DeltaApplier

  /** A snapshot of fields; a field without a value is kept as such. */
  type Original = map<string, Option<Value>>

  datatype Operation = Operation(action: ActionKind, target: Key, payload: Fields, original: Option<Original>)

  datatype HistoryEntry = HistoryEntry(undo: Operation, redo: Operation)

  datatype HistoryGroup = HistoryGroup(entries: seq<HistoryEntry>, txIds: seq<string>)

  datatype Captured = Captured(group: HistoryGroup, invalidated: bool)

  /** The record without its null fields. */
  function Canonical(fields: Fields): Fields {
    map f | f in fields && fields[f] != Null :: fields[f]
  }

  function Recorded(fields: Fields): Original {
    map f | f in fields :: Some(fields[f])
  }

  /** replaceUndefinedWithNull */
  function WithNulls(o: Original): Fields {
    map f | f in o :: if o[f].Some? then o[f].value else Null
  }

  /** readArchivedAt of a snapshot. */
  function ArchivedAtOf(o: Option<Original>): Option<int> {
    if o.Some? && ARCHIVED_AT in o.value && o.value[ARCHIVED_AT].Some? && o.value[ARCHIVED_AT].value.Number?
    then Some(o.value[ARCHIVED_AT].value.n) else None
  }

  function CaptureArchiveState(o: Option<Original>): Original {
    var at := ArchivedAtOf(o);
    map[ARCHIVED_AT := Some(if at.Some? then Number(at.value) else Null)]
  }

  predicate WasKnownUnarchived(o: Option<Original>) {
    o.Some? && ARCHIVED_AT in o.value && o.value[ARCHIVED_AT] == Some(Null)
  }

  function BuildEntry(action: ActionKind, target: Key, payload: Fields, original: Option<Original>,
                      now: int): Option<HistoryEntry>
  {
    var redo := Operation(action, target, payload, original);
    match action
    case I => Some(HistoryEntry(Operation(D, target, map[], Some(Recorded(payload))), redo))
    case D =>
      if original.None? then None
      else Some(HistoryEntry(Operation(I, target, WithNulls(original.value), None), redo))
    case U =>
      if original.None? then None
      else Some(HistoryEntry(Operation(U, target, WithNulls(original.value), Some(Recorded(payload))), redo))
    case A =>
      var previous := ArchivedAtOf(original);
      var state := CaptureArchiveState(Some(Recorded(payload)));
      Some(HistoryEntry(
             if previous.None? then Operation(V, target, map[], Some(state))
             else Operation(A, target, CreateArchivePayload(previous, now), Some(state)),
             redo))
    case V =>
      var patch: Original := map[ARCHIVED_AT := Some(Null)];
      Some(HistoryEntry(
             if WasKnownUnarchived(original) then Operation(V, target, map[], Some(patch))
             else Operation(A, target, CreateArchivePayload(ArchivedAtOf(original), now), Some(patch)),
             redo))
    case _ => None
  }

  /** The client's mutation on the rows; None when it throws because the row is not there. */
  function ApplyOp(rows: Table, op: Operation, now: int): Option<Table> {
    var k := op.target;
    match op.action
    case I => Some(rows[k := Canonical(op.payload)])
    case U => if k in rows then Some(rows[k := Canonical(rows[k] + op.payload)]) else None
    case D => if k in rows then Some(rows - {k}) else None
    case A =>
      if k in rows then Some(rows[k := rows[k] + CreateArchivePayload(ReadArchivedAt(op.payload), now)]) else None
    case V => if k in rows then Some(rows[k := rows[k] - {ARCHIVED_AT}]) else None
    case _ => Some(rows)
  }

  /** What a field reads as: a field without a value and one holding null are the same. */
  function Reads(row: Fields, f: string): Value {
    if f in row then row[f] else Null
  }

  /** What a mutation has done, field by field and row by row; `now` is the clock an unstamped archive reads. */
  ghost predicate Performed(op: Operation, now: int, before: Table, after: Table) {
    var k := op.target;
    && (forall other :: other != k ==> Find(after, other) == Find(before, other))
    && match op.action
       case I => k in after && forall f :: Reads(after[k], f) == Reads(op.payload, f)
       case U => k in before && k in after &&
                 forall f :: Reads(after[k], f) == if f in op.payload then op.payload[f] else Reads(before[k], f)
       case D => k in before && k !in after
       case A => k in before && k in after &&
                 forall f :: Reads(after[k], f)
                             == if f != "archivedAt" then Reads(before[k], f)
                                else if f in op.payload && op.payload[f].Number? then op.payload[f]
                                else Number(now)
       case V => k in before && k in after &&
                 forall f :: Reads(after[k], f) == if f == "archivedAt" then Null else Reads(before[k], f)
       case _ => after == before
  }

  /** The rows a mutation leaves are the ones it was asked for. */
  lemma ApplyPerforms(rows: Table, op: Operation, now: int)
    ensures var after := ApplyOp(rows, op, now);
            && (after.Some? ==> Performed(op, now, rows, after.value))
            && (after.None? <==> op.target !in rows && (op.action.U? || op.action.D? || op.action.A? || op.action.V?))
  {
  }

  /** The operations of some entries, performed one after the other. */
  ghost predicate PerformedAll(es: seq<HistoryEntry>, before: Table, after: Table) {
    if es == [] then after == before
    else
      var n := |es| - 1;
      exists mid :: PerformedAll(es[..n], before, mid) && Performed(es[n].redo, 0, mid, after)
  }

  lemma {:induction false} StepsPerform(rows: Table, es: seq<HistoryEntry>)
    requires FitsAll(rows, es)
    ensures PerformedAll(es, rows, Steps(rows, es))
  {
    if es != [] {
      hide ApplyOp, Performed;
      var n := |es| - 1;
      StepsPerform(rows, es[..n]);
      var e := es[n];
      FitsRuns(Steps(rows, es[..n]), e);
      ApplyPerforms(Steps(rows, es[..n]), e.redo, 0);
      assert Performed(e.redo, 0, Steps(rows, es[..n]), Steps(rows, es));
    }
  }

  lemma FitsRuns(rows: Table, e: HistoryEntry)
    requires Fits(rows, e)
    ensures ApplyOp(rows, e.redo, 0).Some?
  {
  }

  predicate CanonicalRows(rows: Table) {
    forall k :: k in rows ==>
      Canonical(rows[k]) == rows[k] && (ARCHIVED_AT in rows[k] ==> rows[k][ARCHIVED_AT].Number?)
  }

  /** The values a row has for these fields. */
  function PickOriginal(row: Fields, fields: set<string>): Original {
    map f | f in fields :: if f in row then Some(row[f]) else None
  }

  /** The mutation these arguments describe runs on these rows, and the snapshot is taken from them. */
  predicate Describes(rows: Table, action: ActionKind, target: Key, payload: Fields, original: Option<Original>) {
    match action
    case I => target !in rows && Canonical(payload) == payload
              && (ARCHIVED_AT in payload ==> payload[ARCHIVED_AT].Number?)
    case D => target in rows && original == Some(Recorded(rows[target]))
    case U => target in rows && original == Some(PickOriginal(rows[target], payload.Keys))
              && (ARCHIVED_AT in payload ==> payload[ARCHIVED_AT].Number? || payload[ARCHIVED_AT].Null?)
    case A => target in rows && payload.Keys == {ARCHIVED_AT} && payload[ARCHIVED_AT].Number?
              && original == Some(CaptureArchiveState(Some(Recorded(rows[target]))))
    case V => target in rows && payload == map[]
              && original == Some(CaptureArchiveState(Some(Recorded(rows[target]))))
    case _ => false
  }

  /** The entry was built for a mutation that ran on these rows. */
  ghost predicate Fits(rows: Table, e: HistoryEntry) {
    exists now :: Describes(rows, e.redo.action, e.redo.target, e.redo.payload, e.redo.original)
      && BuildEntry(e.redo.action, e.redo.target, e.redo.payload, e.redo.original, now) == Some(e)
  }

  /** The rows after an entry's mutation. */
  function Step(rows: Table, e: HistoryEntry): Table {
    var r := ApplyOp(rows, e.redo, 0);
    if r.Some? then r.value else rows
  }

  function Steps(rows: Table, es: seq<HistoryEntry>): Table {
    if es == [] then rows else Step(Steps(rows, es[..|es| - 1]), es[|es| - 1])
  }

  ghost predicate FitsAll(rows: Table, es: seq<HistoryEntry>) {
    es == [] || (FitsAll(rows, es[..|es| - 1]) && Fits(Steps(rows, es[..|es| - 1]), es[|es| - 1]))
  }

  function EntriesOf(groups: seq<HistoryGroup>): seq<seq<HistoryEntry>> {
    seq(|groups|, i requires 0 <= i < |groups| => groups[i].entries)
  }

  /** Each group of an undo stack was recorded on the rows the groups below it leave. */
  ghost predicate UndoFits(base: Table, stack: seq<HistoryGroup>, rows: Table)
    decreases |stack|
  {
    if stack == [] then rows == base
    else exists before ::
      FitsAll(before, stack[|stack| - 1].entries) && Steps(before, stack[|stack| - 1].entries) == rows
                          && CanonicalRows(before) && UndoFits(base, stack[..|stack| - 1], before)
  }

  /** Each group of a redo stack was recorded on the rows the groups above it leave. */
  ghost predicate RedoFits(rows: Table, stack: seq<HistoryGroup>)
    decreases |stack|
  {
    stack == []
    || (FitsAll(rows, stack[|stack| - 1].entries)
        && RedoFits(Steps(rows, stack[|stack| - 1].entries), stack[..|stack| - 1]))
  }

  // ---- one entry

  lemma RecordedIsIdentity(row: Fields)
    ensures WithNulls(Recorded(row)) == row
  {
  }

  /** Undoing a mutation gives back the rows it ran on; redoing it, the rows it left. */
  lemma UndoRestores(rows: Table, e: HistoryEntry, now: int)
    requires CanonicalRows(rows) && Fits(rows, e)
    ensures ApplyOp(rows, e.redo, now) == Some(Step(rows, e))
    ensures CanonicalRows(Step(rows, e))
    ensures ApplyOp(Step(rows, e), e.undo, now) == Some(rows)
  {
    var k := e.redo.target;
    match e.redo.action
    case I =>
      assert (rows[k := e.redo.payload]) - {k} == rows;
    case D =>
      RecordedIsIdentity(rows[k]);
      assert (rows - {k})[k := rows[k]] == rows;
    case U => UndoUpdate(rows, e, now);
    case A => UndoArchive(rows, e, now);
    case V => UndoUnarchive(rows, e, now);
    case _ =>
  }

  /** Field by field, the snapshot of what a change overwrites brings the row back. */
  lemma ChangeRestored(row: Fields, payload: Fields)
    requires Canonical(row) == row
    ensures Canonical(Canonical(row + payload) + WithNulls(PickOriginal(row, payload.Keys))) == row
  {
    var changed := Canonical(row + payload);
    var back := WithNulls(PickOriginal(row, payload.Keys));
    var restored := Canonical(changed + back);
    forall f ensures (f in restored <==> f in row) && (f in row ==> restored[f] == row[f]) {
      assert f in row ==> f in Canonical(row) && row[f] != Null;
    }
  }

  lemma UndoUpdate(rows: Table, e: HistoryEntry, now: int)
    requires CanonicalRows(rows) && Fits(rows, e) && e.redo.action.U?
    ensures CanonicalRows(Step(rows, e)) && ApplyOp(Step(rows, e), e.undo, now) == Some(rows)
  {
    hide WithNulls, PickOriginal;
    var k := e.redo.target;
    ChangeRestored(rows[k], e.redo.payload);
    var changed := Canonical(rows[k] + e.redo.payload);
    assert rows[k := changed][k := rows[k]] == rows;
    CanonicalTwice(rows[k] + e.redo.payload);
  }

  lemma CanonicalTwice(fields: Fields)
    ensures Canonical(Canonical(fields)) == Canonical(fields)
  {
  }

  lemma UndoArchive(rows: Table, e: HistoryEntry, now: int)
    requires CanonicalRows(rows) && Fits(rows, e) && e.redo.action.A?
    ensures ApplyOp(rows, e.redo, now) == Some(Step(rows, e))
    ensures CanonicalRows(Step(rows, e)) && ApplyOp(Step(rows, e), e.undo, now) == Some(rows)
  {
    var k := e.redo.target;
    var row := rows[k];
    var archived := row + CreateArchivePayload(ReadArchivedAt(e.redo.payload), now);
    assert Step(rows, e) == rows[k := archived];
    if ARCHIVED_AT in row {
      assert archived + map[ARCHIVED_AT := row[ARCHIVED_AT]] == row;
      assert rows[k := archived][k := row] == rows;
    } else {
      assert archived - {ARCHIVED_AT} == row;
      assert rows[k := archived][k := row] == rows;
    }
    assert Canonical(archived) == archived;
  }

  lemma UndoUnarchive(rows: Table, e: HistoryEntry, now: int)
    requires CanonicalRows(rows) && Fits(rows, e) && e.redo.action.V?
    ensures CanonicalRows(Step(rows, e)) && ApplyOp(Step(rows, e), e.undo, now) == Some(rows)
  {
    var k := e.redo.target;
    var row := rows[k];
    var plain := row - {ARCHIVED_AT};
    assert Step(rows, e) == rows[k := plain];
    if ARCHIVED_AT in row {
      assert plain + map[ARCHIVED_AT := row[ARCHIVED_AT]] == row;
    } else {
      assert plain - {ARCHIVED_AT} == row;
    }
    assert rows[k := plain][k := row] == rows;
    assert Canonical(plain) == plain;
  }

  // ---- groups

  lemma {:induction false} StepsPrefix(rows: Table, es: seq<HistoryEntry>, n: nat)
    requires FitsAll(rows, es) && n < |es| && CanonicalRows(rows)
    ensures FitsAll(rows, es[..n]) && Fits(Steps(rows, es[..n]), es[n])
    ensures Steps(rows, es[..n + 1]) == Step(Steps(rows, es[..n]), es[n])
    ensures CanonicalRows(Steps(rows, es[..n]))
    decreases |es|
  {
    assert es[..n + 1][..n] == es[..n];
    if n == |es| - 1 {
      assert es[..n + 1] == es;
      AllCanonical(rows, es[..n]);
    } else {
      var shorter := es[..|es| - 1];
      assert shorter[..n] == es[..n] && shorter[..n + 1] == es[..n + 1] && shorter[n] == es[n];
      StepsPrefix(rows, shorter, n);
    }
  }

  lemma {:induction false} AllCanonical(rows: Table, es: seq<HistoryEntry>)
    requires FitsAll(rows, es) && CanonicalRows(rows)
    ensures CanonicalRows(Steps(rows, es))
  {
    if es != [] {
      AllCanonical(rows, es[..|es| - 1]);
      UndoRestores(Steps(rows, es[..|es| - 1]), es[|es| - 1], 0);
    }
  }

  /** The rows, and a transport that fails at some calls. */
  class RowStore {
    var rows: Table
    var calls: nat
    const fails: nat -> bool
    const clock: nat -> int
    /** the transaction a call queues, if it queues one */
    const ids: nat -> Option<string>

    constructor (rows: Table, fails: nat -> bool, clock: nat -> int, ids: nat -> Option<string>)
      ensures this.rows == rows && this.fails == fails && this.clock == clock && this.ids == ids && calls == 0
    {
      this.rows, this.fails, this.clock, this.ids, calls := rows, fails, clock, ids, 0;
    }

    /** A mutation that cannot be queued is rolled back, so a failed one changes nothing. */
    method Apply(op: Operation) returns (ok: bool, txId: Option<string>)
      modifies this
      ensures calls == old(calls) + 1
      ensures ok <==> !fails(old(calls)) && ApplyOp(old(rows), op, clock(old(calls))).Some?
      ensures rows == if ok then ApplyOp(old(rows), op, clock(old(calls))).value else old(rows)
      ensures txId == if ok then ids(old(calls)) else None
    {
      var r := ApplyOp(rows, op, clock(calls));
      ok, txId := !fails(calls) && r.Some?, None;
      calls := calls + 1;
      if ok {
        rows, txId := r.value, ids(calls - 1);
      }
    }
  }

  /** No call from the n-th on fails. */
  ghost predicate Reliable(store: RowStore, n: nat) {
    forall i: nat :: i >= n ==> !store.fails(i)
  }

  /** The transactions some calls have queued, in order. */
  function Issued(ids: nat -> Option<string>, first: nat, n: nat): seq<string> {
    if n == 0 then [] else Issued(ids, first, n - 1) + Listed(ids(first + n - 1))
  }

  /** A transaction is among them if and only if one of those calls queued it. */
  lemma {:induction false} IssuedExactly(ids: nat -> Option<string>, first: nat, n: nat, txId: string)
    ensures txId in Issued(ids, first, n) <==> exists i: nat :: first <= i < first + n && ids(i) == Some(txId)
  {
    if n > 0 {
      IssuedExactly(ids, first, n - 1, txId);
      assert first + n - 1 < first + n;
    }
  }

  function Listed(txId: Option<string>): seq<string> {
    if txId.Some? then [txId.value] else []
  }

  class HistoryManager {
    var undoStack: seq<HistoryGroup>
    var redoStack: seq<HistoryGroup>
    var captureStack: seq<Captured>
    var suppressHistory: bool
    const store: RowStore

    constructor (store: RowStore)
      ensures this.store == store && undoStack == [] && redoStack == [] && captureStack == [] && !suppressHistory
    {
      this.store := store;
      undoStack, redoStack, captureStack, suppressHistory := [], [], [], false;
    }

    /** Every stacked entry was recorded on the rows it will find again. */
    ghost predicate Valid(base: Table)
      reads this, store
    {
      CanonicalRows(store.rows) && UndoFits(base, undoStack, store.rows) && RedoFits(store.rows, redoStack)
    }

    /**
     * The same while groups are being captured: the stacks fit the rows the outermost of them
     * started on, and what has been captured since was recorded from there on.
     */
    ghost predicate ValidAround(base: Table)
      reads this, store
    {
      exists below :: Around(base, undoStack, redoStack, CapturedEntries(captureStack), store.rows, below)
    }

    /** With nothing being captured, the two are the same. */
    lemma NothingCaptured(base: Table)
      requires captureStack == []
      ensures ValidAround(base) <==> Valid(base)
    {
      assert CapturedEntries(captureStack) == [];
      if Valid(base) {
        UndoCanonical(base, undoStack, store.rows);
        assert Around(base, undoStack, redoStack, [], store.rows, store.rows);
      }
      if below :| Around(base, undoStack, redoStack, [], store.rows, below) {
        assert Steps(below, []) == below;
      }
    }

    method PushGroup(group: HistoryGroup)
      modifies this`undoStack, this`redoStack
      ensures group.entries == [] ==> undoStack == old(undoStack) && redoStack == old(redoStack)
      ensures group.entries != [] ==> undoStack == old(undoStack) + [group] && redoStack == []
    {
      if group.entries == [] {
        return;
      }
      undoStack := undoStack + [group];
      redoStack := [];
    }

    method Record(entry: Option<HistoryEntry>, txId: Option<string>)
      modifies this`undoStack, this`redoStack, this`captureStack
      ensures entry.None? || suppressHistory ==>
                undoStack == old(undoStack) && redoStack == old(redoStack) && captureStack == old(captureStack)
      ensures entry.Some? && !suppressHistory && old(captureStack) == [] ==>
                undoStack == old(undoStack) + [HistoryGroup([entry.value], Listed(txId))] && redoStack == []
                  && captureStack == []
      ensures entry.Some? && !suppressHistory && old(captureStack) != [] ==>
                && undoStack == old(undoStack) && redoStack == old(redoStack)
                && var n := |old(captureStack)| - 1;
                   var top := old(captureStack)[n];
                   captureStack == if top.invalidated then old(captureStack)
                                   else old(captureStack)[n := Captured(HistoryGroup(top.group.entries + [entry.value],
                                                                                     top.group.txIds + Listed(txId)),
                                                                        false)]
    {
      if entry.None? || suppressHistory {
        return;
      }
      if captureStack != [] {
        var n := |captureStack| - 1;
        var top := captureStack[n];
        if top.invalidated {
          return;
        }
        captureStack := captureStack[n := Captured(HistoryGroup(top.group.entries + [entry.value],
                                                                top.group.txIds + Listed(txId)), false)];
        return;
      }
      PushGroup(HistoryGroup([entry.value], Listed(txId)));
    }

    /**
     * A mutation of the client: it runs on the store and, if it could be queued, its entry is
     * recorded. It is recorded on the rows its undo will find again, alone or in a group.
     */
    method Mutate(action: ActionKind, target: Key, payload: Fields, original: Option<Original>, ghost base: Table)
      returns (ok: bool)
      requires ValidAround(base) && !suppressHistory && NoneInvalidated(captureStack)
      requires Describes(store.rows, action, target, payload, original)
      modifies this`undoStack, this`redoStack, this`captureStack, store
      ensures ValidAround(base) && NoneInvalidated(captureStack) && |captureStack| == |old(captureStack)|
      ensures ok <==> !store.fails(old(store.calls))
      ensures !ok ==> store.rows == old(store.rows) && undoStack == old(undoStack) && redoStack == old(redoStack)
                      && captureStack == old(captureStack)
      ensures ok ==>
                && Some(store.rows) == ApplyOp(old(store.rows), Operation(action, target, payload, original),
                                               store.clock(old(store.calls)))
                && Performed(Operation(action, target, payload, original), store.clock(old(store.calls)),
                             old(store.rows), store.rows)
                && |CapturedEntries(captureStack)| + |undoStack|
                   == |CapturedEntries(old(captureStack))| + |old(undoStack)| + 1
                && var txIds := Listed(store.ids(old(store.calls)));
                   if captureStack == [] then
                     redoStack == [] && undoStack != [] && undoStack[|undoStack| - 1].txIds == txIds
                   else captureStack[|captureStack| - 1].group.txIds
                        == old(captureStack)[|captureStack| - 1].group.txIds + txIds
    {
      hide Fits, FitsAll, Steps, Step, ApplyOp, UndoFits, RedoFits, Describes, CanonicalRows, CapturedEntries,
           Performed;
      ghost var below :| Around(base, undoStack, redoStack, CapturedEntries(captureStack), store.rows, below);
      ghost var rows := store.rows;
      var entry := BuildEntry(action, target, payload, original, store.clock(store.calls));
      EntryFits(rows, action, target, payload, original, store.clock(store.calls));
      AroundCanonical(base, undoStack, redoStack, CapturedEntries(captureStack), rows, below);
      UndoRestores(rows, entry.value, store.clock(store.calls));
      ApplyPerforms(rows, Operation(action, target, payload, original), store.clock(store.calls));
      var txId;
      ok, txId := store.Apply(Operation(action, target, payload, original));
      if ok {
        Record(entry, txId);
        RecordFits(base, old(undoStack), old(redoStack), old(captureStack), rows, below, entry.value,
                   undoStack, redoStack, captureStack);
      }
    }

    /** runAsGroup up to the operation. */
    method BeginGroup(ghost base: Table)
      requires !suppressHistory
      modifies this`captureStack
      ensures captureStack == old(captureStack) + [Captured(HistoryGroup([], []), false)]
      ensures old(ValidAround(base)) ==> ValidAround(base)
    {
      captureStack := captureStack + [Captured(HistoryGroup([], []), false)];
      assert captureStack[..|old(captureStack)|] == old(captureStack);
      assert CapturedEntries(captureStack) == CapturedEntries(old(captureStack)) + []
        == CapturedEntries(old(captureStack));
      if below :| old(Around(base, undoStack, redoStack, CapturedEntries(captureStack), store.rows, below)) {
        assert Around(base, undoStack, redoStack, CapturedEntries(captureStack), store.rows, below);
      }
    }

    /** runAsGroup after it: into the enclosing group, or onto the undo stack. */
    method EndGroup(ghost base: Table)
      requires captureStack != []
      modifies this`captureStack, this`undoStack, this`redoStack
      ensures var n := |old(captureStack)| - 1;
              var done := old(captureStack)[n].group;
              && (done.entries == []
                  ==> captureStack == old(captureStack)[..n] && undoStack == old(undoStack)
                      && redoStack == old(redoStack))
              && (done.entries != [] && n == 0
                  ==> captureStack == [] && undoStack == old(undoStack) + [done] && redoStack == [])
              && (done.entries != [] && n > 0 ==>
                    && undoStack == old(undoStack) && redoStack == old(redoStack) && |captureStack| == n
                    && captureStack[..n - 1] == old(captureStack)[..n - 1]
                    && captureStack[n - 1].group == HistoryGroup(old(captureStack)[n - 1].group.entries + done.entries,
                                                                 old(captureStack)[n - 1].group.txIds + done.txIds))
      ensures old(ValidAround(base)) ==> ValidAround(base)
    {
      var done := captureStack[|captureStack| - 1].group;
      captureStack := captureStack[..|captureStack| - 1];
      if done.entries != [] {
        if captureStack != [] {
          var n := |captureStack| - 1;
          var parent := captureStack[n];
          captureStack := captureStack[n := parent.(group := HistoryGroup(parent.group.entries + done.entries,
                                                                         parent.group.txIds + done.txIds))];
        } else {
          PushGroup(done);
        }
      }
      EndFits(base, old(undoStack), old(redoStack), old(captureStack), store.rows, undoStack, redoStack, captureStack);
    }

    /** `stack` without the groups that carry this transaction. */
    static method RemoveMatches(stack: seq<HistoryGroup>, clientTxId: string) returns (kept: seq<HistoryGroup>)
      ensures kept == WithoutTx(stack, clientTxId)
    {
      kept := stack;
      var i := |stack|;
      assert WithoutTx([], clientTxId) == [] && stack[..i] + [] == stack;
      while i > 0
        invariant 0 <= i <= |stack| && kept == stack[..i] + WithoutTx(stack[i..], clientTxId)
      {
        i := i - 1;
        assert stack[i..] == [stack[i]] + stack[i + 1..];
        assert kept[i] == stack[i] && kept[..i] == stack[..i] && kept[i + 1..] == WithoutTx(stack[i + 1..], clientTxId);
        if clientTxId in kept[i].txIds {
          kept := kept[..i] + kept[i + 1..];
        } else {
          assert kept == stack[..i] + ([stack[i]] + WithoutTx(stack[i + 1..], clientTxId));
        }
      }
      assert stack[0..] == stack;
    }

    method RemoveByTxId(clientTxId: string)
      modifies this`captureStack, this`undoStack, this`redoStack
      ensures undoStack == WithoutTx(old(undoStack), clientTxId) && redoStack == WithoutTx(old(redoStack), clientTxId)
      ensures captureStack
              == if exists i :: 0 <= i < |old(captureStack)| && clientTxId in old(captureStack)[i].group.txIds
                 then seq(|old(captureStack)|, i => Captured(HistoryGroup([], []), true)) else old(captureStack)
    {
      if exists i :: 0 <= i < |captureStack| && clientTxId in captureStack[i].group.txIds {
        captureStack := seq(|captureStack|, i => Captured(HistoryGroup([], []), true));
      }
      undoStack := RemoveMatches(undoStack, clientTxId);
      redoStack := RemoveMatches(redoStack, clientTxId);
    }

    /**
     * applyHistoryOperation: a mutation like any other, which would be recorded, and would drop what
     * can be redone, if history were not suppressed.
     */
    method ApplyHistoryOperation(op: Operation) returns (ok: bool, txId: Option<string>)
      requires suppressHistory
      modifies this`undoStack, this`redoStack, this`captureStack, store
      ensures undoStack == old(undoStack) && redoStack == old(redoStack) && captureStack == old(captureStack)
      ensures store.calls == old(store.calls) + 1
      ensures var after := ApplyOp(old(store.rows), op, store.clock(old(store.calls)));
              && (ok <==> !store.fails(old(store.calls)) && after.Some?)
              && store.rows == (if ok then after.value else old(store.rows))
              && txId == if ok then store.ids(old(store.calls)) else None
    {
      hide ApplyOp;
      var entry := BuildEntry(op.action, op.target, op.payload, op.original, store.clock(store.calls));
      ok, txId := store.Apply(op);
      if ok {
        Record(entry, txId);
      }
    }

    /**
     * The compensation: the operations that ran are taken back, last one first, and a failing one
     * is skipped. If none fails, what ran is undone exactly.
     */
    method RollbackHistoryEntries(applied: seq<HistoryEntry>, undoing: bool, ghost before: Table,
                                  ghost es: seq<HistoryEntry>, ghost n: nat)
      requires CanonicalRows(before) && FitsAll(before, es) && n <= |es| && store.rows == Steps(before, es[..n])
      requires undoing ==> |applied| == |es| - n && forall j :: 0 <= j < |applied| ==> applied[j] == es[|es| - 1 - j]
      requires !undoing ==> applied == es[..n]
      requires suppressHistory
      modifies this`undoStack, this`redoStack, this`captureStack, store
      ensures undoStack == old(undoStack) && redoStack == old(redoStack) && captureStack == old(captureStack)
      ensures Reliable(store, old(store.calls)) ==> store.rows == Steps(before, if undoing then es else [])
      ensures store.calls == old(store.calls) + |applied|
    {
      hide FitsAll, Fits, Steps, ApplyOp, CanonicalRows;
      var i := |applied|;
      ghost var at := n;
      assert es[..|es|] == es && es[..0] == [];
      while i > 0
        invariant 0 <= i <= |applied| && store.calls == old(store.calls) + |applied| - i
        invariant undoStack == old(undoStack) && redoStack == old(redoStack) && captureStack == old(captureStack)
        invariant at == if undoing then |es| - i else i
        invariant Reliable(store, old(store.calls)) ==> store.rows == Steps(before, es[..at])
      {
        i := i - 1;
        ghost var first := if undoing then at else at - 1;
        assert applied[i] == es[first];
        StepsPrefix(before, es, first);
        UndoRestores(Steps(before, es[..first]), es[first], store.clock(store.calls));
        var _, _ := ApplyHistoryOperation(if undoing then applied[i].redo else applied[i].undo);
        at := if undoing then at + 1 else at - 1;
      }
    }

    /** The undo operations, last entry first, until one fails. */
    method UndoEntries(es: seq<HistoryEntry>, ghost before: Table)
      returns (ok: bool, applied: seq<HistoryEntry>, txIds: seq<string>, ghost left: nat)
      requires CanonicalRows(before) && FitsAll(before, es) && Steps(before, es) == store.rows
      requires suppressHistory
      modifies this`undoStack, this`redoStack, this`captureStack, store
      ensures undoStack == old(undoStack) && redoStack == old(redoStack) && captureStack == old(captureStack)
      ensures left <= |es| && store.rows == Steps(before, es[..left]) && (ok <==> left == 0)
      ensures |applied| == |es| - left && forall j :: 0 <= j < |applied| ==> applied[j] == es[|es| - 1 - j]
      ensures txIds == Issued(store.ids, old(store.calls), |applied|)
      ensures store.calls == old(store.calls) + |applied| + (if ok then 0 else 1)
      ensures !ok ==> store.fails(store.calls - 1)
      ensures Reliable(store, old(store.calls)) ==> ok
    {
      hide FitsAll, Fits, Steps, ApplyOp, CanonicalRows;
      ok, applied, txIds := true, [], [];
      var i := |es|;
      assert es[..|es|] == es;
      while i > 0 && ok
        invariant 0 <= i <= |es| && store.rows == Steps(before, es[..i]) && (!ok ==> i > 0)
        invariant |applied| == |es| - i && forall j :: 0 <= j < |applied| ==> applied[j] == es[|es| - 1 - j]
        invariant undoStack == old(undoStack) && redoStack == old(redoStack) && captureStack == old(captureStack)
        invariant txIds == Issued(store.ids, old(store.calls), |applied|)
        invariant store.calls == old(store.calls) + |applied| + (if ok then 0 else 1)
        invariant !ok ==> store.fails(store.calls - 1)
        decreases i, ok
      {
        StepsPrefix(before, es, i - 1);
        UndoRestores(Steps(before, es[..i - 1]), es[i - 1], store.clock(store.calls));
        var txId;
        ok, txId := ApplyHistoryOperation(es[i - 1].undo);
        if ok {
          i := i - 1;
          applied := applied + [es[i]];
          if txId.Some? {
            txIds := txIds + [txId.value];
          }
        }
      }
      left := i;
    }

    /**
     * Undo takes the rows back to before the group and moves the group to the redo stack. If an
     * operation fails midway and the compensations do not, nothing has changed.
     */
    method Undo(ghost base: Table, ghost before: Table) returns (ok: bool, ghost failedAt: nat)
      requires Valid(base) && !suppressHistory
      requires undoStack != [] ==> RecordedOn(base, undoStack, store.rows, before)
      modifies this, store
      ensures !suppressHistory
      ensures old(undoStack) == []
              ==> ok && undoStack == [] && redoStack == old(redoStack) && store.rows == old(store.rows)
      ensures old(undoStack) != [] && ok ==>
                && store.rows == before && Moved(old(undoStack), old(redoStack), undoStack, redoStack) && Valid(base)
                && redoStack[|redoStack| - 1].txIds
                   == Issued(store.ids, old(store.calls), |redoStack[|redoStack| - 1].entries|)
      ensures !ok ==> undoStack == old(undoStack) && redoStack == old(redoStack)
      ensures !ok ==> old(store.calls) < failedAt <= store.calls && store.fails(failedAt - 1)
      ensures !ok && Reliable(store, failedAt) ==> store.rows == old(store.rows) && Valid(base)
      ensures Reliable(store, old(store.calls)) ==> ok
      ensures store.calls >= old(store.calls)
    {
      hide FitsAll, Fits, Steps, CanonicalRows, UndoFits, RedoFits;
      ok, failedAt := true, 0;
      if undoStack == [] {
        return;
      }
      var group := undoStack[|undoStack| - 1];
      undoStack := undoStack[..|undoStack| - 1];
      suppressHistory := true;
      var applied, nextTxIds;
      ghost var left;
      ok, applied, nextTxIds, left := UndoEntries(group.entries, before);
      if ok {
        NothingLeft(before, group.entries);
        RedoGrows(before, old(redoStack), HistoryGroup(group.entries, nextTxIds));
        redoStack := redoStack + [HistoryGroup(group.entries, nextTxIds)];
      } else {
        failedAt := store.calls;
        RollbackHistoryEntries(applied, true, before, group.entries, left);
        undoStack := undoStack + [group];
        assert undoStack == old(undoStack);
      }
      suppressHistory := false;
    }

    /** The redo operations, first entry first, until one fails. */
    method RedoEntries(es: seq<HistoryEntry>)
      returns (ok: bool, applied: seq<HistoryEntry>, txIds: seq<string>)
      requires CanonicalRows(store.rows) && FitsAll(store.rows, es) && suppressHistory
      modifies this`undoStack, this`redoStack, this`captureStack, store
      ensures undoStack == old(undoStack) && redoStack == old(redoStack) && captureStack == old(captureStack)
      ensures applied <= es && store.rows == Steps(old(store.rows), applied) && (ok <==> applied == es)
      ensures ok ==> PerformedAll(es, old(store.rows), store.rows)
      ensures txIds == Issued(store.ids, old(store.calls), |applied|)
      ensures store.calls == old(store.calls) + |applied| + (if ok then 0 else 1)
      ensures !ok ==> store.fails(store.calls - 1)
      ensures Reliable(store, old(store.calls)) ==> ok
    {
      hide FitsAll, Fits, ApplyOp, Step, Steps, CanonicalRows, PerformedAll;
      ghost var before := store.rows;
      ok, applied, txIds := true, [], [];
      var i := 0;
      NothingLeft(before, es);
      assert es[..0] == [];
      while i < |es| && ok
        invariant 0 <= i <= |es| && applied == es[..i] && (!ok ==> i < |es|)
        invariant undoStack == old(undoStack) && redoStack == old(redoStack) && captureStack == old(captureStack)
        invariant store.rows == Steps(before, es[..i])
        invariant txIds == Issued(store.ids, old(store.calls), i)
        invariant store.calls == old(store.calls) + i + (if ok then 0 else 1)
        invariant !ok ==> store.fails(store.calls - 1)
        invariant Reliable(store, old(store.calls)) ==> ok
        decreases |es| - i, ok
      {
        StepsPrefix(before, es, i);
        UndoRestores(Steps(before, es[..i]), es[i], store.clock(store.calls));
        var txId;
        ok, txId := ApplyHistoryOperation(es[i].redo);
        if ok {
          applied := applied + [es[i]];
          assert es[..i + 1] == es[..i] + [es[i]];
          i := i + 1;
          if txId.Some? {
            txIds := txIds + [txId.value];
          }
        }
      }
      assert es[..|es|] == es;
      StepsPerform(before, es);
    }

    /** Redo re-applies the group and moves it back, or, failing with its compensations working, changes nothing. */
    method Redo(ghost base: Table) returns (ok: bool, ghost failedAt: nat)
      requires Valid(base) && !suppressHistory
      modifies this, store
      ensures !suppressHistory
      ensures old(redoStack) == []
              ==> ok && undoStack == old(undoStack) && redoStack == [] && store.rows == old(store.rows)
      ensures old(redoStack) != [] && ok ==>
                var top := old(redoStack)[|old(redoStack)| - 1];
                && store.rows == Steps(old(store.rows), top.entries)
                && PerformedAll(top.entries, old(store.rows), store.rows)
                && undoStack != [] && undoStack[|undoStack| - 1].txIds
                                      == Issued(store.ids, old(store.calls), |top.entries|)
                && Moved(old(redoStack), old(undoStack), redoStack, undoStack) && Valid(base)
      ensures !ok ==> undoStack == old(undoStack) && redoStack == old(redoStack)
      ensures !ok ==> old(store.calls) < failedAt <= store.calls && store.fails(failedAt - 1)
      ensures !ok && Reliable(store, failedAt) ==> store.rows == old(store.rows) && Valid(base)
      ensures Reliable(store, old(store.calls)) ==> ok
      ensures store.calls >= old(store.calls)
    {
      hide FitsAll, Fits, ApplyOp, Step, Steps, CanonicalRows, UndoFits, RedoFits, PerformedAll;
      ok, failedAt := true, 0;
      if redoStack == [] {
        return;
      }
      var group := redoStack[|redoStack| - 1];
      redoStack := redoStack[..|redoStack| - 1];
      suppressHistory := true;
      ghost var before := store.rows;
      RedoTop(before, old(redoStack));
      var applied, nextTxIds;
      ok, applied, nextTxIds := RedoEntries(group.entries);
      AllCanonical(before, group.entries);
      if ok {
        GroupPushed(base, undoStack, HistoryGroup(group.entries, nextTxIds), before);
        undoStack := undoStack + [HistoryGroup(group.entries, nextTxIds)];
        assert undoStack[..|old(undoStack)|] == old(undoStack);
      } else {
        failedAt := store.calls;
        NothingLeft(before, group.entries);
        assert group.entries[..|applied|] == applied;
        RollbackHistoryEntries(applied, false, before, group.entries, |applied|);
        redoStack := redoStack + [group];
        assert redoStack == old(redoStack);
      }
      suppressHistory := false;
    }

    /** Round trip: n undos and then n redos, none of which fails, restore the rows and both stacks' entries. */
    method UndoThenRedo(n: nat, ghost base: Table)
      requires Valid(base) && !suppressHistory && n <= |undoStack| && Reliable(store, store.calls)
      modifies this, store
      ensures store.rows == old(store.rows) && Valid(base) && !suppressHistory
      ensures EntriesOf(undoStack) == old(EntriesOf(undoStack)) && EntriesOf(redoStack) == old(EntriesOf(redoStack))
    {
      hide FitsAll, Fits, Steps, CanonicalRows, UndoFits, RedoFits, Moved, Balanced, RedoRows;
      ghost var undone, kept := undoStack, redoStack;
      BalancedStart(undone, kept, store.rows);
      for i := 0 to n
        invariant Valid(base) && !suppressHistory && Reliable(store, store.calls)
        invariant |undoStack| == |undone| - i && |redoStack| == |kept| + i
        invariant Balanced(undone, kept, undoStack, redoStack)
        invariant RedoRows(store.rows, redoStack, i) == old(store.rows)
      {
        ghost var before := TopRecordedOn(base, undoStack, store.rows);
        ghost var rows, undos, redos := store.rows, undoStack, redoStack;
        var _, _ := Undo(base, before);
        MovedTop(undos, redos, undoStack, redoStack);
        OneUndone(undone, kept, undos, redos, undoStack, redoStack);
        RedoRowsGrows(before, redos, redoStack, rows, i);
      }
      for i := 0 to n
        invariant Valid(base) && !suppressHistory && Reliable(store, store.calls)
        invariant |undoStack| == |undone| - n + i && |redoStack| == |kept| + n - i
        invariant Balanced(undone, kept, undoStack, redoStack)
        invariant RedoRows(store.rows, redoStack, n - i) == old(store.rows)
      {
        ghost var rows, undos, redos := store.rows, undoStack, redoStack;
        var _, _ := Redo(base);
        MovedTop(redos, undos, redoStack, undoStack);
        OneRedone(undone, kept, undos, redos, undoStack, redoStack);
        RedoRowsShrinks(rows, redos, redoStack, n - i);
      }
      BalancedEnd(undone, kept, undoStack, redoStack, store.rows);
    }
  }

  // ---- what recording keeps

  /** What the open groups have captured, outermost first. */
  function CapturedEntries(open: seq<Captured>): seq<HistoryEntry> {
    if open == [] then [] else CapturedEntries(open[..|open| - 1]) + open[|open| - 1].group.entries
  }

  /** No open group has lost its entries to a rejected transaction. */
  predicate NoneInvalidated(open: seq<Captured>) {
    forall i :: 0 <= i < |open| ==> !open[i].invalidated
  }

  /** The stacks fit the rows `below`, and the captured entries lead from there to `rows`. */
  ghost predicate Around(base: Table, undos: seq<HistoryGroup>, redos: seq<HistoryGroup>, captured: seq<HistoryEntry>,
                         rows: Table, below: Table) {
    && CanonicalRows(below) && UndoFits(base, undos, below) && RedoFits(below, redos)
    && FitsAll(below, captured) && Steps(below, captured) == rows
  }

  lemma UndoCanonical(base: Table, stack: seq<HistoryGroup>, rows: Table)
    requires CanonicalRows(rows)
    ensures FitsAll(rows, []) && Steps(rows, []) == rows
  {
  }

  lemma AroundCanonical(base: Table, undos: seq<HistoryGroup>, redos: seq<HistoryGroup>, captured: seq<HistoryEntry>,
                        rows: Table, below: Table)
    requires Around(base, undos, redos, captured, rows, below)
    ensures CanonicalRows(rows)
  {
    AllCanonical(below, captured);
  }

  /** An entry built for a mutation fits the rows it runs on. */
  lemma EntryFits(rows: Table, action: ActionKind, target: Key, payload: Fields, original: Option<Original>, now: int)
    requires Describes(rows, action, target, payload, original)
    ensures var e := BuildEntry(action, target, payload, original, now);
            e.Some? && Fits(rows, e.value) && e.value.redo == Operation(action, target, payload, original)
  {
    var e := BuildEntry(action, target, payload, original, now).value;
    assert BuildEntry(e.redo.action, e.redo.target, e.redo.payload, e.redo.original, now) == Some(e);
  }

  lemma OneMore(below: Table, es: seq<HistoryEntry>, e: HistoryEntry)
    requires FitsAll(below, es) && Fits(Steps(below, es), e)
    ensures FitsAll(below, es + [e]) && Steps(below, es + [e]) == Step(Steps(below, es), e)
  {
    assert (es + [e])[..|es|] == es;
  }

  /** A recorded group fits on top of an undo stack. */
  lemma GroupPushed(base: Table, undos: seq<HistoryGroup>, group: HistoryGroup, below: Table)
    requires UndoFits(base, undos, below) && CanonicalRows(below) && FitsAll(below, group.entries)
    ensures UndoFits(base, undos + [group], Steps(below, group.entries))
  {
    assert (undos + [group])[..|undos|] == undos;
  }

  /** Where record puts an entry: on the undo stack, or in the innermost open group. */
  ghost predicate Recording(undos: seq<HistoryGroup>, redos: seq<HistoryGroup>, open: seq<Captured>, e: HistoryEntry,
                          undos': seq<HistoryGroup>, redos': seq<HistoryGroup>, open': seq<Captured>) {
    if open == [] then |undos'| == |undos| + 1 && undos'[..|undos|] == undos && undos'[|undos|].entries == [e]
         && redos' == [] && open' == []
    else undos' == undos && redos' == redos && |open'| == |open| && open'[..|open| - 1] == open[..|open| - 1]
         && open'[|open| - 1].group.entries == open[|open| - 1].group.entries + [e] && !open'[|open| - 1].invalidated
  }

  lemma RecordFits(base: Table, undos: seq<HistoryGroup>, redos: seq<HistoryGroup>, open: seq<Captured>, rows: Table,
                   below: Table, e: HistoryEntry, undos': seq<HistoryGroup>, redos': seq<HistoryGroup>,
                   open': seq<Captured>)
    requires Around(base, undos, redos, CapturedEntries(open), rows, below) && Fits(rows, e)
    requires Recording(undos, redos, open, e, undos', redos', open')
    ensures exists below' :: Around(base, undos', redos', CapturedEntries(open'), Step(rows, e), below')
    ensures |CapturedEntries(open')| + |undos'| == |CapturedEntries(open)| + |undos| + 1
  {
    hide Fits, Step, CanonicalRows, FitsAll, Steps, UndoFits, RedoFits;
    OneMore(below, CapturedEntries(open), e);
    if open == [] {
      RecordAlone(base, undos, undos'[|undos|], rows, below, e);
      assert undos' == undos + [undos'[|undos|]];
      assert Around(base, undos', redos', CapturedEntries(open'), Step(rows, e), Step(rows, e));
    } else {
      OneMoreCaptured(open, open', e);
      assert Around(base, undos', redos', CapturedEntries(open'), Step(rows, e), below);
    }
  }

  lemma OneMoreCaptured(open: seq<Captured>, open': seq<Captured>, e: HistoryEntry)
    requires open != [] && |open'| == |open| && open'[..|open| - 1] == open[..|open| - 1]
    requires open'[|open| - 1].group.entries == open[|open| - 1].group.entries + [e]
    ensures CapturedEntries(open') == CapturedEntries(open) + [e]
  {
    var outer := CapturedEntries(open[..|open| - 1]);
    assert outer + (open[|open| - 1].group.entries + [e]) == outer + open[|open| - 1].group.entries + [e];
  }

  lemma RecordAlone(base: Table, undos: seq<HistoryGroup>, group: HistoryGroup, rows: Table, below: Table,
                    e: HistoryEntry)
    requires CanonicalRows(below) && UndoFits(base, undos, below) && FitsAll(below, []) && Steps(below, []) == rows
    requires Fits(rows, e) && group.entries == [e]
    ensures Around(base, undos + [group], [], [], Step(rows, e), Step(rows, e))
  {
    hide Fits, Step, CanonicalRows, UndoFits;
    OneMore(below, [], e);
    assert [] + [e] == [e];
    GroupPushed(base, undos, group, below);
    AllCanonical(below, [e]);
  }

  /** Where runAsGroup puts the finished group: in the enclosing one, or on the undo stack. */
  ghost predicate Ends(undos: seq<HistoryGroup>, redos: seq<HistoryGroup>, open: seq<Captured>,
                       undos': seq<HistoryGroup>, redos': seq<HistoryGroup>, open': seq<Captured>)
    requires open != []
  {
    var n := |open| - 1;
    var done := open[n].group;
    if done.entries == [] then undos' == undos && redos' == redos && open' == open[..n]
    else if n == 0 then undos' == undos + [done] && redos' == [] && open' == []
    else undos' == undos && redos' == redos && |open'| == n && open'[..n - 1] == open[..n - 1]
         && open'[n - 1].group.entries == open[n - 1].group.entries + done.entries
  }

  lemma EndFits(base: Table, undos: seq<HistoryGroup>, redos: seq<HistoryGroup>, open: seq<Captured>, rows: Table,
                undos': seq<HistoryGroup>, redos': seq<HistoryGroup>, open': seq<Captured>)
    requires open != [] && Ends(undos, redos, open, undos', redos', open')
    ensures (exists below :: Around(base, undos, redos, CapturedEntries(open), rows, below))
            ==> exists below :: Around(base, undos', redos', CapturedEntries(open'), rows, below)
  {
    hide Fits, Step, CanonicalRows, FitsAll, Steps, UndoFits, RedoFits;
    if below :| Around(base, undos, redos, CapturedEntries(open), rows, below) {
      var n := |open| - 1;
      var done := open[n].group;
      AroundCanonical(base, undos, redos, CapturedEntries(open), rows, below);
      if done.entries != [] && n == 0 {
        assert open[..0] == [] && CapturedEntries(open) == [] + done.entries == done.entries;
        GroupPushed(base, undos, done, below);
        UndoCanonical(base, undos', rows);
        NothingToRedo(rows);
        assert Around(base, undos', redos', CapturedEntries(open'), rows, rows);
      } else {
        assert CapturedEntries(open') == CapturedEntries(open) by {
          if done.entries != [] {
            assert open[..n][..n - 1] == open[..n - 1];
            assert CapturedEntries(open')
              == CapturedEntries(open[..n - 1]) + (open[n - 1].group.entries + done.entries);
            assert CapturedEntries(open[..n]) == CapturedEntries(open[..n - 1]) + open[n - 1].group.entries;
          } else {
            assert CapturedEntries(open) == CapturedEntries(open[..n]) + [];
          }
        }
        assert Around(base, undos', redos', CapturedEntries(open'), rows, below);
      }
    }
  }

  lemma NothingToRedo(rows: Table)
    ensures RedoFits(rows, [])
  {
  }

  /** The top group went from one stack to the other. */
  predicate Moved(from: seq<HistoryGroup>, to: seq<HistoryGroup>, from': seq<HistoryGroup>, to': seq<HistoryGroup>) {
    && from != [] && from' == from[..|from| - 1]
    && |to'| == |to| + 1 && to'[..|to|] == to && to'[|to|].entries == from[|from| - 1].entries
  }

  lemma MovedTop(from: seq<HistoryGroup>, to: seq<HistoryGroup>, from': seq<HistoryGroup>, to': seq<HistoryGroup>)
    requires Moved(from, to, from', to')
    ensures from != [] && from' == from[..|from| - 1] && |to'| == |to| + 1
    ensures to'[..|to|] == to && to'[|to|].entries == from[|from| - 1].entries
  {
  }

  /** Of the groups `undone`, the lower ones are on the undo stack and the others, reversed, on the redo stack. */
  predicate Balanced(undone: seq<HistoryGroup>, kept: seq<HistoryGroup>, undos: seq<HistoryGroup>,
                     redos: seq<HistoryGroup>)
  {
    && |undos| <= |undone| && |redos| == |kept| + |undone| - |undos| && redos[..|kept|] == kept
    && (forall j :: 0 <= j < |undos| ==> undos[j].entries == undone[j].entries)
    && (forall j :: |undos| <= j < |undone| ==> undone[j].entries == redos[|kept| + |undone| - 1 - j].entries)
  }

  lemma BalancedStart(undone: seq<HistoryGroup>, kept: seq<HistoryGroup>, rows: Table)
    ensures Balanced(undone, kept, undone, kept) && RedoRows(rows, kept, 0) == rows
  {
  }

  lemma BalancedEnd(undone: seq<HistoryGroup>, kept: seq<HistoryGroup>, undos: seq<HistoryGroup>,
                    redos: seq<HistoryGroup>, rows: Table)
    requires Balanced(undone, kept, undos, redos) && |undos| == |undone|
    ensures EntriesOf(undos) == EntriesOf(undone) && EntriesOf(redos) == EntriesOf(kept)
            && RedoRows(rows, redos, 0) == rows
  {
    assert redos == kept;
  }

  lemma OneUndone(undone: seq<HistoryGroup>, kept: seq<HistoryGroup>, undos: seq<HistoryGroup>,
                  redos: seq<HistoryGroup>, undos': seq<HistoryGroup>, redos': seq<HistoryGroup>)
    requires Balanced(undone, kept, undos, redos) && Moved(undos, redos, undos', redos')
    ensures Balanced(undone, kept, undos', redos')
  {
    forall j | |undos'| <= j < |undone| ensures undone[j].entries == redos'[|kept| + |undone| - 1 - j].entries {
      if j > |undos'| {
        assert redos'[|kept| + |undone| - 1 - j] == redos'[..|redos|][|kept| + |undone| - 1 - j];
      }
    }
    assert redos'[..|kept|] == redos'[..|redos|][..|kept|];
  }

  lemma OneRedone(undone: seq<HistoryGroup>, kept: seq<HistoryGroup>, undos: seq<HistoryGroup>,
                  redos: seq<HistoryGroup>, undos': seq<HistoryGroup>, redos': seq<HistoryGroup>)
    requires Balanced(undone, kept, undos, redos) && Moved(redos, undos, redos', undos') && |redos| > |kept|
    ensures Balanced(undone, kept, undos', redos')
  {
    var top := |undos|;
    assert undone[top].entries == redos[|kept| + |undone| - 1 - top].entries;
    forall j | 0 <= j < |undos'| ensures undos'[j].entries == undone[j].entries {
      assert j < top ==> undos'[j] == undos'[..top][j];
    }
    assert redos'[..|kept|] == redos[..|kept|];
  }

  /** The top group of an undo stack was recorded on `before`, which the groups below leave. */
  ghost predicate RecordedOn(base: Table, stack: seq<HistoryGroup>, rows: Table, before: Table)
    requires stack != []
  {
    var es := stack[|stack| - 1].entries;
    CanonicalRows(before) && FitsAll(before, es) && Steps(before, es) == rows
      && UndoFits(base, stack[..|stack| - 1], before)
  }

  lemma TopRecordedOn(base: Table, stack: seq<HistoryGroup>, rows: Table) returns (before: Table)
    requires stack != [] && UndoFits(base, stack, rows)
    ensures RecordedOn(base, stack, rows, before)
  {
    before :| CanonicalRows(before) && FitsAll(before, stack[|stack| - 1].entries)
      && Steps(before, stack[|stack| - 1].entries) == rows && UndoFits(base, stack[..|stack| - 1], before);
  }

  /** The rows after redoing the top n groups. */
  function RedoRows(rows: Table, stack: seq<HistoryGroup>, n: nat): Table
    decreases n
  {
    if n == 0 || stack == [] then rows
    else RedoRows(Steps(rows, stack[|stack| - 1].entries), stack[..|stack| - 1], n - 1)
  }

  lemma RedoRowsGrows(before: Table, stack: seq<HistoryGroup>, grown: seq<HistoryGroup>, rows: Table, n: nat)
    requires |grown| == |stack| + 1 && grown[..|stack|] == stack && Steps(before, grown[|stack|].entries) == rows
    ensures RedoRows(before, grown, n + 1) == RedoRows(rows, stack, n)
  {
  }

  lemma RedoRowsShrinks(rows: Table, stack: seq<HistoryGroup>, shrunk: seq<HistoryGroup>, n: nat)
    requires stack != [] && n > 0 && shrunk == stack[..|stack| - 1]
    ensures RedoRows(rows, stack, n) == RedoRows(Steps(rows, stack[|stack| - 1].entries), shrunk, n - 1)
  {
  }

  lemma NothingLeft(before: Table, es: seq<HistoryEntry>)
    ensures Steps(before, es[..0]) == before
  {
  }

  lemma RedoTop(rows: Table, stack: seq<HistoryGroup>)
    requires stack != [] && RedoFits(rows, stack)
    ensures FitsAll(rows, stack[|stack| - 1].entries)
    ensures RedoFits(Steps(rows, stack[|stack| - 1].entries), stack[..|stack| - 1])
  {
  }

  lemma RedoGrows(before: Table, stack: seq<HistoryGroup>, group: HistoryGroup)
    requires FitsAll(before, group.entries) && RedoFits(Steps(before, group.entries), stack)
    ensures RedoFits(before, stack + [group])
  {
    assert (stack + [group])[..|stack|] == stack;
  }

  function WithoutTx(stack: seq<HistoryGroup>, clientTxId: string): seq<HistoryGroup> {
    if stack == [] then []
    else (if clientTxId in stack[0].txIds then [] else [stack[0]]) + WithoutTx(stack[1..], clientTxId)
  }

  /** What stays is every group that does not carry the transaction, and no other, in order. */
  lemma {:induction false} WithoutTxExactly(stack: seq<HistoryGroup>, clientTxId: string) returns (places: seq<nat>)
    ensures Picks(stack, places, WithoutTx(stack, clientTxId))
    ensures forall i :: 0 <= i < |stack| ==> (i in places <==> clientTxId !in stack[i].txIds)
  {
    if stack == [] {
      places := [];
    } else {
      var rest := WithoutTxExactly(stack[1..], clientTxId);
      var kept := WithoutTx(stack[1..], clientTxId);
      places := PickFront(stack, rest, kept, clientTxId !in stack[0].txIds);
      assert [] + kept == kept;
    }
  }
}
