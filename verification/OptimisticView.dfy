/**
 * The identity-map batch of a delta packet: conflict rollback, server rows with echo suppression,
 * and the outbox replayed on top. Row by row, the maps stay the stored rows overlaid with the
 * outbox.
 */
module OptimisticView {
  import opened Records
  import opened ServerLog
  import opened DeltaApplier
  import opened DeltaStaging
  import opened PendingReplay

  /** One deferred operation on a row, with what its action wrote. */
  datatype RowOp = RowOp(op: DeferredOp, kind: ActionKind, changes: Fields)

  function RowOpBy(before: Option<Fields>, a: SyncAction, e: Entry, k: Key): seq<RowOp> {
    match e
    case Put(k', row) => if k' == k then [RowOp(MergeOp(k, row, a.clientTxId, a.data.Keys), a.kind, row)] else []
    case Patch(k', changes) =>
      if k' == k && before.Some?
      then [RowOp(MergeOp(k, before.value + changes, a.clientTxId, a.data.Keys), a.kind, changes)] else []
    case Delete(k') => if k' == k then [RowOp(RemoveOp(k, a.clientTxId), a.kind, map[])] else []
    case _ => []
  }

  /** The deferred operations on row k, in order. */
  function RowOps(storage: Table, actions: seq<SyncAction>, registry: Registry, clock: seq<int>, k: Key): seq<RowOp>
    requires |clock| == |actions|
  {
    if actions == [] then [] else
    var n := |actions| - 1;
    var before := Fold(storage, Entries(actions[..n], registry, clock[..n]));
    RowOps(storage, actions[..n], registry, clock[..n], k)
    + RowOpBy(Find(before, k), actions[n], EntryOf(actions[n], registry, clock[n]), k)
  }

  function OpsOf(ops: seq<RowOp>): seq<DeferredOp> {
    seq(|ops|, i requires 0 <= i < |ops| => ops[i].op)
  }

  function OpsOn(ops: seq<DeferredOp>, k: Key): seq<DeferredOp> {
    if ops == [] then []
    else OpsOn(ops[..|ops| - 1], k) + (if ops[|ops| - 1].target == k then [ops[|ops| - 1]] else [])
  }

  lemma {:induction false} OpsOnConcat(a: seq<DeferredOp>, b: seq<DeferredOp>, k: Key)
    ensures OpsOn(a + b, k) == OpsOn(a, k) + OpsOn(b, k)
  {
    if b == [] {
      assert a + b == a;
    } else {
      assert (a + b)[..|a + b| - 1] == a + b[..|b| - 1];
      OpsOnConcat(a, b[..|b| - 1], k);
    }
  }

  lemma OneOpOn(op: DeferredOp, k: Key)
    ensures OpsOn([op], k) == if op.target == k then [op] else []
  {
    assert [op][..0] == [];
  }

  lemma NoOps(k: Key)
    ensures OpsOn([], k) == [] && OpsOf([]) == []
  {
  }

  lemma OneOp(op: RowOp)
    ensures OpsOf([op]) == [op.op]
  {
  }

  lemma DeferredByOnRow(before: Table, a: SyncAction, e: Entry, k: Key)
    ensures OpsOn(DeferredBy(before, a, e), k) == OpsOf(RowOpBy(Find(before, k), a, e, k))
  {
    hide OpsOn, OpsOf;
    var mine, here := DeferredBy(before, a, e), RowOpBy(Find(before, k), a, e, k);
    NoOps(k);
    if mine != [] {
      assert mine == [mine[0]];
      OneOpOn(mine[0], k);
      if mine[0].target == k {
        assert here == [here[0]] && here[0].op == mine[0];
        OneOp(here[0]);
      }
    }
  }

  lemma OpsOfConcat(a: seq<RowOp>, b: seq<RowOp>)
    ensures OpsOf(a + b) == OpsOf(a) + OpsOf(b)
  {
  }

  /** What staging defers for row k is exactly the row's own operations. */
  lemma {:induction false} DeferredOnRow(storage: Table, actions: seq<SyncAction>, registry: Registry, clock: seq<int>,
                                         k: Key)
    requires |clock| == |actions|
    ensures OpsOn(Deferred(storage, actions, registry, clock), k) == OpsOf(RowOps(storage, actions, registry, clock, k))
  {
    if actions != [] {
      hide EntryOf, RowOpBy, DeferredBy, OpsOf, Fold;
      var n := |actions| - 1;
      DeferredOnRow(storage, actions[..n], registry, clock[..n], k);
      var before := Fold(storage, Entries(actions[..n], registry, clock[..n]));
      var e := EntryOf(actions[n], registry, clock[n]);
      OpsOnConcat(Deferred(storage, actions[..n], registry, clock[..n]), DeferredBy(before, actions[n], e), k);
      DeferredByOnRow(before, actions[n], e, k);
      OpsOfConcat(RowOps(storage, actions[..n], registry, clock[..n], k), RowOpBy(Find(before, k), actions[n], e, k));
    } else {
      assert OpsOf([]) == [];
    }
  }

  // ---- the batch

  /** Fields of an echo its transaction did not write: what the server derived. */
  function ServerDerivedFields(op: DeferredOp, written: map<string, set<string>>): Fields {
    if op.RemoveOp? || op.clientTxId.None? || op.clientTxId.value !in written then map[]
    else map f | f in op.actionFields && f != "id" && f !in written[op.clientTxId.value] && f in op.data :: op.data[f]
  }

  predicate OwnMerge(op: DeferredOp, own: set<string>) {
    op.MergeOp? && op.clientTxId.Some? && op.clientTxId.value in own
  }

  /** One row of the map, and whether this packet has written it. */
  datatype Slot = Slot(row: Option<Fields>, written: bool)

  function SlotStep(s: Slot, op: DeferredOp, own: set<string>, written: map<string, set<string>>): Slot {
    if OwnMerge(op, own) && !s.written && s.row.Some?
    then Slot(Some(s.row.value + ServerDerivedFields(op, written)), false)
    else if op.MergeOp? then Slot(Some(if s.row.Some? then s.row.value + op.data else op.data), true)
    else Slot(None, true)
  }

  /**
   * What one operation makes of the row, field by field. An own echo, as long as nothing else in the
   * packet wrote the row, brings the fields the server set of its own accord and no other.
   */
  lemma SlotReads(s: Slot, op: DeferredOp, own: set<string>, written: map<string, set<string>>)
    ensures var after := SlotStep(s, op, own, written);
            && (op.RemoveOp? ==> after == Slot(None, true))
            && (op.MergeOp? ==> after.row.Some?)
            && (op.MergeOp? && s.row.Some? && !s.written && op.clientTxId.Some? && op.clientTxId.value in own ==>
                  && !after.written
                  && forall f :: ValueOf(after.row.value, f)
                                 == if op.clientTxId.value in written && f !in written[op.clientTxId.value]
                                       && f in op.actionFields && f != "id" && f in op.data
                                    then Some(op.data[f]) else ValueOf(s.row.value, f))
            && (op.MergeOp? && (s.row.None? || s.written || op.clientTxId.None? || op.clientTxId.value !in own) ==>
                  && after.written
                  && forall f :: ValueOf(after.row.value, f)
                                 == if f in op.data then Some(op.data[f])
                                    else if s.row.Some? then ValueOf(s.row.value, f) else None)
  {
  }

  function SlotAfter(row: Option<Fields>, ops: seq<DeferredOp>, own: set<string>,
                     written: map<string, set<string>>): Slot
  {
    if ops == [] then Slot(row, false)
    else SlotStep(SlotAfter(row, ops[..|ops| - 1], own, written), ops[|ops| - 1], own, written)
  }

  function CaptureArchiveState(original: Option<Fields>): Fields {
    var at := if original.Some? then ReadArchivedAt(original.value) else None;
    map[ARCHIVED_AT := if at.Some? then Number(at.value) else Null]
  }

  /** rollbackTransaction, with no privacy latch pending. */
  function RollbackRow(row: Option<Fields>, t: PendingTx): Option<Fields> {
    match t.action
    case I => None
    case D => if t.original.Some? then t.original else row
    case U => if t.original.Some? && row.Some? then Some(row.value + t.original.value) else row
    case _ => if row.Some? then Some(row.value + CaptureArchiveState(t.original)) else None
  }

  /** What a rollback leaves of the row, field by field. */
  ghost predicate RolledBack(t: PendingTx, before: Option<Fields>, after: Option<Fields>) {
    match t.action
    case I => after.None?
    case D => after == if t.original.Some? then t.original else before
    case U =>
      after.Some? == before.Some? &&
      (before.Some? ==>
         forall f :: ValueOf(after.value, f) == if t.original.Some? && f in t.original.value
                                                then Some(t.original.value[f]) else ValueOf(before.value, f))
    case _ =>
      after.Some? == before.Some? &&
      (before.Some? ==>
         forall f :: ValueOf(after.value, f)
                     == if f != "archivedAt" then ValueOf(before.value, f)
                        else if t.original.Some? && f in t.original.value && t.original.value[f].Number?
                             then Some(t.original.value[f])
                        else Some(Null))
  }

  lemma RollbackReads(row: Option<Fields>, t: PendingTx)
    ensures RolledBack(t, row, RollbackRow(row, t))
  {
  }

  function RollbackRows(row: Option<Fields>, ts: seq<PendingTx>): Option<Fields> {
    if ts == [] then row else RollbackRow(RollbackRows(row, ts[..|ts| - 1]), ts[|ts| - 1])
  }

  /** The conflicts on a row, rolled back one after the other. */
  ghost predicate RolledBackAll(ts: seq<PendingTx>, before: Option<Fields>, after: Option<Fields>) {
    if ts == [] then after == before
    else
      var n := |ts| - 1;
      exists mid :: RolledBackAll(ts[..n], before, mid) && RolledBack(ts[n], mid, after)
  }

  lemma {:induction false} RollbacksRead(row: Option<Fields>, ts: seq<PendingTx>)
    ensures RolledBackAll(ts, row, RollbackRows(row, ts))
  {
    hide RollbackRow, RolledBack;
    if ts != [] {
      RollbacksRead(row, ts[..|ts| - 1]);
      RollbackReads(RollbackRows(row, ts[..|ts| - 1]), ts[|ts| - 1]);
    }
  }

  method Rollback(maps: IdentityMaps, t: PendingTx)
    modifies maps
    ensures forall k :: Find(maps.rows, k) == if k == t.target then RollbackRow(Find(old(maps.rows), k), t)
                                              else Find(old(maps.rows), k)
    ensures RolledBack(t, Find(old(maps.rows), t.target), Find(maps.rows, t.target))
  {
    hide RolledBack;
    RollbackReads(Find(maps.rows, t.target), t);
    var existing := Find(maps.rows, t.target);
    if t.action.I? {
      maps.Remove(t.target);
    } else if t.action.D? {
      if t.original.Some? {
        maps.rows := maps.rows[t.target := t.original.value];
      }
    } else if t.action.U? {
      if t.original.Some? && existing.Some? {
        maps.Merge(t.target, t.original.value);
      }
    } else if existing.Some? {
      maps.Merge(t.target, CaptureArchiveState(t.original));
    }
  }

  /** The deferred conflict rollbacks, in order. */
  method RollbackConflicts(maps: IdentityMaps, conflicts: seq<PendingTx>)
    modifies maps
    ensures forall k :: Find(maps.rows, k) == RollbackRows(Find(old(maps.rows), k), On(conflicts, k))
  {
    for i := 0 to |conflicts|
      invariant forall k :: Find(maps.rows, k) == RollbackRows(Find(old(maps.rows), k), On(conflicts[..i], k))
    {
      Rollback(maps, conflicts[i]);
      assert conflicts[..i + 1][..i] == conflicts[..i];
      forall k ensures RollbackRows(Find(old(maps.rows), k), On(conflicts[..i + 1], k))
                       == if conflicts[i].target == k
                          then RollbackRow(RollbackRows(Find(old(maps.rows), k), On(conflicts[..i], k)), conflicts[i])
                          else RollbackRows(Find(old(maps.rows), k), On(conflicts[..i], k)) {
        var before := On(conflicts[..i], k);
        assert (before + [conflicts[i]])[..|before|] == before && before + [] == before;
      }
    }
    assert conflicts[..|conflicts|] == conflicts;
  }

  /** The deferred operations: own echoes are skipped while nothing else in the packet wrote the row. */
  method ApplyOps(maps: IdentityMaps, ops: seq<DeferredOp>, own: set<string>, written: map<string, set<string>>)
    modifies maps
    ensures forall k :: Find(maps.rows, k) == SlotAfter(Find(old(maps.rows), k), OpsOn(ops, k), own, written).row
  {
    var writtenKeys: set<Key> := {};
    for i := 0 to |ops|
      invariant forall k :: Slot(Find(maps.rows, k), k in writtenKeys)
                            == SlotAfter(Find(old(maps.rows), k), OpsOn(ops[..i], k), own, written)
    {
      var op := ops[i];
      OpsSnoc(ops[..i], op, old(maps.rows), own, written);
      assert ops[..i + 1] == ops[..i] + [op];
      if OwnMerge(op, own) && op.target !in writtenKeys && op.target in maps.rows {
        maps.Merge(op.target, ServerDerivedFields(op, written));
      } else if op.MergeOp? {
        maps.Merge(op.target, op.data);
        writtenKeys := writtenKeys + {op.target};
      } else {
        maps.Remove(op.target);
        writtenKeys := writtenKeys + {op.target};
      }
    }
    assert ops[..|ops|] == ops;
  }

  lemma OpsSnoc(ops: seq<DeferredOp>, op: DeferredOp, rows: Table, own: set<string>, written: map<string, set<string>>)
    ensures forall k :: SlotAfter(Find(rows, k), OpsOn(ops + [op], k), own, written)
                        == if op.target == k
                           then SlotStep(SlotAfter(Find(rows, k), OpsOn(ops, k), own, written), op, own, written)
                           else SlotAfter(Find(rows, k), OpsOn(ops, k), own, written)
  {
    forall k ensures SlotAfter(Find(rows, k), OpsOn(ops + [op], k), own, written)
                     == if op.target == k
                        then SlotStep(SlotAfter(Find(rows, k), OpsOn(ops, k), own, written), op, own, written)
                        else SlotAfter(Find(rows, k), OpsOn(ops, k), own, written) {
      OpsOnConcat(ops, [op], k);
      OneOpOn(op, k);
      var before := OpsOn(ops, k);
      assert (before + [op])[..|before|] == before && before + [] == before;
    }
  }

  /** The whole batch, as the reactivity adapter runs it. */
  method ApplyBatch(maps: IdentityMaps, conflicts: seq<PendingTx>, ops: seq<DeferredOp>, own: set<string>,
                    written: map<string, set<string>>, pending: seq<PendingTx>)
    modifies maps
    ensures forall k :: Find(maps.rows, k)
                        == Replay(SlotAfter(RollbackRows(Find(old(maps.rows), k), On(conflicts, k)),
                                            OpsOn(ops, k), own, written).row,
                                  On(pending, k))
  {
    RollbackConflicts(maps, conflicts);
    ApplyOps(maps, ops, own, written);
    maps.ApplyPending(pending);
  }

  // ---- what the packet says about the outbox

  /** Echoes of transactions this runtime made, without those a conflict rolled back. */
  function OwnClientTxIds(actions: seq<SyncAction>, local: set<string>, conflicts: seq<PendingTx>): set<string> {
    (set i | 0 <= i < |actions| && actions[i].clientTxId.Some? && actions[i].clientTxId.value in local
       :: actions[i].clientTxId.value)
    - TxIds(conflicts)
  }

  function TxIds(ts: seq<PendingTx>): set<string> {
    set i | 0 <= i < |ts| :: ts[i].id
  }

  /** What each local transaction wrote, as its payload says. */
  function OwnWrittenFields(pending: seq<PendingTx>, local: set<string>): map<string, set<string>> {
    if pending == [] then map[]
    else
      var t := pending[|pending| - 1];
      var before := OwnWrittenFields(pending[..|pending| - 1], local);
      if t.id in local then before[t.id := t.payload.Keys] else before
  }

  /** A transaction is known exactly if it is pending and local. */
  lemma {:induction false} OwnWrittenExactly(pending: seq<PendingTx>, local: set<string>, id: string)
    ensures id in OwnWrittenFields(pending, local) <==>
              id in local && exists i :: 0 <= i < |pending| && pending[i].id == id
  {
    if pending != [] {
      var n := |pending| - 1;
      OwnWrittenExactly(pending[..n], local, id);
      assert forall i :: 0 <= i < n ==> pending[..n][i] == pending[i];
    }
  }

  /** And known with the fields of its payload, the last one's if an id is pending twice. */
  lemma {:induction false} OwnWrittenPayload(pending: seq<PendingTx>, local: set<string>, i: nat)
    requires i < |pending| && pending[i].id in local
    requires forall j :: i < j < |pending| ==> pending[j].id != pending[i].id
    ensures var written := OwnWrittenFields(pending, local);
            pending[i].id in written && written[pending[i].id] == pending[i].payload.Keys
  {
    if i < |pending| - 1 {
      OwnWrittenPayload(pending[..|pending| - 1], local, i);
    }
  }

  /** The packet carries the transaction's id, or a create of its model id that the transaction duplicates. */
  predicate IsConfirmed(t: PendingTx, actions: seq<SyncAction>) {
    exists i :: 0 <= i < |actions| &&
      (actions[i].clientTxId == Some(t.id)
       || (t.action.I? && actions[i].kind.I? && actions[i].modelId == t.target.id && actions[i].clientTxId.None?))
  }

  function Confirmed(pending: seq<PendingTx>, actions: seq<SyncAction>): set<string> {
    set i | 0 <= i < |pending| && IsConfirmed(pending[i], actions) :: pending[i].id
  }

  /** confirmFromActions: two passes over the actions, one over the outbox. */
  method ConfirmFromActions(pending: seq<PendingTx>, actions: seq<SyncAction>) returns (confirmed: set<string>)
    ensures confirmed == Confirmed(pending, actions)
  {
    var ids: set<string>, creates: map<string, (set<string>, bool)> := {}, map[];
    for i := 0 to |actions|
      invariant forall x :: x in ids <==> exists j :: 0 <= j < i && actions[j].clientTxId == Some(x)
    {
      if actions[i].clientTxId.Some? {
        ids := ids + {actions[i].clientTxId.value};
      }
    }
    for i := 0 to |actions|
      invariant forall m :: m in creates ==> forall x :: x in creates[m].0 ==> x in ids
      invariant forall m :: m in creates && creates[m].1 <==> LegacyCreate(actions[..i], m)
    {
      LegacySnoc(actions[..i], actions[i]);
      assert actions[..i + 1] == actions[..i] + [actions[i]];
      var a := actions[i];
      if a.kind.I? {
        var entry := if a.modelId in creates then creates[a.modelId] else ({}, false);
        creates := creates[a.modelId := if a.clientTxId.Some? then (entry.0 + {a.clientTxId.value}, entry.1)
                                        else (entry.0, true)];
      }
    }
    assert actions[..|actions|] == actions;
    confirmed := {};
    for i := 0 to |pending|
      invariant confirmed == Confirmed(pending[..i], actions)
    {
      var t := pending[i];
      ConfirmedSnoc(pending[..i], t, actions);
      assert pending[..i + 1] == pending[..i] + [t];
      ConfirmedMeans(t, actions);
      if t.id in ids
         || (t.action.I? && t.target.id in creates && (creates[t.target.id].1 || t.id in creates[t.target.id].0)) {
        confirmed := confirmed + {t.id};
      }
    }
    assert pending[..|pending|] == pending;
  }

  predicate LegacyCreate(actions: seq<SyncAction>, modelId: string) {
    exists i :: 0 <= i < |actions| && actions[i].kind.I? && actions[i].modelId == modelId && actions[i].clientTxId.None?
  }

  lemma LegacySnoc(actions: seq<SyncAction>, a: SyncAction)
    ensures forall m :: LegacyCreate(actions + [a], m)
                        <==> LegacyCreate(actions, m) || (a.kind.I? && a.modelId == m && a.clientTxId.None?)
  {
    var all := actions + [a];
    assert all[|actions|] == a && forall i :: 0 <= i < |actions| ==> all[i] == actions[i];
    forall m | LegacyCreate(actions, m) ensures LegacyCreate(all, m) {
      var i :| 0 <= i < |actions| && actions[i].kind.I? && actions[i].modelId == m && actions[i].clientTxId.None?;
      assert all[i] == actions[i];
    }
  }

  lemma ConfirmedMeans(t: PendingTx, actions: seq<SyncAction>)
    ensures IsConfirmed(t, actions)
            <==> (exists j :: 0 <= j < |actions| && actions[j].clientTxId == Some(t.id))
                 || (t.action.I? && LegacyCreate(actions, t.target.id))
  {
  }

  lemma ConfirmedSnoc(pending: seq<PendingTx>, t: PendingTx, actions: seq<SyncAction>)
    ensures Confirmed(pending + [t], actions)
            == Confirmed(pending, actions) + (if IsConfirmed(t, actions) then {t.id} else {})
  {
    var all := pending + [t];
    assert all[|pending|] == t;
    forall x | x in Confirmed(pending, actions) ensures x in Confirmed(all, actions) {
      var i :| 0 <= i < |pending| && IsConfirmed(pending[i], actions) && pending[i].id == x;
      assert all[i] == pending[i];
    }
  }

  /**
   * A create without a client transaction id confirms every pending insert of that model id,
   * whatever its model; only a create of the same model writes the insert's row.
   */
  lemma CreateOfAnotherModelConfirms(t: PendingTx, a: SyncAction, before: Option<Fields>, registry: Registry, now: int)
    requires t.action.I? && a.kind.I? && a.clientTxId.None? && a.modelId == t.target.id
    ensures IsConfirmed(t, [a])
    ensures RowOpBy(before, a, EntryOf(a, registry, now), t.target) != []
            <==> a.modelName == t.target.modelName && a.modelName in registry
  {
    assert [a][0] == a;
  }

  method BuildOwnClientTxIds(actions: seq<SyncAction>, local: set<string>, conflicts: seq<PendingTx>)
    returns (own: set<string>)
    ensures own == OwnClientTxIds(actions, local, conflicts)
    ensures forall x :: x in own <==>
              && x in local && (exists i :: 0 <= i < |actions| && actions[i].clientTxId == Some(x))
              && forall i :: 0 <= i < |conflicts| ==> conflicts[i].id != x
  {
    own := {};
    for i := 0 to |actions|
      invariant own == OwnClientTxIds(actions[..i], local, [])
    {
      if actions[i].clientTxId.Some? && actions[i].clientTxId.value in local {
        own := own + {actions[i].clientTxId.value};
      }
      OwnSnoc(actions[..i], actions[i], local);
      assert actions[..i + 1] == actions[..i] + [actions[i]];
    }
    assert actions[..|actions|] == actions;
    for i := 0 to |conflicts|
      invariant own == OwnClientTxIds(actions, local, conflicts[..i])
    {
      own := own - {conflicts[i].id};
      ConflictSnoc(conflicts[..i], conflicts[i]);
      assert conflicts[..i + 1] == conflicts[..i] + [conflicts[i]];
    }
    assert conflicts[..|conflicts|] == conflicts;
    OwnExactly(actions, local, conflicts);
  }

  lemma OwnExactly(actions: seq<SyncAction>, local: set<string>, conflicts: seq<PendingTx>)
    ensures forall x :: x in OwnClientTxIds(actions, local, conflicts) <==>
              && x in local && (exists i :: 0 <= i < |actions| && actions[i].clientTxId == Some(x))
              && forall i :: 0 <= i < |conflicts| ==> conflicts[i].id != x
  {
  }

  lemma OwnSnoc(actions: seq<SyncAction>, a: SyncAction, local: set<string>)
    ensures OwnClientTxIds(actions + [a], local, [])
            == OwnClientTxIds(actions, local, [])
               + (if a.clientTxId.Some? && a.clientTxId.value in local then {a.clientTxId.value} else {})
  {
    var all := actions + [a];
    assert all[|actions|] == a;
    forall x | x in OwnClientTxIds(actions, local, []) ensures x in OwnClientTxIds(all, local, []) {
      var i :| 0 <= i < |actions| && actions[i].clientTxId == Some(x);
      assert all[i] == actions[i];
    }
  }

  lemma ConflictSnoc(conflicts: seq<PendingTx>, t: PendingTx)
    ensures TxIds(conflicts + [t]) == TxIds(conflicts) + {t.id}
  {
    var all := conflicts + [t];
    assert all[|conflicts|] == t;
    forall x | x in TxIds(conflicts) ensures x in TxIds(all) {
      var i :| 0 <= i < |conflicts| && conflicts[i].id == x;
      assert all[i] == conflicts[i];
    }
  }

  method RecordOwnWrittenFields(pending: seq<PendingTx>, local: set<string>) returns (written: map<string, set<string>>)
    ensures written == OwnWrittenFields(pending, local)
  {
    written := map[];
    for i := 0 to |pending|
      invariant written == OwnWrittenFields(pending[..i], local)
    {
      assert pending[..i + 1][..i] == pending[..i];
      if pending[i].id in local {
        written := written[pending[i].id := pending[i].payload.Keys];
      }
    }
    assert pending[..|pending|] == pending;
  }
}
