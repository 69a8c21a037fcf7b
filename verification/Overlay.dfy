/**
 * The optimistic view: if every map row is its stored row overlaid with the outbox, it still is
 * after a delta packet, echo suppression and conflict rollback included.
 */
module Overlay {
  import opened Records
  import opened ServerLog
  import opened DeltaApplier
  import opened DeltaStaging
  import opened PendingReplay
  import opened OptimisticView

  /** What is known of one row: its fields, and the ones that identify it and never change. */
  datatype Schema = Schema(fields: set<string>, identity: Fields)

  predicate Shaped(schema: Schema, row: Option<Fields>) {
    row.Some? ==> row.value.Keys == schema.fields && Identified(schema, row.value)
                  && forall f :: f in schema.identity ==> f in row.value
  }

  /** Whatever these fields say about the row's identity is right. */
  predicate Identified(schema: Schema, fields: Fields) {
    forall f :: f in schema.identity && f in fields ==> fields[f] == schema.identity[f]
  }

  predicate ShapedPatch(schema: Schema, patch: Fields) {
    patch.Keys <= schema.fields && Identified(schema, patch)
  }

  predicate ShapedTx(schema: Schema, t: PendingTx) {
    && ShapedPatch(schema, TxEffect(t))
    && (t.action.I? ==> Shaped(schema, Some(t.payload)))
    && (t.original.Some? ==> ShapedPatch(schema, t.original.value) && (t.action.D? ==> Shaped(schema, t.original)))
    && ARCHIVED_AT in schema.fields && ARCHIVED_AT !in schema.identity
  }

  /** Inserts carry every field of the row, and no update changes its identity. */
  predicate ShapedEntry(schema: Schema, e: Entry, k: Key) {
    match e
    case Put(k', row) => k' == k ==> Shaped(schema, Some(row))
    case Patch(k', changes) => k' == k ==> ShapedPatch(schema, changes)
    case GroupChange(_) => false
    case _ => true
  }

  predicate ShapedPacket(schema: Schema, actions: seq<SyncAction>, registry: Registry, clock: seq<int>, k: Key)
    requires |clock| == |actions|
  {
    forall i :: 0 <= i < |actions| ==> ShapedEntry(schema, EntryOf(actions[i], registry, clock[i]), k)
  }

  lemma {:induction false} ReplayShaped(schema: Schema, row: Option<Fields>, ts: seq<PendingTx>)
    requires Shaped(schema, row) && forall i :: 0 <= i < |ts| ==> ShapedTx(schema, ts[i])
    ensures Shaped(schema, Replay(row, ts))
  {
    if ts != [] {
      ReplayShaped(schema, row, ts[..|ts| - 1]);
    }
  }

  lemma {:induction false} RollbackShaped(schema: Schema, row: Option<Fields>, ts: seq<PendingTx>)
    requires Shaped(schema, row) && forall i :: 0 <= i < |ts| ==> ShapedTx(schema, ts[i])
    ensures Shaped(schema, RollbackRows(row, ts))
  {
    if ts != [] {
      RollbackShaped(schema, row, ts[..|ts| - 1]);
    }
  }

  function RowAfter(storage: Table, actions: seq<SyncAction>, registry: Registry, clock: seq<int>,
                    k: Key): Option<Fields>
    requires |clock| == |actions|
  {
    Find(Fold(storage, Entries(actions, registry, clock)), k)
  }

  lemma RowSnoc(storage: Table, actions: seq<SyncAction>, registry: Registry, clock: seq<int>, k: Key)
    requires |clock| == |actions| && actions != []
    ensures var n := |actions| - 1;
            RowAfter(storage, actions, registry, clock, k)
            == Affect(RowAfter(storage, actions[..n], registry, clock[..n], k),
                      EntryEffect(EntryOf(actions[n], registry, clock[n]), k))
  {
    var n := |actions| - 1;
    var es := Entries(actions, registry, clock);
    assert es[..n] == Entries(actions[..n], registry, clock[..n]);
    ApplyByRow(Fold(storage, es[..n]), es[n], k);
  }

  /** Every operation on the row carries or removes a whole row, and the last one has the last word. */
  lemma {:induction false} LastOpStands(schema: Schema, storage: Table, actions: seq<SyncAction>, registry: Registry,
                                        clock: seq<int>, k: Key)
    requires |clock| == |actions| && Shaped(schema, Find(storage, k))
    requires ShapedPacket(schema, actions, registry, clock, k)
    ensures var ops := RowOps(storage, actions, registry, clock, k);
            var row := RowAfter(storage, actions, registry, clock, k);
            && Shaped(schema, row)
            && (forall i :: 0 <= i < |ops| && ops[i].op.MergeOp? ==> Shaped(schema, Some(ops[i].op.data)))
            && row == if ops == [] then Find(storage, k) else OpRow(ops[|ops| - 1].op)
  {
    hide EntryOf, RowOpBy, Affect, EntryEffect, ShapedEntry, Shaped;
    if actions != [] {
      var n := |actions| - 1;
      LastOpStands(schema, storage, actions[..n], registry, clock[..n], k);
      RowSnoc(storage, actions, registry, clock, k);
      var before := RowAfter(storage, actions[..n], registry, clock[..n], k);
      var e := EntryOf(actions[n], registry, clock[n]);
      OneStepStands(schema, before, actions[n], e, k);
    }
  }

  lemma OneStepStands(schema: Schema, before: Option<Fields>, a: SyncAction, e: Entry, k: Key)
    requires Shaped(schema, before) && ShapedEntry(schema, e, k)
    ensures var ops := RowOpBy(before, a, e, k);
            var row := Affect(before, EntryEffect(e, k));
            && Shaped(schema, row)
            && |ops| <= 1
            && (ops == [] ==> row == before)
            && (ops != [] ==> row == OpRow(ops[0].op) && (ops[0].op.MergeOp? ==> Shaped(schema, Some(ops[0].op.data))))
  {
    if before.Some? {
      assert before.value + map[] == before.value;
    }
  }

  function OpRow(op: DeferredOp): Option<Fields> {
    if op.MergeOp? then Some(op.data) else None
  }

  // ---- rows the packet writes

  /** Once an operation has written the slot, the slot is what the operations say. */
  lemma {:induction false} WrittenSlot(schema: Schema, row: Option<Fields>, ops: seq<DeferredOp>, own: set<string>,
                                       written: map<string, set<string>>)
    requires Shaped(schema, row)
    requires forall i :: 0 <= i < |ops| && ops[i].MergeOp? ==> Shaped(schema, Some(ops[i].data))
    ensures var slot := SlotAfter(row, ops, own, written);
            && Shaped(schema, slot.row)
            && (slot.written ==> ops != [] && slot.row == OpRow(ops[|ops| - 1]))
  {
    if ops != [] {
      var n := |ops| - 1;
      WrittenSlot(schema, row, ops[..n], own, written);
      var before := SlotAfter(row, ops[..n], own, written);
      WrittenStep(schema, before, ops[n], own, written);
    }
  }

  lemma WrittenStep(schema: Schema, before: Slot, op: DeferredOp, own: set<string>, written: map<string, set<string>>)
    requires Shaped(schema, before.row) && (op.MergeOp? ==> Shaped(schema, Some(op.data)))
    ensures var slot := SlotStep(before, op, own, written);
            && Shaped(schema, slot.row)
            && (slot.written ==> slot.row == OpRow(op))
  {
    if op.MergeOp? && before.row.Some? {
      assert before.row.value + op.data == op.data;
      DerivedShaped(schema, op, written);
    }
  }

  lemma DerivedShaped(schema: Schema, op: DeferredOp, written: map<string, set<string>>)
    requires op.MergeOp? && Shaped(schema, Some(op.data))
    ensures ShapedPatch(schema, ServerDerivedFields(op, written))
  {
  }

  // ---- rows the packet touches only through own echoes

  predicate OwnOnly(ops: seq<RowOp>, own: set<string>) {
    forall i :: 0 <= i < |ops| ==> OwnMerge(ops[i].op, own)
  }

  function Derived(ops: seq<RowOp>, written: map<string, set<string>>): (ds: seq<Fields>)
    ensures |ds| == |ops|
  {
    seq(|ops|, i requires 0 <= i < |ops| => ServerDerivedFields(ops[i].op, written))
  }

  function Changes(ops: seq<RowOp>): (cs: seq<Fields>)
    ensures |cs| == |ops|
  {
    seq(|ops|, i requires 0 <= i < |ops| => ops[i].changes)
  }

  /** A slot no operation wrote: every operation was an own echo, and only derived fields came in. */
  lemma {:induction false} UnwrittenSlot(row: Option<Fields>, ops: seq<RowOp>, own: set<string>,
                                         written: map<string, set<string>>)
    requires !SlotAfter(row, OpsOf(ops), own, written).written
    ensures OwnOnly(ops, own)
    ensures ops != [] ==> row.Some?
    ensures SlotAfter(row, OpsOf(ops), own, written).row
            == if row.Some? then Some(MergeAll(row.value, Derived(ops, written))) else None
  {
    if ops != [] {
      var n := |ops| - 1;
      assert OpsOf(ops)[..n] == OpsOf(ops[..n]);
      UnwrittenSlot(row, ops[..n], own, written);
      assert forall i :: 0 <= i < n ==> ops[..n][i] == ops[i];
      assert Derived(ops, written)[..n] == Derived(ops[..n], written);
    }
  }

  /**
   * Echo suppression, exactly: the packet writes the row as a whole unless all its operations on it are
   * merges that echo own transactions, and the row is there to keep.
   */
  lemma {:induction false} SuppressedExactly(row: Option<Fields>, ops: seq<RowOp>, own: set<string>,
                                             written: map<string, set<string>>)
    ensures SlotAfter(row, OpsOf(ops), own, written).written
            <==> ops != [] && !(row.Some? && forall i :: 0 <= i < |ops| ==>
                                  ops[i].op.MergeOp? && exists id :: id in own && ops[i].op.clientTxId == Some(id))
    ensures !SlotAfter(row, OpsOf(ops), own, written).written && row.Some?
            ==> SlotAfter(row, OpsOf(ops), own, written).row.Some?
  {
    if ops != [] {
      var n := |ops| - 1;
      assert OpsOf(ops)[..n] == OpsOf(ops[..n]);
      SuppressedExactly(row, ops[..n], own, written);
      assert forall i :: 0 <= i < n ==> ops[..n][i] == ops[i];
    }
  }

  predicate AllMerges(ops: seq<RowOp>) {
    forall i :: 0 <= i < |ops| ==> ops[i].op.MergeOp?
  }

  /** The row is the merge of these changes onto what was stored, and they start it if nothing was. */
  predicate MergedFrom(schema: Schema, stored: Option<Fields>, ops: seq<RowOp>, row: Option<Fields>) {
    && (forall i :: 0 <= i < |ops| ==> ShapedPatch(schema, ops[i].changes))
    && (ops != [] && stored.None? ==> ops[0].kind.I? && Shaped(schema, Some(ops[0].changes)))
    && row == if stored.None? && ops == [] then None
              else Some(MergeAll(if stored.Some? then stored.value else map[], Changes(ops)))
  }

  lemma ChangesSnoc(base: Fields, ops: seq<RowOp>, op: RowOp)
    ensures MergeAll(base, Changes(ops + [op])) == MergeAll(base, Changes(ops)) + op.changes
    ensures MergeAll(base, Changes([])) == base
  {
    assert Changes(ops + [op]) == Changes(ops) + [op.changes];
    assert (Changes(ops) + [op.changes])[..|ops|] == Changes(ops);
  }

  lemma MergedSnoc(schema: Schema, stored: Option<Fields>, ops: seq<RowOp>, row: Option<Fields>, op: RowOp)
    requires MergedFrom(schema, stored, ops, row) && ShapedPatch(schema, op.changes)
    requires row.None? ==> op.kind.I? && Shaped(schema, Some(op.changes))
    ensures MergedFrom(schema, stored, ops + [op],
                       Some((if row.Some? then row.value else map[]) + op.changes))
  {
    hide ShapedPatch, Shaped, MergeAll, Changes;
    var base := if stored.Some? then stored.value else map[];
    ChangesSnoc(base, ops, op);
    assert row.None? ==> ops == [];
    forall i | 0 <= i < |ops + [op]| ensures ShapedPatch(schema, (ops + [op])[i].changes) {
      assert i < |ops| ==> (ops + [op])[i] == ops[i];
    }
  }

  /** What one more action does to a merged row. */
  lemma StoredSnoc(schema: Schema, stored: Option<Fields>, earlier: seq<RowOp>, before: Option<Fields>,
                   mine: seq<RowOp>, after: Option<Fields>)
    requires MergedFrom(schema, stored, earlier, before)
    requires MergeStepped(schema, before, mine, after)
    ensures MergedFrom(schema, stored, earlier + mine, after)
  {
    hide ShapedPatch, Shaped, MergedFrom;
    if mine == [] {
      assert earlier + mine == earlier;
    } else {
      assert mine == [mine[0]];
      MergedSnoc(schema, stored, earlier, before, mine[0]);
    }
  }

  predicate MergeStepped(schema: Schema, before: Option<Fields>, ops: seq<RowOp>, after: Option<Fields>) {
    if ops == [] then after == before
    else |ops| == 1 && after == Some((if before.Some? then before.value else map[]) + ops[0].changes)
         && ShapedPatch(schema, ops[0].changes)
         && (before.None? ==> ops[0].kind.I? && Shaped(schema, Some(ops[0].changes)))
  }

  lemma MergesSplit(earlier: seq<RowOp>, mine: seq<RowOp>)
    requires AllMerges(earlier + mine)
    ensures AllMerges(earlier) && AllMerges(mine)
  {
    assert forall i :: 0 <= i < |earlier| ==> (earlier + mine)[i] == earlier[i];
    assert forall i :: 0 <= i < |mine| ==> (earlier + mine)[|earlier| + i] == mine[i];
  }

  /** When no operation removes the row, the stored row ends as the merge of all the changes. */
  lemma {:induction false} StoredIsMerge(schema: Schema, storage: Table, actions: seq<SyncAction>, registry: Registry,
                                         clock: seq<int>, k: Key)
    requires |clock| == |actions| && Shaped(schema, Find(storage, k))
    requires ShapedPacket(schema, actions, registry, clock, k)
    requires AllMerges(RowOps(storage, actions, registry, clock, k))
    ensures MergedFrom(schema, Find(storage, k), RowOps(storage, actions, registry, clock, k),
                       RowAfter(storage, actions, registry, clock, k))
  {
    hide EntryOf, RowOpBy, Affect, EntryEffect, Shaped, ShapedPatch, MergedFrom, ShapedEntry, AllMerges, MergeStepped;
    if actions == [] {
      MergedNothing(schema, Find(storage, k));
    } else {
      var n := |actions| - 1;
      var earlier := RowOps(storage, actions[..n], registry, clock[..n], k);
      var before := RowAfter(storage, actions[..n], registry, clock[..n], k);
      var mine := RowOpBy(before, actions[n], EntryOf(actions[n], registry, clock[n]), k);
      MergesSplit(earlier, mine);
      StoredIsMerge(schema, storage, actions[..n], registry, clock[..n], k);
      LastOpStands(schema, storage, actions[..n], registry, clock[..n], k);
      RowSnoc(storage, actions, registry, clock, k);
      MergeStep(schema, before, actions[n], registry, clock[n], k);
      StoredSnoc(schema, Find(storage, k), earlier, before, mine, RowAfter(storage, actions, registry, clock, k));
    }
  }

  lemma MergedNothing(schema: Schema, stored: Option<Fields>)
    ensures MergedFrom(schema, stored, [], stored)
  {
  }

  lemma MergeStep(schema: Schema, before: Option<Fields>, a: SyncAction, registry: Registry, now: int, k: Key)
    requires Shaped(schema, before) && ShapedEntry(schema, EntryOf(a, registry, now), k)
    requires AllMerges(RowOpBy(before, a, EntryOf(a, registry, now), k))
    ensures var e := EntryOf(a, registry, now);
            MergeStepped(schema, before, RowOpBy(before, a, e, k), Affect(before, EntryEffect(e, k)))
  {
    if before.Some? {
      assert before.value + map[] == before.value;
    }
    var e := EntryOf(a, registry, now);
    if e.Put? && e.key == k {
      assert (if before.Some? then before.value else map[]) + e.row == e.row;
    }
  }

  /** The transactions that leave the outbox with this packet, and those that stay. */
  function Leaving(ts: seq<PendingTx>, gone: set<string>): seq<PendingTx> {
    if ts == [] then []
    else Leaving(ts[..|ts| - 1], gone) + (if ts[|ts| - 1].id in gone then [ts[|ts| - 1]] else [])
  }

  function Remaining(ts: seq<PendingTx>, gone: set<string>): seq<PendingTx> {
    if ts == [] then []
    else Remaining(ts[..|ts| - 1], gone) + (if ts[|ts| - 1].id in gone then [] else [ts[|ts| - 1]])
  }

  /** The echo of t: same action, and it agrees with t on every field t wrote. */
  predicate EchoOf(t: PendingTx, op: RowOp, written: map<string, set<string>>) {
    && op.op.MergeOp? && op.op.clientTxId == Some(t.id) && op.kind == t.action
    && (forall f :: f in TxEffect(t) ==> f in op.changes && op.changes[f] == TxEffect(t)[f])
    && t.id in written && written[t.id] == t.payload.Keys
  }

  /** The operations are the echoes of `leaving`, in order. */
  predicate EchoesMatch(leaving: seq<PendingTx>, ops: seq<RowOp>, written: map<string, set<string>>) {
    |leaving| == |ops| && forall i :: 0 <= i < |ops| ==> EchoOf(leaving[i], ops[i], written)
  }

  /** Either no echo derives f, or the last value derived is the last value the operations give it. */
  predicate DerivesLast(ops: seq<RowOp>, written: map<string, set<string>>, f: string) {
    var derived := LastWrite(Derived(ops, written), f);
    derived.None? || derived == LastWrite(Changes(ops), f)
  }

  /**
   * What the leaving transactions, then the derived fields, make of f is what the echoes make of it
   * in storage, whatever order they come in and whether or not each has its transaction here.
   */
  predicate FieldStands(base: Fields, leaving: seq<PendingTx>, ops: seq<RowOp>, written: map<string, set<string>>,
                        f: string)
  {
    Or(LastWrite(Derived(ops, written), f), Or(LastWrite(Effects(leaving), f), ValueOf(base, f)))
    == Or(LastWrite(Changes(ops), f), ValueOf(base, f))
  }

  /** So it is for every field that nothing left in the outbox overwrites. */
  ghost predicate FieldsStand(schema: Schema, stored: Option<Fields>, ops: seq<RowOp>, ts: seq<PendingTx>,
                              gone: set<string>, written: map<string, set<string>>)
  {
    Deletes(Remaining(ts, gone))
    || forall f :: f !in schema.identity && LastWrite(Effects(Remaining(ts, gone)), f).None? ==>
         FieldStands(BaseOf(stored), Leaving(ts, gone), ops, written, f)
  }

  function BaseOf(stored: Option<Fields>): Fields {
    if stored.Some? then stored.value else map[]
  }

  /** No delete leaves the outbox, and a row that storage did not have is inserted by what leaves. */
  predicate Settles(stored: Option<Fields>, ops: seq<RowOp>, ts: seq<PendingTx>, gone: set<string>) {
    && !Deletes(Leaving(ts, gone))
    && (stored.None? && !Deletes(Remaining(ts, gone)) ==>
          if ops == [] then Leaving(ts, gone) == [] else !Inserts(Remaining(ts, gone)))
  }

  /** The identity fields cover the primary key and the field named id. */
  predicate Identifies(schema: Schema, registry: Registry, k: Key) {
    && k.modelName in registry && registry[k.modelName] in schema.identity
    && ("id" in schema.fields ==> "id" in schema.identity)
    && schema.identity.Keys <= schema.fields
  }

  /** An operation writes what its action names, the key, and the archive flag of an archive action. */
  predicate OpFields(registry: Registry, k: Key, op: RowOp) {
    op.op.MergeOp? ==>
      !op.kind.D? && op.op.actionFields <= op.changes.Keys &&
      forall f :: f in op.changes ==>
        && f in op.op.data && op.op.data[f] == op.changes[f]
        && (f in op.op.actionFields || (k.modelName in registry && f == registry[k.modelName])
            || ((op.kind.A? || op.kind.V?) && f == ARCHIVED_AT))
  }

  lemma {:induction false} RowOpFields(storage: Table, actions: seq<SyncAction>, registry: Registry, clock: seq<int>,
                                       k: Key)
    requires |clock| == |actions|
    ensures forall i :: 0 <= i < |RowOps(storage, actions, registry, clock, k)|
                        ==> OpFields(registry, k, RowOps(storage, actions, registry, clock, k)[i])
  {
    if actions != [] {
      hide OpFields, Fold, RowOpBy, EntryOf;
      var n := |actions| - 1;
      RowOpFields(storage, actions[..n], registry, clock[..n], k);
      OneOpFields(RowAfter(storage, actions[..n], registry, clock[..n], k), actions[n], registry, clock[n], k);
    }
  }

  lemma OneOpFields(before: Option<Fields>, a: SyncAction, registry: Registry, now: int, k: Key)
    ensures forall i :: 0 <= i < |RowOpBy(before, a, EntryOf(a, registry, now), k)|
                        ==> OpFields(registry, k, RowOpBy(before, a, EntryOf(a, registry, now), k)[i])
  {
  }

  /**
   * A field an own echo changes is derived by the server, written by its transaction, or part of
   * the identity; and what it leaves alone, neither of them touches.
   */
  lemma EchoFields(schema: Schema, registry: Registry, k: Key, t: PendingTx, op: RowOp,
                   written: map<string, set<string>>, f: string)
    requires Identifies(schema, registry, k) && OpFields(registry, k, op) && EchoOf(t, op, written)
    requires ShapedPatch(schema, op.changes) && f !in schema.identity
    ensures var derived := ServerDerivedFields(op.op, written);
            && (f in derived ==> f in op.changes && derived[f] == op.changes[f])
            && (f in TxEffect(t) ==> f in op.changes && TxEffect(t)[f] == op.changes[f])
            && (f in op.changes ==> f in derived || f in TxEffect(t))
  {
  }

  lemma LastEffect(ts: seq<PendingTx>, t: PendingTx, f: string)
    ensures LastWrite(Effects(ts + [t]), f)
            == if f in TxEffect(t) then Some(TxEffect(t)[f]) else LastWrite(Effects(ts), f)
  {
    assert Effects(ts + [t])[..|ts|] == Effects(ts);
  }

  /**
   * The last write of the leaving transactions, then of the fields the server derived, is that of
   * their echoes exactly if the last derived value is.
   */
  lemma {:induction false} EchoLastWrite(schema: Schema, registry: Registry, k: Key, leaving: seq<PendingTx>,
                                         ops: seq<RowOp>, written: map<string, set<string>>, f: string)
    requires EchoesMatch(leaving, ops, written) && Identifies(schema, registry, k) && f !in schema.identity
    requires forall i :: 0 <= i < |ops| ==> OpFields(registry, k, ops[i]) && ShapedPatch(schema, ops[i].changes)
    ensures Or(LastWrite(Derived(ops, written), f), LastWrite(Effects(leaving), f)) == LastWrite(Changes(ops), f)
            <==> DerivesLast(ops, written, f)
    ensures LastWrite(Derived(ops, written), f).Some? ==> LastWrite(Changes(ops), f).Some?
  {
    hide OpFields, ShapedPatch, Identifies, ServerDerivedFields, TxEffect, EchoOf, Derived, Changes, Effects, LastWrite;
    if ops == [] {
      NothingWritten(leaving, ops, written, f);
    } else {
      var n := |ops| - 1;
      EchoLastWrite(schema, registry, k, leaving[..n], ops[..n], written, f);
      assert leaving == leaving[..n] + [leaving[n]];
      LastDerived(ops, written, f);
      LastChange(ops, f);
      LastEffect(leaving[..n], leaving[n], f);
      EchoFields(schema, registry, k, leaving[n], ops[n], written, f);
    }
  }

  /** With the echoes in outbox order, a field stands exactly if the last derived value is the last written. */
  lemma EchoesStand(schema: Schema, registry: Registry, k: Key, base: Fields, leaving: seq<PendingTx>, ops: seq<RowOp>,
                    written: map<string, set<string>>, f: string)
    requires EchoesMatch(leaving, ops, written) && Identifies(schema, registry, k) && f !in schema.identity
    requires forall i :: 0 <= i < |ops| ==> OpFields(registry, k, ops[i]) && ShapedPatch(schema, ops[i].changes)
    ensures FieldStands(base, leaving, ops, written, f) <==> DerivesLast(ops, written, f)
  {
    EchoLastWrite(schema, registry, k, leaving, ops, written, f);
  }

  /** Such echoes settle: no delete is echoed by a merge, and an echoed insert is the only one. */
  lemma EchoesSettle(schema: Schema, registry: Registry, k: Key, stored: Option<Fields>, row: Option<Fields>,
                     ops: seq<RowOp>, ts: seq<PendingTx>, gone: set<string>, written: map<string, set<string>>)
    requires WellFormed(stored, ts) && EchoesMatch(Leaving(ts, gone), ops, written)
             && MergedFrom(schema, stored, ops, row)
    requires forall i :: 0 <= i < |ops| ==> OpFields(registry, k, ops[i])
    ensures Settles(stored, ops, ts, gone)
  {
    var leaving := Leaving(ts, gone);
    forall i | 0 <= i < |leaving| ensures !leaving[i].action.D? {
      assert EchoOf(leaving[i], ops[i], written);
    }
    if !Deletes(Remaining(ts, gone)) && ops != [] {
      NoDeleteHere(ts, gone);
      NoInsertStays(schema, stored, row, ops, ts, gone, written);
    }
  }

  lemma NothingWritten(ts: seq<PendingTx>, ops: seq<RowOp>, written: map<string, set<string>>, f: string)
    requires ts == [] && ops == []
    ensures LastWrite(Derived(ops, written), f) == LastWrite(Effects(ts), f) == LastWrite(Changes(ops), f) == None
  {
  }

  lemma LastDerived(ops: seq<RowOp>, written: map<string, set<string>>, f: string)
    requires ops != []
    ensures var n := |ops| - 1;
            var d := ServerDerivedFields(ops[n].op, written);
            LastWrite(Derived(ops, written), f)
              == if f in d then Some(d[f]) else LastWrite(Derived(ops[..n], written), f)
  {
    hide ServerDerivedFields;
    assert Derived(ops, written)[..|ops| - 1] == Derived(ops[..|ops| - 1], written);
  }

  lemma LastChange(ops: seq<RowOp>, f: string)
    requires ops != []
    ensures var n := |ops| - 1;
            LastWrite(Changes(ops), f)
              == if f in ops[n].changes then Some(ops[n].changes[f]) else LastWrite(Changes(ops[..n]), f)
  {
    assert Changes(ops)[..|ops| - 1] == Changes(ops[..|ops| - 1]);
  }

  /** If nothing that stays writes the field, its last writer is among the leaving. */
  lemma {:induction false} LeavingWrites(ts: seq<PendingTx>, gone: set<string>, f: string)
    requires LastWrite(Effects(Remaining(ts, gone)), f).None?
    ensures LastWrite(Effects(ts), f) == LastWrite(Effects(Leaving(ts, gone)), f)
  {
    hide TxEffect, Effects, LastWrite;
    if ts != [] {
      var n := |ts| - 1;
      assert ts == ts[..n] + [ts[n]];
      var l, r := Leaving(ts[..n], gone), Remaining(ts[..n], gone);
      assert l + [] == l && r + [] == r;
      LastEffect(ts[..n], ts[n], f);
      LastEffect(l, ts[n], f);
      LastEffect(r, ts[n], f);
      LeavingWrites(ts[..n], gone, f);
    } else {
      assert Leaving(ts, gone) == ts;
    }
  }

  /** The outbox is split in two, each part in outbox order. */
  lemma {:induction false} LeavingExactly(ts: seq<PendingTx>, gone: set<string>) returns (places: seq<nat>)
    ensures Picks(ts, places, Leaving(ts, gone))
    ensures forall i :: 0 <= i < |ts| ==> (i in places <==> ts[i].id in gone)
  {
    if ts == [] {
      places := [];
    } else {
      var n := |ts| - 1;
      assert ts == ts[..n] + [ts[n]];
      var earlier := LeavingExactly(ts[..n], gone);
      PickMore(ts[..n], earlier, Leaving(ts[..n], gone), ts[n]);
      assert Leaving(ts[..n], gone) + [] == Leaving(ts[..n], gone);
      places := if ts[n].id in gone then earlier + [n] else earlier;
    }
  }

  lemma {:induction false} RemainingExactly(ts: seq<PendingTx>, gone: set<string>) returns (places: seq<nat>)
    ensures Picks(ts, places, Remaining(ts, gone))
    ensures forall i :: 0 <= i < |ts| ==> (i in places <==> ts[i].id !in gone)
  {
    if ts == [] {
      places := [];
    } else {
      var n := |ts| - 1;
      assert ts == ts[..n] + [ts[n]];
      var earlier := RemainingExactly(ts[..n], gone);
      PickMore(ts[..n], earlier, Remaining(ts[..n], gone), ts[n]);
      assert Remaining(ts[..n], gone) + [] == Remaining(ts[..n], gone);
      places := if ts[n].id in gone then earlier else earlier + [n];
    }
  }

  lemma {:induction false} Partition(ts: seq<PendingTx>, gone: set<string>)
    ensures forall t :: t in Leaving(ts, gone) <==> t in ts && t.id in gone
    ensures forall t :: t in Remaining(ts, gone) <==> t in ts && t.id !in gone
  {
    if ts != [] {
      Partition(ts[..|ts| - 1], gone);
      assert ts == ts[..|ts| - 1] + [ts[|ts| - 1]];
    }
  }

  /** If the stored row started with an echoed insert, no insert stays in the outbox. */
  lemma NoInsertStays(schema: Schema, stored: Option<Fields>, row: Option<Fields>, ops: seq<RowOp>, ts: seq<PendingTx>,
                      gone: set<string>, written: map<string, set<string>>)
    requires WellFormed(stored, ts) && !Deletes(ts) && ops != []
    requires MergedFrom(schema, stored, ops, row) && EchoesMatch(Leaving(ts, gone), ops, written)
    ensures !Inserts(Remaining(ts, gone))
  {
    InsertComesFirst(stored, ts);
    Partition(ts, gone);
    var leaving := Leaving(ts, gone);
    assert leaving[0] in leaving && EchoOf(leaving[0], ops[0], written);
    forall t | t in Remaining(ts, gone) ensures !t.action.I? {
      var i :| 0 <= i < |ts| && ts[i] == t;
      assert i > 0 ==> ts[1..][i - 1] == t;
      var j :| 0 <= j < |ts| && ts[j] == leaving[0];
      assert j > 0 ==> ts[1..][j - 1] == leaving[0];
    }
  }

  lemma NoDeleteHere(ts: seq<PendingTx>, gone: set<string>)
    requires !Deletes(Leaving(ts, gone)) && !Deletes(Remaining(ts, gone))
    ensures !Deletes(ts)
  {
    Partition(ts, gone);
    var leaving, rest := Leaving(ts, gone), Remaining(ts, gone);
    forall i | 0 <= i < |ts| ensures !ts[i].action.D? {
      if ts[i].id in gone {
        assert ts[i] in leaving;
        var j :| 0 <= j < |leaving| && leaving[j] == ts[i];
      } else {
        assert ts[i] in rest;
        var j :| 0 <= j < |rest| && rest[j] == ts[i];
      }
    }
  }

  /** A stored row has no insert pending unless it is deleted first. */
  lemma NoInsertHere(stored: Option<Fields>, ts: seq<PendingTx>, gone: set<string>)
    requires stored.Some? && WellFormed(stored, ts) && !Deletes(ts)
    ensures !Inserts(Remaining(ts, gone))
  {
    InsertComesFirst(stored, ts);
    Partition(ts, gone);
    forall t | t in Remaining(ts, gone) ensures !t.action.I? {
      var i :| 0 <= i < |ts| && ts[i] == t;
    }
  }

  /**
   * Field by field, the view with derived fields and the stored row agree exactly where something
   * left in the outbox writes or the field stands.
   */
  lemma ViewField(base: Fields, ops: seq<RowOp>, ts: seq<PendingTx>, gone: set<string>,
                  written: map<string, set<string>>, f: string)
    ensures var rest := Effects(Remaining(ts, gone));
            ValueOf(MergeAll(MergeAll(MergeAll(base, Effects(ts)), Derived(ops, written)), rest), f)
            == ValueOf(MergeAll(MergeAll(base, Changes(ops)), rest), f)
            <==> LastWrite(rest, f).Some? || FieldStands(base, Leaving(ts, gone), ops, written, f)
  {
    hide MergeAll, LastWrite;
    var rest := Effects(Remaining(ts, gone));
    var view := MergeAll(base, Effects(ts));
    MergeAllByField(MergeAll(view, Derived(ops, written)), rest, f);
    MergeAllByField(view, Derived(ops, written), f);
    MergeAllByField(base, Effects(ts), f);
    MergeAllByField(MergeAll(base, Changes(ops)), rest, f);
    MergeAllByField(base, Changes(ops), f);
    if LastWrite(rest, f).None? {
      LeavingWrites(ts, gone, f);
    }
  }

  /** The row a packet touches only through own echoes, or not at all. */
  lemma EchoedRow(schema: Schema, stored: Option<Fields>, row: Option<Fields>, ops: seq<RowOp>, ts: seq<PendingTx>,
                  gone: set<string>, written: map<string, set<string>>)
    requires MergedFrom(schema, stored, ops, row) && Shaped(schema, row) && row.Some?
    requires WellFormed(stored, ts) && Replay(stored, ts).Some?
    requires forall i :: 0 <= i < |ts| ==> ShapedTx(schema, ts[i])
    requires Settles(stored, ops, ts, gone)
    requires Shaped(schema, Some(MergeAll(Replay(stored, ts).value, Derived(ops, written))))
    ensures Replay(Some(MergeAll(Replay(stored, ts).value, Derived(ops, written))), Remaining(ts, gone))
            == Replay(row, Remaining(ts, gone))
            <==> FieldsStand(schema, stored, ops, ts, gone, written)
  {
    hide ShapedTx, MergeAll, Replay, WellFormed, Deletes, Inserts, ShapedPatch, FieldStands;
    var rest := Remaining(ts, gone);
    var view := MergeAll(Replay(stored, ts).value, Derived(ops, written));
    if Deletes(rest) {
      DeleteForgets(Some(view), row, rest);
    } else {
      NoDeleteHere(ts, gone);
      if stored.Some? {
        NoInsertHere(stored, ts, gone);
      }
      SomethingPending(stored, ts);
      ReplayIsMerge(stored, ts);
      ReplayMerges(view, rest);
      ReplayMerges(row.value, rest);
      RestShaped(schema, view, row.value, ts, gone);
      MergedAgree(schema, stored, row.value, ops, ts, gone, written);
    }
  }

  lemma SomethingPending(stored: Option<Fields>, ts: seq<PendingTx>)
    requires Replay(stored, ts).Some?
    ensures stored.Some? || ts != []
  {
  }

  lemma RestShaped(schema: Schema, view: Fields, row: Fields, ts: seq<PendingTx>, gone: set<string>)
    requires forall i :: 0 <= i < |ts| ==> ShapedTx(schema, ts[i])
    requires Shaped(schema, Some(view)) && Shaped(schema, Some(row))
    ensures Shaped(schema, Replay(Some(view), Remaining(ts, gone)))
            && Shaped(schema, Replay(Some(row), Remaining(ts, gone)))
  {
    Partition(ts, gone);
    ReplayShaped(schema, Some(view), Remaining(ts, gone));
    ReplayShaped(schema, Some(row), Remaining(ts, gone));
  }

  /** Two merges of the same shape agree exactly if they agree on every field outside the identity. */
  lemma MergedAgree(schema: Schema, stored: Option<Fields>, row: Fields, ops: seq<RowOp>, ts: seq<PendingTx>,
                    gone: set<string>, written: map<string, set<string>>)
    requires row == MergeAll(BaseOf(stored), Changes(ops)) && !Deletes(Remaining(ts, gone))
    requires var view := MergeAll(MergeAll(BaseOf(stored), Effects(ts)), Derived(ops, written));
             && Shaped(schema, Some(MergeAll(view, Effects(Remaining(ts, gone)))))
             && Shaped(schema, Some(MergeAll(row, Effects(Remaining(ts, gone)))))
    ensures MergeAll(MergeAll(MergeAll(BaseOf(stored), Effects(ts)), Derived(ops, written)),
                     Effects(Remaining(ts, gone)))
            == MergeAll(row, Effects(Remaining(ts, gone)))
            <==> FieldsStand(schema, stored, ops, ts, gone, written)
  {
    hide MergeAll, FieldStands, LastWrite, Deletes;
    var rest := Effects(Remaining(ts, gone));
    var a := MergeAll(MergeAll(MergeAll(BaseOf(stored), Effects(ts)), Derived(ops, written)), rest);
    var b := MergeAll(row, rest);
    forall f ensures ValueOf(a, f) == ValueOf(b, f)
                     <==> f in schema.identity || LastWrite(rest, f).Some?
                          || FieldStands(BaseOf(stored), Leaving(ts, gone), ops, written, f) {
      ViewField(BaseOf(stored), ops, ts, gone, written, f);
    }
    if FieldsStand(schema, stored, ops, ts, gone, written) {
      FieldsAgree(a, b);
    }
  }

  /** What the theorem asks of one row and of the packet's effect on it. */
  ghost predicate RowReady(schema: Schema, registry: Registry, storage: Table, actions: seq<SyncAction>,
                           clock: seq<int>, pending: seq<PendingTx>, conflicts: seq<PendingTx>, gone: set<string>,
                           own: set<string>, written: map<string, set<string>>, k: Key)
    requires |clock| == |actions|
  {
    && Identifies(schema, registry, k)
    && Shaped(schema, Find(storage, k)) && ShapedPacket(schema, actions, registry, clock, k)
    && WellFormed(Find(storage, k), On(pending, k))
    && (forall i :: 0 <= i < |On(pending, k)| ==> ShapedTx(schema, On(pending, k)[i]))
    && (forall i :: 0 <= i < |On(conflicts, k)| ==> ShapedTx(schema, On(conflicts, k)[i]))
    && var ops := RowOps(storage, actions, registry, clock, k);
       OwnOnly(ops, own) ==> On(conflicts, k) == [] && Settles(Find(storage, k), ops, On(pending, k), gone)
  }

  /** The packet writes the row as a whole, or its fields stand. */
  ghost predicate RowStands(schema: Schema, registry: Registry, storage: Table, actions: seq<SyncAction>,
                            clock: seq<int>, pending: seq<PendingTx>, conflicts: seq<PendingTx>, gone: set<string>,
                            own: set<string>, written: map<string, set<string>>, k: Key)
    requires |clock| == |actions|
  {
    var ops := RowOps(storage, actions, registry, clock, k);
    var before := Replay(Find(storage, k), On(pending, k));
    || SlotAfter(RollbackRows(before, On(conflicts, k)), OpsOf(ops), own, written).written
    || FieldsStand(schema, Find(storage, k), ops, On(pending, k), gone, written)
  }

  /** The optimistic view of one row survives the packet exactly if the row stands. */
  lemma RowOverlay(schema: Schema, registry: Registry, storage: Table, actions: seq<SyncAction>, clock: seq<int>,
                   pending: seq<PendingTx>, conflicts: seq<PendingTx>, gone: set<string>, own: set<string>,
                   written: map<string, set<string>>, k: Key)
    requires |clock| == |actions|
    requires RowReady(schema, registry, storage, actions, clock, pending, conflicts, gone, own, written, k)
    ensures var before := Replay(Find(storage, k), On(pending, k));
            var ops := RowOps(storage, actions, registry, clock, k);
            var stays := Remaining(On(pending, k), gone);
            Replay(SlotAfter(RollbackRows(before, On(conflicts, k)), OpsOf(ops), own, written).row, stays)
            == Replay(RowAfter(storage, actions, registry, clock, k), stays)
            <==> RowStands(schema, registry, storage, actions, clock, pending, conflicts, gone, own, written, k)
  {
    hide Identifies, Settles, ShapedTx, MergeAll, Replay, WellFormed, ShapedPatch, RollbackRows, SlotAfter,
         ShapedPacket, Fold;
    var stored, ts := Find(storage, k), On(pending, k);
    var before := Replay(stored, ts);
    var start := RollbackRows(before, On(conflicts, k));
    var ops := RowOps(storage, actions, registry, clock, k);
    var row := RowAfter(storage, actions, registry, clock, k);
    LastOpStands(schema, storage, actions, registry, clock, k);
    ReplayShaped(schema, stored, ts);
    RollbackShaped(schema, before, On(conflicts, k));
    WrittenSlot(schema, start, OpsOf(ops), own, written);
    if !SlotAfter(start, OpsOf(ops), own, written).written {
      UnwrittenSlot(start, ops, own, written);
      NoRollback(before, On(conflicts, k));
      OwnMerges(ops, own);
      StoredIsMerge(schema, storage, actions, registry, clock, k);
      if before.Some? && row.Some? {
        EchoedRow(schema, stored, row, ops, ts, gone, written);
      } else {
        UntouchedRow(schema, stored, row, ops, ts, gone, written);
      }
    }
  }

  lemma OwnMerges(ops: seq<RowOp>, own: set<string>)
    requires OwnOnly(ops, own)
    ensures AllMerges(ops)
  {
  }

  /** A row that is not stored, or not shown because it is deleted. */
  lemma UntouchedRow(schema: Schema, stored: Option<Fields>, row: Option<Fields>, ops: seq<RowOp>, ts: seq<PendingTx>,
                     gone: set<string>, written: map<string, set<string>>)
    requires MergedFrom(schema, stored, ops, row) && WellFormed(stored, ts) && Settles(stored, ops, ts, gone)
    requires Replay(stored, ts).None? || row.None?
    requires ops != [] ==> Replay(stored, ts).Some?
    ensures var before := Replay(stored, ts);
            var view := if before.Some? then Some(MergeAll(before.value, Derived(ops, written))) else None;
            Replay(view, Remaining(ts, gone)) == Replay(row, Remaining(ts, gone))
            && FieldsStand(schema, stored, ops, ts, gone, written)
  {
    hide Replay, WellFormed, Deletes, Inserts, MergeAll;
    var rest := Remaining(ts, gone);
    var before := Replay(stored, ts);
    var view := if before.Some? then Some(MergeAll(before.value, Derived(ops, written))) else None;
    if Deletes(rest) {
      DeleteForgets(view, row, rest);
    } else {
      NoDeleteHere(ts, gone);
      if stored.Some? || ts != [] {
        ReplayIsMerge(stored, ts);
      }
      NothingAtAll(schema, stored, row, ops, ts, gone);
      EmptyMerge(before);
      assert Derived(ops, written) == [];
      AllStay(ts, gone);
      ReplayIsIdempotent(stored, ts);
      NothingStands(schema, stored, ops, ts, gone, written);
    }
  }

  lemma NoRollback(row: Option<Fields>, conflicts: seq<PendingTx>)
    ensures conflicts == [] ==> RollbackRows(row, conflicts) == row
  {
  }

  lemma EmptyMerge(row: Option<Fields>)
    ensures row.Some? ==> Some(MergeAll(row.value, [])) == row
  {
  }

  /** A row neither stored nor written has nothing leaving the outbox. */
  lemma NothingAtAll(schema: Schema, stored: Option<Fields>, row: Option<Fields>, ops: seq<RowOp>,
                     ts: seq<PendingTx>, gone: set<string>)
    requires MergedFrom(schema, stored, ops, row) && Settles(stored, ops, ts, gone)
    requires !Deletes(Remaining(ts, gone)) && (stored.Some? ==> Replay(stored, ts).Some?)
    requires Replay(stored, ts).None? || row.None?
    requires ops != [] ==> Replay(stored, ts).Some?
    ensures stored.None? && row.None? && ops == [] && Leaving(ts, gone) == []
  {
  }

  lemma NothingStands(schema: Schema, stored: Option<Fields>, ops: seq<RowOp>, ts: seq<PendingTx>, gone: set<string>,
                      written: map<string, set<string>>)
    requires ops == [] && Leaving(ts, gone) == []
    ensures FieldsStand(schema, stored, ops, ts, gone, written)
  {
    forall f ensures FieldStands(BaseOf(stored), Leaving(ts, gone), ops, written, f) {
      NothingWritten(Leaving(ts, gone), ops, written, f);
    }
  }

  lemma {:induction false} AllStay(ts: seq<PendingTx>, gone: set<string>)
    requires Leaving(ts, gone) == []
    ensures Remaining(ts, gone) == ts
  {
    if ts != [] {
      var n := |ts| - 1;
      assert |Leaving(ts, gone)| >= |Leaving(ts[..n], gone)|;
      AllStay(ts[..n], gone);
      assert ts == ts[..n] + [ts[n]];
      assert ts[n].id in gone ==> |Leaving(ts, gone)| > 0;
    }
  }

  lemma {:induction false} RemainingOn(ts: seq<PendingTx>, gone: set<string>, k: Key)
    ensures On(Remaining(ts, gone), k) == Remaining(On(ts, k), gone)
  {
    hide Created;
    if ts != [] {
      var n := |ts| - 1;
      RemainingOn(ts[..n], gone, k);
      var r, o := Remaining(ts[..n], gone), On(ts[..n], k);
      assert (r + [ts[n]])[..|r|] == r && r + [] == r;
      assert (o + [ts[n]])[..|o|] == o && o + [] == o;
    }
  }

  /** The outbox after confirmation and conflict removal. */
  method RemoveFromOutbox(pending: seq<PendingTx>, gone: set<string>) returns (kept: seq<PendingTx>)
    ensures kept == Remaining(pending, gone)
  {
    kept := [];
    for i := 0 to |pending|
      invariant kept == Remaining(pending[..i], gone)
    {
      assert pending[..i + 1][..i] == pending[..i];
      if pending[i].id !in gone {
        kept := kept + [pending[i]];
      }
    }
    assert pending[..|pending|] == pending;
  }

  /** The transactions a packet takes out of the outbox: conflicts, confirmations, and what the cursor completes. */
  function Gone(pending: seq<PendingTx>, actions: seq<SyncAction>, conflicts: seq<PendingTx>,
                completed: set<string>): set<string>
  {
    TxIds(conflicts) + Confirmed(pending, actions) + completed
  }

  /**
   * A transaction leaves the outbox if and only if a conflict rolled it back, the cursor completes it, the
   * packet carries it, or the packet carries a create without a transaction for the id it inserts.
   */
  lemma GoneExactly(pending: seq<PendingTx>, actions: seq<SyncAction>, conflicts: seq<PendingTx>,
                    completed: set<string>, t: PendingTx)
    requires t in pending && forall u :: u in pending && u.id == t.id ==> u == t
    ensures t.id in Gone(pending, actions, conflicts, completed) <==>
              || (exists c :: c in conflicts && c.id == t.id) || t.id in completed
              || (exists a :: a in actions && a.clientTxId == Some(t.id))
              || (t.action.I?
                  && exists a :: a in actions && a.kind.I? && a.modelId == t.target.id && a.clientTxId.None?)
  {
    var i :| 0 <= i < |pending| && pending[i] == t;
    if c :| c in conflicts && c.id == t.id {
      var j :| 0 <= j < |conflicts| && conflicts[j] == c;
    }
    if t.id in Confirmed(pending, actions) {
      var j :| 0 <= j < |pending| && IsConfirmed(pending[j], actions) && pending[j].id == t.id;
      assert pending[j] in pending && pending[j] == t;
    }
  }

  /**
   * applyDeltaPacket from the first write to the identity-map batch. A row that was the stored
   * row overlaid with the outbox is so again, over the new rows and the new outbox, exactly if
   * it stands.
   */
  method ApplyDeltaPacket(maps: IdentityMaps, storage: Table, actions: seq<SyncAction>, registry: Registry,
                          clock: seq<int>, pending: seq<PendingTx>, conflicts: seq<PendingTx>, completed: set<string>,
                          local: set<string>, ghost schemas: map<Key, Schema>)
    returns (flushed: Table, kept: seq<PendingTx>)
    requires |clock| == |actions|
    requires ValidRegistry(registry) && KeyedTable(registry, storage)
    requires forall i :: 0 <= i < |actions| ==> KeepsKey(registry, actions[i])
    modifies maps
    ensures flushed == Fold(storage, Entries(actions, registry, clock))
    ensures DoneAll(actions, registry, clock, storage, flushed)
    ensures kept == Remaining(pending, Gone(pending, actions, conflicts, completed))
    ensures forall k ::
      (k in schemas && Find(old(maps.rows), k) == Replay(Find(storage, k), On(pending, k))
       && RowReady(schemas[k], registry, storage, actions, clock, pending, conflicts,
                   Gone(pending, actions, conflicts, completed), OwnClientTxIds(actions, local, conflicts),
                   OwnWrittenFields(pending, local), k))
      ==> (Find(maps.rows, k) == Replay(Find(flushed, k), On(kept, k))
           <==> RowStands(schemas[k], registry, storage, actions, clock, pending, conflicts,
                          Gone(pending, actions, conflicts, completed), OwnClientTxIds(actions, local, conflicts),
                          OwnWrittenFields(pending, local), k))
  {
    hide RowStands, RowReady, DoneAll;
    var ops;
    flushed, ops := CollectDeferredDeltaOps(storage, actions, registry, clock);
    var written := RecordOwnWrittenFields(pending, local);
    var confirmed := ConfirmFromActions(pending, actions);
    var gone := TxIds(conflicts) + confirmed + completed;
    kept := RemoveFromOutbox(pending, gone);
    var own := BuildOwnClientTxIds(actions, local, conflicts);
    ApplyBatch(maps, conflicts, ops, own, written, kept);
    forall k | k in schemas && Find(old(maps.rows), k) == Replay(Find(storage, k), On(pending, k))
               && RowReady(schemas[k], registry, storage, actions, clock, pending, conflicts, gone, own, written, k)
      ensures Find(maps.rows, k) == Replay(Find(flushed, k), On(kept, k))
              <==> RowStands(schemas[k], registry, storage, actions, clock, pending, conflicts, gone, own, written, k)
    {
      DeferredOnRow(storage, actions, registry, clock, k);
      RemainingOn(pending, gone, k);
      RowOverlay(schemas[k], registry, storage, actions, clock, pending, conflicts, gone, own, written, k);
    }
  }

  /**
   * Why a server-derived field must not be another echoed transaction's write: the second echo
   * does not bring its own field, so the map keeps what the first one derived, while the stored
   * row has moved on. (An unarchive counts as having written nothing, so its echo derives
   * archivedAt, and an archive echoed after it in the same packet is such a case.)
   */
  lemma EarlierDerivationSticks(row: Fields, first: DeferredOp, second: DeferredOp, own: set<string>,
                                written: map<string, set<string>>, f: string)
    requires OwnMerge(first, own) && OwnMerge(second, own) && f in second.data
    requires f in ServerDerivedFields(first, written) && f !in ServerDerivedFields(second, written)
    ensures var slot := SlotAfter(Some(row), [first, second], own, written);
            slot.row.Some? && f in slot.row.value
            && (slot.row.value[f] == second.data[f] <==> first.data[f] == second.data[f])
  {
    assert [first, second][..1] == [first] && [first][..0] == [];
    assert SlotAfter(Some(row), [first], own, written).row == Some(row + ServerDerivedFields(first, written));
  }
}
