/** The in-memory staging area of a delta packet refines direct application. */
module DeltaStaging {
  import opened Records
  import opened ServerLog
  import opened DeltaApplier

  function GetModelKey(modelName: string, id: string): string {
    modelName + ":" + id
  }

  predicate SeparatorAt(key: string, n: nat) {
    n < |key| && key[n] == ':' && forall j :: 0 <= j < n ==> key[j] != ':'
  }

  lemma KeySeparator(m: string, i: string)
    requires ':' !in m
    ensures SeparatorAt(GetModelKey(m, i), |m|)
  {
    var k := GetModelKey(m, i);
    forall j | 0 <= j < |m| ensures k[j] != ':' {
      assert k[j] == m[j];
    }
  }

  /** One key per row, as long as no model name contains the separator. */
  lemma ModelKeyInjective(m: string, i: string, m': string, i': string)
    requires ':' !in m && ':' !in m' && GetModelKey(m, i) == GetModelKey(m', i')
    ensures m == m' && i == i'
  {
    var k := GetModelKey(m, i);
    KeySeparator(m, i);
    KeySeparator(m', i');
    assert |m| == |m'|;
    assert m == k[..|m|] == m';
    assert i == k[|m| + 1..] == i';
  }

  /**
   * Two model names share a key, so that the row staged last wins, exactly when one of them is
   * the other, a colon and whatever follows.
   */
  lemma ModelNamesCollide(m: string, m': string)
    requires m != m'
    ensures (exists i, i' :: GetModelKey(m, i) == GetModelKey(m', i')) <==> m + ":" <= m' || m' + ":" <= m
  {
    if m + ":" <= m' {
      ExtendedNameCollides(m, m', "");
    }
    if m' + ":" <= m {
      ExtendedNameCollides(m', m, "");
    }
    if i, i' :| GetModelKey(m, i) == GetModelKey(m', i') {
      var k := GetModelKey(m, i);
      assert m == k[..|m|] && m' == k[..|m'|];
      assert m + ":" == k[..|m| + 1] && m' + ":" == k[..|m'| + 1];
      if |m| < |m'| {
        assert m'[..|m| + 1] == k[..|m| + 1];
      } else if |m'| < |m| {
        assert m[..|m'| + 1] == k[..|m'| + 1];
      }
    }
  }

  /** Every row of the longer-named model has a namesake in the other. */
  lemma ExtendedNameCollides(m: string, m': string, i: string)
    requires m + ":" <= m'
    ensures GetModelKey(m, m'[|m| + 1..] + ":" + i) == GetModelKey(m', i)
  {
    assert m' == m + ":" + m'[|m| + 1..];
  }

  datatype BatchOp = PutOp(modelName: string, data: Fields) | DeleteOp(modelName: string, id: string)

  datatype DeferredOp =
    | MergeOp(target: Key, data: Fields, clientTxId: Option<string>, actionFields: set<string>)
    | RemoveOp(target: Key, clientTxId: Option<string>)

  predicate ValidRegistry(registry: Registry) {
    forall m :: m in registry ==> ':' !in m
  }

  /** The store's key path: a row is filed under the value of its primary key field. */
  predicate Keyed(registry: Registry, k: Key, row: Fields) {
    k.modelName in registry && registry[k.modelName] in row && row[registry[k.modelName]] == Text(k.id)
  }

  predicate KeyedTable(registry: Registry, rows: Table) {
    forall k :: k in rows ==> Keyed(registry, k, rows[k])
  }

  /** An update never changes the primary key. */
  predicate KeepsKey(registry: Registry, a: SyncAction) {
    a.kind == U && a.modelName in registry && registry[a.modelName] in a.data
    ==> a.data[registry[a.modelName]] == Text(a.modelId)
  }

  function OpKey(registry: Registry, op: BatchOp): Option<Key> {
    match op
    case PutOp(m, data) =>
      if m in registry && registry[m] in data && data[registry[m]].Text?
      then Some(Key(m, data[registry[m]].s)) else None
    case DeleteOp(m, id) => Some(Key(m, id))
  }

  function WriteOne(rows: Table, registry: Registry, op: BatchOp): Table {
    match OpKey(registry, op)
    case None => rows
    case Some(k) => if op.PutOp? then rows[k := op.data] else rows - {k}
  }

  /** The storage adapter's writeBatch: every operation in turn, in one transaction. */
  function WriteBatch(rows: Table, registry: Registry, ops: seq<BatchOp>): Table {
    if ops == [] then rows
    else WriteOne(WriteBatch(rows, registry, ops[..|ops| - 1]), registry, ops[|ops| - 1])
  }

  function OpResult(op: BatchOp): Option<Fields> {
    if op.PutOp? then Some(op.data) else None
  }

  /** A row no operation names is untouched. */
  lemma {:induction false} WriteBatchMisses(rows: Table, registry: Registry, ops: seq<BatchOp>, k: Key)
    requires forall i :: 0 <= i < |ops| ==> OpKey(registry, ops[i]) != Some(k)
    ensures Find(WriteBatch(rows, registry, ops), k) == Find(rows, k)
  {
    if ops != [] {
      WriteBatchMisses(rows, registry, ops[..|ops| - 1], k);
    }
  }

  /** With one operation per row, each row ends as its own operation leaves it. */
  lemma {:induction false} WriteBatchHits(rows: Table, registry: Registry, ops: seq<BatchOp>, j: nat, k: Key)
    requires j < |ops| && OpKey(registry, ops[j]) == Some(k)
    requires forall i :: 0 <= i < |ops| && i != j ==> OpKey(registry, ops[i]) != Some(k)
    ensures Find(WriteBatch(rows, registry, ops), k) == OpResult(ops[j])
  {
    if j < |ops| - 1 {
      WriteBatchHits(rows, registry, ops[..|ops| - 1], j, k);
    }
  }

  /** Direct application of the first n actions, and the map operations it defers. */
  function Deferred(rows: Table, actions: seq<SyncAction>, registry: Registry, clock: seq<int>): seq<DeferredOp>
    requires |clock| == |actions|
  {
    if actions == [] then [] else
    var n := |actions| - 1;
    var before := Fold(rows, Entries(actions[..n], registry, clock[..n]));
    Deferred(rows, actions[..n], registry, clock[..n])
    + DeferredBy(before, actions[n], EntryOf(actions[n], registry, clock[n]))
  }

  function DeferredBy(before: Table, a: SyncAction, e: Entry): seq<DeferredOp> {
    match e
    case Put(k, row) => [MergeOp(k, row, a.clientTxId, a.data.Keys)]
    case Patch(k, changes) =>
      if k in before then [MergeOp(k, before[k] + changes, a.clientTxId, a.data.Keys)] else []
    case Delete(k) => [RemoveOp(k, a.clientTxId)]
    case _ => []
  }

  /** An action defers one operation, on its own row, carrying what it leaves there; or none, if it does nothing. */
  lemma OneDeferred(before: Table, a: SyncAction, registry: Registry, now: int)
    ensures var e := EntryOf(a, registry, now);
            var ops := DeferredBy(before, a, e);
            && (ops == [] <==> || a.modelName !in registry || a.kind.C? || a.kind.G? || a.kind.S?
                               || ((a.kind.U? || a.kind.A? || a.kind.V?) && a.Target() !in before))
            && (ops != [] ==>
                  && |ops| == 1 && ops[0].target == a.Target() && ops[0].clientTxId == a.clientTxId
                  && (ops[0].RemoveOp? <==> a.kind.D?)
                  && (ops[0].MergeOp? ==>
                        ops[0].actionFields == a.data.Keys && Find(Apply(before, e), a.Target()) == Some(ops[0].data)))
  {
    assert a.Target() == Key(a.modelName, a.modelId);
  }

  /** What the staging area says about row k. */
  function StagedRow(storage: Table, rows: map<string, Option<Fields>>, deleted: set<string>, k: Key): Option<Fields> {
    var s := GetModelKey(k.modelName, k.id);
    if s in rows then rows[s] else if s in deleted then None else Find(storage, k)
  }

  ghost predicate RowsStaged(registry: Registry, storage: Table, rows: map<string, Option<Fields>>,
                             deleted: set<string>, current: Table) {
    forall k: Key :: k.modelName in registry ==> StagedRow(storage, rows, deleted, k) == Find(current, k)
  }

  /** The write staged under s is the one operation for the row k. */
  ghost predicate WriteStaged(registry: Registry, op: BatchOp, s: string, current: Table) {
    var k := OpKey(registry, op);
    && k.Some? && k.value.modelName in registry
    && GetModelKey(k.value.modelName, k.value.id) == s
    && OpResult(op) == Find(current, k.value)
  }

  ghost predicate WritesStaged(registry: Registry, storage: Table, writes: map<string, BatchOp>, current: Table) {
    && (forall k: Key :: k.modelName in registry && Find(current, k) != Find(storage, k)
          ==> GetModelKey(k.modelName, k.id) in writes)
    && (forall s :: s in writes ==> WriteStaged(registry, writes[s], s, current))
  }

  /** Staging one row leaves every other row's key, and so its staged value, alone. */
  lemma OthersKeepTheirKeys(registry: Registry, k: Key)
    requires ValidRegistry(registry) && k.modelName in registry
    ensures forall k': Key :: k'.modelName in registry && k' != k
              ==> GetModelKey(k'.modelName, k'.id) != GetModelKey(k.modelName, k.id)
  {
    forall k': Key | k'.modelName in registry && k' != k
      ensures GetModelKey(k'.modelName, k'.id) != GetModelKey(k.modelName, k.id)
    {
      if GetModelKey(k'.modelName, k'.id) == GetModelKey(k.modelName, k.id) {
        ModelKeyInjective(k'.modelName, k'.id, k.modelName, k.id);
      }
    }
  }

  lemma RowsStagedAt(registry: Registry, storage: Table, rows: map<string, Option<Fields>>, deleted: set<string>,
                     current: Table, k: Key,
                     rows': map<string, Option<Fields>>, deleted': set<string>, current': Table)
    requires ValidRegistry(registry) && k.modelName in registry
    requires RowsStaged(registry, storage, rows, deleted, current)
    requires var s := GetModelKey(k.modelName, k.id);
             && rows' - {s} == rows - {s} && deleted' - {s} == deleted - {s}
    requires StagedRow(storage, rows', deleted', k) == Find(current', k)
    requires forall k' :: k' != k ==> Find(current', k') == Find(current, k')
    ensures RowsStaged(registry, storage, rows', deleted', current')
  {
    OthersKeepTheirKeys(registry, k);
    var s := GetModelKey(k.modelName, k.id);
    forall k': Key | k'.modelName in registry
      ensures StagedRow(storage, rows', deleted', k') == Find(current', k')
    {
      if k' != k {
        var s' := GetModelKey(k'.modelName, k'.id);
        assert s' in rows' <==> s' in rows' - {s};
        assert s' in rows <==> s' in rows - {s};
        assert s' in deleted' <==> s' in deleted' - {s};
        assert s' in deleted <==> s' in deleted - {s};
        assert StagedRow(storage, rows', deleted', k') == StagedRow(storage, rows, deleted, k');
      }
    }
  }

  lemma WritesStagedAt(registry: Registry, storage: Table, writes: map<string, BatchOp>, current: Table,
                       k: Key, op: BatchOp, current': Table)
    requires ValidRegistry(registry) && k.modelName in registry
    requires WritesStaged(registry, storage, writes, current)
    requires OpKey(registry, op) == Some(k) && OpResult(op) == Find(current', k)
    requires forall k' :: k' != k ==> Find(current', k') == Find(current, k')
    ensures WritesStaged(registry, storage, writes[GetModelKey(k.modelName, k.id) := op], current')
  {
    var s := GetModelKey(k.modelName, k.id);
    var writes' := writes[s := op];
    OthersKeepTheirKeys(registry, k);
    forall s' | s' in writes' ensures WriteStaged(registry, writes'[s'], s', current') {
      if s' != s {
        assert WriteStaged(registry, writes[s'], s', current);
        var k' := OpKey(registry, writes[s']).value;
        assert k' != k;
      }
    }
    forall k': Key | k'.modelName in registry && Find(current', k') != Find(storage, k')
      ensures GetModelKey(k'.modelName, k'.id) in writes'
    {
    }
  }

  /**
   * One packet's staging area; `storage` is the table it reads through to. Actions are resolved
   * in it and flushed to storage as one batch: the stored rows after the flush, and the row every
   * deferred identity-map operation carries, are those of direct application.
   */
  class Staging {
    const storage: Table
    const registry: Registry
    var rows: map<string, Option<Fields>>
    var deleted: set<string>
    /** JavaScript Map: values by key, and the keys in insertion order. */
    var writes: map<string, BatchOp>
    var writeOrder: seq<string>
    var ops: seq<DeferredOp>

    constructor (storage: Table, registry: Registry)
      requires ValidRegistry(registry) && KeyedTable(registry, storage)
      ensures this.storage == storage && this.registry == registry
      ensures Stages(storage) && ops == []
    {
      this.storage, this.registry := storage, registry;
      rows, deleted, writes, writeOrder, ops := map[], {}, map[], [], [];
    }

    /** The staging area stands for the table `current`. */
    ghost predicate Stages(current: Table)
      reads this
    {
      && ValidRegistry(registry)
      && KeyedTable(registry, storage)
      && KeyedTable(registry, current)
      && RowsStaged(registry, storage, rows, deleted, current)
      && WritesStaged(registry, storage, writes, current)
      && (forall s :: s in writeOrder <==> s in writes)
      && (forall i, j :: 0 <= i < j < |writeOrder| ==> writeOrder[i] != writeOrder[j])
    }

    method Get(modelName: string, id: string, ghost current: Table) returns (row: Option<Fields>)
      requires Stages(current) && modelName in registry
      modifies this`rows
      ensures Stages(current) && row == Find(current, Key(modelName, id))
    {
      var key := GetModelKey(modelName, id);
      assert StagedRow(storage, rows, deleted, Key(modelName, id)) == Find(current, Key(modelName, id));
      if key in rows {
        return rows[key];
      }
      if key in deleted {
        return None;
      }
      row := Find(storage, Key(modelName, id));
      rows := rows[key := row];
      RowsStagedAt(registry, storage, old(rows), deleted, current, Key(modelName, id), rows, deleted, current);
    }

    method RecordWrite(key: string, op: BatchOp)
      modifies this`writes, this`writeOrder
      ensures writes == old(writes)[key := op]
      ensures writeOrder == if key in old(writes) then old(writeOrder) else old(writeOrder) + [key]
    {
      if key !in writes {
        writeOrder := writeOrder + [key];
      }
      writes := writes[key := op];
    }

    method Stage(modelName: string, id: string, row: Fields, a: SyncAction, ghost current: Table)
      requires Stages(current) && Keyed(registry, Key(modelName, id), row)
      modifies this
      ensures Stages(current[Key(modelName, id) := row])
      ensures ops == old(ops) + [MergeOp(Key(modelName, id), row, a.clientTxId, a.data.Keys)]
    {
      hide RowsStaged, WritesStaged, GetModelKey;
      var key := GetModelKey(modelName, id);
      rows := rows[key := Some(row)];
      deleted := deleted - {key};
      RecordWrite(key, PutOp(modelName, row));
      ops := ops + [MergeOp(Key(modelName, id), row, a.clientTxId, a.data.Keys)];
      ghost var k := Key(modelName, id);
      RowsStagedAt(registry, storage, old(rows), old(deleted), current, k, rows, deleted, current[k := row]);
      WritesStagedAt(registry, storage, old(writes), current, k, PutOp(modelName, row), current[k := row]);
    }

    method Put(modelName: string, id: string, data: Fields, a: SyncAction, ghost current: Table)
      requires Stages(current) && modelName in registry
      modifies this
      ensures var row := data + map[registry[modelName] := Text(id)];
              && Stages(current[Key(modelName, id) := row])
              && ops == old(ops) + [MergeOp(Key(modelName, id), row, a.clientTxId, a.data.Keys)]
    {
      Stage(modelName, id, data + map[registry[modelName] := Text(id)], a, current);
    }

    method Patch(modelName: string, id: string, changes: Fields, a: SyncAction, ghost current: Table)
      requires Stages(current) && modelName in registry
      requires registry[modelName] in changes ==> changes[registry[modelName]] == Text(id)
      modifies this
      ensures var e := ServerLog.Patch(Key(modelName, id), changes);
              Stages(Apply(current, e)) && ops == old(ops) + DeferredBy(current, a, e)
    {
      var existing := Get(modelName, id, current);
      if existing.None? {
        return;
      }
      Stage(modelName, id, existing.value + changes, a, current);
    }

    method Delete(modelName: string, id: string, a: SyncAction, ghost current: Table)
      requires Stages(current) && modelName in registry
      modifies this
      ensures Stages(current - {Key(modelName, id)})
      ensures ops == old(ops) + [RemoveOp(Key(modelName, id), a.clientTxId)]
    {
      hide RowsStaged, WritesStaged, GetModelKey;
      var key := GetModelKey(modelName, id);
      rows := rows - {key};
      deleted := deleted + {key};
      RecordWrite(key, DeleteOp(modelName, id));
      ops := ops + [RemoveOp(Key(modelName, id), a.clientTxId)];
      ghost var k := Key(modelName, id);
      RowsStagedAt(registry, storage, old(rows), old(deleted), current, k, rows, deleted, current - {k});
      WritesStagedAt(registry, storage, old(writes), current, k, DeleteOp(modelName, id), current - {k});
    }

    /** The applier's read-modify-write for archives: nothing when the row is absent. */
    method MergeAndPut(a: SyncAction, overrides: Fields, ghost current: Table)
      requires Stages(current) && a.modelName in registry
      modifies this
      ensures var e := ServerLog.Patch(a.Target(), a.data + overrides + map[registry[a.modelName] := Text(a.modelId)]);
              Stages(Apply(current, e)) && ops == old(ops) + DeferredBy(current, a, e)
    {
      hide RowsStaged, WritesStaged;
      var existing := Get(a.modelName, a.modelId, current);
      if existing.None? {
        return;
      }
      ghost var pk := map[registry[a.modelName] := Text(a.modelId)];
      assert existing.value + a.data + overrides + pk == existing.value + (a.data + overrides + pk);
      Put(a.modelName, a.modelId, existing.value + a.data + overrides, a, current);
    }

    method ApplySingleAction(a: SyncAction, now: int, ghost current: Table)
      requires Stages(current) && KeepsKey(registry, a)
      modifies this
      ensures Stages(Apply(current, EntryOf(a, registry, now)))
      ensures ops == old(ops) + DeferredBy(current, a, EntryOf(a, registry, now))
      ensures Done(a, registry, now, current, Apply(current, EntryOf(a, registry, now)))
    {
      EntryDone(current, a, registry, now);
      if a.modelName !in registry {
        return;
      }
      match a.kind {
        case I => Put(a.modelName, a.modelId, a.data, a, current);
        case U => Patch(a.modelName, a.modelId, a.data, a, current);
        case D => Delete(a.modelName, a.modelId, a, current);
        case A => MergeAndPut(a, CreateArchivePayload(ReadArchivedAt(a.data), now), current);
        case V => MergeAndPut(a, UNARCHIVE_PATCH, current);
        case _ =>
      }
    }

    /** `[...staging.writes.values()]`. */
    function Batch(): seq<BatchOp>
      requires forall i :: 0 <= i < |writeOrder| ==> writeOrder[i] in writes
      reads this
    {
      seq(|writeOrder|, i requires 0 <= i < |writeOrder| reads this
                        requires writeOrder[i] in writes => writes[writeOrder[i]])
    }

    /** Flushing the collapsed writes turns storage into the table being staged. */
    lemma FlushYields(current: Table)
      requires Stages(current)
      ensures forall i :: 0 <= i < |writeOrder| ==> writeOrder[i] in writes
      ensures WriteBatch(storage, registry, Batch()) == current
    {
      var batch := Batch();
      forall k ensures Find(WriteBatch(storage, registry, batch), k) == Find(current, k) {
        var s := GetModelKey(k.modelName, k.id);
        if k.modelName in registry && s in writes {
          var j :| 0 <= j < |writeOrder| && writeOrder[j] == s;
          var k' := OpKey(registry, writes[s]).value;
          ModelKeyInjective(k.modelName, k.id, k'.modelName, k'.id);
          forall i | 0 <= i < |batch| && i != j ensures OpKey(registry, batch[i]) != Some(k) {
            assert writeOrder[i] != writeOrder[j];
          }
          WriteBatchHits(storage, registry, batch, j, k);
        } else {
          WriteBatchMisses(storage, registry, batch, k);
        }
      }
      TablesAgree(WriteBatch(storage, registry, batch), current);
    }
  }

  lemma DirectSnoc(storage: Table, actions: seq<SyncAction>, registry: Registry, clock: seq<int>, i: nat)
    requires |clock| == |actions| && i < |actions|
    ensures var before := Fold(storage, Entries(actions[..i], registry, clock[..i]));
            var e := EntryOf(actions[i], registry, clock[i]);
            && Fold(storage, Entries(actions[..i + 1], registry, clock[..i + 1])) == Apply(before, e)
            && Deferred(storage, actions[..i + 1], registry, clock[..i + 1])
               == Deferred(storage, actions[..i], registry, clock[..i]) + DeferredBy(before, actions[i], e)
  {
    var next := Entries(actions[..i + 1], registry, clock[..i + 1]);
    assert actions[..i + 1][..i] == actions[..i] && clock[..i + 1][..i] == clock[..i];
    assert next[..i] == Entries(actions[..i], registry, clock[..i]);
  }

  /**
   * Resolves a packet in memory and flushes it as one batch. The flushed table is direct
   * application of every action, and the deferred operations are those of direct application.
   */
  method CollectDeferredDeltaOps(storage: Table, actions: seq<SyncAction>, registry: Registry, clock: seq<int>)
    returns (flushed: Table, ops: seq<DeferredOp>)
    requires |clock| == |actions|
    requires ValidRegistry(registry) && KeyedTable(registry, storage)
    requires forall i :: 0 <= i < |actions| ==> KeepsKey(registry, actions[i])
    ensures flushed == Fold(storage, Entries(actions, registry, clock))
    ensures DoneAll(actions, registry, clock, storage, flushed)
    ensures ops == Deferred(storage, actions, registry, clock)
    ensures KeyedTable(registry, flushed)
  {
    FoldDoes(storage, actions, registry, clock);
    var staging := new Staging(storage, registry);
    ghost var current := storage;
    for i := 0 to |actions|
      invariant staging.storage == storage && staging.registry == registry
      invariant current == Fold(storage, Entries(actions[..i], registry, clock[..i]))
      invariant staging.Stages(current)
      invariant staging.ops == Deferred(storage, actions[..i], registry, clock[..i])
    {
      staging.ApplySingleAction(actions[i], clock[i], current);
      DirectSnoc(storage, actions, registry, clock, i);
      current := Apply(current, EntryOf(actions[i], registry, clock[i]));
    }
    assert actions[..|actions|] == actions && clock[..|actions|] == clock;
    staging.FlushYields(current);
    flushed := WriteBatch(storage, registry, staging.Batch());
    ops := staging.ops;
  }
}
