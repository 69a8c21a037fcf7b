/** What one sync action does to a stored row, as the delta applier decides it. */
module DeltaApplier {
  import opened Records
  import opened ServerLog

  /**
   * I insert, U update, D delete, A archive, V unarchive carry a row. C (coverage), G and S
   * (membership) carry none and reach no row.
   */
  datatype ActionKind = I | U | D | A | V | C | G | S

  datatype SyncAction = SyncAction(
    id: nat, kind: ActionKind, modelName: string, modelId: string, data: Fields, clientTxId: Option<string>)
  {
    function Target(): Key {
      Key(modelName, modelId)
    }
  }

  /** The models of the schema, each with the name of its primary key field. */
  type Registry = map<string, string>

  const ARCHIVED_AT := "archivedAt"

  function ReadArchivedAt(record: Fields): Option<int> {
    if ARCHIVED_AT in record && record[ARCHIVED_AT].Number? then Some(record[ARCHIVED_AT].n) else None
  }

  function CreateArchivePayload(archivedAt: Option<int>, now: int): Fields {
    map[ARCHIVED_AT := Number(if archivedAt.Some? then archivedAt.value else now)]
  }

  const UNARCHIVE_PATCH: Fields := map[ARCHIVED_AT := Null]

  /** The log entry an action amounts to; `now` is the clock, read only by an unstamped archive. */
  function EntryOf(a: SyncAction, registry: Registry, now: int): Entry {
    if a.modelName !in registry then Gap else
    var pk := map[registry[a.modelName] := Text(a.modelId)];
    match a.kind
    case I => Put(a.Target(), a.data + pk)
    case U => Patch(a.Target(), a.data)
    case D => Delete(a.Target())
    case A => Patch(a.Target(), a.data + CreateArchivePayload(ReadArchivedAt(a.data), now) + pk)
    case V => Patch(a.Target(), a.data + UNARCHIVE_PATCH + pk)
    case _ => Gap
  }

  /** The entries of a packet; clock[i] is the time at which action i is applied. */
  function Entries(actions: seq<SyncAction>, registry: Registry, clock: seq<int>): (es: Log)
    requires |clock| == |actions|
    ensures |es| == |actions|
  {
    seq(|actions|, i requires 0 <= i < |actions| => EntryOf(actions[i], registry, clock[i]))
  }

  /** The value an action gives a field of the row it names; pk is the model's primary key field. */
  function Given(a: SyncAction, pk: string, now: int, f: string): Option<Value> {
    if f == pk && a.kind != U then Some(Text(a.modelId))
    else if f == "archivedAt" && a.kind == V then Some(Null)
    else if f == "archivedAt" && a.kind == A && !(f in a.data && a.data[f].Number?) then Some(Number(now))
    else ValueOf(a.data, f)
  }

  /** What an action leaves of the row it names: a create replaces it, the others change a present row only. */
  ghost predicate RowDone(a: SyncAction, pk: string, now: int, before: Option<Fields>, after: Option<Fields>) {
    match a.kind
    case I => after.Some? && forall f :: ValueOf(after.value, f) == Given(a, pk, now, f)
    case D => after.None?
    case U | A | V =>
      after.Some? == before.Some? &&
      (before.Some? ==>
         forall f ::
           if Given(a, pk, now, f).Some? then ValueOf(after.value, f) == Given(a, pk, now, f)
           else ValueOf(after.value, f) == ValueOf(before.value, f))
    case _ => after == before
  }

  /** What an action does to the rows: something to its own row if the schema has its model, and nothing else. */
  ghost predicate Done(a: SyncAction, registry: Registry, now: int, before: Table, after: Table) {
    forall k ::
      if a.modelName in registry && k == Key(a.modelName, a.modelId)
      then RowDone(a, registry[a.modelName], now, Find(before, k), Find(after, k))
      else Find(after, k) == Find(before, k)
  }

  lemma EntryGives(a: SyncAction, registry: Registry, now: int)
    requires a.modelName in registry && (a.kind.I? || a.kind.U? || a.kind.A? || a.kind.V?)
    ensures var e := EntryOf(a, registry, now);
            && e == (if a.kind.I? then Put(a.Target(), e.row) else Patch(a.Target(), e.changes))
            && forall f :: ValueOf(if a.kind.I? then e.row else e.changes, f)
                           == Given(a, registry[a.modelName], now, f)
  {
  }

  lemma EntryDone(rows: Table, a: SyncAction, registry: Registry, now: int)
    ensures Done(a, registry, now, rows, Apply(rows, EntryOf(a, registry, now)))
  {
    hide Given;
    if a.modelName in registry && (a.kind.I? || a.kind.U? || a.kind.A? || a.kind.V?) {
      hide EntryOf;
      EntryGives(a, registry, now);
    }
  }

  /** The entry of an action does what the action does, and that leaves no other choice. */
  lemma EntryDoes(rows: Table, a: SyncAction, registry: Registry, now: int, after: Table)
    ensures Done(a, registry, now, rows, after) <==> after == Apply(rows, EntryOf(a, registry, now))
  {
    hide RowDone, EntryOf, Apply;
    var done := Apply(rows, EntryOf(a, registry, now));
    EntryDone(rows, a, registry, now);
    if Done(a, registry, now, rows, after) {
      forall k ensures Find(after, k) == Find(done, k) {
        if a.modelName in registry && k == Key(a.modelName, a.modelId) {
          RowDetermined(a, registry[a.modelName], now, Find(rows, k), Find(done, k), Find(after, k));
        }
      }
      TablesAgree(after, done);
    }
  }

  lemma RowDetermined(a: SyncAction, pk: string, now: int, before: Option<Fields>, x: Option<Fields>, y: Option<Fields>)
    requires RowDone(a, pk, now, before, x) && RowDone(a, pk, now, before, y)
    ensures x == y
  {
    if x.Some? && y.Some? && !(a.kind.C? || a.kind.G? || a.kind.S?) {
      FieldsAgree(x.value, y.value);
    }
  }

  /** A packet's actions, done in order. */
  ghost predicate DoneAll(actions: seq<SyncAction>, registry: Registry, clock: seq<int>, before: Table, after: Table)
    requires |clock| == |actions|
  {
    if actions == [] then after == before
    else
      var n := |actions| - 1;
      exists mid :: DoneAll(actions[..n], registry, clock[..n], before, mid)
                    && Done(actions[n], registry, clock[n], mid, after)
  }

  /** So folding a packet's entries does its actions, one after the other. */
  lemma {:induction false} FoldDoes(rows: Table, actions: seq<SyncAction>, registry: Registry, clock: seq<int>)
    requires |clock| == |actions|
    ensures DoneAll(actions, registry, clock, rows, Fold(rows, Entries(actions, registry, clock)))
  {
    if actions != [] {
      hide EntryOf, Apply, Done;
      var n := |actions| - 1;
      var es := Entries(actions, registry, clock);
      assert es[..n] == Entries(actions[..n], registry, clock[..n]);
      FoldDoes(rows, actions[..n], registry, clock[..n]);
      EntryDoes(Fold(rows, es[..n]), actions[n], registry, clock[n], Fold(rows, es));
    }
  }

  predicate Stamped(a: SyncAction) {
    a.kind == A ==> ReadArchivedAt(a.data).Some?
  }

  /**
   * Redelivery of a packet is harmless when its archives carry their timestamp: applying the
   * packet again, at any later time, changes no row.
   */
  lemma RedeliveryChangesNothing(rows: Table, actions: seq<SyncAction>, registry: Registry,
                                 first: seq<int>, second: seq<int>)
    requires |first| == |second| == |actions|
    requires forall i :: 0 <= i < |actions| ==> Stamped(actions[i])
    ensures var once := Fold(rows, Entries(actions, registry, first));
            Fold(once, Entries(actions, registry, second)) == once
  {
    var es := Entries(actions, registry, first);
    assert Entries(actions, registry, second) == es;
    assert [] + es + [] == es;
    SliceAbsorbs(rows, [], es, []);
  }

  /** Without the timestamp the clock is written, so a redelivered archive moves the row. */
  lemma RedeliveredArchive(rows: Table, a: SyncAction, registry: Registry, first: int, second: int)
    requires a.kind == A && a.modelName in registry && registry[a.modelName] != ARCHIVED_AT
    ensures var once := Apply(rows, EntryOf(a, registry, first));
            Apply(once, EntryOf(a, registry, second)) == once
            <==> (Stamped(a) || a.Target() !in rows || first == second)
  {
    var k, e, e' := a.Target(), EntryOf(a, registry, first), EntryOf(a, registry, second);
    var once := Apply(rows, e);
    if k in rows {
      assert once[k] == rows[k] + e.changes;
      assert Apply(once, e')[k] == once[k] + e'.changes;
      assert once[k][ARCHIVED_AT] == e.changes[ARCHIVED_AT];
      assert (once[k] + e'.changes)[ARCHIVED_AT] == e'.changes[ARCHIVED_AT];
      if Stamped(a) || first == second {
        assert e == e';
        assert once[k] + e'.changes == once[k];
      }
    }
  }
}
