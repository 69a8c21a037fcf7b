/**
 * Replaying the outbox onto the identity maps: forward re-application of the pending
 * transactions, in outbox order, and why doing it again changes nothing.
 */
module PendingReplay {
  import opened Records
  import opened DeltaApplier

  datatype Draft = Draft(id: string, action: ActionKind, target: Key, payload: Fields, original: Option<Fields>)

  /** Transactions as they are created: an archive stamps its payload, an unarchive has none. */
  predicate Created(t: Draft) {
    && (t.action.I? || t.action.U? || t.action.D? || t.action.A? || t.action.V?)
    && (t.action.A? ==> t.payload.Keys == {ARCHIVED_AT} && ReadArchivedAt(t.payload).Some?)
    && (t.action.V? ==> t.payload == map[])
  }

  type PendingTx = t: Draft | Created(t) witness Draft("", U, Key("", ""), map[], None)

  /** The fields a transaction writes. */
  function TxEffect(t: PendingTx): Fields {
    match t.action
    case A => CreateArchivePayload(ReadArchivedAt(t.payload), 0)
    case V => UNARCHIVE_PATCH
    case _ => t.payload
  }

  function ReplayRow(row: Option<Fields>, t: PendingTx): Option<Fields> {
    match t.action
    case I => if row.Some? then row else Some(t.payload)
    case D => None
    case _ => if row.Some? then Some(row.value + TxEffect(t)) else None
  }

  /** What a replayed transaction leaves of its row, field by field. */
  ghost predicate Replayed(t: PendingTx, before: Option<Fields>, after: Option<Fields>) {
    match t.action
    case I => after == if before.Some? then before else Some(t.payload)
    case D => after.None?
    case _ =>
      after.Some? == before.Some? &&
      (before.Some? ==>
         forall f :: ValueOf(after.value, f)
                     == if t.action.V? && f == "archivedAt" then Some(Null)
                        else if f in t.payload then Some(t.payload[f])
                        else ValueOf(before.value, f))
  }

  lemma ReplayReads(row: Option<Fields>, t: PendingTx)
    ensures Replayed(t, row, ReplayRow(row, t))
  {
  }

  function Replay(row: Option<Fields>, ts: seq<PendingTx>): Option<Fields> {
    if ts == [] then row else ReplayRow(Replay(row, ts[..|ts| - 1]), ts[|ts| - 1])
  }

  /** The transactions on one row, in outbox order. */
  function On(ts: seq<PendingTx>, k: Key): seq<PendingTx> {
    if ts == [] then []
    else On(ts[..|ts| - 1], k) + (if ts[|ts| - 1].target == k then [ts[|ts| - 1]] else [])
  }

  /** On picks exactly the transactions on the row. */
  lemma {:induction false} OnExactly(ts: seq<PendingTx>, k: Key) returns (places: seq<nat>)
    ensures Picks(ts, places, On(ts, k))
    ensures forall i :: 0 <= i < |ts| ==> (i in places <==> ts[i].target == k)
  {
    if ts == [] {
      places := [];
    } else {
      var n := |ts| - 1;
      assert ts == ts[..n] + [ts[n]];
      var earlier := OnExactly(ts[..n], k);
      PickMore(ts[..n], earlier, On(ts[..n], k), ts[n]);
      assert On(ts[..n], k) + [] == On(ts[..n], k);
      places := if ts[n].target == k then earlier + [n] else earlier;
    }
  }

  /** The identity maps, as one table. */
  class IdentityMaps {
    var rows: Table

    constructor (rows: Table)
      ensures this.rows == rows
    {
      this.rows := rows;
    }

    /** Merges into the instance, or creates it. */
    method Merge(k: Key, data: Fields)
      modifies this
      ensures rows == old(rows)[k := if k in old(rows) then old(rows)[k] + data else data]
    {
      rows := rows[k := if k in rows then rows[k] + data else data];
    }

    method Remove(k: Key)
      modifies this
      ensures rows == old(rows) - {k}
    {
      rows := rows - {k};
    }

    method ReplayOne(t: PendingTx)
      modifies this
      ensures forall k ::
                Find(rows, k) == if k == t.target then ReplayRow(Find(old(rows), k), t) else Find(old(rows), k)
      ensures Replayed(t, Find(old(rows), t.target), Find(rows, t.target))
    {
      hide Replayed;
      ReplayReads(Find(rows, t.target), t);
      match t.action {
        case I => if t.target !in rows { Merge(t.target, t.payload); }
        case U => if t.target in rows { Merge(t.target, t.payload); }
        case D => Remove(t.target);
        case A => if t.target in rows { Merge(t.target, CreateArchivePayload(ReadArchivedAt(t.payload), 0)); }
        case V => if t.target in rows { Merge(t.target, UNARCHIVE_PATCH); }
        case _ =>
      }
    }

    /** Each row ends as the replay of its own transactions, whatever the others do. */
    method ApplyPending(pending: seq<PendingTx>)
      modifies this
      ensures forall k :: Find(rows, k) == Replay(Find(old(rows), k), On(pending, k))
    {
      for i := 0 to |pending|
        invariant forall k :: Find(rows, k) == Replay(Find(old(rows), k), On(pending[..i], k))
      {
        ReplayOne(pending[i]);
        OnSnoc(pending[..i], pending[i]);
        assert pending[..i + 1] == pending[..i] + [pending[i]];
      }
      assert pending[..|pending|] == pending;
    }
  }

  lemma OnSnoc(ts: seq<PendingTx>, t: PendingTx)
    ensures forall k :: On(ts + [t], k) == On(ts, k) + (if t.target == k then [t] else [])
    ensures forall row, k :: Replay(row, On(ts + [t], k))
                             == if t.target == k then ReplayRow(Replay(row, On(ts, k)), t) else Replay(row, On(ts, k))
  {
    assert (ts + [t])[..|ts|] == ts;
    forall row, k
      ensures Replay(row, On(ts + [t], k))
              == if t.target == k then ReplayRow(Replay(row, On(ts, k)), t) else Replay(row, On(ts, k))
    {
      var before := On(ts, k);
      assert (before + [t])[..|before|] == before;
      assert before + [] == before;
    }
  }

  // ---- idempotence

  predicate Deletes(ts: seq<PendingTx>) {
    exists i :: 0 <= i < |ts| && ts[i].action.D?
  }

  predicate Inserts(ts: seq<PendingTx>) {
    exists i :: 0 <= i < |ts| && ts[i].action.I?
  }

  /** Inserts find no row, everything else finds one, each at its point in the replay. */
  predicate WellFormed(row: Option<Fields>, ts: seq<PendingTx>) {
    ts == [] ||
    var n := |ts| - 1;
    WellFormed(row, ts[..n]) && (ts[n].action.I? <==> Replay(row, ts[..n]).None?)
  }

  lemma {:induction false} ReplayConcat(row: Option<Fields>, a: seq<PendingTx>, b: seq<PendingTx>)
    ensures Replay(row, a + b) == Replay(Replay(row, a), b)
  {
    if b == [] {
      assert a + b == a;
    } else {
      assert (a + b)[..|a + b| - 1] == a + b[..|b| - 1];
      ReplayConcat(row, a, b[..|b| - 1]);
    }
  }

  /** A delete forgets where the replay started. */
  lemma {:induction false} DeleteForgets(x: Option<Fields>, y: Option<Fields>, ts: seq<PendingTx>)
    requires Deletes(ts)
    ensures Replay(x, ts) == Replay(y, ts)
  {
    var n := |ts| - 1;
    if !ts[n].action.D? {
      var i :| 0 <= i < |ts| && ts[i].action.D?;
      assert ts[..n][i] == ts[i];
      DeleteForgets(x, y, ts[..n]);
    }
  }

  function MergeAll(base: Fields, patches: seq<Fields>): Fields {
    if patches == [] then base else MergeAll(base, patches[..|patches| - 1]) + patches[|patches| - 1]
  }

  /** What the last patch to write a field writes. */
  function LastWrite(patches: seq<Fields>, f: string): Option<Value> {
    if patches == [] then None
    else if f in patches[|patches| - 1] then Some(patches[|patches| - 1][f])
    else LastWrite(patches[..|patches| - 1], f)
  }

  function Or(a: Option<Value>, b: Option<Value>): Option<Value> {
    if a.Some? then a else b
  }

  lemma {:induction false} MergeAllByField(base: Fields, patches: seq<Fields>, f: string)
    ensures ValueOf(MergeAll(base, patches), f) == Or(LastWrite(patches, f), ValueOf(base, f))
  {
    if patches != [] {
      MergeAllByField(base, patches[..|patches| - 1], f);
    }
  }

  lemma {:induction false} LastWriteConcat(a: seq<Fields>, b: seq<Fields>, f: string)
    ensures LastWrite(a + b, f) == Or(LastWrite(b, f), LastWrite(a, f))
  {
    if b == [] {
      assert a + b == a;
    } else {
      assert (a + b)[..|a + b| - 1] == a + b[..|b| - 1];
      LastWriteConcat(a, b[..|b| - 1], f);
    }
  }

  lemma {:induction false} MergeAllConcat(base: Fields, a: seq<Fields>, b: seq<Fields>)
    ensures MergeAll(base, a + b) == MergeAll(MergeAll(base, a), b)
  {
    if b == [] {
      assert a + b == a;
    } else {
      assert (a + b)[..|a + b| - 1] == a + b[..|b| - 1];
      MergeAllConcat(base, a, b[..|b| - 1]);
    }
  }

  function Effects(ts: seq<PendingTx>): (es: seq<Fields>)
    ensures |es| == |ts|
  {
    seq(|ts|, i requires 0 <= i < |ts| => TxEffect(ts[i]))
  }

  lemma EffectsConcat(a: seq<PendingTx>, b: seq<PendingTx>)
    ensures Effects(a + b) == Effects(a) + Effects(b)
  {
  }

  /** On a present row, transactions that neither insert nor delete are merges. */
  lemma {:induction false} ReplayMerges(row: Fields, ts: seq<PendingTx>)
    requires !Deletes(ts) && !Inserts(ts)
    ensures Replay(Some(row), ts) == Some(MergeAll(row, Effects(ts)))
  {
    if ts != [] {
      var n := |ts| - 1;
      ReplayMerges(row, ts[..n]);
      assert Effects(ts)[..n] == Effects(ts[..n]);
    }
  }

  /** Without a delete, a present row sees no insert, and an absent one exactly the first. */
  lemma {:induction false} InsertComesFirst(row: Option<Fields>, ts: seq<PendingTx>)
    requires WellFormed(row, ts) && !Deletes(ts)
    ensures row.Some? ==> !Inserts(ts)
    ensures row.None? && ts != [] ==> ts[0].action.I? && !Inserts(ts[1..])
    ensures row.Some? || ts != [] ==> Replay(row, ts).Some?
  {
    if ts != [] {
      var n := |ts| - 1;
      forall i | 0 <= i < n ensures !ts[..n][i].action.D? {
        assert ts[..n][i] == ts[i];
      }
      InsertComesFirst(row, ts[..n]);
      if row.Some? {
        forall i | 0 <= i < |ts| ensures !ts[i].action.I? {
          assert i < n ==> ts[..n][i] == ts[i];
        }
      } else {
        assert n > 0 ==> ts[..n][0] == ts[0];
        forall i | 0 <= i < |ts[1..]| ensures !ts[1..][i].action.I? {
          assert ts[1..][i] == ts[i + 1];
          assert i + 1 < n ==> ts[..n][1..][i] == ts[i + 1];
        }
      }
    }
  }

  lemma NoDeleteInPart(ts: seq<PendingTx>, part: seq<PendingTx>)
    requires !Deletes(ts) && forall i :: 0 <= i < |part| ==> part[i] in ts
    ensures !Deletes(part)
  {
  }

  lemma OneReplay(row: Option<Fields>, t: PendingTx)
    ensures Replay(row, [t]) == ReplayRow(row, t)
    ensures forall base :: MergeAll(base, Effects([t])) == base + TxEffect(t)
  {
    assert [t][..0] == [];
    assert Effects([t])[..0] == [];
  }

  /** An insert and what follows it, on an absent row. */
  lemma ReplayFromNothing(t: PendingTx, rest: seq<PendingTx>)
    requires t.action.I? && !Deletes(rest) && !Inserts(rest)
    ensures Replay(None, [t] + rest) == Some(MergeAll(map[], Effects([t] + rest)))
  {
    hide Deletes, Inserts;
    ReplayConcat(None, [t], rest);
    OneReplay(None, t);
    ReplayMerges(t.payload, rest);
    EffectsConcat([t], rest);
    MergeAllConcat(map[], Effects([t]), Effects(rest));
    assert map[] + t.payload == t.payload;
  }

  /** What a replay without deletes amounts to, insert included. */
  lemma ReplayIsMerge(row: Option<Fields>, ts: seq<PendingTx>)
    requires WellFormed(row, ts) && !Deletes(ts) && (row.Some? || ts != [])
    ensures Replay(row, ts) == Some(MergeAll(if row.Some? then row.value else map[], Effects(ts)))
  {
    InsertComesFirst(row, ts);
    if row.Some? {
      ReplayMerges(row.value, ts);
    } else {
      assert ts == [ts[0]] + ts[1..];
      NoDeleteInPart(ts, ts[1..]);
      ReplayFromNothing(ts[0], ts[1..]);
    }
  }

  /** Merging in what is already there changes nothing. */
  lemma MergeAgain(row: Fields, patches: seq<Fields>)
    requires forall f :: LastWrite(patches, f).Some? ==> ValueOf(row, f) == LastWrite(patches, f)
    ensures MergeAll(row, patches) == row
  {
    forall f ensures ValueOf(MergeAll(row, patches), f) == ValueOf(row, f) {
      MergeAllByField(row, patches, f);
    }
    FieldsAgree(MergeAll(row, patches), row);
  }

  /**
   * Replaying a well-formed outbox onto a row that already carries it changes nothing, an
   * insert after a delete of the same id included.
   */
  lemma ReplayIsIdempotent(row: Option<Fields>, ts: seq<PendingTx>)
    requires WellFormed(row, ts)
    ensures Replay(Replay(row, ts), ts) == Replay(row, ts)
  {
    if Deletes(ts) {
      DeleteForgets(Replay(row, ts), row, ts);
    } else if ts != [] {
      ReplayIsMerge(row, ts);
      InsertComesFirst(row, ts);
      var base := if row.Some? then row.value else map[];
      var once := MergeAll(base, Effects(ts));
      var first := if row.Some? then [] else [ts[0]];
      var rest := if row.Some? then ts else ts[1..];
      assert ts == first + rest;
      NoDeleteInPart(ts, rest);
      assert first[..0] == [];
      assert row.Some? ==> Replay(Some(once), first) == Some(once);
      assert row.None? ==> Replay(Some(once), first) == ReplayRow(Some(once), ts[0]) == Some(once);
      ReplayConcat(Some(once), first, rest);
      ReplayMerges(once, rest);
      forall f | LastWrite(Effects(rest), f).Some? ensures ValueOf(once, f) == LastWrite(Effects(rest), f) {
        MergeAllByField(base, Effects(ts), f);
        EffectsConcat(first, rest);
        LastWriteConcat(Effects(first), Effects(rest), f);
      }
      MergeAgain(once, Effects(rest));
    }
  }
}
