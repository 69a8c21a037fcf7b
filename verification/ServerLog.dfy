/** The server's log as one client sees it, and what replaying a slice does. */
module ServerLog {
  import opened Records

  /**
   * Put, Patch and Delete are the calls the delta applier makes on its target. GroupChange is
   * a membership action: from then on the server authorizes exactly the rows in `visible`.
   * Position i of the log holds the action with sync id i + 1; an id this client never
   * receives is a Gap.
   */
  datatype Entry =
    | Gap
    | Put(key: Key, row: Fields)
    | Patch(key: Key, changes: Fields)
    | Delete(key: Key)
    | GroupChange(visible: Table)

  type Log = seq<Entry>

  function Apply(rows: Table, e: Entry): Table {
    match e
    case Gap => rows
    case Put(k, row) => rows[k := row]
    case Patch(k, changes) => if k in rows then rows[k := rows[k] + changes] else rows
    case Delete(k) => rows - {k}
    case GroupChange(visible) => visible
  }

  function Fold(rows: Table, es: Log): Table {
    if es == [] then rows else Apply(Fold(rows, es[..|es| - 1]), es[|es| - 1])
  }

  /** The rows the server authorizes after its first n ids: what a snapshot at n holds. */
  function Truth(log: Log, n: nat): Table
    requires n <= |log|
  {
    Fold(map[], log[..n])
  }

  /** The effect of a slice on one row: overwrite it whatever it was, or merge into it. */
  datatype Effect = Overwrite(row: Option<Fields>) | Merge(changes: Fields)

  function EntryEffect(e: Entry, k: Key): Effect {
    match e
    case Gap => Merge(map[])
    case Put(k', row) => if k == k' then Overwrite(Some(row)) else Merge(map[])
    case Patch(k', changes) => if k == k' then Merge(changes) else Merge(map[])
    case Delete(k') => if k == k' then Overwrite(None) else Merge(map[])
    case GroupChange(visible) => Overwrite(Find(visible, k))
  }

  function Then(a: Effect, b: Effect): Effect {
    match b
    case Overwrite(_) => b
    case Merge(q) =>
      match a
      case Overwrite(None) => a
      case Overwrite(Some(row)) => Overwrite(Some(row + q))
      case Merge(p) => Merge(p + q)
  }

  function SliceEffect(es: Log, k: Key): Effect {
    if es == [] then Merge(map[]) else Then(SliceEffect(es[..|es| - 1], k), EntryEffect(es[|es| - 1], k))
  }

  function Affect(row: Option<Fields>, e: Effect): Option<Fields> {
    match e
    case Overwrite(r) => r
    case Merge(p) => if row.Some? then Some(row.value + p) else None
  }

  lemma {:induction false} FoldConcat(rows: Table, a: Log, b: Log)
    ensures Fold(rows, a + b) == Fold(Fold(rows, a), b)
  {
    if b == [] {
      assert a + b == a;
    } else {
      assert (a + b)[..|a + b| - 1] == a + b[..|b| - 1];
      FoldConcat(rows, a, b[..|b| - 1]);
    }
  }

  lemma ApplyByRow(rows: Table, e: Entry, k: Key)
    ensures Find(Apply(rows, e), k) == Affect(Find(rows, k), EntryEffect(e, k))
  {
    assert k in rows ==> rows[k] + map[] == rows[k];
  }

  lemma AffectThen(row: Option<Fields>, a: Effect, b: Effect)
    ensures Affect(row, Then(a, b)) == Affect(Affect(row, a), b)
  {
    if a.Merge? && b.Merge? && row.Some? {
      assert row.value + a.changes + b.changes == row.value + (a.changes + b.changes);
    }
  }

  /** Fold is, row by row, the row's slice effect. */
  lemma {:induction false} FoldByRow(rows: Table, es: Log, k: Key)
    ensures Find(Fold(rows, es), k) == Affect(Find(rows, k), SliceEffect(es, k))
  {
    if es == [] {
      assert Find(rows, k).Some? ==> rows[k] + map[] == rows[k];
    } else {
      FoldByRow(rows, es[..|es| - 1], k);
      ApplyByRow(Fold(rows, es[..|es| - 1]), es[|es| - 1], k);
      AffectThen(Find(rows, k), SliceEffect(es[..|es| - 1], k), EntryEffect(es[|es| - 1], k));
    }
  }

  lemma {:induction false} EffectConcat(a: Log, b: Log, k: Key)
    ensures SliceEffect(a + b, k) == Then(SliceEffect(a, k), SliceEffect(b, k))
  {
    if b == [] {
      assert a + b == a;
      var e := SliceEffect(a, k);
      assert e.Merge? ==> e.changes + map[] == e.changes;
      assert e.Overwrite? && e.row.Some? ==> e.row.value + map[] == e.row.value;
    } else {
      assert (a + b)[..|a + b| - 1] == a + b[..|b| - 1];
      EffectConcat(a, b[..|b| - 1], k);
      ThenAssociates(SliceEffect(a, k), SliceEffect(b[..|b| - 1], k), EntryEffect(b[|b| - 1], k));
    }
  }

  lemma ThenAssociates(a: Effect, b: Effect, c: Effect)
    ensures Then(Then(a, b), c) == Then(a, Then(b, c))
  {
    if b.Merge? && c.Merge? {
      assert a.Merge? ==> a.changes + b.changes + c.changes == a.changes + (b.changes + c.changes);
      assert a.Overwrite? && a.row.Some? ==>
          a.row.value + b.changes + c.changes == a.row.value + (b.changes + c.changes);
    }
  }

  /**
   * Replaying part of a slice first and then the whole slice is the same as replaying the
   * slice: the redelivery law. With before == after == [] it says that replaying twice
   * equals replaying once, which is what makes redelivery harmless.
   */
  lemma SliceAbsorbs(rows: Table, before: Log, part: Log, after: Log)
    ensures Fold(Fold(rows, part), before + part + after) == Fold(rows, before + part + after)
  {
    var whole := before + part + after;
    forall k ensures Find(Fold(Fold(rows, part), whole), k) == Find(Fold(rows, whole), k) {
      FoldByRow(rows, part, k);
      FoldByRow(rows, whole, k);
      FoldByRow(Fold(rows, part), whole, k);
      EffectConcat(before + part, after, k);
      EffectConcat(before, part, k);
      AffectAbsorbs(Find(rows, k), SliceEffect(before, k), SliceEffect(part, k), SliceEffect(after, k));
    }
    TablesAgree(Fold(Fold(rows, part), whole), Fold(rows, whole));
  }

  lemma AffectAbsorbs(row: Option<Fields>, before: Effect, part: Effect, after: Effect)
    ensures var whole := Then(Then(before, part), after);
            Affect(Affect(row, part), whole) == Affect(row, whole)
  {
    var whole := Then(Then(before, part), after);
    if whole.Merge? && row.Some? {
      assert row.value + part.changes + whole.changes == row.value + whole.changes;
    }
  }

  lemma SplitSlice(log: Log, a: nat, b: nat, c: nat)
    requires a <= b <= c <= |log|
    ensures log[a..c] == log[a..b] + log[b..c]
  {
  }

  lemma TruthExtends(log: Log, a: nat, b: nat)
    requires a <= b <= |log|
    ensures Fold(Truth(log, a), log[a..b]) == Truth(log, b)
  {
    assert log[..b] == log[..a] + log[a..b];
    FoldConcat(map[], log[..a], log[a..b]);
  }

  /** Appending to the log changes no snapshot already determined. */
  lemma TruthStable(log: Log, more: Log, n: nat)
    requires n <= |log|
    ensures Truth(log + more, n) == Truth(log, n)
  {
    assert (log + more)[..n] == log[..n];
  }
}
