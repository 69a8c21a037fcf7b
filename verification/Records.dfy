/** Rows as the client stores them: one record of named fields per model instance. */
module Records {

  datatype Option<+T> = None | Some(value: T) {
    predicate IsFailure() {
      None?
    }

    function PropagateFailure<U>(): Option<U>
      requires None?
    {
      None
    }

    function Extract(): T
      requires Some?
    {
      value
    }
  }

  datatype Value = Null | Number(n: int) | Text(s: string)

  /** A record; a field that is not a key has no value (JavaScript's undefined). */
  type Fields = map<string, Value>

  function ValueOf(row: Fields, f: string): Option<Value> {
    if f in row then Some(row[f]) else None
  }

  lemma FieldsAgree(x: Fields, y: Fields)
    requires forall f :: ValueOf(x, f) == ValueOf(y, f)
    ensures x == y
  {
    forall f ensures f in x <==> f in y {
      assert ValueOf(x, f) == ValueOf(y, f);
    }
    assert x.Keys == y.Keys;
    forall f | f in x ensures x[f] == y[f] {
      assert ValueOf(x, f) == ValueOf(y, f);
    }
  }

  datatype Key = Key(modelName: string, id: string)

  type Table = map<Key, Fields>

  function Find(rows: Table, k: Key): Option<Fields> {
    if k in rows then Some(rows[k]) else None
  }

  function Max(a: nat, b: nat): nat {
    if a >= b then a else b
  }

  lemma TablesAgree(a: Table, b: Table)
    requires forall k :: Find(a, k) == Find(b, k)
    ensures a == b
  {
    forall k ensures k in a <==> k in b {
      assert Find(a, k) == Find(b, k);
    }
    assert a.Keys == b.Keys;
    forall k | k in a ensures a[k] == b[k] {
      assert Find(a, k) == Find(b, k);
    }
  }

  /** `picked` is what `ts` has at these places, in order. */
  ghost predicate Picks<T>(ts: seq<T>, places: seq<nat>, picked: seq<T>) {
    && |places| == |picked|
    && (forall i :: 0 <= i < |places| ==> places[i] < |ts| && ts[places[i]] == picked[i])
    && forall i, j :: 0 <= i < j < |places| ==> places[i] < places[j]
  }

  lemma PickMore<T>(ts: seq<T>, places: seq<nat>, picked: seq<T>, t: T)
    requires Picks(ts, places, picked)
    ensures Picks(ts + [t], places, picked) && Picks(ts + [t], places + [|ts|], picked + [t])
  {
    assert forall i :: 0 <= i < |ts| ==> (ts + [t])[i] == ts[i];
  }

  function Shifted(places: seq<nat>): (r: seq<nat>)
    ensures |r| == |places| && forall i :: 0 <= i < |r| ==> r[i] == places[i] + 1
  {
    seq(|places|, i requires 0 <= i < |places| => places[i] + 1)
  }

  lemma PickAfter<T>(t: T, ts: seq<T>, places: seq<nat>, picked: seq<T>)
    requires Picks(ts, places, picked)
    ensures Picks([t] + ts, Shifted(places), picked)
  {
    hide Shifted;
    forall i | 0 <= i < |places| ensures ([t] + ts)[places[i] + 1] == picked[i] {
      assert ts[places[i]] == picked[i];
    }
  }

  lemma PickInFront<T>(t: T, ts: seq<T>, places: seq<nat>, picked: seq<T>)
    requires Picks(ts, places, picked)
    ensures Picks([t] + ts, [0] + Shifted(places), [t] + picked)
  {
    hide Shifted;
    PickAfter(t, ts, places, picked);
    var all := [0] + Shifted(places);
    forall i | 0 <= i < |all| ensures all[i] < |[t] + ts| && ([t] + ts)[all[i]] == ([t] + picked)[i] {
      if i > 0 {
        assert all[i] == Shifted(places)[i - 1];
      }
    }
    forall i, j | 0 <= i < j < |all| ensures all[i] < all[j] {
      assert all[j] == Shifted(places)[j - 1] == places[j - 1] + 1;
      assert i > 0 ==> all[i] == Shifted(places)[i - 1];
    }
  }

  lemma ShiftedHas(places: seq<nat>, i: nat)
    ensures (i + 1 in Shifted(places) <==> i in places) && 0 !in Shifted(places)
  {
    if i in places {
      var j :| 0 <= j < |places| && places[j] == i;
      assert Shifted(places)[j] == i + 1;
    }
  }

  /** One more in front, picked or not. */
  lemma PickFront<T>(ts: seq<T>, rest: seq<nat>, kept: seq<T>, keep: bool) returns (places: seq<nat>)
    requires ts != [] && Picks(ts[1..], rest, kept)
    ensures Picks(ts, places, if keep then [ts[0]] + kept else kept)
    ensures (0 in places <==> keep) && forall i :: 0 < i < |ts| ==> (i in places <==> i - 1 in rest)
  {
    hide Picks, Shifted;
    assert ts == [ts[0]] + ts[1..];
    PickAfter(ts[0], ts[1..], rest, kept);
    PickInFront(ts[0], ts[1..], rest, kept);
    places := if keep then [0] + Shifted(rest) else Shifted(rest);
    ShiftedHas(rest, 0);
    forall i | 0 < i < |ts| ensures i in places <==> i - 1 in rest {
      ShiftedHas(rest, i - 1);
    }
  }

  /** A packet of actions: the slice (after, last] of the server's log. */
  datatype Packet = Packet(after: nat, last: nat)
}
