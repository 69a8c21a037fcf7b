/**
 * Transactions in queues: which of them a queue holds, whether it holds one twice, which are
 * left when some are dropped, and whether their batch indices increase. The claimed set, the
 * pending batch, the retry backlog, the batches waiting on the send queue and the batch in
 * flight are all such queues, and the outbox invariants relate their concatenations.
 */
module Queues {

  /** A queued transaction: its clientTxId and the batchIndex stamped on it. */
  datatype Tx = Tx(id: nat, index: nat)

  function Ids(ts: seq<Tx>): set<nat> {
    set t | t in ts :: t.id
  }

  function Flatten(batches: seq<seq<Tx>>): seq<Tx> {
    if batches == [] then [] else batches[0] + Flatten(batches[1..])
  }

  /** `ts.filter(tx => !ids.has(tx.clientTxId))` */
  function Without(ts: seq<Tx>, ids: set<nat>): seq<Tx> {
    if ts == [] then [] else (if ts[0].id in ids then [] else [ts[0]]) + Without(ts[1..], ids)
  }

  lemma {:induction false} WithoutMembers(ts: seq<Tx>, ids: set<nat>)
    ensures forall t :: t in Without(ts, ids) <==> t in ts && t.id !in ids
  {
    if ts != [] {
      WithoutMembers(ts[1..], ids);
    }
  }

  ghost predicate Distinct(ts: seq<Tx>) {
    forall i, j :: 0 <= i < j < |ts| ==> ts[i].id != ts[j].id
  }

  ghost predicate Increasing(ts: seq<Tx>) {
    forall i, j :: 0 <= i < j < |ts| ==> ts[i].index < ts[j].index
  }

  /** a is b with some transactions left out. */
  ghost predicate Sub(a: seq<Tx>, b: seq<Tx>)
    decreases |b|
  {
    || a == []
    || (b != [] && a[0] == b[0] && Sub(a[1..], b[1..]))
    || (b != [] && Sub(a, b[1..]))
  }

  lemma {:induction false} SubRefl(a: seq<Tx>)
    ensures Sub(a, a)
  {
    if a != [] {
      SubRefl(a[1..]);
    }
  }

  lemma {:induction false} SubTrans(a: seq<Tx>, b: seq<Tx>, c: seq<Tx>)
    requires Sub(a, b) && Sub(b, c)
    ensures Sub(a, c)
    decreases |c|
  {
    if a != [] {
      if b[0] == c[0] && Sub(b[1..], c[1..]) {
        if a[0] == b[0] && Sub(a[1..], b[1..]) {
          SubTrans(a[1..], b[1..], c[1..]);
        } else {
          SubTrans(a, b[1..], c[1..]);
        }
      } else {
        SubTrans(a, b, c[1..]);
      }
    }
  }

  lemma {:induction false} SubConcat(a: seq<Tx>, b: seq<Tx>, c: seq<Tx>, d: seq<Tx>)
    requires Sub(a, b) && Sub(c, d)
    ensures Sub(a + c, b + d)
    decreases |b|
  {
    if b == [] {
      assert a + c == c && b + d == d;
    } else if a != [] && a[0] == b[0] && Sub(a[1..], b[1..]) {
      SubConcat(a[1..], b[1..], c, d);
      assert (a + c)[1..] == a[1..] + c && (b + d)[1..] == b[1..] + d;
    } else {
      assert Sub(a, b[1..]);
      SubConcat(a, b[1..], c, d);
      assert (b + d)[1..] == b[1..] + d;
    }
  }

  lemma {:induction false} SubWithout(ts: seq<Tx>, ids: set<nat>)
    ensures Sub(Without(ts, ids), ts)
  {
    if ts != [] {
      SubWithout(ts[1..], ids);
      var w := Without(ts, ids);
      if ts[0].id !in ids {
        assert w[1..] == Without(ts[1..], ids);
      } else {
        assert w == Without(ts[1..], ids);
      }
    }
  }

  lemma {:induction false} SubIn(a: seq<Tx>, b: seq<Tx>, t: Tx)
    requires Sub(a, b) && t in a
    ensures t in b
    decreases |b|
  {
    if a[0] == b[0] && Sub(a[1..], b[1..]) {
      if t != a[0] {
        SubIn(a[1..], b[1..], t);
      }
    } else {
      SubIn(a, b[1..], t);
    }
  }

  lemma SubIds(a: seq<Tx>, b: seq<Tx>)
    requires Sub(a, b)
    ensures Ids(a) <= Ids(b)
  {
    forall t | t in a ensures t.id in Ids(b) {
      SubIn(a, b, t);
    }
  }

  /** Leaving transactions out keeps ids distinct and indices increasing. */
  lemma {:induction false} SubKeeps(a: seq<Tx>, b: seq<Tx>)
    requires Sub(a, b)
    ensures Distinct(b) ==> Distinct(a)
    ensures Increasing(b) ==> Increasing(a)
    decreases |b|
  {
    if a != [] {
      if a[0] == b[0] && Sub(a[1..], b[1..]) {
        SubKeeps(a[1..], b[1..]);
        forall t | t in a[1..] ensures t in b[1..] {
          SubIn(a[1..], b[1..], t);
        }
        if Distinct(b) {
          TailKeeps(b);
          forall j | 1 <= j < |a| ensures a[0].id != a[j].id {
            assert a[j] in a[1..];
          }
          HeadAndTail(a);
        }
        if Increasing(b) {
          TailKeeps(b);
          forall j | 1 <= j < |a| ensures a[0].index < a[j].index {
            assert a[j] in a[1..];
          }
          HeadAndTail(a);
        }
      } else {
        TailKeeps(b);
        SubKeeps(a, b[1..]);
      }
    }
  }

  lemma TailKeeps(b: seq<Tx>)
    requires b != []
    ensures Distinct(b) ==> Distinct(b[1..])
    ensures Increasing(b) ==> Increasing(b[1..])
  {
  }

  lemma HeadAndTail(a: seq<Tx>)
    requires a != []
    ensures Distinct(a[1..]) && (forall j :: 1 <= j < |a| ==> a[0].id != a[j].id) ==> Distinct(a)
    ensures Increasing(a[1..]) && (forall j :: 1 <= j < |a| ==> a[0].index < a[j].index) ==> Increasing(a)
  {
    if Distinct(a[1..]) && (forall j :: 1 <= j < |a| ==> a[0].id != a[j].id) {
      forall i, j | 0 <= i < j < |a| ensures a[i].id != a[j].id {
        if i > 0 {
          assert a[1..][i - 1] == a[i] && a[1..][j - 1] == a[j];
        }
      }
    }
    if Increasing(a[1..]) && (forall j :: 1 <= j < |a| ==> a[0].index < a[j].index) {
      forall i, j | 0 <= i < j < |a| ensures a[i].index < a[j].index {
        if i > 0 {
          assert a[1..][i - 1] == a[i] && a[1..][j - 1] == a[j];
        }
      }
    }
  }

  lemma {:induction false} FlattenConcat(a: seq<seq<Tx>>, b: seq<seq<Tx>>)
    ensures Flatten(a + b) == Flatten(a) + Flatten(b)
  {
    if a == [] {
      assert a + b == b;
    } else {
      FlattenConcat(a[1..], b);
      assert (a + b)[0] == a[0] && (a + b)[1..] == a[1..] + b;
      calc {
        Flatten(a + b);
        a[0] + Flatten(a[1..] + b);
        a[0] + (Flatten(a[1..]) + Flatten(b));
        a[0] + Flatten(a[1..]) + Flatten(b);
      }
    }
  }

  lemma NoIds()
    ensures Ids([]) == {}
  {
  }

  lemma IdsConcat(a: seq<Tx>, b: seq<Tx>)
    ensures Ids(a + b) == Ids(a) + Ids(b)
  {
  }

  /** Two parts of a distinct queue share no transaction. */
  lemma PartsDisjoint(a: seq<Tx>, b: seq<Tx>)
    requires Distinct(a + b)
    ensures Distinct(a) && Distinct(b) && Ids(a) !! Ids(b)
  {
    var c := a + b;
    assert forall i :: 0 <= i < |a| ==> c[i] == a[i];
    assert forall j :: 0 <= j < |b| ==> c[|a| + j] == b[j];
    forall i, j | 0 <= i < j < |b| ensures b[i].id != b[j].id {
      assert c[|a| + i].id != c[|a| + j].id;
    }
    forall t, u | t in a && u in b ensures t.id != u.id {
      var i :| 0 <= i < |a| && a[i] == t;
      var j :| 0 <= j < |b| && b[j] == u;
      assert c[i].id != c[|a| + j].id;
    }
  }

  lemma Join(a: seq<Tx>, b: seq<Tx>)
    requires Distinct(a) && Distinct(b) && Ids(a) !! Ids(b)
    ensures Distinct(a + b)
  {
    var c := a + b;
    forall i, j | 0 <= i < j < |c| ensures c[i].id != c[j].id {
      if i < |a| && |a| <= j {
        assert a[i].id in Ids(a) && b[j - |a|].id in Ids(b);
      }
    }
  }

  lemma {:induction false} WithoutNothing(ts: seq<Tx>, ids: set<nat>)
    requires Ids(ts) !! ids
    ensures Without(ts, ids) == ts
  {
    if ts != [] {
      assert ts[0].id in Ids(ts);
      assert Ids(ts[1..]) <= Ids(ts);
      WithoutNothing(ts[1..], ids);
    }
  }

  lemma WithoutIds(ts: seq<Tx>, ids: set<nat>)
    ensures Ids(Without(ts, ids)) == Ids(ts) - ids
  {
    WithoutMembers(ts, ids);
    var w := Without(ts, ids);
    forall t | t in ts && t.id !in ids ensures t.id in Ids(w) {
      assert t in w;
    }
  }

  lemma {:induction false} SubLength(a: seq<Tx>, b: seq<Tx>)
    requires Sub(a, b)
    ensures |a| <= |b|
    decreases |b|
  {
    if a != [] {
      if a[0] == b[0] && Sub(a[1..], b[1..]) {
        SubLength(a[1..], b[1..]);
      } else {
        SubLength(a, b[1..]);
      }
    }
  }

  lemma {:induction false} WithoutShrinks(ts: seq<Tx>, ids: set<nat>, id: nat)
    requires id in ids && id in Ids(ts)
    ensures |Without(ts, ids)| < |ts|
  {
    SubWithout(ts[1..], ids);
    SubLength(Without(ts[1..], ids), ts[1..]);
    if ts[0].id !in ids {
      var t :| t in ts && t.id == id;
      assert t in ts[1..];
      WithoutShrinks(ts[1..], ids, id);
    }
  }
}
