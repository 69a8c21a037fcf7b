/** A packet with its actions against the slice of the log it stands for. */
module DeliveredPackets {
  import opened Records
  import opened ServerLog
  import opened Replica
  import opened SyncClients
  import CatchUp

  /** The packet as it is delivered: the actions of the slice, gaps left out. */
  function Delivered(log: Log, a: nat, b: nat): seq<CatchUp.Action>
    requires a <= b <= |log|
  {
    if a == b then []
    else Delivered(log, a, b - 1) + (if log[b - 1].Gap? then [] else [CatchUp.Action(b, log[b - 1])])
  }

  function Locally(s: State): CatchUp.Local {
    CatchUp.Local(s.disk.rows, s.cursor, s.pending || s.owed)
  }

  /** What the catch-up takes the application of a packet for is what the protocol does with it. */
  lemma CatchUpApplies(s: State, s': State, p: Packet, onlyAddsAccess: bool)
    requires p.after <= p.last <= |s.log| && PacketApplied(s, s', s.snapshot, p, onlyAddsAccess)
    requires !s.pending && !s.owed ==> p.after <= s.cursor
    ensures Locally(s') == CatchUp.ApplyPacket(Locally(s),
                                               CatchUp.DeltaPacket(Delivered(s.log, p.after, p.last), p.last))
  {
    DeliveredGroup(s.log, p.after, p.last);
    if s.cursor <= p.last {
      if !s.pending && !s.owed {
        DeliveredFold(s.disk.rows, s.log, p.after, s.cursor, p.last);
        assert s.cursor == p.last ==> s.log[s.cursor..p.last] == [];
      }
    } else {
      DeliveredStale(s.log, p.after, p.last, s.cursor);
    }
  }

  lemma {:induction false} DeliveredGroup(log: Log, a: nat, b: nat)
    requires a <= b <= |log|
    ensures CatchUp.HasGroupAction(Delivered(log, a, b)) <==> HasGroupChange(log, a, b)
  {
    if a < b {
      DeliveredGroup(log, a, b - 1);
      var last := if log[b - 1].Gap? then [] else [CatchUp.Action(b, log[b - 1])];
      CatchUp.GroupInConcat(Delivered(log, a, b - 1), last);
      assert last != [] ==> last[0].entry == log[b - 1];
      assert HasGroupChange(log, a, b) <==> HasGroupChange(log, a, b - 1) || log[b - 1].GroupChange?;
    }
  }

  lemma {:induction false} DeliveredStale(log: Log, a: nat, b: nat, cursor: nat)
    requires a <= b <= |log| && b <= cursor
    ensures CatchUp.Fresh(Delivered(log, a, b), cursor) == []
  {
    if a < b {
      DeliveredStale(log, a, b - 1, cursor);
      FreshOne(log, a, b, cursor);
    }
  }

  lemma FreshOne(log: Log, a: nat, b: nat, cursor: nat)
    requires a < b <= |log|
    ensures CatchUp.Fresh(Delivered(log, a, b), cursor)
            == CatchUp.Fresh(Delivered(log, a, b - 1), cursor)
              + (if log[b - 1].Gap? || b <= cursor then [] else [log[b - 1]])
  {
    var d := Delivered(log, a, b - 1);
    assert (d + [CatchUp.Action(b, log[b - 1])])[..|d|] == d && d + [] == d;
  }

  /** The fresh actions of a delivered slice do what the slice above the cursor does. */
  lemma {:induction false} DeliveredFold(rows: Table, log: Log, a: nat, cursor: nat, b: nat)
    requires a <= cursor <= b <= |log|
    ensures Fold(rows, CatchUp.Fresh(Delivered(log, a, b), cursor)) == Fold(rows, log[cursor..b])
  {
    hide Fold, CatchUp.Fresh, Delivered;
    if cursor == b {
      DeliveredStale(log, a, b, cursor);
      assert log[cursor..b] == [];
    } else {
      DeliveredFold(rows, log, a, cursor, b - 1);
      FreshOne(log, a, b, cursor);
      var above, one := CatchUp.Fresh(Delivered(log, a, b - 1), cursor), [log[b - 1]];
      assert log[cursor..b] == log[cursor..b - 1] + one;
      FoldConcat(rows, log[cursor..b - 1], one);
      if log[b - 1].Gap? {
        GapsFold(Fold(rows, log[cursor..b - 1]), one);
        assert above + [] == above;
      } else {
        FoldConcat(rows, above, one);
      }
    }
  }
}
