/**
 * Replacing the local state by a fresh snapshot around a membership change: the durable latch, the
 * snapshot commit, the sanitizing of the outbox, the "bootstrap required" handlers that run at every
 * await in between, and what a crash there leaves.
 */
module Privacy {
  import opened Records
  import opened DeltaApplier
  import opened DeltaStaging
  import opened PendingReplay
  import opened OptimisticView
  import opened Handlers

  datatype ModelRow = ModelRow(modelName: string, data: Fields)

  /** What storage holds between two writes: where a crash can find it. */
  datatype Image = Image(rows: Table, latch: bool, complete: bool, withheld: set<string>, outbox: seq<PendingTx>)

  /** The client may no longer read this transaction's target. */
  predicate Absent(t: PendingTx, rows: Table) {
    t.target !in rows
  }

  /** Rollback data a rejected write could use to bring an unreadable row back. */
  predicate RevealsOnRollback(t: PendingTx) {
    !t.action.I? && t.original.Some?
  }

  /** Every pending transaction without a target is withheld, and cannot restore one (inserts have none to restore). */
  predicate Clean(image: Image) {
    forall i :: 0 <= i < |image.outbox| && Absent(image.outbox[i], image.rows) ==>
      image.outbox[i].id in image.withheld && !RevealsOnRollback(image.outbox[i])
  }

  /** A restart from here goes into quarantine, or has nothing to sanitize. */
  predicate Safe(image: Image) {
    image.latch || Clean(image)
  }

  /** No image from the n-th on is found by a crash with something to sanitize and no latch. */
  predicate SafeSince(images: seq<Image>, n: nat) {
    forall i :: n <= i < |images| ==> Safe(images[i])
  }

  /** The images of one await are those of its first, with the latch or without: safe exactly if the first is. */
  lemma AwaitSafe(before: seq<Image>, images: seq<Image>, first: Image, n: nat)
    requires n <= |before| && before + [first] <= images
    requires forall i :: |before| <= i < |images| ==>
               images[i] == first.(latch := images[i].latch) && (first.latch ==> images[i].latch)
    ensures SafeSince(images, n) <==> SafeSince(before, n) && Safe(first)
  {
    assert images[|before|] == first;
    assert forall i :: 0 <= i < |before| ==> images[i] == before[i];
    if Safe(first) {
      forall i | |before| <= i < |images| ensures Safe(images[i]) {
        assert images[i].latch || Clean(first);
      }
    }
  }

  lemma LatchedSafe(before: seq<Image>, images: seq<Image>, n: nat)
    requires n <= |before| && before <= images
    requires forall i :: |before| <= i < |images| ==> images[i].latch
    ensures SafeSince(images, n) <==> SafeSince(before, n)
  {
    assert forall i :: 0 <= i < |before| ==> images[i] == before[i];
  }

  /** Every pending transaction is withheld and restores nothing, whatever rows there are. */
  predicate Harmless(outbox: seq<PendingTx>, withheld: set<string>) {
    forall i :: 0 <= i < |outbox| ==> outbox[i].id in withheld && !RevealsOnRollback(outbox[i])
  }

  lemma HarmlessIsClean(image: Image)
    ensures Harmless(image.outbox, image.withheld) ==> Clean(image)
    ensures image.rows == map[] && Clean(image) ==> Harmless(image.outbox, image.withheld)
  {
    if image.rows == map[] && Clean(image) {
      forall i | 0 <= i < |image.outbox|
        ensures image.outbox[i].id in image.withheld && !RevealsOnRollback(image.outbox[i]) {
        assert Absent(image.outbox[i], image.rows);
      }
    }
  }

  function Puts(rows: seq<ModelRow>): seq<BatchOp> {
    seq(|rows|, i requires 0 <= i < |rows| => PutOp(rows[i].modelName, rows[i].data))
  }

  /** The table a snapshot stands for. */
  function SnapshotTable(rows: seq<ModelRow>, registry: Registry): Table {
    WriteBatch(map[], registry, Puts(rows))
  }

  function Replayable(ts: seq<PendingTx>, rows: Table): seq<PendingTx> {
    if ts == [] then []
    else Replayable(ts[..|ts| - 1], rows) + (if Absent(ts[|ts| - 1], rows) then [] else [ts[|ts| - 1]])
  }

  function WithheldIds(ts: seq<PendingTx>, rows: Table): set<string> {
    set i | 0 <= i < |ts| && Absent(ts[i], rows) :: ts[i].id
  }

  function ToErase(ts: seq<PendingTx>, rows: Table): set<string> {
    set i | 0 <= i < |ts| && Absent(ts[i], rows) && RevealsOnRollback(ts[i]) :: ts[i].id
  }

  function Erased(t: PendingTx, ids: set<string>): PendingTx {
    if t.id in ids then t.(original := None) else t
  }

  function EraseAll(ts: seq<PendingTx>, ids: set<string>): (r: seq<PendingTx>)
    ensures |r| == |ts|
  {
    seq(|ts|, i requires 0 <= i < |ts| => Erased(ts[i], ids))
  }

  /** Withheld transactions are not replayed, unless their row is visible again. */
  function ExcludeWithheld(ts: seq<PendingTx>, withheld: set<string>, rows: Table): seq<PendingTx> {
    if ts == [] then []
    else
      var t := ts[|ts| - 1];
      ExcludeWithheld(ts[..|ts| - 1], withheld, rows) + (if t.id !in withheld || t.target in rows then [t] else [])
  }

  class LocalState {
    const registry: Registry
    const maps: IdentityMaps
    var rows: Table
    var latch: bool
    var complete: bool
    var synced: bool
    var withheld: set<string>
    var outbox: seq<PendingTx>
    var groupChangePending: bool
    var addedAccessOwed: bool
    /** "bootstrap required" handlers suspended on the latch write they made */
    var handlers: nat
    /** every image a crash could have found, in order */
    ghost var crashPoints: seq<Image>

    constructor (registry: Registry, maps: IdentityMaps)
      ensures this.registry == registry && this.maps == maps && crashPoints == [] && !synced && !addedAccessOwed
      ensures Now() == Image(map[], false, false, {}, []) && HandlerState() == Handling(false, false, 0)
    {
      this.registry, this.maps := registry, maps;
      rows, outbox := map[], [];
      latch, complete, synced, groupChangePending, addedAccessOwed := false, false, false, false, false;
      handlers, withheld, crashPoints := 0, {}, [];
    }

    ghost function Now(): Image
      reads this
    {
      Image(rows, latch, complete, withheld, outbox)
    }

    function HandlerState(): Handling
      reads this
    {
      Handling(latch, groupChangePending, handlers)
    }

    /** A completed snapshot is about to replace what the client already showed. */
    predicate OwesQuarantine()
      reads this
    {
      (complete || synced || rows != map[]) && !groupChangePending && !addedAccessOwed
    }

    /** What a commit has to do under quarantine. */
    predicate Quarantined()
      reads this
    {
      groupChangePending || OwesQuarantine()
    }

    /**
     * An await: a crash may find storage as it is, and other handlers run. One that wakes up sets the
     * flag and empties the maps.
     */
    method Await(answers: seq<bool>, ghost since: nat) returns (ghost emptied: bool)
      requires since <= |crashPoints|
      modifies this`latch, this`groupChangePending, this`handlers, this`crashPoints, maps
      ensures HandlerState() == Answered(old(HandlerState()), answers)
      ensures emptied <==> Wakes(old(HandlerState()), answers)
      ensures old(crashPoints) < crashPoints && crashPoints[|crashPoints| - 1] == Now()
      ensures SafeSince(crashPoints, since) <==> SafeSince(old(crashPoints), since) && Safe(old(Now()))
      ensures forall i :: |old(crashPoints)| <= i < |crashPoints| ==>
                crashPoints[i] == old(Now()).(latch := crashPoints[i].latch) && (old(latch) ==> crashPoints[i].latch)
      ensures (old(latch) ==> latch) && (old(groupChangePending) ==> groupChangePending && latch == old(latch))
      ensures if emptied then maps.rows == map[] && groupChangePending
              else maps.rows == old(maps.rows) && groupChangePending == old(groupChangePending)
      ensures answers == [] ==> !emptied && latch == old(latch) && handlers == old(handlers)
    {
      hide Clean, Answered, Wakes;
      emptied := false;
      crashPoints := crashPoints + [Now()];
      NoAnswer(HandlerState());
      assert answers[..0] == [];
      for i := 0 to |answers|
        invariant HandlerState() == Answered(old(HandlerState()), answers[..i])
        invariant emptied <==> Wakes(old(HandlerState()), answers[..i])
        invariant old(crashPoints) + [old(Now())] <= crashPoints && crashPoints[|crashPoints| - 1] == Now()
        invariant forall i :: |old(crashPoints)| <= i < |crashPoints| ==>
                    crashPoints[i] == old(Now()).(latch := crashPoints[i].latch)
                      && (old(latch) ==> crashPoints[i].latch)
        invariant (old(latch) ==> latch) && (old(groupChangePending) ==> groupChangePending && latch == old(latch))
        invariant if emptied then maps.rows == map[] && groupChangePending
                  else maps.rows == old(maps.rows) && groupChangePending == old(groupChangePending)
        invariant i == 0 ==> !emptied && latch == old(latch) && handlers == old(handlers)
      {
        OneMoreAnswer(old(HandlerState()), answers[..i], answers[i]);
        assert answers[..i + 1] == answers[..i] + [answers[i]];
        if answers[i] {
          if !groupChangePending {
            latch, handlers := true, handlers + 1;
            crashPoints := crashPoints + [Now()];
          }
        } else if handlers > 0 {
          groupChangePending, handlers, emptied := true, handlers - 1, true;
          maps.rows := map[];
        }
      }
      assert answers[..|answers|] == answers;
      AwaitSafe(old(crashPoints), crashPoints, old(Now()), since);
    }

    /** A commit that has to quarantine writes the latch before a row changes, and nothing stays visible. */
    method Quarantine(answers: seq<bool>)
      modifies this`latch, this`groupChangePending, this`handlers, this`crashPoints, maps
      ensures groupChangePending == old(Quarantined())
      ensures old(OwesQuarantine()) ==> latch && maps.rows == map[]
      ensures !old(OwesQuarantine())
              ==> latch == old(latch) && maps.rows == old(maps.rows) && crashPoints == old(crashPoints)
      ensures old(crashPoints) <= crashPoints
      ensures forall i :: |old(crashPoints)| <= i < |crashPoints| ==> crashPoints[i].latch
    {
      if (complete || synced || rows != map[]) && !groupChangePending && !addedAccessOwed {
        latch := true;
        var _ := Await(answers, |crashPoints|);
        groupChangePending := true;
        maps.rows := map[];
      }
    }

    /**
     * The rows of the snapshot, and nothing else, are stored and shown. The latch is not touched, so
     * the images are safe exactly if it was set, or no pending transaction needs it.
     */
    method CommitBootstrapRows(snapshot: seq<ModelRow>, answers: seq<seq<bool>>, ghost since: nat)
      requires |answers| == 2 && since <= |crashPoints|
      requires forall i :: 0 <= i < |snapshot| ==> snapshot[i].modelName in registry
      modifies this, maps
      ensures rows == maps.rows == SnapshotTable(snapshot, registry) && !complete && !synced
      ensures outbox == old(outbox) && withheld == old(withheld) && addedAccessOwed == old(addedAccessOwed)
      ensures (old(latch) ==> latch) && (old(groupChangePending) ==> groupChangePending)
      ensures NoAnswers(answers) ==> latch == old(latch) && groupChangePending == old(groupChangePending)
      ensures old(crashPoints) < crashPoints
      ensures forall i :: |old(crashPoints)| <= i < |crashPoints| ==> !crashPoints[i].complete
      ensures SafeSince(crashPoints, since)
              <==> SafeSince(old(crashPoints), since) && (old(latch) || Harmless(outbox, withheld))
    {
      hide Clean, Harmless, SafeSince, WriteBatch;
      rows, complete, synced := map[], false, false;
      HarmlessIsClean(Now());
      var _ := Await(answers[0], since);
      var ops := Puts(snapshot);
      rows := WriteBatch(rows, registry, ops);
      HarmlessIsClean(Now());
      var _ := Await(answers[1], since);
      var shown := ShownRows(snapshot);
      maps.rows := shown;
    }

    /** What the identity maps take from the snapshot. */
    method ShownRows(snapshot: seq<ModelRow>) returns (shown: Table)
      requires forall i :: 0 <= i < |snapshot| ==> snapshot[i].modelName in registry
      ensures shown == SnapshotTable(snapshot, registry)
    {
      var ops := Puts(snapshot);
      shown := map[];
      for i := 0 to |snapshot|
        invariant shown == WriteBatch(map[], registry, ops[..i])
      {
        assert ops[..i + 1][..i] == ops[..i];
        var id := snapshot[i].data;
        var pk := registry[snapshot[i].modelName];
        if pk in id && id[pk].Text? {
          shown := shown[Key(snapshot[i].modelName, id[pk].s) := id];
        }
      }
      assert ops[..|ops|] == ops;
    }

    /** What the last metadata write leaves of these pending transactions. */
    function SnapshotImage(snapshot: seq<ModelRow>, quarantine: bool): Image
      reads this
    {
      Image(SnapshotTable(snapshot, registry), quarantine, true, withheld, outbox)
    }

    /**
     * commitSnapshot, from its decision to quarantine. Its images are safe exactly if no pending
     * transaction needs the latch; or storage was latched when it was cleared, and the commit is one
     * under quarantine or leaves clean storage. A handler that sets its flag after the maps are
     * filled empties them again.
     */
    method CommitSnapshot(snapshot: seq<ModelRow>, answers: seq<seq<bool>>) returns (ghost emptied: bool)
      requires |answers| == 5
      requires forall i :: 0 <= i < |snapshot| ==> snapshot[i].modelName in registry
      modifies this, maps
      ensures rows == SnapshotTable(snapshot, registry) && maps.rows == (if emptied then map[] else rows)
      ensures complete && synced
      ensures outbox == old(outbox) && withheld == old(withheld) && addedAccessOwed == old(addedAccessOwed)
      ensures old(Quarantined()) ==> latch && groupChangePending
      ensures NoAnswers(answers) ==> !emptied && latch == groupChangePending == old(Quarantined())
      ensures old(crashPoints) < crashPoints
      ensures forall i :: |old(crashPoints)| <= i < |crashPoints| ==>
                || !crashPoints[i].complete || crashPoints[i].rows == rows
                || (old(OwesQuarantine()) && crashPoints[i].latch)
      ensures SafeSince(crashPoints, |old(crashPoints)|) ==> Safe(Now())
      ensures SafeSince(crashPoints, |old(crashPoints)|)
              <==> || Harmless(old(outbox), old(withheld))
                   || ((old(latch) || old(OwesQuarantine())) && Safe(old(SnapshotImage(snapshot, Quarantined()))))
    {
      hide Clean, Harmless, SafeSince, WriteBatch, SnapshotTable;
      ghost var since := |crashPoints|;
      Quarantine(answers[0]);
      NothingSince(old(crashPoints));
      LatchedSafe(old(crashPoints), crashPoints, since);
      var privacyReconcile := groupChangePending;
      CommitBootstrapRows(snapshot, answers[1..3], since);
      HarmlessIsClean(Now());
      HarmlessIsClean(Image(rows, privacyReconcile, true, withheld, outbox));
      emptied := PersistMetadata(privacyReconcile, answers[3..], since);
    }

    /** The models are marked persisted; then the last metadata write keeps the latch exactly under quarantine. */
    method PersistMetadata(privacyReconcile: bool, answers: seq<seq<bool>>, ghost since: nat)
      returns (ghost emptied: bool)
      requires |answers| == 2 && since <= |crashPoints| && !complete
      modifies this, maps
      ensures rows == old(rows) && outbox == old(outbox) && withheld == old(withheld)
      ensures addedAccessOwed == old(addedAccessOwed) && complete && synced
      ensures maps.rows == if emptied then map[] else old(maps.rows)
      ensures privacyReconcile ==> latch && (old(groupChangePending) ==> groupChangePending)
      ensures NoAnswers(answers) ==> !emptied && latch == privacyReconcile
                                     && groupChangePending == (old(groupChangePending) && privacyReconcile)
      ensures old(crashPoints) < crashPoints
      ensures forall i ::
                |old(crashPoints)| <= i < |crashPoints| ==> !crashPoints[i].complete || crashPoints[i].rows == rows
      ensures SafeSince(crashPoints, since)
              <==> SafeSince(old(crashPoints), since) && Safe(old(Now()))
                   && Safe(Image(rows, privacyReconcile, true, withheld, outbox))
    {
      hide Clean, SafeSince, Safe;
      emptied := Await(answers[0], since);
      groupChangePending := groupChangePending && privacyReconcile;
      complete, synced, latch := true, true, privacyReconcile;
      ghost var again := Await(answers[1], since);
      emptied := emptied || again;
    }

    /** Sorts the outbox by whether the target is still shown. */
    method PreparePending(pending: seq<PendingTx>)
      returns (changed: set<string>, replayable: seq<PendingTx>, absent: set<string>)
      ensures changed == ToErase(pending, maps.rows)
      ensures replayable == Replayable(pending, maps.rows)
      ensures absent == WithheldIds(pending, maps.rows)
    {
      changed, replayable, absent := {}, [], {};
      for i := 0 to |pending|
        invariant changed == ToErase(pending[..i], maps.rows)
        invariant replayable == Replayable(pending[..i], maps.rows)
        invariant absent == WithheldIds(pending[..i], maps.rows)
      {
        var tx := pending[i];
        PrepareSnoc(pending[..i], tx, maps.rows);
        assert pending[..i + 1] == pending[..i] + [tx];
        if tx.target in maps.rows {
          replayable := replayable + [tx];
          continue;
        }
        absent := absent + {tx.id};
        if !tx.action.I? && tx.original.Some? {
          changed := changed + {tx.id};
        }
      }
      assert pending[..|pending|] == pending;
    }

    /** updateOutboxTransaction(id, { original: undefined }) for each of the ids: a safe start stays safe. */
    method EraseOriginals(ids: set<string>, ghost since: nat)
      requires since <= |crashPoints|
      modifies this`outbox, this`crashPoints
      ensures outbox == EraseAll(old(outbox), ids)
      ensures old(crashPoints) <= crashPoints && Erasing(old(Now()), crashPoints[|old(crashPoints)|..], ids)
      ensures forall i :: |old(crashPoints)| <= i < |crashPoints| ==> crashPoints[i].rows == rows
      ensures SafeSince(crashPoints, since) ==> SafeSince(old(crashPoints), since)
      ensures Safe(old(Now())) ==> Safe(Now()) && (SafeSince(old(crashPoints), since) ==> SafeSince(crashPoints, since))
    {
      hide Clean, Safe, SafeSince, EraseAll, Erasing;
      var left := ids;
      ghost var images: seq<Image> := [];
      NothingErased(Now());
      assert ids - ids == {} && crashPoints + [] == crashPoints;
      while left != {}
        invariant left <= ids && Now() == old(Now()).(outbox := EraseAll(old(outbox), ids - left))
        invariant crashPoints == old(crashPoints) + images && Erasing(old(Now()), images, ids - left)
      {
        var id :| id in left;
        EraseTwice(old(outbox), ids - left, {id});
        ErasingMore(old(Now()), images, ids - left, id);
        assert (ids - left) + {id} == ids - (left - {id});
        outbox := EraseAll(outbox, {id});
        crashPoints, images := crashPoints + [Now()], images + [Now()];
        left := left - {id};
      }
      assert ids - {} == ids;
      ErasingSafe(old(crashPoints), old(Now()), images, ids, since);
      ErasingRows(old(Now()), images, ids);
      assert crashPoints[|old(crashPoints)|..] == images;
    }

    /**
     * applyPendingOutboxTransactions(true): withhold, erase, persist, then replay what is shown. From
     * its first await on, the images are safe exactly if storage was latched or clean when it began;
     * in the end it is clean.
     */
    method ApplyPendingAfterReplacement(answers: seq<seq<bool>>, ghost since: nat) returns (ghost emptied: bool)
      requires |answers| == 3 && since <= |crashPoints| && maps.rows.Keys <= rows.Keys && groupChangePending
      modifies this, maps
      ensures rows == old(rows) && complete == old(complete) && groupChangePending && latch == old(latch)
      ensures addedAccessOwed == old(addedAccessOwed) && old(crashPoints) < crashPoints
      ensures forall i :: |old(crashPoints)| <= i < |crashPoints| ==> crashPoints[i].rows == rows
      ensures SafeSince(crashPoints, since) <==> SafeSince(old(crashPoints), since) && Safe(old(Now()))
      ensures Clean(Now()) && SameIds(old(outbox), outbox) && old(withheld) <= withheld
      ensures maps.rows.Keys <= rows.Keys
      ensures !emptied ==>
                && outbox == EraseAll(old(outbox), ToErase(old(outbox), old(maps.rows)))
                && withheld == old(withheld) + WithheldIds(old(outbox), old(maps.rows))
                && Shows(maps.rows, old(maps.rows), Replayable(old(outbox), old(maps.rows)))
      ensures emptied ==> OnlyInserts(maps.rows, old(outbox))
      ensures NoAnswers(answers) ==> !emptied
    {
      hide Clean, SafeSince, EraseAll, ToErase, WithheldIds, Replayable, Shows, OnlyInserts, SameIds;
      emptied := Await(answers[0], since);
      var changed, replayable, absent := PreparePending(outbox);
      ghost var seen := maps.rows;
      ghost var again := Sanitize(changed, absent, answers[1..], since, seen);
      ghost var start := maps.rows;
      maps.ApplyPending(replayable);
      ShownAfter(start, maps.rows, replayable);
      ReplayedInserts(start, seen, maps.rows, old(outbox), rows);
      emptied := emptied || again;
    }

    /** The rollback data is erased, then the withheld ids are stored: what is missing in the maps is clean. */
    method Sanitize(changed: set<string>, absent: set<string>, answers: seq<seq<bool>>, ghost since: nat,
                    ghost seen: Table)
      returns (ghost emptied: bool)
      requires |answers| == 2 && since <= |crashPoints| && seen.Keys <= rows.Keys && groupChangePending
      requires changed == ToErase(outbox, seen) && absent == WithheldIds(outbox, seen)
      modifies this, maps
      ensures rows == old(rows) && complete == old(complete) && groupChangePending && latch == old(latch)
      ensures addedAccessOwed == old(addedAccessOwed) && old(crashPoints) <= crashPoints
      ensures forall i :: |old(crashPoints)| <= i < |crashPoints| ==> crashPoints[i].rows == rows
      ensures SafeSince(crashPoints, since) ==> SafeSince(old(crashPoints), since)
      ensures Safe(old(Now())) && SafeSince(old(crashPoints), since) ==> SafeSince(crashPoints, since)
      ensures outbox == EraseAll(old(outbox), changed) && withheld == old(withheld) + absent
      ensures Clean(Now()) && SameIds(old(outbox), outbox)
      ensures maps.rows == if emptied then map[] else old(maps.rows)
      ensures NoAnswers(answers) ==> !emptied
    {
      hide Clean, SafeSince, EraseAll, ToErase, WithheldIds, SameIds;
      EraseOriginals(changed, since);
      emptied := Await(answers[0], since);
      withheld := withheld + absent;
      ErasedIsClean(old(outbox), seen, Now());
      ghost var again := Await(answers[1], since);
      ErasedIsClean(old(outbox), seen, Now());
      emptied := emptied || again;
    }

    /** The reconcile of bootstrapAndResume when the flag is set: sanitize, then clear the latch and the flag. */
    method ReconcilePrivacy(answers: seq<seq<bool>>, ghost since: nat) returns (ghost emptied: bool)
      requires |answers| == 4 && since <= |crashPoints| && maps.rows.Keys <= rows.Keys && groupChangePending
      modifies this, maps
      ensures rows == old(rows) && complete == old(complete) && !groupChangePending && !latch
      ensures addedAccessOwed == old(addedAccessOwed) && old(crashPoints) < crashPoints
      ensures forall i :: |old(crashPoints)| <= i < |crashPoints| ==> crashPoints[i].rows == rows
      ensures SafeSince(crashPoints, since) <==> SafeSince(old(crashPoints), since) && Safe(old(Now()))
      ensures Clean(Now()) && SameIds(old(outbox), outbox) && old(withheld) <= withheld
      ensures maps.rows.Keys <= rows.Keys
      ensures !emptied ==> Shows(maps.rows, old(maps.rows), Replayable(old(outbox), old(maps.rows)))
      ensures emptied ==> OnlyInserts(maps.rows, old(outbox))
      ensures NoAnswers(answers) ==> !emptied
    {
      hide SafeSince, EraseAll, ToErase, WithheldIds, Replayable, Shows, SameIds;
      emptied := ApplyPendingAfterReplacement(answers[..3], since);
      latch := false;
      ghost var again := Await(answers[3], since);
      groupChangePending := false;
      emptied := emptied || again;
    }

    /** And when it is not: the outbox is replayed without what is withheld. */
    method ReplayOutbox(answers: seq<bool>, ghost since: nat) returns (ghost emptied: bool)
      requires since <= |crashPoints|
      modifies this, maps
      ensures rows == old(rows) && outbox == old(outbox) && withheld == old(withheld) && complete == old(complete)
      ensures addedAccessOwed == old(addedAccessOwed) && old(crashPoints) < crashPoints
      ensures forall i :: |old(crashPoints)| <= i < |crashPoints| ==> crashPoints[i].rows == rows
      ensures SafeSince(crashPoints, since) <==> SafeSince(old(crashPoints), since) && Safe(old(Now()))
      ensures !emptied ==> Shows(maps.rows, old(maps.rows), ExcludeWithheld(outbox, withheld, old(maps.rows)))
      ensures !emptied ==> ShowsOutbox(maps.rows, old(maps.rows), outbox, withheld)
      ensures emptied ==> OnlyInserts(maps.rows, outbox)
      ensures answers == [] ==> !emptied && latch == old(latch) && groupChangePending == old(groupChangePending)
    {
      hide SafeSince, Safe, ExcludeWithheld, Shows, ShowsOutbox, OnlyInserts;
      emptied := Await(answers, since);
      ghost var start := maps.rows;
      var replayable := ExcludeWithheld(outbox, withheld, maps.rows);
      maps.ApplyPending(replayable);
      ShownAfter(start, maps.rows, replayable);
      if emptied {
        ExcludedInserts(maps.rows, outbox, withheld);
      } else {
        ShowsPending(maps.rows, start, outbox, withheld);
      }
    }

    /**
     * A whole re-bootstrap, from the decision to quarantine to the last write, with other handlers
     * running at every await. Whatever crash interrupts it, storage is latched or clean, exactly if
     * no pending transaction needs the latch; or storage was latched by the time it was cleared, and
     * the commit is one under quarantine or leaves clean storage. The outbox is sanitized if the flag
     * is set after the commit, which it is at least under quarantine, and storage is clean then; if
     * not, clean storage stays clean exactly if every transaction whose row the snapshot lost was
     * withheld and restores nothing. What is shown is the snapshot with the outbox replayed, unless
     * a handler empties the maps after they are filled: then only pending inserts are shown.
     */
    method Rebootstrap(snapshot: seq<ModelRow>, answers: seq<seq<bool>>)
      returns (ghost reconciled: bool, ghost emptied: bool)
      requires |answers| == 9
      requires forall i :: 0 <= i < |snapshot| ==> snapshot[i].modelName in registry
      modifies this, maps
      ensures rows == SnapshotTable(snapshot, registry) && complete && !addedAccessOwed
      ensures SameIds(old(outbox), outbox) && old(withheld) <= withheld && old(crashPoints) < crashPoints
      ensures SafeSince(crashPoints, |old(crashPoints)|)
              <==> || Harmless(old(outbox), old(withheld))
                   || ((old(latch) || old(OwesQuarantine())) && Safe(old(SnapshotImage(snapshot, Quarantined()))))
      ensures forall i :: |old(crashPoints)| <= i < |crashPoints| ==>
                || !crashPoints[i].complete || crashPoints[i].rows == rows
                || (old(OwesQuarantine()) && crashPoints[i].latch)
      ensures old(Quarantined()) ==> reconciled
      ensures NoAnswers(answers) ==> !emptied && !latch && !groupChangePending && (reconciled ==> old(Quarantined()))
      ensures reconciled ==> Clean(Now()) && !latch && !groupChangePending && maps.rows.Keys <= rows.Keys
      ensures !reconciled ==> outbox == old(outbox) && withheld == old(withheld)
      ensures !reconciled && old(Clean(Now())) ==> (Clean(Now()) <==> LostAreHarmless(old(rows), Now()))
      ensures !emptied ==> Shows(maps.rows, rows, if reconciled then Replayable(old(outbox), rows)
                                                  else ExcludeWithheld(outbox, withheld, rows))
      ensures !emptied && !reconciled ==> ShowsOutbox(maps.rows, rows, outbox, withheld)
      ensures emptied ==> OnlyInserts(maps.rows, old(outbox))
    {
      hide SafeSince, Safe, WriteBatch, SnapshotTable, Replayable, ExcludeWithheld, Shows, ShowsOutbox, OnlyInserts,
           SameIds, Harmless;
      ghost var since := |crashPoints|;
      emptied := CommitSnapshot(snapshot, answers[..5]);
      addedAccessOwed := false;
      reconciled := groupChangePending;
      ghost var again;
      if groupChangePending {
        again := ReconcilePrivacy(answers[5..], since);
      } else {
        again := ReplayOutbox(answers[5], since);
        SameOutbox(outbox);
        LostRows(old(Now()), Now());
      }
      if emptied && !again {
        if reconciled {
          ReplayedInserts(map[], map[], maps.rows, old(outbox), rows);
        } else {
          ExcludedInserts(maps.rows, outbox, withheld);
        }
      }
      emptied := emptied || again;
    }
  }

  /** The rows shown are these rows with these transactions replayed. */
  ghost predicate Shows(shown: Table, rows: Table, ts: seq<PendingTx>) {
    forall k :: Find(shown, k) == Replay(Find(rows, k), On(ts, k))
  }

  /** Every row shown, and every row with nothing withheld, has its whole outbox on it. */
  ghost predicate ShowsOutbox(shown: Table, rows: Table, outbox: seq<PendingTx>, withheld: set<string>) {
    forall k :: k in rows || (forall i :: 0 <= i < |outbox| && outbox[i].target == k ==> outbox[i].id !in withheld) ==>
      Find(shown, k) == Replay(Find(rows, k), On(outbox, k))
  }

  /** Nothing is shown but what a pending insert creates. */
  ghost predicate OnlyInserts(shown: Table, outbox: seq<PendingTx>) {
    forall k :: k in shown ==> exists i :: 0 <= i < |outbox| && outbox[i].target == k && outbox[i].action.I?
  }

  /** Every transaction whose row was stored before and is not any more is withheld and restores nothing. */
  predicate LostAreHarmless(before: Table, image: Image) {
    forall i :: 0 <= i < |image.outbox| && image.outbox[i].target in before && Absent(image.outbox[i], image.rows) ==>
      image.outbox[i].id in image.withheld && !RevealsOnRollback(image.outbox[i])
  }

  predicate SameIds(before: seq<PendingTx>, after: seq<PendingTx>) {
    |after| == |before| && forall i :: 0 <= i < |after| ==> after[i].id == before[i].id
  }

  predicate NoAnswers(answers: seq<seq<bool>>) {
    forall i :: 0 <= i < |answers| ==> answers[i] == []
  }

  lemma PrepareSnoc(ts: seq<PendingTx>, t: PendingTx, rows: Table)
    ensures ToErase(ts + [t], rows)
            == ToErase(ts, rows) + (if Absent(t, rows) && RevealsOnRollback(t) then {t.id} else {})
    ensures Replayable(ts + [t], rows) == Replayable(ts, rows) + (if Absent(t, rows) then [] else [t])
    ensures WithheldIds(ts + [t], rows) == WithheldIds(ts, rows) + (if Absent(t, rows) then {t.id} else {})
  {
    var all := ts + [t];
    assert all[..|ts|] == ts;
    forall id | id in ToErase(ts, rows) ensures id in ToErase(all, rows) {
      var i :| 0 <= i < |ts| && Absent(ts[i], rows) && RevealsOnRollback(ts[i]) && ts[i].id == id;
      assert all[i] == ts[i];
    }
    forall id | id in WithheldIds(ts, rows) ensures id in WithheldIds(all, rows) {
      var i :| 0 <= i < |ts| && Absent(ts[i], rows) && ts[i].id == id;
      assert all[i] == ts[i];
    }
    assert all[|ts|] == t;
  }

  lemma EraseNothing(ts: seq<PendingTx>)
    ensures EraseAll(ts, {}) == ts
  {
  }

  lemma EraseTwice(ts: seq<PendingTx>, a: set<string>, b: set<string>)
    ensures EraseAll(EraseAll(ts, a), b) == EraseAll(ts, a + b)
  {
  }

  lemma ErasedIsClean(before: seq<PendingTx>, seen: Table, image: Image)
    requires image.outbox == EraseAll(before, ToErase(before, seen)) && seen.Keys <= image.rows.Keys
    requires WithheldIds(before, seen) <= image.withheld
    ensures Clean(image) && SameIds(before, image.outbox)
  {
    forall i | 0 <= i < |image.outbox| && Absent(image.outbox[i], image.rows)
      ensures image.outbox[i].id in image.withheld && !RevealsOnRollback(image.outbox[i])
    {
      assert image.outbox[i].id == before[i].id && image.outbox[i].target == before[i].target;
      assert Absent(before[i], seen);
      assert RevealsOnRollback(before[i]) ==> before[i].id in ToErase(before, seen);
    }
  }

  lemma EraseKeepsSafe(image: Image, ids: set<string>)
    ensures Safe(image) ==> Safe(image.(outbox := EraseAll(image.outbox, ids)))
  {
  }

  /** The images of erasing these originals, one after the other. */
  ghost predicate Erasing(start: Image, images: seq<Image>, done: set<string>) {
    if images == [] then done == {}
    else
      var n := |images| - 1;
      && images[n] == start.(outbox := EraseAll(start.outbox, done))
      && exists id :: id in done && Erasing(start, images[..n], done - {id})
  }

  lemma NothingErased(start: Image)
    ensures Erasing(start, [], {}) && start.(outbox := EraseAll(start.outbox, {})) == start
  {
    EraseNothing(start.outbox);
  }

  lemma ErasingMore(start: Image, images: seq<Image>, done: set<string>, id: string)
    requires Erasing(start, images, done) && id !in done
    ensures Erasing(start, images + [start.(outbox := EraseAll(start.outbox, done + {id}))], done + {id})
  {
    hide EraseAll;
    var more := images + [start.(outbox := EraseAll(start.outbox, done + {id}))];
    assert more[..|images|] == images && (done + {id}) - {id} == done;
  }

  lemma {:induction false} ErasingRows(start: Image, images: seq<Image>, done: set<string>)
    requires Erasing(start, images, done)
    ensures |images| == |done| && forall i :: 0 <= i < |images| ==> images[i].rows == start.rows
  {
    hide EraseAll;
    if images != [] {
      var last := |images| - 1;
      var id :| id in done && Erasing(start, images[..last], done - {id});
      ErasingRows(start, images[..last], done - {id});
      assert forall i :: 0 <= i < last ==> images[..last][i] == images[i];
    }
  }

  lemma {:induction false} ErasingSafe(before: seq<Image>, start: Image, images: seq<Image>, done: set<string>, n: nat)
    requires Erasing(start, images, done) && n <= |before|
    ensures Safe(start) ==> Safe(start.(outbox := EraseAll(start.outbox, done)))
    ensures SafeSince(before + images, n) ==> SafeSince(before, n)
    ensures Safe(start) && SafeSince(before, n) ==> SafeSince(before + images, n)
  {
    hide Safe, SafeSince, EraseAll;
    EraseKeepsSafe(start, done);
    if images == [] {
      assert before + images == before;
    } else {
      var last := |images| - 1;
      var id :| id in done && Erasing(start, images[..last], done - {id});
      ErasingSafe(before, start, images[..last], done - {id}, n);
      OneMoreImage(before + images[..last], images[last], n);
      assert before + images == before + images[..last] + [images[last]];
    }
  }

  lemma OneMoreImage(images: seq<Image>, image: Image, n: nat)
    requires n <= |images|
    ensures SafeSince(images + [image], n) <==> SafeSince(images, n) && Safe(image)
  {
    var more := images + [image];
    assert more[|images|] == image;
    assert forall i :: 0 <= i < |images| ==> more[i] == images[i];
  }

  lemma NothingSince(images: seq<Image>)
    ensures SafeSince(images, |images|)
  {
  }

  lemma SameOutbox(ts: seq<PendingTx>)
    ensures SameIds(ts, ts)
  {
  }

  lemma LostRows(before: Image, after: Image)
    requires after.outbox == before.outbox && after.withheld == before.withheld
    ensures Clean(before) ==> (Clean(after) <==> LostAreHarmless(before.rows, after))
  {
  }

  lemma ShownAfter(start: Table, shown: Table, ts: seq<PendingTx>)
    requires forall k :: Find(shown, k) == Replay(Find(start, k), On(ts, k))
    ensures Shows(shown, start, ts)
  {
  }

  lemma {:induction false} OnMembers(ts: seq<PendingTx>, k: Key)
    ensures forall t :: t in On(ts, k) ==> t in ts && t.target == k
  {
    if ts != [] {
      OnMembers(ts[..|ts| - 1], k);
    }
  }

  /**
   * What an ordinary replay takes: every transaction that is not withheld or whose row is visible, no
   * other, each as often as it is in the outbox and in outbox order.
   */
  lemma {:induction false} ReplayedExactly(ts: seq<PendingTx>, withheld: set<string>, rows: Table)
    returns (places: seq<nat>)
    ensures Picks(ts, places, ExcludeWithheld(ts, withheld, rows))
    ensures forall i :: 0 <= i < |ts| ==> (i in places <==> ts[i].id !in withheld || ts[i].target in rows)
  {
    if ts == [] {
      places := [];
    } else {
      var n := |ts| - 1;
      var t := ts[n];
      assert ts == ts[..n] + [t];
      var earlier := ReplayedExactly(ts[..n], withheld, rows);
      var picked := ExcludeWithheld(ts[..n], withheld, rows);
      PickMore(ts[..n], earlier, picked, t);
      assert picked + [] == picked;
      places := if t.id !in withheld || t.target in rows then earlier + [n] else earlier;
    }
  }

  /** On a visible row, and on one with nothing withheld, that is everything pending on it. */
  lemma {:induction false} ReplayedOnRow(ts: seq<PendingTx>, withheld: set<string>, rows: Table, k: Key)
    requires k in rows || forall i :: 0 <= i < |ts| && ts[i].target == k ==> ts[i].id !in withheld
    ensures On(ExcludeWithheld(ts, withheld, rows), k) == On(ts, k)
  {
    if ts != [] {
      var n := |ts| - 1;
      ReplayedOnRow(ts[..n], withheld, rows, k);
      var picked := ExcludeWithheld(ts[..n], withheld, rows);
      assert (picked + [ts[n]])[..|picked|] == picked && picked + [] == picked;
      assert On(ts[..n], k) + [] == On(ts[..n], k);
    }
  }

  lemma ShowsPending(shown: Table, rows: Table, outbox: seq<PendingTx>, withheld: set<string>)
    requires Shows(shown, rows, ExcludeWithheld(outbox, withheld, rows))
    ensures ShowsOutbox(shown, rows, outbox, withheld)
  {
    forall k | k in rows || forall i :: 0 <= i < |outbox| && outbox[i].target == k ==> outbox[i].id !in withheld
      ensures Find(shown, k) == Replay(Find(rows, k), On(outbox, k))
    {
      ReplayedOnRow(outbox, withheld, rows, k);
    }
  }

  /** What a replay after a reconcile takes: every transaction whose row is shown, and no other, in outbox order. */
  lemma {:induction false} ReplayableExactly(ts: seq<PendingTx>, rows: Table) returns (places: seq<nat>)
    ensures Picks(ts, places, Replayable(ts, rows))
    ensures forall i :: 0 <= i < |ts| ==> (i in places <==> ts[i].target in rows)
  {
    if ts == [] {
      places := [];
    } else {
      var n := |ts| - 1;
      var t := ts[n];
      assert ts == ts[..n] + [t];
      var earlier := ReplayableExactly(ts[..n], rows);
      var picked := Replayable(ts[..n], rows);
      PickMore(ts[..n], earlier, picked, t);
      assert picked + [] == picked;
      places := if t.target in rows then earlier + [n] else earlier;
    }
  }

  lemma ReplayableMembers(ts: seq<PendingTx>, rows: Table)
    ensures forall t :: t in Replayable(ts, rows) ==> t in ts && t.target in rows
  {
    var places := ReplayableExactly(ts, rows);
    var picked := Replayable(ts, rows);
    forall t | t in picked ensures t in ts && t.target in rows {
      var i :| 0 <= i < |picked| && picked[i] == t;
      assert places[i] in places;
    }
  }

  lemma ExcludeMembers(ts: seq<PendingTx>, withheld: set<string>, rows: Table)
    ensures forall t :: t in ExcludeWithheld(ts, withheld, rows) ==> t in ts
  {
    var places := ReplayedExactly(ts, withheld, rows);
  }

  /** A row that comes out of nothing was inserted. */
  lemma {:induction false} CreatedByInsert(ts: seq<PendingTx>)
    requires Replay(None, ts).Some?
    ensures exists t :: t in ts && t.action.I?
  {
    var n := |ts| - 1;
    if Replay(None, ts[..n]).Some? {
      CreatedByInsert(ts[..n]);
      var t :| t in ts[..n] && t.action.I?;
      assert t in ts;
    } else {
      assert ts[n] in ts;
    }
  }

  /** Replayed onto empty maps, an outbox shows what its inserts create. */
  lemma EmptiedShows(shown: Table, outbox: seq<PendingTx>, ts: seq<PendingTx>)
    requires Shows(shown, map[], ts) && forall t :: t in ts ==> t in outbox
    ensures OnlyInserts(shown, outbox)
  {
    forall k | k in shown ensures exists i :: 0 <= i < |outbox| && outbox[i].target == k && outbox[i].action.I? {
      assert Find(shown, k).Some?;
      CreatedByInsert(On(ts, k));
      OnMembers(ts, k);
      var t :| t in On(ts, k) && t.action.I?;
      assert t in outbox;
    }
  }

  lemma ExcludedInserts(shown: Table, outbox: seq<PendingTx>, withheld: set<string>)
    requires Shows(shown, map[], ExcludeWithheld(outbox, withheld, map[]))
    ensures OnlyInserts(shown, outbox)
  {
    ExcludeMembers(outbox, withheld, map[]);
    EmptiedShows(shown, outbox, ExcludeWithheld(outbox, withheld, map[]));
  }

  /** What is replayed was shown when the outbox was sorted, so no row beyond the stored ones is shown. */
  lemma ReplayedInserts(start: Table, seen: Table, shown: Table, outbox: seq<PendingTx>, rows: Table)
    requires start == seen || start == map[]
    requires Shows(shown, start, Replayable(outbox, seen)) && seen.Keys <= rows.Keys
    ensures shown.Keys <= rows.Keys
    ensures start == map[] ==> OnlyInserts(shown, outbox)
  {
    var ts := Replayable(outbox, seen);
    ReplayableMembers(outbox, seen);
    if start == map[] {
      EmptiedShows(shown, outbox, ts);
    }
    forall k | k in shown ensures k in rows {
      assert Find(shown, k).Some?;
      if k !in start {
        CreatedByInsert(On(ts, k));
        OnMembers(ts, k);
      }
    }
  }

  lemma {:induction false} ExcludedOn(image: Image, ts: seq<PendingTx>, k: Key)
    requires Clean(image) && forall t :: t in ts ==> t in image.outbox
    ensures k !in image.rows ==> On(ExcludeWithheld(ts, image.withheld, image.rows), k) == []
  {
    if ts != [] {
      var n := |ts| - 1;
      assert ts[n] in image.outbox && forall t :: t in ts[..n] ==> t in ts;
      ExcludedOn(image, ts[..n], k);
      var r := ExcludeWithheld(ts[..n], image.withheld, image.rows);
      assert (r + [ts[n]])[..|r|] == r && r + [] == r;
      var i :| 0 <= i < |image.outbox| && image.outbox[i] == ts[n];
      assert Absent(image.outbox[i], image.rows) ==> ts[n].id in image.withheld;
    }
  }

  /** A start that hydrates from clean storage shows no row beyond the stored ones. */
  lemma HydrationRevealsNothing(image: Image, k: Key)
    requires Clean(image) && k !in image.rows
    ensures Replay(Find(image.rows, k), On(ExcludeWithheld(image.outbox, image.withheld, image.rows), k)) == None
  {
    ExcludedOn(image, image.outbox, k);
  }

  /** Nor does a rejection: over clean storage, no rollback of a pending transaction restores an unreadable row. */
  lemma RollbackRevealsNothing(image: Image, i: nat)
    requires Clean(image) && i < |image.outbox| && Absent(image.outbox[i], image.rows)
    ensures RollbackRow(Find(image.rows, image.outbox[i].target), image.outbox[i]) == None
  {
    assert !RevealsOnRollback(image.outbox[i]);
  }

  /** Erasing is exactly what it takes: with its rollback data kept, a rejected delete brings the row back. */
  lemma UnsanitizedRollbackReveals(t: PendingTx, rows: Table)
    requires Absent(t, rows)
    ensures RollbackRow(Find(rows, t.target), t).Some? <==> t.action.D? && t.original.Some?
  {
  }

  /**
   * Why the reconcile needs its latch: storage that is complete and not latched, with one delete
   * pending on a row the snapshot does not hold, is not safe, and the delete, rejected after a
   * restart from there, brings the row back.
   */
  lemma UnlatchedReconcileExposes(rows: Table, t: PendingTx)
    requires Absent(t, rows) && t.action.D? && t.original.Some?
    ensures !Safe(Image(rows, false, true, {}, [t]))
    ensures RollbackRow(Find(rows, t.target), t) == t.original
  {
    var image := Image(rows, false, true, {}, [t]);
    assert Absent(image.outbox[0], image.rows);
  }
}
