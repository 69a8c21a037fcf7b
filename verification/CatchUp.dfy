/**
 * The paged catch-up: pages are buffered and applied as one merged packet, up to a cap. What it
 * hands on, when it stops, and when merging is invisible.
 */
module CatchUp {
  import opened Records
  import opened ServerLog
  import opened Gates

  const COALESCED_CATCH_UP_ACTION_LIMIT := 10_000

  datatype Action = Action(id: nat, entry: Entry)

  /** A packet with its actions, as a page brings it. */
  datatype DeltaPacket = DeltaPacket(actions: seq<Action>, lastSyncId: nat)

  /** What one fetch comes back with. `active`: the run that asked is still the current one. */
  datatype Answer =
    | Page(packet: DeltaPacket, hasMore: bool, active: bool)
    | NoPage(active: bool)
    | Failure

  /** The slice (after, lastSyncId] of a log of length head, ids ascending. */
  predicate IsPage(p: DeltaPacket, after: nat, head: nat) {
    && after <= p.lastSyncId <= head
    && (forall i :: 0 <= i < |p.actions| ==> after < p.actions[i].id <= p.lastSyncId)
    && forall i, j :: 0 <= i < j < |p.actions| ==> p.actions[i].id < p.actions[j].id
  }

  predicate GoodAnswer(a: Answer, after: nat, head: nat) {
    a.Page? ==> IsPage(a.packet, after, head)
  }

  function AllActions(pages: seq<DeltaPacket>): seq<Action> {
    if pages == [] then [] else AllActions(pages[..|pages| - 1]) + pages[|pages| - 1].actions
  }

  function Join(chunks: seq<seq<DeltaPacket>>): seq<DeltaPacket> {
    if chunks == [] then [] else Join(chunks[..|chunks| - 1]) + chunks[|chunks| - 1]
  }

  /** The packet a buffered run of pages is applied as. */
  function Merged(pages: seq<DeltaPacket>): DeltaPacket {
    DeltaPacket(AllActions(pages), if pages == [] then 0 else pages[|pages| - 1].lastSyncId)
  }

  function MergeEach(chunks: seq<seq<DeltaPacket>>): seq<DeltaPacket> {
    if chunks == [] then [] else MergeEach(chunks[..|chunks| - 1]) + [Merged(chunks[|chunks| - 1])]
  }

  /** Each page starts where the one before ended. */
  predicate Consecutive(pages: seq<DeltaPacket>, after: nat, head: nat) {
    pages == [] ||
    var n := |pages| - 1;
    Consecutive(pages[..n], after, head) && IsPage(pages[n], EndOf(pages[..n], after), head)
  }

  function EndOf(pages: seq<DeltaPacket>, after: nat): nat {
    if pages == [] then after else pages[|pages| - 1].lastSyncId
  }

  /**
   * The pages are what the fetches brought: each was asked for where the one before ended, while the
   * run was the current one, and after each of the first m there was more and the cursor had moved.
   */
  ghost predicate Fetched(pages: seq<DeltaPacket>, m: int, answers: (nat, nat) -> Answer, after: nat) {
    forall i :: 0 <= i < |pages| ==>
      var a := answers(i, EndOf(pages[..i], after));
      && a.Page? && a.active && a.packet == pages[i]
      && (i < m ==> a.hasMore && pages[i].lastSyncId > EndOf(pages[..i], after))
  }

  /**
   * Where paging stops: at an answer without a page, or not for this run; or at the last page read.
   * It is a success there only if that page is the last one or does not move the cursor.
   */
  ghost predicate Stops(pages: seq<DeltaPacket>, ok: bool, reason: Answer, answers: (nat, nat) -> Answer, after: nat) {
    if reason.Page? && reason.active then
      var n := |pages| - 1;
      && n >= 0 && Fetched(pages, n, answers, after) && reason == answers(n, EndOf(pages[..n], after))
      && (ok ==> !reason.hasMore || reason.packet.lastSyncId <= EndOf(pages[..n], after))
    else Fetched(pages, |pages|, answers, after) && reason == answers(|pages|, EndOf(pages, after))
  }

  /** Each chunk was below the cap before its last page. */
  predicate Capped(chunks: seq<seq<DeltaPacket>>) {
    forall i :: 0 <= i < |chunks| ==>
      chunks[i] != [] && |AllActions(chunks[i][..|chunks[i]| - 1])| < COALESCED_CATCH_UP_ACTION_LIMIT
  }

  /** And it reached the cap, unless nothing follows it. */
  predicate Filled(chunks: seq<seq<DeltaPacket>>, more: bool) {
    forall i :: 0 <= i < |chunks| && (i < |chunks| - 1 || more) ==>
      |AllActions(chunks[i])| >= COALESCED_CATCH_UP_ACTION_LIMIT
  }

  class Pager {
    const gate: Gate
    var catchingUp: bool
    /** the packets handed to the packet queue */
    var enqueued: seq<DeltaPacket>

    constructor (gate: Gate)
      ensures this.gate == gate && !catchingUp && enqueued == []
    {
      this.gate := gate;
      catchingUp, enqueued := false, [];
    }

    /** Hands the buffer on as one packet; applying it may fail. */
    method Flush(actions: seq<Action>, lastSyncId: nat, accepted: bool, ghost chunks: seq<seq<DeltaPacket>>,
                 ghost buffered: seq<DeltaPacket>)
      returns (ok: bool, ghost all: seq<seq<DeltaPacket>>)
      requires DeltaPacket(actions, lastSyncId) == Merged(buffered)
      modifies this`enqueued
      ensures all == chunks + [buffered] && ok == accepted
      ensures forall before :: old(enqueued) == before + MergeEach(chunks) ==> enqueued == before + MergeEach(all)
    {
      hide Merged;
      enqueued := enqueued + [DeltaPacket(actions, lastSyncId)];
      ok, all := accepted, chunks + [buffered];
      assert all[..|chunks|] == chunks;
    }

    /** The first page that has a successor closes the gate. */
    method HoldGate(release: Hold?) returns (r: Hold)
      requires gate.Valid() && release == null
      modifies this`catchingUp, gate
      ensures gate.Valid() && fresh(r) && gate.live == old(gate.live) + {r} && catchingUp
    {
      r := gate.TakeHold();
      catchingUp := true;
    }

    /** The paging loop; the gate, once closed, is left to the caller to open. */
    method ReadPages(afterSyncId: nat, head: nat, answers: (nat, nat) -> Answer, accepts: nat -> bool)
      returns (release: Hold?, ok: bool, ghost chunks: seq<seq<DeltaPacket>>, ghost dropped: seq<DeltaPacket>,
               ghost reason: Answer)
      requires gate.Valid() && afterSyncId <= head
      requires forall n: nat, after: nat :: GoodAnswer(answers(n, after), after, head)
      modifies this, gate
      ensures gate.Valid()
      ensures release == null ==> gate.live == old(gate.live) && catchingUp == old(catchingUp)
      ensures release != null ==> fresh(release) && gate.live == old(gate.live) + {release} && catchingUp
      ensures enqueued == old(enqueued) + MergeEach(chunks)
      ensures Finished(chunks, dropped, ok, reason, release != null, answers, accepts, afterSyncId, head)
    {
      hide Reading, Finished, MergeEach, IsPage, Merged;
      var nextAfterSyncId := afterSyncId;
      ghost var buffered: seq<DeltaPacket> := [];
      var actions: seq<Action> := [];
      var bufferedLast: Option<nat> := None;
      var n: nat, flushes: nat, done := 0, 0, false;
      release, ok, chunks, dropped, reason := null, true, [], [], NoPage(true);
      NothingRead(answers, accepts, afterSyncId, head);
      assert enqueued + [] == enqueued;
      while !done
        invariant gate.Valid() && nextAfterSyncId <= head
        invariant release == null ==> gate.live == old(gate.live) && catchingUp == old(catchingUp)
        invariant release != null ==> fresh(release) && gate.live == old(gate.live) + {release} && catchingUp
        invariant enqueued == old(enqueued) + MergeEach(chunks)
        invariant !done ==> ok && dropped == []
        invariant !done ==> Reading(chunks, buffered, actions, bufferedLast, nextAfterSyncId, n, flushes,
                                    release != null, answers, accepts, afterSyncId, head)
        invariant done ==> Finished(chunks, dropped, ok, reason, release != null, answers, accepts, afterSyncId, head)
        decreases !done, head - nextAfterSyncId
      {
        var answer := answers(n, nextAfterSyncId);
        assert GoodAnswer(answer, nextAfterSyncId, head);
        reason := answer;
        if !answer.Page? || !answer.active {
          ReadingStops(chunks, buffered, actions, bufferedLast, nextAfterSyncId, n, flushes, release != null,
                       answers, accepts, afterSyncId, head);
          done := true;
          if answer.NoPage? && answer.active && bufferedLast.Some? {
            ok, chunks := Flush(actions, bufferedLast.value, accepts(flushes), chunks, buffered);
          } else {
            ok, dropped := !answer.Failure?, buffered;
          }
        } else {
          PageRead(chunks, buffered, actions, bufferedLast, nextAfterSyncId, n, flushes, release != null,
                   answers, accepts, afterSyncId, head);
          var packet := answer.packet;
          if answer.hasMore && release == null {
            release := HoldGate(release);
          }
          buffered, actions, bufferedLast := buffered + [packet], actions + packet.actions, Some(packet.lastSyncId);
          done := !answer.hasMore || packet.lastSyncId <= nextAfterSyncId;
          n, nextAfterSyncId := n + 1, packet.lastSyncId;
          if done || |actions| >= COALESCED_CATCH_UP_ACTION_LIMIT {
            ok, chunks := Flush(actions, bufferedLast.value, accepts(flushes), chunks, buffered);
            buffered, actions, bufferedLast, flushes := [], [], None, flushes + 1;
            done := done || !ok;
          }
        }
      }
    }

    /**
     * Fetches and applies pages until there are no more. `answers(n, after)` is what the n-th
     * fetch gets for that cursor, `accepts(n)` whether applying the n-th merged packet succeeds.
     * The packets handed on are the fetched pages, in order, merged chunk by chunk, each chunk up to
     * the cap; a page is left out only when the run is over or a fetch failed; paging goes on while
     * there is more and the cursor moves; and the gate is as it was.
     */
    method FetchAndApplyDeltaPages(afterSyncId: nat, head: nat, answers: (nat, nat) -> Answer, accepts: nat -> bool)
      returns (ok: bool, ghost chunks: seq<seq<DeltaPacket>>, ghost dropped: seq<DeltaPacket>, ghost reason: Answer)
      requires gate.Valid() && afterSyncId <= head
      requires forall n: nat, after: nat :: GoodAnswer(answers(n, after), after, head)
      modifies this, gate, gate.live
      ensures gate.Valid() && gate.live == old(gate.live)
      ensures catchingUp == (old(catchingUp) && !(Join(chunks) + dropped != [] && HasMore(answers(0, afterSyncId))))
      ensures enqueued == old(enqueued) + MergeEach(chunks)
      ensures Capped(chunks) && Filled(chunks, dropped != [])
      ensures Consecutive(Join(chunks) + dropped, afterSyncId, head)
      ensures dropped != [] ==> reason.Failure? || !reason.active
      ensures ok <==> !reason.Failure? && forall i :: 0 <= i < |chunks| ==> accepts(i)
      ensures Stops(Join(chunks) + dropped, ok, reason, answers, afterSyncId)
    {
      hide Consecutive, AllActions, Join, MergeEach, Capped, Filled, IsPage, EndOf, Merged, Stops;
      var release: Hold?;
      release, ok, chunks, dropped, reason := ReadPages(afterSyncId, head, answers, accepts);
      if release != null {
        gate.Release(release);
        catchingUp := false;
      }
    }
  }

  predicate HasMore(a: Answer) {
    a.Page? && a.hasMore
  }

  /**
   * If the server says there is more exactly when a page ends below the head, a paging that stops
   * at a page ends at the head exactly if that page is the last one; and it does stop there if its
   * pages move the cursor.
   */
  lemma StopsAtHead(pages: seq<DeltaPacket>, reason: Answer, answers: (nat, nat) -> Answer, after: nat, head: nat)
    requires Stops(pages, true, reason, answers, after) && reason.Page? && reason.active
    requires forall n: nat, cursor: nat :: answers(n, cursor).Page? ==>
               (answers(n, cursor).hasMore <==> answers(n, cursor).packet.lastSyncId != head)
    ensures EndOf(pages, after) == head <==> !reason.hasMore
    ensures (forall n: nat, cursor: nat ::
               HasMore(answers(n, cursor)) ==> answers(n, cursor).packet.lastSyncId > cursor)
            ==> EndOf(pages, after) == head
  {
    var n := |pages| - 1;
    assert answers(n, EndOf(pages[..n], after)).packet == pages[n];
  }

  /** How the paging ended: what was handed on, what was left out, and why; `held`: the gate was closed. */
  ghost predicate Finished(chunks: seq<seq<DeltaPacket>>, dropped: seq<DeltaPacket>, ok: bool, reason: Answer,
                           held: bool, answers: (nat, nat) -> Answer, accepts: nat -> bool, after: nat, head: nat)
  {
    var pages := Join(chunks) + dropped;
    && Capped(chunks) && Filled(chunks, dropped != [])
    && Consecutive(pages, after, head)
    && (dropped != [] ==> reason.Failure? || !reason.active)
    && (held <==> pages != [] && HasMore(answers(0, after)))
    && (ok <==> !reason.Failure? && forall i :: 0 <= i < |chunks| ==> accepts(i))
    && Stops(pages, ok, reason, answers, after)
  }

  /** What has been read so far: whole chunks handed on, then the pages in the buffer; and there is more. */
  ghost predicate Reading(chunks: seq<seq<DeltaPacket>>, buffered: seq<DeltaPacket>, actions: seq<Action>,
                          last: Option<nat>, next: nat, n: nat, flushes: nat, held: bool,
                          answers: (nat, nat) -> Answer, accepts: nat -> bool, after: nat, head: nat)
  {
    var pages := Join(chunks) + buffered;
    && Buffered(buffered, actions, last) && |actions| < COALESCED_CATCH_UP_ACTION_LIMIT
    && Capped(chunks) && Filled(chunks, true)
    && Consecutive(pages, after, head)
    && Fetched(pages, n, answers, after) && n == |pages| && next == EndOf(pages, after)
    && flushes == |chunks| && (forall i :: 0 <= i < |chunks| ==> accepts(i))
    && (held <==> pages != [] && HasMore(answers(0, after)))
  }

  ghost predicate Buffered(buffered: seq<DeltaPacket>, actions: seq<Action>, last: Option<nat>) {
    && actions == AllActions(buffered)
    && last == (if buffered == [] then None else Some(buffered[|buffered| - 1].lastSyncId))
    && (buffered != [] ==> |AllActions(buffered[..|buffered| - 1])| < COALESCED_CATCH_UP_ACTION_LIMIT)
  }

  lemma NothingRead(answers: (nat, nat) -> Answer, accepts: nat -> bool, after: nat, head: nat)
    ensures Reading([], [], [], None, after, 0, 0, false, answers, accepts, after, head) && MergeEach([]) == []
  {
    assert Join([]) + [] == [];
  }

  /** The buffer becomes a chunk. */
  lemma ChunkEnds(chunks: seq<seq<DeltaPacket>>, buffered: seq<DeltaPacket>, actions: seq<Action>, last: Option<nat>)
    requires Buffered(buffered, actions, last) && buffered != [] && Capped(chunks) && Filled(chunks, true)
    ensures Capped(chunks + [buffered]) && Filled(chunks + [buffered], false)
    ensures |actions| >= COALESCED_CATCH_UP_ACTION_LIMIT ==> Filled(chunks + [buffered], true)
    ensures Join(chunks + [buffered]) == Join(chunks) + buffered
    ensures Merged(buffered) == DeltaPacket(actions, last.value) && Buffered([], [], None)
  {
    assert (chunks + [buffered])[..|chunks|] == chunks;
  }

  /** No page, or none for this run: what is buffered is handed on only while the run is the current one. */
  lemma ReadingStops(chunks: seq<seq<DeltaPacket>>, buffered: seq<DeltaPacket>, actions: seq<Action>,
                     last: Option<nat>, next: nat, n: nat, flushes: nat, held: bool,
                     answers: (nat, nat) -> Answer, accepts: nat -> bool, after: nat, head: nat)
    requires Reading(chunks, buffered, actions, last, next, n, flushes, held, answers, accepts, after, head)
    requires var a := answers(n, next); !a.Page? || !a.active
    ensures var a := answers(n, next);
            if a.NoPage? && a.active && last.Some? then
              && Merged(buffered) == DeltaPacket(actions, last.value)
              && Finished(chunks + [buffered], [], accepts(flushes), a, held, answers, accepts, after, head)
            else Finished(chunks, buffered, !a.Failure?, a, held, answers, accepts, after, head)
  {
    hide Consecutive, AllActions, Join, Capped, Filled, EndOf, Merged, Fetched;
    if buffered != [] {
      ChunkEnds(chunks, buffered, actions, last);
      assert Join(chunks + [buffered]) + [] == Join(chunks) + buffered;
    }
    assert Filled(chunks, true) ==> Filled(chunks, false) by {
      FilledAnyway(chunks);
    }
  }

  lemma FilledAnyway(chunks: seq<seq<DeltaPacket>>)
    ensures Filled(chunks, true) ==> Filled(chunks, false)
  {
  }

  /** One more page: paging goes on if there is more after it, it moves the cursor and applying does not fail. */
  lemma PageRead(chunks: seq<seq<DeltaPacket>>, buffered: seq<DeltaPacket>, actions: seq<Action>,
                 last: Option<nat>, next: nat, n: nat, flushes: nat, held: bool,
                 answers: (nat, nat) -> Answer, accepts: nat -> bool, after: nat, head: nat)
    requires Reading(chunks, buffered, actions, last, next, n, flushes, held, answers, accepts, after, head)
    requires var a := answers(n, next); a.Page? && a.active && IsPage(a.packet, next, head)
    ensures var a := answers(n, next);
            var p := a.packet;
            var all, actions' := chunks + [buffered + [p]], actions + p.actions;
            var held' := held || a.hasMore;
            var goesOn := a.hasMore && p.lastSyncId > next;
            && next <= p.lastSyncId <= head && Merged(buffered + [p]) == DeltaPacket(actions', p.lastSyncId)
            && (if goesOn && |actions'| < COALESCED_CATCH_UP_ACTION_LIMIT then
                  Reading(chunks, buffered + [p], actions', Some(p.lastSyncId), p.lastSyncId, n + 1, flushes, held',
                          answers, accepts, after, head)
                else if goesOn && accepts(flushes) then
                  Reading(all, [], [], None, p.lastSyncId, n + 1, flushes + 1, held', answers, accepts, after, head)
                else Finished(all, [], accepts(flushes), a, held', answers, accepts, after, head))
  {
    hide Capped, Filled, Fetched, Merged, IsPage, Consecutive, EndOf, Join, AllActions, HasMore, Stops, Buffered;
    hide Reading, Finished;
    var a := answers(n, next);
    var p := a.packet;
    PageJoins(chunks, buffered, actions, last, next, n, flushes, held, answers, accepts, after, head);
    if a.hasMore && p.lastSyncId > next && accepts(flushes) {
      ChunkHandedOn(chunks, buffered, actions, last, next, n, flushes, held, answers, accepts, after, head);
    } else {
      PagingEnds(chunks, buffered, actions, last, next, n, flushes, held, answers, accepts, after, head);
    }
  }

  /** The page is in the buffer, and paging goes on. */
  lemma PageJoins(chunks: seq<seq<DeltaPacket>>, buffered: seq<DeltaPacket>, actions: seq<Action>,
                  last: Option<nat>, next: nat, n: nat, flushes: nat, held: bool,
                  answers: (nat, nat) -> Answer, accepts: nat -> bool, after: nat, head: nat)
    requires Reading(chunks, buffered, actions, last, next, n, flushes, held, answers, accepts, after, head)
    requires var a := answers(n, next); a.Page? && a.active && IsPage(a.packet, next, head)
    ensures var p := answers(n, next).packet;
            var actions' := actions + p.actions;
            && next <= p.lastSyncId <= head && Merged(buffered + [p]) == DeltaPacket(actions', p.lastSyncId)
            && (answers(n, next).hasMore && p.lastSyncId > next && |actions'| < COALESCED_CATCH_UP_ACTION_LIMIT ==>
                  Reading(chunks, buffered + [p], actions', Some(p.lastSyncId), p.lastSyncId, n + 1, flushes, true,
                          answers, accepts, after, head))
  {
    hide Capped, Filled, Fetched, Merged, IsPage, Consecutive, EndOf, Join, AllActions, HasMore, Buffered;
    var p := answers(n, next).packet;
    var pages := Join(chunks) + buffered;
    PageBuffered(chunks, buffered, actions, last, p);
    PageFetched(pages, answers, after);
    PageFollows(pages, p, after, head);
    ChunkEnds(chunks, buffered + [p], actions + p.actions, Some(p.lastSyncId));
    PageMoves(p, next, head);
  }

  /** The chunk is full and has been applied, and paging goes on. */
  lemma ChunkHandedOn(chunks: seq<seq<DeltaPacket>>, buffered: seq<DeltaPacket>, actions: seq<Action>,
                      last: Option<nat>, next: nat, n: nat, flushes: nat, held: bool,
                      answers: (nat, nat) -> Answer, accepts: nat -> bool, after: nat, head: nat)
    requires Reading(chunks, buffered, actions, last, next, n, flushes, held, answers, accepts, after, head)
    requires var a := answers(n, next); a.Page? && a.active && IsPage(a.packet, next, head)
    requires answers(n, next).hasMore && answers(n, next).packet.lastSyncId > next && accepts(flushes)
    ensures var p := answers(n, next).packet;
            |actions + p.actions| >= COALESCED_CATCH_UP_ACTION_LIMIT ==>
              Reading(chunks + [buffered + [p]], [], [], None, p.lastSyncId, n + 1, flushes + 1, true,
                      answers, accepts, after, head)
  {
    hide Capped, Filled, Fetched, Merged, IsPage, Consecutive, EndOf, Join, AllActions, HasMore, Buffered;
    var p := answers(n, next).packet;
    var pages := Join(chunks) + buffered;
    PageBuffered(chunks, buffered, actions, last, p);
    PageFetched(pages, answers, after);
    PageFollows(pages, p, after, head);
    ChunkEnds(chunks, buffered + [p], actions + p.actions, Some(p.lastSyncId));
    assert Join(chunks + [buffered + [p]]) + [] == pages + [p];
  }

  /** The last page, or the last one before applying a chunk fails. */
  lemma PagingEnds(chunks: seq<seq<DeltaPacket>>, buffered: seq<DeltaPacket>, actions: seq<Action>,
                   last: Option<nat>, next: nat, n: nat, flushes: nat, held: bool,
                   answers: (nat, nat) -> Answer, accepts: nat -> bool, after: nat, head: nat)
    requires Reading(chunks, buffered, actions, last, next, n, flushes, held, answers, accepts, after, head)
    requires var a := answers(n, next); a.Page? && a.active && IsPage(a.packet, next, head)
    requires var a := answers(n, next); !(a.hasMore && a.packet.lastSyncId > next && accepts(flushes))
    ensures var a := answers(n, next);
            Finished(chunks + [buffered + [a.packet]], [], accepts(flushes), a, held || a.hasMore,
                     answers, accepts, after, head)
  {
    hide Capped, Filled, Fetched, Merged, IsPage, Consecutive, EndOf, Join, AllActions, HasMore, Stops, Buffered;
    var p := answers(n, next).packet;
    var pages := Join(chunks) + buffered;
    PageBuffered(chunks, buffered, actions, last, p);
    PageFetched(pages, answers, after);
    PageFollows(pages, p, after, head);
    ChunkEnds(chunks, buffered + [p], actions + p.actions, Some(p.lastSyncId));
    assert Join(chunks + [buffered + [p]]) + [] == pages + [p];
    LastPage(pages, accepts(flushes), answers, after);
  }

  lemma PageBuffered(chunks: seq<seq<DeltaPacket>>, buffered: seq<DeltaPacket>, actions: seq<Action>,
                     last: Option<nat>, p: DeltaPacket)
    requires Buffered(buffered, actions, last) && |actions| < COALESCED_CATCH_UP_ACTION_LIMIT
    ensures Buffered(buffered + [p], actions + p.actions, Some(p.lastSyncId))
    ensures Join(chunks) + (buffered + [p]) == Join(chunks) + buffered + [p]
  {
    assert (buffered + [p])[..|buffered|] == buffered;
  }

  lemma PageFollows(pages: seq<DeltaPacket>, p: DeltaPacket, after: nat, head: nat)
    requires Consecutive(pages, after, head) && IsPage(p, EndOf(pages, after), head)
    ensures Consecutive(pages + [p], after, head)
  {
    assert (pages + [p])[..|pages|] == pages;
  }

  lemma LastPage(pages: seq<DeltaPacket>, ok: bool, answers: (nat, nat) -> Answer, after: nat)
    requires Fetched(pages, |pages|, answers, after)
    requires var a := answers(|pages|, EndOf(pages, after));
             a.Page? && a.active && (a.hasMore && a.packet.lastSyncId > EndOf(pages, after) ==> !ok)
    ensures var a := answers(|pages|, EndOf(pages, after)); Stops(pages + [a.packet], ok, a, answers, after)
  {
    hide Fetched, EndOf;
    PageFetched(pages, answers, after);
  }

  lemma PageMoves(p: DeltaPacket, after: nat, head: nat)
    ensures IsPage(p, after, head) ==> after <= p.lastSyncId <= head
  {
  }

  /** One more page fetched. */
  lemma PageFetched(pages: seq<DeltaPacket>, answers: (nat, nat) -> Answer, after: nat)
    requires Fetched(pages, |pages|, answers, after)
    requires var a := answers(|pages|, EndOf(pages, after)); a.Page? && a.active
    ensures var a := answers(|pages|, EndOf(pages, after));
            var all := pages + [a.packet];
            && all[..|pages|] == pages && EndOf(all, after) == a.packet.lastSyncId
            && Fetched(all, |pages|, answers, after)
            && (a.hasMore && a.packet.lastSyncId > EndOf(pages, after) ==> Fetched(all, |pages| + 1, answers, after))
            && HasMore(answers(0, after)) == (a.hasMore || pages != [])
  {
    var a := answers(|pages|, EndOf(pages, after));
    var all := pages + [a.packet];
    assert all[..|pages|] == pages;
    forall i | 0 <= i < |pages| ensures all[..i] == pages[..i] && all[i] == pages[i] {
    }
    assert pages[..0] == [];
    assert pages != [] ==> answers(0, EndOf(pages[..0], after)).hasMore;
  }

  // ---- what applying the packets does

  /** Stored rows, cursor, and whether a re-bootstrap is owed. */
  datatype Local = Local(rows: Table, cursor: nat, owed: bool)

  predicate HasGroupAction(actions: seq<Action>) {
    exists i :: 0 <= i < |actions| && actions[i].entry.GroupChange?
  }

  /** The entries above the cursor. */
  function Fresh(actions: seq<Action>, cursor: nat): Log {
    if actions == [] then []
    else
      var a := actions[|actions| - 1];
      Fresh(actions[..|actions| - 1], cursor) + (if a.id > cursor then [a.entry] else [])
  }

  /** applyDeltaPacket, when nothing fails. */
  function ApplyPacket(s: Local, p: DeltaPacket): Local {
    if HasGroupAction(p.actions) then s.(owed := true)
    else if s.owed then s
    else s.(rows := Fold(s.rows, Fresh(p.actions, s.cursor)), cursor := Max(s.cursor, p.lastSyncId))
  }

  function ApplyPackets(s: Local, ps: seq<DeltaPacket>): Local {
    if ps == [] then s else ApplyPacket(ApplyPackets(s, ps[..|ps| - 1]), ps[|ps| - 1])
  }

  /** The pages up to the first that carries a group action. */
  function BeforeGroup(pages: seq<DeltaPacket>): seq<DeltaPacket> {
    if pages == [] then []
    else if HasGroupAction(AllActions(pages[..|pages| - 1])) then BeforeGroup(pages[..|pages| - 1])
    else if HasGroupAction(pages[|pages| - 1].actions) then pages[..|pages| - 1]
    else pages
  }

  lemma GroupInConcat(a: seq<Action>, b: seq<Action>)
    ensures HasGroupAction(a + b) <==> HasGroupAction(a) || HasGroupAction(b)
  {
    if HasGroupAction(a) {
      var i :| 0 <= i < |a| && a[i].entry.GroupChange?;
      assert (a + b)[i] == a[i];
    }
    if HasGroupAction(b) {
      var i :| 0 <= i < |b| && b[i].entry.GroupChange?;
      assert (a + b)[|a| + i] == b[i];
    }
  }

  lemma {:induction false} FreshConcat(a: seq<Action>, b: seq<Action>, cursor: nat)
    ensures Fresh(a + b, cursor) == Fresh(a, cursor) + Fresh(b, cursor)
  {
    if b == [] {
      assert a + b == a;
    } else {
      assert (a + b)[..|a + b| - 1] == a + b[..|b| - 1];
      FreshConcat(a, b[..|b| - 1], cursor);
    }
  }

  /** Actions of a page that starts at or above both cursors are fresh for one exactly as for the other. */
  lemma {:induction false} FreshFrom(actions: seq<Action>, cursor: nat, end: nat)
    requires forall i :: 0 <= i < |actions| ==> actions[i].id > end
    ensures Fresh(actions, cursor) == Fresh(actions, Max(cursor, end))
  {
    if actions != [] {
      FreshFrom(actions[..|actions| - 1], cursor, end);
    }
  }

  lemma {:induction false} StaleFolds(actions: seq<Action>, cursor: nat)
    requires forall i :: 0 <= i < |actions| ==> actions[i].id <= cursor
    ensures Fresh(actions, cursor) == []
  {
    if actions != [] {
      StaleFolds(actions[..|actions| - 1], cursor);
    }
  }

  /** Without a group action, one merged packet does what its pages do one by one. */
  lemma {:induction false} MergedIsPaged(s: Local, pages: seq<DeltaPacket>, after: nat, head: nat)
    requires Consecutive(pages, after, head) && pages != [] && !HasGroupAction(AllActions(pages)) && !s.owed
    ensures ApplyPackets(s, pages) == ApplyPacket(s, Merged(pages))
  {
    var n := |pages| - 1;
    var last := pages[n];
    GroupInConcat(AllActions(pages[..n]), last.actions);
    FreshConcat(AllActions(pages[..n]), last.actions, s.cursor);
    FoldConcat(s.rows, Fresh(AllActions(pages[..n]), s.cursor), Fresh(last.actions, s.cursor));
    if n == 0 {
      assert AllActions(pages[..0]) == [] && Fresh([], s.cursor) == [];
      assert [] + last.actions == last.actions;
    } else {
      MergedIsPaged(s, pages[..n], after, head);
      FreshFrom(last.actions, s.cursor, EndOf(pages[..n], after));
    }
  }

  lemma {:induction false} OwedStays(s: Local, pages: seq<DeltaPacket>)
    requires s.owed
    ensures ApplyPackets(s, pages) == s
  {
    if pages != [] {
      OwedStays(s, pages[..|pages| - 1]);
    }
  }

  /** Page by page, the pages before the first group action are applied and everything from it on is held. */
  lemma {:induction false} PagedStopsAtGroup(s: Local, pages: seq<DeltaPacket>)
    requires HasGroupAction(AllActions(pages)) && !s.owed
    ensures ApplyPackets(s, pages) == ApplyPackets(s, BeforeGroup(pages)).(owed := true)
    ensures !HasGroupAction(AllActions(BeforeGroup(pages))) && |BeforeGroup(pages)| < |pages|
    ensures BeforeGroup(pages) == pages[..|BeforeGroup(pages)|]
  {
    var n := |pages| - 1;
    assert pages != [];
    GroupInConcat(AllActions(pages[..n]), pages[n].actions);
    if HasGroupAction(AllActions(pages[..n])) {
      PagedStopsAtGroup(s, pages[..n]);
    }
  }

  lemma {:induction false} ConsecutivePrefix(pages: seq<DeltaPacket>, n: nat, after: nat, head: nat)
    requires Consecutive(pages, after, head) && n <= |pages|
    ensures Consecutive(pages[..n], after, head)
  {
    if n == |pages| {
      assert pages[..n] == pages;
    } else {
      assert pages[..|pages| - 1][..n] == pages[..n];
      ConsecutivePrefix(pages[..|pages| - 1], n, after, head);
    }
  }

  lemma {:induction false} IdsUpToEnd(pages: seq<DeltaPacket>, after: nat, head: nat)
    requires Consecutive(pages, after, head)
    ensures after <= EndOf(pages, after)
    ensures forall i :: 0 <= i < |AllActions(pages)| ==> AllActions(pages)[i].id <= EndOf(pages, after)
  {
    if pages != [] {
      IdsUpToEnd(pages[..|pages| - 1], after, head);
    }
  }

  /**
   * Coalescing is invisible exactly when nothing is owed by a later page: a chunk applied as one
   * packet leaves the rows, the cursor and the debt page-by-page application leaves, if and only
   * if a re-bootstrap was owed already, the chunk has no group action, or the pages before the
   * first group action end at or below the cursor.
   */
  lemma CoalescingIsInvisible(s: Local, pages: seq<DeltaPacket>, after: nat, head: nat)
    requires Consecutive(pages, after, head) && pages != []
    ensures ApplyPacket(s, Merged(pages)) == ApplyPackets(s, pages)
            <==> s.owed || !HasGroupAction(AllActions(pages)) || EndOf(BeforeGroup(pages), s.cursor) <= s.cursor
  {
    if s.owed {
      OwedStays(s, pages);
    } else if !HasGroupAction(AllActions(pages)) {
      MergedIsPaged(s, pages, after, head);
    } else {
      PagedStopsAtGroup(s, pages);
      var earlier := BeforeGroup(pages);
      ConsecutivePrefix(pages, |earlier|, after, head);
      if earlier != [] {
        MergedIsPaged(s, earlier, after, head);
        IdsUpToEnd(earlier, after, head);
        if EndOf(earlier, s.cursor) <= s.cursor {
          StaleFolds(AllActions(earlier), s.cursor);
        }
      }
    }
  }

  /** Every chunk of a catch-up without group actions is invisible, so the catch-up is. */
  lemma {:induction false} CatchUpIsInvisible(s: Local, chunks: seq<seq<DeltaPacket>>, after: nat, head: nat)
    requires Consecutive(Join(chunks), after, head) && !s.owed && !HasGroupAction(AllActions(Join(chunks)))
    requires forall i :: 0 <= i < |chunks| ==> chunks[i] != []
    ensures ApplyPackets(s, MergeEach(chunks)) == ApplyPackets(s, Join(chunks))
    ensures !ApplyPackets(s, Join(chunks)).owed
  {
    if chunks != [] {
      var n := |chunks| - 1;
      var earlier, last := Join(chunks[..n]), chunks[n];
      JoinSplits(earlier, last, after, head);
      CatchUpIsInvisible(s, chunks[..n], after, head);
      ApplyConcat(s, earlier, last);
      MergedIsPaged(ApplyPackets(s, earlier), last, EndOf(earlier, after), head);
      assert (MergeEach(chunks[..n]) + [Merged(last)])[..|MergeEach(chunks[..n])|] == MergeEach(chunks[..n]);
    }
  }

  lemma {:induction false} ApplyConcat(s: Local, a: seq<DeltaPacket>, b: seq<DeltaPacket>)
    ensures ApplyPackets(s, a + b) == ApplyPackets(ApplyPackets(s, a), b)
  {
    if b == [] {
      assert a + b == a;
    } else {
      assert (a + b)[..|a + b| - 1] == a + b[..|b| - 1];
      ApplyConcat(s, a, b[..|b| - 1]);
    }
  }

  lemma {:induction false} JoinSplits(a: seq<DeltaPacket>, b: seq<DeltaPacket>, after: nat, head: nat)
    requires Consecutive(a + b, after, head) && !HasGroupAction(AllActions(a + b))
    ensures Consecutive(a, after, head) && Consecutive(b, EndOf(a, after), head)
    ensures AllActions(a + b) == AllActions(a) + AllActions(b)
    ensures !HasGroupAction(AllActions(a)) && !HasGroupAction(AllActions(b))
  {
    if b == [] {
      assert a + b == a;
      assert AllActions(a) + [] == AllActions(a);
    } else {
      var n := |b| - 1;
      assert (a + b)[..|a + b| - 1] == a + b[..n];
      GroupInConcat(AllActions(a + b[..n]), b[n].actions);
      JoinSplits(a, b[..n], after, head);
      GroupInConcat(AllActions(b[..n]), b[n].actions);
      assert AllActions(a) + (AllActions(b[..n]) + b[n].actions) == AllActions(a) + AllActions(b[..n]) + b[n].actions;
      assert n > 0 ==> (a + b[..n])[|a + b[..n]| - 1] == b[n - 1];
      assert n == 0 ==> a + b[..n] == a;
    }
  }
}
