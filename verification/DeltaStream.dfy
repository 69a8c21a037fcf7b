/**
 * The resumable delta stream: one subscription over sockets that come and go, read by one
 * consumer that asks for the next packet only after it got the one before.
 */
module DeltaStream {
  import opened Records

  datatype NextResult = Rejected | Done | Value(packet: Packet) | Waiting

  /** sendSubscribe waiting for a token: the cursor it read, and the socket it will write to. */
  datatype Capture = Capture(cursor: nat, socket: nat)

  /**
   * A socket and what is on its way over it: the subscribe calls waiting for a token, the cursors
   * sent to the server, the packets sent by it, and how far it has sent (None before it has read
   * a cursor). It outlives the subscription that uses it.
   */
  datatype Link = Link(socket: nat, open: bool, captures: map<nat, Capture>, outbound: seq<nat>, wire: seq<Packet>,
                       serverPos: Option<nat>)

  /** A subscription and the socket in use; `received` is what arrived before it ended. */
  datatype Stream = Stream(initial: nat, closed: bool, lastSyncId: nat, received: seq<Packet>, link: Link)

  datatype Event =
    | Arrive
    | SocketOpens
    | SocketCloses
    | BeginSubscribe(handle: nat)
    | FinishSubscribe(handle: nat, hasToken: bool)
    | ServerReads
    | ServerSends(last: nat)
    | End

  predicate WellFormed(l: Link) {
    && (!l.open ==> l.wire == [] && l.outbound == [] && l.serverPos == None)
    && (forall h :: h in l.captures ==> l.captures[h].socket <= l.socket)
  }

  predicate Enabled(s: Stream, e: Event) {
    match e
    case Arrive => s.link.open && s.link.wire != []
    case BeginSubscribe(h) => h !in s.link.captures
    case FinishSubscribe(h, _) => h in s.link.captures
    case ServerReads => s.link.outbound != []
    case ServerSends(last) => s.link.open && s.link.serverPos.Some? && s.link.serverPos.value <= last
    case _ => true
  }

  /** A packet goes to the subscription, if it has not ended; nobody else hears of it. */
  function Received(s: Stream, p: Packet): Stream {
    if s.closed then s else s.(lastSyncId := Max(s.lastSyncId, p.last), received := s.received + [p])
  }

  function Finish(l: Link, h: nat, hasToken: bool): Link
    requires h in l.captures
  {
    var c := l.captures[h];
    l.(captures := l.captures - {h},
       outbound := if hasToken && l.open && c.socket == l.socket then l.outbound + [c.cursor] else l.outbound)
  }

  function Do(s: Stream, e: Event): Stream
    requires Enabled(s, e)
  {
    var l := s.link;
    match e
    case Arrive => Received(s, l.wire[0]).(link := l.(wire := l.wire[1..]))
    case SocketOpens => s.(link := Link(l.socket + 1, true, l.captures, [], [], None))
    case SocketCloses => s.(link := Link(l.socket, false, l.captures, [], [], None))
    case BeginSubscribe(h) =>
      if l.open then s.(link := l.(captures := l.captures[h := Capture(s.lastSyncId, l.socket)])) else s
    case FinishSubscribe(h, hasToken) => s.(link := Finish(l, h, hasToken))
    case ServerReads => s.(link := l.(serverPos := Some(l.outbound[0]), outbound := l.outbound[1..]))
    case ServerSends(last) =>
      s.(link := l.(wire := l.wire + [Packet(l.serverPos.value, last)], serverPos := Some(last)))
    case End => s.(closed := true)
  }

  /**
   * What events make of the socket: it is open from one SocketOpens to the next SocketCloses; a cursor
   * waits for its token once, sent or not; packets arrive, and cursors are read, in the order they were
   * sent; and whatever was on a socket goes with it.
   */
  lemma LinkChanges(s: Stream, e: Event)
    requires Enabled(s, e)
    ensures var before, after := s.link, Do(s, e).link;
            && (after.open <==> e.SocketOpens? || (before.open && !e.SocketCloses?))
            && after.socket == (if e.SocketOpens? then before.socket + 1 else before.socket)
            && (forall h :: h in after.captures <==>
                  || (h in before.captures && !(e.FinishSubscribe? && e.handle == h))
                  || (e == BeginSubscribe(h) && before.open))
            && (forall h :: h in after.captures ==>
                  after.captures[h] == if h in before.captures then before.captures[h]
                                       else Capture(s.lastSyncId, before.socket))
            && (e.SocketOpens? || e.SocketCloses? ==>
                  after.wire == [] && after.outbound == [] && after.serverPos == None)
            && (e.Arrive? ==> before.wire == [before.wire[0]] + after.wire)
            && (e.ServerSends? ==> after.wire == before.wire + [Packet(before.serverPos.value, e.last)]
                                   && after.serverPos == Some(e.last))
            && (e.ServerReads? ==> before.outbound == [after.serverPos.value] + after.outbound
                                   && after.serverPos.Some?)
            && (e.FinishSubscribe? ==>
                  var c := before.captures[e.handle];
                  after.outbound == before.outbound + (if e.hasToken && before.open && c.socket == before.socket
                                                       then [c.cursor] else []))
  {
  }

  /** A received packet belongs to the subscription until it ends, and to nobody after. */
  lemma Receives(s: Stream, e: Event)
    requires Enabled(s, e)
    ensures Do(s, e).received == s.received + (if e.Arrive? && !s.closed then [s.link.wire[0]] else [])
    ensures Do(s, e).lastSyncId >= s.lastSyncId && (Do(s, e).closed <==> s.closed || e.End?)
    ensures e.Arrive? && !s.closed ==>
              Do(s, e).lastSyncId >= s.link.wire[0].last
              && (Do(s, e).lastSyncId == s.lastSyncId || Do(s, e).lastSyncId == s.link.wire[0].last)
  {
  }

  ghost predicate Legal(s: Stream, run: seq<Event>)
    decreases |run|
  {
    run == [] || (Enabled(s, run[0]) && Legal(Do(s, run[0]), run[1..]))
  }

  ghost function Run(s: Stream, run: seq<Event>): Stream
    requires Legal(s, run)
    decreases |run|
  {
    if run == [] then s else Run(Do(s, run[0]), run[1..])
  }

  /** The furthest any of these packets reaches. */
  function Reach(initial: nat, ps: seq<Packet>): (r: nat)
    ensures initial <= r
  {
    if ps == [] then initial else Max(Reach(initial, ps[..|ps| - 1]), ps[|ps| - 1].last)
  }

  /** Every packet starts at or below what came before it reaches. */
  ghost predicate GapFree(initial: nat, ps: seq<Packet>) {
    ps == [] ||
    (GapFree(initial, ps[..|ps| - 1]) && ps[|ps| - 1].after <= Reach(initial, ps[..|ps| - 1]))
  }

  lemma {:induction false} ReachConcat(initial: nat, a: seq<Packet>, b: seq<Packet>)
    ensures Reach(initial, a + b) == Reach(Reach(initial, a), b)
  {
    if b == [] {
      assert a + b == a;
    } else {
      assert (a + b)[..|a + b| - 1] == a + b[..|b| - 1];
      ReachConcat(initial, a, b[..|b| - 1]);
    }
  }

  lemma {:induction false} GapFreeConcat(initial: nat, a: seq<Packet>, b: seq<Packet>)
    ensures GapFree(initial, a + b) <==> GapFree(initial, a) && GapFree(Reach(initial, a), b)
  {
    if b == [] {
      assert a + b == a;
    } else {
      assert (a + b)[..|a + b| - 1] == a + b[..|b| - 1];
      GapFreeConcat(initial, a, b[..|b| - 1]);
      ReachConcat(initial, a, b[..|b| - 1]);
    }
  }

  lemma One(initial: nat, p: Packet)
    ensures Reach(initial, [p]) == Max(initial, p.last)
    ensures GapFree(initial, [p]) <==> p.after <= initial
  {
    assert [p][..0] == [];
  }

  /** Gap-free packets carry every id from the initial cursor to the furthest they reach. */
  lemma {:induction false} GapFreeCovers(initial: nat, ps: seq<Packet>, id: nat)
    requires GapFree(initial, ps) && initial < id <= Reach(initial, ps)
    ensures exists i :: 0 <= i < |ps| && ps[i].after < id <= ps[i].last
  {
    var n := |ps| - 1;
    if id <= Reach(initial, ps[..n]) {
      GapFreeCovers(initial, ps[..n], id);
      var i :| 0 <= i < n && ps[..n][i].after < id <= ps[..n][i].last;
      assert ps[i] == ps[..n][i];
    } else {
      assert ps[n].after < id <= ps[n].last;
    }
  }

  // ---- when the stream leaves no gap

  /**
   * Nothing the live socket carries, or a subscribe call still waiting for it, starts above what a
   * subscription at `cursor` will have seen by then.
   */
  ghost predicate StartsBelow(l: Link, cursor: nat) {
    l.open ==>
      && GapFree(cursor, l.wire)
      && (forall i :: 0 <= i < |l.outbound| ==> l.outbound[i] <= Reach(cursor, l.wire))
      && (l.serverPos.Some? ==> l.serverPos.value <= Reach(cursor, l.wire))
      && (forall h ::
            h in l.captures && l.captures[h].socket == l.socket ==> l.captures[h].cursor <= Reach(cursor, l.wire))
  }

  ghost predicate Inv(s: Stream) {
    WellFormed(s.link) && s.lastSyncId == Reach(s.initial, s.received)
  }

  ghost predicate Gapless(s: Stream) {
    GapFree(s.initial, s.received) && (!s.closed ==> StartsBelow(s.link, s.lastSyncId))
  }

  lemma ArriveKeeps(s: Stream)
    requires Inv(s) && Enabled(s, Arrive)
    ensures Inv(Do(s, Arrive)) && (Gapless(s) ==> Gapless(Do(s, Arrive)))
  {
    hide GapFree, Reach;
    var packet, rest := s.link.wire[0], s.link.wire[1..];
    assert s.link.wire == [packet] + rest;
    One(s.lastSyncId, packet);
    GapFreeConcat(s.lastSyncId, [packet], rest);
    ReachConcat(s.lastSyncId, [packet], rest);
    GapFreeConcat(s.initial, s.received, [packet]);
    ReachConcat(s.initial, s.received, [packet]);
  }

  lemma ServerSendsKeeps(s: Stream, last: nat)
    requires Inv(s) && Enabled(s, ServerSends(last))
    ensures Inv(Do(s, ServerSends(last))) && (Gapless(s) ==> Gapless(Do(s, ServerSends(last))))
  {
    hide GapFree, Reach;
    var p := Packet(s.link.serverPos.value, last);
    GapFreeConcat(s.lastSyncId, s.link.wire, [p]);
    ReachConcat(s.lastSyncId, s.link.wire, [p]);
    One(Reach(s.lastSyncId, s.link.wire), p);
  }

  /** Every event keeps the stream without a gap, on any socket that starts below it. */
  lemma StepKeeps(s: Stream, e: Event)
    requires Inv(s) && Enabled(s, e)
    ensures Inv(Do(s, e)) && (Gapless(s) ==> Gapless(Do(s, e)))
  {
    match e
    case Arrive => ArriveKeeps(s);
    case ServerSends(last) => ServerSendsKeeps(s, last);
    case _ =>
  }

  lemma {:induction false} RunKeeps(s: Stream, run: seq<Event>)
    requires Inv(s) && Legal(s, run)
    ensures Inv(Run(s, run)) && (Gapless(s) ==> Gapless(Run(s, run))) && Run(s, run).initial == s.initial
    decreases |run|
  {
    hide Gapless, Inv;
    if run != [] {
      StepKeeps(s, run[0]);
      RunKeeps(Do(s, run[0]), run[1..]);
    }
  }

  /** Some run of s ends with a gap in what was received. */
  ghost predicate MayGap(s: Stream) {
    exists run :: Legal(s, run) && !GapFree(s.initial, Run(s, run).received)
  }

  lemma MayGapLater(s: Stream, e: Event)
    requires Enabled(s, e) && MayGap(Do(s, e))
    ensures MayGap(s)
  {
    var run :| Legal(Do(s, e), run) && !GapFree(s.initial, Run(Do(s, e), run).received);
    assert ([e] + run)[1..] == run;
    assert Legal(s, [e] + run) && Run(s, [e] + run) == Run(Do(s, e), run);
  }

  /** What is on the wire arrives. */
  lemma {:induction false} WireGap(s: Stream)
    requires Inv(s) && s.link.open && !s.closed && !GapFree(s.initial, s.received + s.link.wire)
    ensures MayGap(s)
    decreases |s.link.wire|
  {
    if s.link.wire == [] {
      assert s.received + s.link.wire == s.received;
      assert Legal(s, []) && Run(s, []) == s;
    } else {
      var next := Do(s, Arrive);
      assert next.received + next.link.wire == s.received + s.link.wire;
      ArriveKeeps(s);
      WireGap(next);
      MayGapLater(s, Arrive);
    }
  }

  lemma WireTail(s: Stream, wire: seq<Packet>)
    requires Inv(s) && GapFree(s.initial, s.received)
    ensures GapFree(s.initial, s.received + wire) <==> GapFree(s.lastSyncId, wire)
  {
    GapFreeConcat(s.initial, s.received, wire);
  }

  lemma ServerGap(s: Stream)
    requires Inv(s) && s.link.open && !s.closed && GapFree(s.initial, s.received)
    requires s.link.serverPos.Some? && s.link.serverPos.value > Reach(s.lastSyncId, s.link.wire)
    ensures MayGap(s)
  {
    var last := s.link.serverPos.value + 1;
    var next := Do(s, ServerSends(last));
    ServerSendsKeeps(s, last);
    GapFreeConcat(s.lastSyncId, s.link.wire, [Packet(last - 1, last)]);
    One(Reach(s.lastSyncId, s.link.wire), Packet(last - 1, last));
    WireTail(s, next.link.wire);
    WireGap(next);
    MayGapLater(s, ServerSends(last));
  }

  lemma {:induction false} OutboundGap(s: Stream, i: nat)
    requires Inv(s) && s.link.open && !s.closed && GapFree(s.initial, s.received)
    requires i < |s.link.outbound| && s.link.outbound[i] > Reach(s.lastSyncId, s.link.wire)
    ensures MayGap(s)
    decreases i
  {
    var next := Do(s, ServerReads);
    if i == 0 {
      ServerGap(next);
    } else {
      OutboundGap(next, i - 1);
    }
    MayGapLater(s, ServerReads);
  }

  lemma CaptureGap(s: Stream, h: nat)
    requires Inv(s) && s.link.open && !s.closed && GapFree(s.initial, s.received)
    requires h in s.link.captures && s.link.captures[h].socket == s.link.socket
    requires s.link.captures[h].cursor > Reach(s.lastSyncId, s.link.wire)
    ensures MayGap(s)
  {
    var next := Do(s, FinishSubscribe(h, true));
    OutboundGap(next, |next.link.outbound| - 1);
    MayGapLater(s, FinishSubscribe(h, true));
  }

  /**
   * A subscription stays without a gap over every run exactly when what the live socket carries
   * starts at or below it, or there is no live socket.
   */
  lemma StaysGapFreeExactly(s: Stream)
    requires Inv(s) && !s.closed && GapFree(s.initial, s.received)
    ensures StartsBelow(s.link, s.lastSyncId) <==> !MayGap(s)
  {
    var l := s.link;
    if StartsBelow(l, s.lastSyncId) {
      forall run | Legal(s, run) ensures GapFree(s.initial, Run(s, run).received) {
        RunKeeps(s, run);
      }
    } else if !GapFree(s.lastSyncId, l.wire) {
      WireTail(s, l.wire);
      WireGap(s);
    } else if l.serverPos.Some? && l.serverPos.value > Reach(s.lastSyncId, l.wire) {
      ServerGap(s);
    } else if i :| 0 <= i < |l.outbound| && l.outbound[i] > Reach(s.lastSyncId, l.wire) {
      OutboundGap(s, i);
    } else {
      var h :| h in l.captures && l.captures[h].socket == l.socket
        && l.captures[h].cursor > Reach(s.lastSyncId, l.wire);
      CaptureGap(s, h);
    }
  }

  /**
   * The condition fails on the ordinary path of a re-bootstrap. The old subscription ends, the
   * socket stays open and the server keeps sending on it: a packet that arrives while nobody is
   * subscribed is dropped, and the one after it reaches the new subscription before the server
   * has read its cursor.
   */
  lemma ResubscribeOnLiveSocket(s: Stream, cursor: nat, first: nat, second: nat)
    requires Inv(s) && Gapless(s) && s.link.open && s.link.wire == [] && s.link.serverPos == Some(cursor)
    requires cursor < first < second
    ensures var dropped := Do(Do(Do(s, End), ServerSends(first)), Arrive);
            var s' := Stream(cursor, false, cursor, [], Do(dropped, ServerSends(second)).link);
            && dropped.received == s.received && !StartsBelow(s'.link, cursor)
            && Do(s', Arrive).received == [Packet(first, second)] && Do(s', Arrive).lastSyncId == second
            && !GapFree(cursor, Do(s', Arrive).received)
  {
    hide GapFree, Reach;
    var sent := Do(Do(s, End), ServerSends(first));
    assert sent.link.wire == [Packet(cursor, first)] && sent.closed;
    var dropped := Do(sent, Arrive);
    assert dropped == s.(closed := true, link := s.link.(serverPos := Some(first)));
    assert Do(dropped, ServerSends(second)).link.wire == [Packet(first, second)];
    One(cursor, Packet(first, second));
    assert [] + [Packet(first, second)] == [Packet(first, second)];
  }

  // ---- the cursor of a resubscribe

  ghost predicate Leaves(run: seq<Event>, h: nat) {
    forall i :: 0 <= i < |run| ==> run[i] != BeginSubscribe(h) && !(run[i].FinishSubscribe? && run[i].handle == h)
  }

  lemma {:induction false} CaptureStays(s: Stream, run: seq<Event>, h: nat)
    requires Legal(s, run) && Leaves(run, h) && h in s.link.captures
    ensures h in Run(s, run).link.captures && Run(s, run).link.captures[h] == s.link.captures[h]
    ensures s.received <= Run(s, run).received
    ensures Run(s, run).lastSyncId == Reach(s.lastSyncId, Run(s, run).received[|s.received|..])
    decreases |run|
  {
    if run == [] {
      assert s.received[|s.received|..] == [];
    } else {
      var s1 := Do(s, run[0]);
      CaptureStays(s1, run[1..], h);
      var later := Run(s, run).received;
      if run[0].Arrive? && !s.closed {
        assert later[|s.received|..] == [s.link.wire[0]] + later[|s1.received|..];
        One(s.lastSyncId, s.link.wire[0]);
        ReachConcat(s.lastSyncId, [s.link.wire[0]], later[|s1.received|..]);
      }
    }
  }

  lemma {:induction false} ReachStays(cursor: nat, ps: seq<Packet>)
    ensures Reach(cursor, ps) == cursor <==> forall i :: 0 <= i < |ps| ==> ps[i].last <= cursor
  {
    if ps != [] {
      var init := ps[..|ps| - 1];
      ReachStays(cursor, init);
      assert forall i :: 0 <= i < |init| ==> init[i] == ps[i];
    }
  }

  /**
   * The cursor of a resubscribe is read before the wait for a token. When it goes out it is the
   * largest id received exactly when no larger one arrived in between; it is never above it.
   */
  lemma SubscribeCursorLags(s: Stream, run: seq<Event>, h: nat)
    requires s.link.open && Enabled(s, BeginSubscribe(h)) && Legal(Do(s, BeginSubscribe(h)), run) && Leaves(run, h)
    ensures var s' := Run(Do(s, BeginSubscribe(h)), run);
            && h in s'.link.captures && s.received <= s'.received
            && s'.link.captures[h].cursor <= s'.lastSyncId
            && (s'.link.captures[h].cursor == s'.lastSyncId
                <==> forall i :: |s.received| <= i < |s'.received| ==> s'.received[i].last <= s.lastSyncId)
  {
    var s1 := Do(s, BeginSubscribe(h));
    CaptureStays(s1, run, h);
    var s' := Run(s1, run);
    var since := s'.received[|s.received|..];
    ReachStays(s.lastSyncId, since);
    assert forall i :: |s.received| <= i < |s'.received| ==> s'.received[i] == since[i - |s.received|];
    assert forall i :: 0 <= i < |since| ==> since[i] == s'.received[i + |s.received|];
  }

  /** It does lag: a packet that is on the wire when the wait begins and arrives before it ends. */
  lemma CursorBehind(s: Stream, h: nat)
    requires s.link.open && !s.closed && Enabled(s, BeginSubscribe(h))
    requires s.link.wire != [] && s.link.wire[0].last > s.lastSyncId
    ensures var s' := Do(Do(s, BeginSubscribe(h)), Arrive);
            s'.link.captures[h].cursor < s'.lastSyncId
            && Do(s', FinishSubscribe(h, true)).link.outbound == s.link.outbound + [s.lastSyncId]
  {
  }

  class Subscription {
    const initial: nat
    var closed: bool
    var error: bool
    var lastSyncId: nat
    /** a next() that has not been answered */
    var pending: bool
    var queue: seq<Packet>
    /** packets given to the consumer */
    var yielded: seq<Packet>
    /** the socket in use, counting up, and whether it is open */
    var socket: nat
    var open: bool
    /** sendSubscribe calls waiting for a token, of this subscription or of one before it */
    var captures: map<nat, Capture>
    /** what is on the wire of the open socket: cursors to the server, packets from it */
    var outbound: seq<nat>
    var wire: seq<Packet>
    /** how far the server has sent on this socket; None before it has read a cursor */
    var serverPos: Option<nat>
    /** every packet that arrived before the subscription ended */
    ghost var received: seq<Packet>

    ghost function View(): Stream
      reads this
    {
      Stream(initial, closed, lastSyncId, received, Link(socket, open, captures, outbound, wire, serverPos))
    }

    /** subscribe(): the socket may be live, with an earlier subscription's stream still on it. */
    constructor (afterSyncId: nat, live: Link)
      requires WellFormed(live)
      ensures Valid() && View() == Stream(afterSyncId, false, afterSyncId, [], live) && !pending && yielded == []
      ensures Gapless(View()) <==> StartsBelow(live, afterSyncId)
    {
      initial, lastSyncId := afterSyncId, afterSyncId;
      closed, error, pending := false, false, false;
      queue, yielded, received := [], [], [];
      socket, open, captures := live.socket, live.open, live.captures;
      outbound, wire, serverPos := live.outbound, live.wire, live.serverPos;
    }

    ghost predicate Valid()
      reads this
    {
      && Inv(View())
      && (pending ==> queue == [] && !closed)
      && received == yielded + queue
      && (error ==> closed)
    }

    /** The consumer asks for a packet; it never asks twice at once. */
    method Next() returns (r: NextResult)
      requires Valid() && !pending
      modifies this`queue, this`yielded, this`pending
      ensures Valid() && received == old(received)
      ensures error ==> r == Rejected && yielded == old(yielded)
      ensures !error && old(queue) != []
              ==> r == Value(old(queue)[0]) && yielded == old(yielded) + [old(queue)[0]] && !pending
      ensures !error && old(queue) == []
              ==> r == (if closed then Done else Waiting) && pending == !closed && yielded == old(yielded)
    {
      if error {
        return Rejected;
      }
      if closed && queue == [] {
        return Done;
      }
      if queue != [] {
        var queued := queue[0];
        queue := queue[1..];
        yielded := yielded + [queued];
        return Value(queued);
      }
      pending := true;
      return Waiting;
    }

    /** return(), unsubscribe() and close(): a waiting consumer is told the stream is done. */
    method Close() returns (done: bool)
      requires Valid()
      modifies this`closed, this`pending
      ensures Valid() && View() == Do(old(View()), End) && !pending && done == old(pending)
    {
      done := false;
      if closed {
        return;
      }
      closed, done := true, pending;
      pending := false;
    }

    method Fail() returns (rejected: bool)
      requires Valid()
      modifies this`closed, this`error, this`pending
      ensures Valid() && View() == Do(old(View()), End) && !pending && rejected == old(pending)
      ensures error <==> old(error) || !old(closed)
    {
      rejected := false;
      if closed {
        return;
      }
      closed, error, rejected := true, true, pending;
      pending := false;
    }

    /** A packet arrives: to the waiting consumer if there is one, else to the queue. */
    method HandleMessage()
      requires Valid() && open && wire != []
      modifies this`wire, this`lastSyncId, this`pending, this`queue, this`yielded, this`received
      ensures Valid() && View() == Do(old(View()), Arrive) && (old(Gapless(View())) ==> Gapless(View()))
      ensures !closed && old(pending) ==> yielded == old(yielded) + [old(wire)[0]] && queue == [] && !pending
      ensures !closed && !old(pending) ==> yielded == old(yielded) && queue == old(queue) + [old(wire)[0]]
      ensures closed ==> received == old(received) && yielded == old(yielded) && queue == old(queue)
    {
      hide GapFree, Reach, Gapless;
      ArriveKeeps(View());
      var packet := wire[0];
      wire := wire[1..];
      if closed {
        return;
      }
      lastSyncId := Max(lastSyncId, packet.last);
      received := received + [packet];
      if pending {
        yielded, pending := yielded + [packet], false;
      } else {
        queue := queue + [packet];
      }
    }

    /** A new socket: whatever was on the old one is lost. */
    method SocketOpens()
      requires Valid()
      modifies this`socket, this`open, this`wire, this`outbound, this`serverPos
      ensures Valid() && View() == Do(old(View()), Event.SocketOpens)
              && (!closed && GapFree(initial, received) ==> Gapless(View()))
    {
      socket, open, wire, outbound, serverPos := socket + 1, true, [], [], None;
    }

    method SocketCloses()
      requires Valid()
      modifies this`open, this`wire, this`outbound, this`serverPos
      ensures Valid() && View() == Do(old(View()), Event.SocketCloses)
              && (!closed && GapFree(initial, received) ==> Gapless(View()))
    {
      open, wire, outbound, serverPos := false, [], [], None;
    }

    /** sendSubscribe up to its await: the cursor is the initial one or the largest received so far. */
    method BeginSubscribe(handle: nat)
      requires Valid() && handle !in captures
      modifies this`captures
      ensures Valid() && View() == Do(old(View()), Event.BeginSubscribe(handle))
      ensures captures
              == if open then old(captures)[handle := Capture(Reach(initial, received), socket)] else old(captures)
    {
      if !open {
        return;
      }
      captures := captures[handle := Capture(lastSyncId, socket)];
    }

    /** After it: the captured cursor goes out on the socket it was captured for, or nowhere. */
    method FinishSubscribe(handle: nat, hasToken: bool)
      requires Valid() && handle in captures
      modifies this`captures, this`outbound
      ensures Valid() && View() == Do(old(View()), Event.FinishSubscribe(handle, hasToken))
    {
      var c := captures[handle];
      captures := captures - {handle};
      if !hasToken {
        return;
      }
      if !open || c.socket != socket {
        return;
      }
      outbound := outbound + [c.cursor];
    }

    /** The server starts, or starts over, from the cursor it was sent. */
    method ServerReads()
      requires Valid() && outbound != []
      modifies this`outbound, this`serverPos
      ensures Valid() && View() == Do(old(View()), Event.ServerReads)
    {
      serverPos, outbound := Some(outbound[0]), outbound[1..];
    }

    /** The server sends the next slice after what it sent last on this socket. */
    method ServerSends(last: nat)
      requires Valid() && open && serverPos.Some? && serverPos.value <= last
      modifies this`wire, this`serverPos
      ensures Valid() && View() == Do(old(View()), Event.ServerSends(last))
    {
      wire, serverPos := wire + [Packet(serverPos.value, last)], Some(last);
    }
  }

  /**
   * As long as the socket it started on began below it, the packets the consumer got leave no gap
   * across any reconnect: together they carry every id from the initial cursor to the furthest
   * they reach.
   */
  lemma YieldedCover(s: Subscription, id: nat)
    requires s.Valid() && Gapless(s.View()) && s.initial < id <= Reach(s.initial, s.yielded)
    ensures GapFree(s.initial, s.yielded)
    ensures exists i :: 0 <= i < |s.yielded| && s.yielded[i].after < id <= s.yielded[i].last
  {
    GapFreeConcat(s.initial, s.yielded, s.queue);
    GapFreeCovers(s.initial, s.yielded, id);
  }

  /** Nothing is lost on the way to the consumer: what arrived is what it got, then what waits, in order. */
  lemma NothingLost(s: Subscription)
    requires s.Valid()
    ensures s.received == s.yielded + s.queue
    ensures s.pending ==> s.received == s.yielded
    ensures s.lastSyncId == Max(Reach(s.initial, s.yielded), Reach(s.initial, s.queue))
  {
    ReachConcat(s.initial, s.yielded, s.queue);
    ReachFrom(s.initial, s.yielded, s.queue);
    assert s.queue == [] ==> s.yielded + s.queue == s.yielded;
  }

  lemma {:induction false} ReachFrom(initial: nat, a: seq<Packet>, b: seq<Packet>)
    ensures Reach(Reach(initial, a), b) == Max(Reach(initial, a), Reach(initial, b))
  {
    if b != [] {
      ReachFrom(initial, a, b[..|b| - 1]);
    }
  }
}
