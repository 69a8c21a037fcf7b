/**
 * One collaborative document: sequence numbers, gaps, and the local updates that wait for a
 * connection. A document is the set of updates it has absorbed; the server numbers its updates
 * 1, 2, 3, and so on.
 */
module YDocument {
  import opened Records

  datatype ConnectionState = Disconnected | Connecting | Syncing | Connected

  type Update = set<nat>

  datatype ClientMessage = SyncStep1(stateVector: Update) | SendUpdate(update: Update)

  datatype Step2 = Step2(seq_: nat, payload: Option<Update>, applies: bool)

  datatype Remote = Remote(connId: string, seq_: nat, payload: Option<Update>, applies: bool)

  /** Y.mergeUpdates */
  function MergeUpdates(us: seq<Update>): Update {
    if us == [] then {} else MergeUpdates(us[..|us| - 1]) + us[|us| - 1]
  }

  /** Every update handed to the transport. */
  function SentUpdates(sent: seq<ClientMessage>): Update {
    if sent == [] then {}
    else
      var last := sent[|sent| - 1];
      SentUpdates(sent[..|sent| - 1]) + (if last.SendUpdate? then last.update else {})
  }

  /** What the server's first n updates are. */
  function ServerUpTo(server: seq<nat>, n: nat): Update
    requires n <= |server|
  {
    set i | 0 <= i < n :: server[i]
  }

  class Document {
    const connId: string
    const maxRetries: nat
    var doc: Update
    var lastSeq: nat
    var refCount: nat
    var attached: bool
    var connectionState: ConnectionState
    var pendingLocalUpdates: seq<Update>
    var pendingInitialContent: Option<string>
    var retryAttempts: nat
    var retryScheduled: bool
    var transportConnected: bool
    var sent: seq<ClientMessage>
    /** the server's updates, in order, and the local ones made while the handler was attached */
    ghost var server: seq<nat>
    ghost var local: Update

    constructor (connId: string, maxRetries: nat, restored: Update)
      ensures this.connId == connId && this.maxRetries == maxRetries
      ensures Valid() && doc == restored && lastSeq == 0 && refCount == 0 && server == [] && local == {} && sent == []
      ensures connectionState == Disconnected && pendingLocalUpdates == [] && pendingInitialContent == None
      ensures !retryScheduled && retryAttempts == 0 && !transportConnected
    {
      this.connId, this.maxRetries, doc := connId, maxRetries, restored;
      lastSeq, refCount, attached, connectionState := 0, 0, false, Disconnected;
      pendingLocalUpdates, pendingInitialContent, retryAttempts, retryScheduled := [], None, 0, false;
      transportConnected, sent, server, local := false, [], [], {};
    }

    /**
     * The document holds every server update up to lastSeq; every local update made under the
     * handler was sent or is buffered; the handler is attached exactly while someone is connected.
     */
    ghost predicate Valid()
      reads this
    {
      && lastSeq <= |server|
      && ServerUpTo(server, lastSeq) <= doc
      && local <= SentUpdates(sent) + MergeUpdates(pendingLocalUpdates)
      && (attached <==> refCount > 0)
    }

    /** The server accepts one more update. */
    ghost method ServerAccepts(u: nat)
      requires Valid()
      modifies this`server
      ensures Valid() && server == old(server) + [u]
    {
      forall x | x in ServerUpTo(server + [u], lastSeq) ensures x in ServerUpTo(server, lastSeq) {
        var i :| 0 <= i < lastSeq && (server + [u])[i] == x;
        assert server[i] == x;
      }
      server := server + [u];
    }

    method Send(m: ClientMessage)
      modifies this`sent
      ensures sent == if transportConnected then old(sent) + [m] else old(sent)
      ensures SentUpdates(sent) == SentUpdates(old(sent))
              + (if transportConnected && m.SendUpdate? then m.update else {})
    {
      if transportConnected {
        sent := sent + [m];
        assert sent[..|sent| - 1] == old(sent);
      }
    }

    method RequestSyncStep1()
      modifies this`connectionState, this`sent
      ensures SentUpdates(sent) == SentUpdates(old(sent))
      ensures refCount > 0 && transportConnected ==> connectionState == Syncing && sent == old(sent) + [SyncStep1(doc)]
      ensures refCount > 0 && !transportConnected ==> connectionState == Connecting && sent == old(sent)
      ensures refCount == 0 ==> connectionState == Disconnected && sent == old(sent)
    {
      if refCount == 0 {
        connectionState := Disconnected;
        return;
      }
      if !transportConnected {
        connectionState := Connecting;
        return;
      }
      connectionState := Syncing;
      Send(SyncStep1(doc));
    }

    method Buffer(u: Update)
      modifies this`pendingLocalUpdates
      ensures pendingLocalUpdates == old(pendingLocalUpdates) + [u]
      ensures MergeUpdates(pendingLocalUpdates) == MergeUpdates(old(pendingLocalUpdates)) + u
    {
      pendingLocalUpdates := pendingLocalUpdates + [u];
      assert pendingLocalUpdates[..|pendingLocalUpdates| - 1] == old(pendingLocalUpdates);
    }

    /** A connect has someone to sync for: the first one, or a retry after the document gave up. */
    predicate StartsSync()
      reads this
    {
      refCount == 0 || connectionState == Disconnected
    }

    /**
     * The first connect, and a retry, ask the server for what is missing; any other changes nothing
     * but the count. A retry is not counted, so there is one disconnect for each connect that is.
     */
    method Connect(initialContent: Option<string>)
      requires Valid()
      modifies this`refCount, this`attached, this`retryScheduled, this`retryAttempts, this`pendingLocalUpdates,
               this`pendingInitialContent, this`connectionState, this`sent
      ensures Valid() && attached
      ensures refCount == if old(refCount) > 0 && old(connectionState) == Disconnected then old(refCount)
                          else old(refCount) + 1
      ensures pendingLocalUpdates == old(pendingLocalUpdates) + (if old(refCount) == 0 && doc != {} then [doc] else [])
      ensures old(StartsSync()) ==>
                && pendingInitialContent == initialContent && !retryScheduled && retryAttempts == 0
                && connectionState == (if transportConnected then Syncing else Connecting)
                && sent == old(sent) + (if transportConnected then [SyncStep1(doc)] else [])
      ensures !old(StartsSync()) ==>
                && pendingInitialContent == old(pendingInitialContent) && retryScheduled == old(retryScheduled)
                && retryAttempts == old(retryAttempts) && connectionState == old(connectionState) && sent == old(sent)
    {
      hide SentUpdates, MergeUpdates, ServerUpTo;
      var wasActive := refCount > 0;
      var shouldRetryDisconnected := wasActive && connectionState == Disconnected;
      if !shouldRetryDisconnected {
        refCount := refCount + 1;
      }
      if wasActive && !shouldRetryDisconnected {
        return;
      }
      retryScheduled, retryAttempts := false, 0;
      if !wasActive {
        attached := true;
        if doc != {} {
          Buffer(doc);
        }
      }
      pendingInitialContent := initialContent;
      RequestSyncStep1();
    }

    method Disconnect()
      requires Valid()
      modifies this`refCount, this`attached, this`pendingInitialContent, this`retryScheduled, this`retryAttempts,
               this`connectionState
      ensures Valid() && refCount == (if old(refCount) == 0 then 0 else old(refCount) - 1)
      ensures attached <==> old(refCount) > 1
      ensures old(refCount) == 1 ==>
                && connectionState == Disconnected && pendingInitialContent == None
                && !retryScheduled && retryAttempts == 0
      ensures old(refCount) != 1 ==>
                && connectionState == old(connectionState) && pendingInitialContent == old(pendingInitialContent)
                && retryScheduled == old(retryScheduled) && retryAttempts == old(retryAttempts)
    {
      if refCount == 0 {
        return;
      }
      refCount := refCount - 1;
      if refCount > 0 {
        return;
      }
      pendingInitialContent, retryScheduled, retryAttempts := None, false, 0;
      attached := false;
      connectionState := Disconnected;
    }

    /** The update handler: a local update goes out at once when connected, else it waits. */
    method LocalUpdate(u: nat)
      requires Valid()
      modifies this`doc, this`sent, this`pendingLocalUpdates, this`local
      ensures Valid() && doc == old(doc) + {u} && local == old(local) + (if attached then {u} else {})
      ensures attached && connectionState == Connected && transportConnected ==>
                sent == old(sent) + [SendUpdate({u})] && pendingLocalUpdates == old(pendingLocalUpdates)
      ensures attached && !(connectionState == Connected && transportConnected) ==>
                sent == old(sent) && pendingLocalUpdates == old(pendingLocalUpdates) + [{u}]
      ensures !attached ==> sent == old(sent) && pendingLocalUpdates == old(pendingLocalUpdates)
    {
      doc := doc + {u};
      if !attached {
        return;
      }
      local := local + {u};
      if connectionState == Connected && transportConnected {
        Send(SendUpdate({u}));
        return;
      }
      Buffer({u});
    }

    method FlushPendingLocalUpdates()
      requires Valid() && transportConnected
      modifies this`sent, this`pendingLocalUpdates
      ensures Valid() && pendingLocalUpdates == []
      ensures sent == old(sent) + (if old(pendingLocalUpdates) == [] then []
                                   else [SendUpdate(MergeUpdates(old(pendingLocalUpdates)))])
      ensures SentUpdates(sent) == SentUpdates(old(sent)) + MergeUpdates(old(pendingLocalUpdates))
    {
      if pendingLocalUpdates == [] {
        return;
      }
      var merged := MergeUpdates(pendingLocalUpdates);
      pendingLocalUpdates := [];
      Send(SendUpdate(merged));
    }

    /** There is initial content and no text yet: then, and only then, the content becomes an edit. */
    predicate Seeds(hasText: bool)
      reads this
    {
      pendingInitialContent.Some? && !hasText
    }

    /** Pending initial content becomes a local edit, unless the document has text. */
    method SeedPendingContent(hasText: bool, seed: nat)
      requires Valid()
      modifies this`doc, this`sent, this`pendingLocalUpdates, this`local, this`pendingInitialContent
      ensures Valid() && pendingInitialContent == None
      ensures doc == old(doc) + (if old(Seeds(hasText)) then {seed} else {})
      ensures local == old(local) + (if old(Seeds(hasText)) && attached then {seed} else {})
      ensures sent == old(sent)
                      + (if old(Seeds(hasText)) && attached && connectionState == Connected && transportConnected
                         then [SendUpdate({seed})] else [])
      ensures pendingLocalUpdates
              == old(pendingLocalUpdates)
                 + (if old(Seeds(hasText)) && attached && !(connectionState == Connected && transportConnected)
                    then [{seed}] else [])
      ensures SentUpdates(sent) + MergeUpdates(pendingLocalUpdates)
              == old(SentUpdates(sent) + MergeUpdates(pendingLocalUpdates))
                 + (if old(Seeds(hasText)) && attached then {seed} else {})
    {
      if pendingInitialContent.None? {
        return;
      }
      pendingInitialContent := None;
      if hasText {
        return;
      }
      SentGrows(sent, SendUpdate({seed}));
      BufferGrows(pendingLocalUpdates, {seed});
      LocalUpdate(seed);
    }

    /** The answer covers the server's first `seq_` updates, together with what the document held when it asked. */
    ghost predicate Covers(m: Step2)
      reads this
    {
      m.seq_ <= |server| && (m.payload.Some? ==> ServerUpTo(server, m.seq_) <= doc + m.payload.value)
    }

    predicate Accepts(m: Step2)
      reads this
    {
      && refCount > 0 && transportConnected
      && m.seq_ >= lastSeq && !(m.seq_ == lastSeq && connectionState == Connected)
      && m.payload.Some? && m.applies
    }

    /**
     * An accepted answer is absorbed, moves lastSeq to its number, seeds the initial content, sends
     * everything buffered and connects.
     */
    method HandleSyncStep2(m: Step2, hasText: bool, seed: nat)
      requires Valid() && Covers(m)
      modifies this`doc, this`lastSeq, this`sent, this`pendingLocalUpdates, this`local, this`pendingInitialContent,
               this`retryScheduled, this`retryAttempts, this`connectionState
      ensures Valid() && lastSeq >= old(lastSeq) && old(local) <= local
      ensures old(Accepts(m)) ==>
                && doc == old(doc) + m.payload.value + (if old(Seeds(hasText)) then {seed} else {})
                && pendingInitialContent == None && lastSeq == m.seq_ && ServerUpTo(server, m.seq_) <= doc
                && connectionState == Connected && !retryScheduled && retryAttempts == 0
                && pendingLocalUpdates == [] && local <= SentUpdates(sent) && old(sent) <= sent
      ensures old(Accepts(m)) ==> SentUpdates(sent) == old(SentUpdates(sent) + MergeUpdates(pendingLocalUpdates))
                                                       + (if old(Seeds(hasText)) then {seed} else {})
      ensures !old(Accepts(m)) ==>
                && doc == old(doc) && lastSeq == old(lastSeq) && sent == old(sent) && local == old(local)
                && connectionState == old(connectionState) && pendingLocalUpdates == old(pendingLocalUpdates)
                && pendingInitialContent == old(pendingInitialContent)
                && retryScheduled == old(retryScheduled) && retryAttempts == old(retryAttempts)
    {
      hide SentUpdates, MergeUpdates, ServerUpTo;
      NothingPending();
      if !(refCount > 0 && transportConnected) {
        return;
      }
      if m.seq_ < lastSeq {
        return;
      }
      if m.seq_ == lastSeq && connectionState == Connected {
        return;
      }
      if m.payload.None? || !m.applies {
        return;
      }
      doc := doc + m.payload.value;
      SeedPendingContent(hasText, seed);
      lastSeq := m.seq_;
      retryScheduled, retryAttempts := false, 0;
      FlushPendingLocalUpdates();
      connectionState := Connected;
    }

    /** The message carries the server's update of that number. */
    ghost predicate Carries(m: Remote)
      reads this
    {
      1 <= m.seq_ <= |server| && (m.payload.Some? ==> m.payload.value == {server[m.seq_ - 1]})
    }

    predicate Listens(m: Remote)
      reads this
    {
      m.connId != connId && refCount > 0 && transportConnected && connectionState == Connected
    }

    /** The next update is absorbed, an old one ignored, and a gap sends the document back to syncing. */
    method HandleUpdate(m: Remote)
      requires Valid() && Carries(m)
      modifies this`doc, this`lastSeq, this`connectionState, this`sent
      ensures Valid()
      ensures old(Listens(m)) && m.seq_ > old(lastSeq) + 1 ==>
                && connectionState == Syncing && sent == old(sent) + [SyncStep1(doc)]
                && doc == old(doc) && lastSeq == old(lastSeq)
      ensures old(Listens(m)) && m.seq_ == old(lastSeq) + 1 && m.payload.Some? && m.applies ==>
                && lastSeq == m.seq_ && doc == old(doc) + {server[m.seq_ - 1]}
                && connectionState == Connected && sent == old(sent)
      ensures || !old(Listens(m)) || m.seq_ <= old(lastSeq)
              || (m.seq_ == old(lastSeq) + 1 && (m.payload.None? || !m.applies)) ==>
                && doc == old(doc) && lastSeq == old(lastSeq) && sent == old(sent)
                && connectionState == old(connectionState)
    {
      if m.connId == connId {
        return;
      }
      if !(refCount > 0 && transportConnected) {
        return;
      }
      if connectionState != Connected {
        return;
      }
      if m.seq_ <= lastSeq {
        return;
      }
      if m.seq_ > lastSeq + 1 {
        RequestSyncStep1();
        return;
      }
      if m.payload.None? || !m.applies {
        return;
      }
      NextUpTo(server, lastSeq);
      doc := doc + m.payload.value;
      lastSeq := m.seq_;
    }

    /** A retryable error schedules a new sync step 1, a bounded number of times; then, or else, it disconnects. */
    method HandleError(retryable: bool)
      requires Valid()
      modifies this`connectionState, this`retryScheduled, this`retryAttempts
      ensures Valid()
      ensures !retryable ==> connectionState == Disconnected && !retryScheduled && retryAttempts == 0
      ensures retryable && refCount == 0 ==>
                && connectionState == Disconnected
                && retryScheduled == old(retryScheduled) && retryAttempts == old(retryAttempts)
      ensures retryable && refCount > 0 && old(retryScheduled) ==>
                connectionState == old(connectionState) && retryScheduled && retryAttempts == old(retryAttempts)
      ensures retryable && refCount > 0 && !old(retryScheduled) && old(retryAttempts) < maxRetries ==>
                connectionState == Connecting && retryScheduled && retryAttempts == old(retryAttempts) + 1
      ensures retryable && refCount > 0 && !old(retryScheduled) && old(retryAttempts) >= maxRetries ==>
                connectionState == Disconnected && !retryScheduled && retryAttempts == 0
    {
      if !retryable {
        retryScheduled, retryAttempts, connectionState := false, 0, Disconnected;
        return;
      }
      if refCount == 0 {
        connectionState := Disconnected;
        return;
      }
      if retryScheduled {
        return;
      }
      if retryAttempts >= maxRetries {
        retryAttempts, connectionState := 0, Disconnected;
        return;
      }
      retryScheduled, retryAttempts, connectionState := true, retryAttempts + 1, Connecting;
    }

    method RetryTimer()
      requires Valid() && retryScheduled
      modifies this`connectionState, this`retryScheduled, this`sent
      ensures Valid() && !retryScheduled
      ensures connectionState == if refCount == 0 then Disconnected
                                 else if transportConnected then Syncing else Connecting
      ensures sent == old(sent) + (if refCount > 0 && transportConnected then [SyncStep1(doc)] else [])
    {
      retryScheduled := false;
      RequestSyncStep1();
    }

    /** The transport went up or down; going up is followed by a replay of sync step 1. */
    method TransportChanged(connected: bool)
      requires Valid()
      modifies this`transportConnected, this`connectionState
      ensures Valid() && transportConnected == connected
      ensures connectionState == if !connected && refCount > 0 then Connecting else old(connectionState)
    {
      transportConnected := connected;
      if !connected && refCount > 0 {
        connectionState := Connecting;
      }
    }

    method ReplayAfterReconnect()
      requires Valid()
      modifies this`connectionState, this`sent
      ensures Valid()
      ensures connectionState == if refCount > 0 && transportConnected then Syncing else old(connectionState)
      ensures sent == old(sent) + (if refCount > 0 && transportConnected then [SyncStep1(doc)] else [])
    {
      if refCount > 0 && transportConnected {
        RequestSyncStep1();
      }
    }
  }

  lemma NothingPending()
    ensures MergeUpdates([]) == {}
  {
  }

  lemma BufferGrows(us: seq<Update>, u: Update)
    ensures MergeUpdates(us + [u]) == MergeUpdates(us) + u
  {
    assert (us + [u])[..|us|] == us;
  }

  lemma SentGrows(sent: seq<ClientMessage>, m: ClientMessage)
    ensures SentUpdates(sent + [m]) == SentUpdates(sent) + (if m.SendUpdate? then m.update else {})
  {
    assert (sent + [m])[..|sent|] == sent;
  }

  lemma NextUpTo(server: seq<nat>, n: nat)
    requires n < |server|
    ensures ServerUpTo(server, n + 1) == ServerUpTo(server, n) + {server[n]}
  {
  }

  /** A document that has caught up with the last number holds everything the server has. */
  lemma CaughtUpHoldsAll(d: Document)
    requires d.Valid() && d.lastSeq == |d.server|
    ensures forall i :: 0 <= i < |d.server| ==> d.server[i] in d.doc
  {
    forall i | 0 <= i < |d.server| ensures d.server[i] in d.doc {
      assert d.server[i] in ServerUpTo(d.server, d.lastSeq);
    }
  }
}
