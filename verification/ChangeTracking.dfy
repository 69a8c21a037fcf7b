/**
 * Change tracking of one model instance: local edits, server updates that preserve them, and
 * saves whose answer arrives after more of both.
 */
module ChangeTracking {
  import opened Records

  /** Assignment; undefined leaves no value. */
  function With(data: Fields, p: string, v: Option<Value>): Fields {
    if v.Some? then data[p := v.value] else data - {p}
  }

  type Tracked = map<string, Option<Value>>

  function TrackedAs(modified: Tracked, p: string): Option<Option<Value>> {
    if p in modified then Some(modified[p]) else None
  }

  /** What a save sends, and what it needs to recognise its own answer. */
  datatype Snapshot = Snapshot(changes: Tracked, original: Tracked, versions: map<string, nat>, version: nat)

  function Base(data: Fields, modified: Tracked, p: string): Option<Value> {
    if p in modified then modified[p] else ValueOf(data, p)
  }

  function VersionIn(versions: map<string, nat>, p: string): nat {
    if p in versions then versions[p] else 0
  }

  /** The tracked original, or the current value if untracked, is what the server has. */
  ghost predicate Tracks(data: Fields, modified: Tracked, known: Fields) {
    forall p :: Base(data, modified, p) == ValueOf(known, p)
  }

  ghost predicate Versioned(versions: map<string, nat>, top: nat) {
    forall p :: p in versions ==> versions[p] <= top
  }

  /**
   * The snapshot still tells whether p has changed since: if not, p is unsent exactly if the
   * snapshot carries it, with the value it carries.
   */
  predicate RecognisesAt(s: Snapshot, p: string, value: Option<Value>, known: Option<Value>, version: nat, edited: bool)
  {
    && (p in s.changes <==> p in s.versions)
    && (p in s.versions ==> s.versions[p] <= version && s.versions[p] <= s.version)
    && (edited ==> version > s.version)
    && (version <= s.version ==>
          if p in s.versions then version == s.versions[p] && s.changes[p] == value != known else value == known)
  }

  ghost predicate Recognises(s: Snapshot, data: Fields, known: Fields, versions: map<string, nat>, top: nat,
                             editedSince: set<string>) {
    s.version <= top
    && forall p :: RecognisesAt(s, p, ValueOf(data, p), ValueOf(known, p), VersionIn(versions, p), p in editedSince)
  }

  /** Only property p changed hands. */
  predicate OnlyAt(p: string, data: Fields, modified: Tracked, known: Fields, data': Fields, modified': Tracked,
                   known': Fields)
  {
    data' - {p} == data - {p} && modified' - {p} == modified - {p} && known' - {p} == known - {p}
  }

  lemma TracksAt(p: string, data: Fields, modified: Tracked, known: Fields, data': Fields, modified': Tracked,
                 known': Fields)
    requires Tracks(data, modified, known) && OnlyAt(p, data, modified, known, data', modified', known')
    requires Base(data', modified', p) == ValueOf(known', p)
    ensures Tracks(data', modified', known')
  {
    forall q ensures Base(data', modified', q) == ValueOf(known', q) {
      if q != p {
        assert Base(data, modified, q) == ValueOf(known, q);
        assert q in data' <==> q in data' - {p};
        assert q in data <==> q in data - {p};
        assert q in modified' <==> q in modified' - {p};
        assert q in modified <==> q in modified - {p};
        assert q in known' <==> q in known' - {p};
        assert q in known <==> q in known - {p};
      }
    }
  }

  ghost predicate SameElsewhere(p: string, a: Fields, b: Fields) {
    forall q :: q != p ==> ValueOf(a, q) == ValueOf(b, q)
  }

  /** Bumping p's version tells the snapshot that p has changed since. */
  lemma BumpRecognises(p: string, s: Snapshot, data: Fields, data': Fields, known: Fields, known': Fields,
                       versions: map<string, nat>, top: nat, editedSince: set<string>, editedSince': set<string>)
    requires Versioned(versions, top) && editedSince' <= editedSince + {p}
    requires SameElsewhere(p, data, data') && SameElsewhere(p, known, known')
    requires Recognises(s, data, known, versions, top, editedSince)
    ensures Recognises(s, data', known', versions[p := top + 1], top + 1, editedSince')
  {
    hide ValueOf;
    var versions' := versions[p := top + 1];
    forall q ensures RecognisesAt(s, q, ValueOf(data', q), ValueOf(known', q), VersionIn(versions', q),
                                  q in editedSince') {
      assert RecognisesAt(s, q, ValueOf(data, q), ValueOf(known, q), VersionIn(versions, q), q in editedSince);
    }
  }

  lemma BumpKeeps(p: string, s: Option<Snapshot>, data: Fields, data': Fields, known: Fields, known': Fields,
                  versions: map<string, nat>, top: nat, editedSince: set<string>, editedSince': set<string>)
    requires Versioned(versions, top) && editedSince' <= editedSince + {p}
    requires SameElsewhere(p, data, data') && SameElsewhere(p, known, known')
    requires s.Some? ==> Recognises(s.value, data, known, versions, top, editedSince)
    ensures Versioned(versions[p := top + 1], top + 1)
    ensures s.Some? ==> Recognises(s.value, data', known', versions[p := top + 1], top + 1, editedSince')
  {
    hide Recognises;
    if s.Some? {
      BumpRecognises(p, s.value, data, data', known, known', versions, top, editedSince, editedSince');
    }
  }

  /** The server sent a value for p, and the tracked original or the value itself follows it. */
  lemma ServerSent(p: string, next: Value, data: Fields, modified: Tracked, known: Fields, data': Fields,
                   modified': Tracked)
    requires Tracks(data, modified, known)
    requires data' == data || data' == data[p := next]
    requires modified' == modified - {p} || modified' == modified[p := Some(next)]
    requires modified' == modified - {p} ==> ValueOf(data', p) == Some(next)
    ensures Tracks(data', modified', known[p := next])
  {
    TracksAt(p, data, modified, known, data', modified', known[p := next]);
  }

  /** The server accepted v for p. */
  lemma ServerAccepted(p: string, v: Option<Value>, data: Fields, modified: Tracked, known: Fields, modified': Tracked)
    requires Tracks(data, modified, known)
    requires modified' == modified - {p} || modified' == modified[p := v]
    requires modified' == modified - {p} ==> ValueOf(data, p) == v
    ensures Tracks(data, modified', With(known, p, v))
  {
    TracksAt(p, data, modified, known, data, modified', With(known, p, v));
  }

  lemma BumpAfterSend(p: string, next: Value, s: Option<Snapshot>, data: Fields, data': Fields, known: Fields,
                      versions: map<string, nat>, top: nat, editedSince: set<string>)
    requires Versioned(versions, top) && (data' == data || data' == data[p := next])
    requires s.Some? ==> Recognises(s.value, data, known, versions, top, editedSince)
    ensures Versioned(versions[p := top + 1], top + 1)
    ensures s.Some? ==> Recognises(s.value, data', known[p := next], versions[p := top + 1], top + 1, editedSince)
  {
    BumpKeeps(p, s, data, data', known, known[p := next], versions, top, editedSince, editedSince);
  }

  /** The server sent the value p already has. */
  lemma SentAgain(p: string, next: Value, s: Option<Snapshot>, data: Fields, known: Fields, versions: map<string, nat>,
                  top: nat, editedSince: set<string>)
    requires ValueOf(data, p) == ValueOf(known, p) == Some(next)
    requires s.Some? ==> Recognises(s.value, data, known, versions, top, editedSince)
    ensures s.Some? ==> Recognises(s.value, data, known[p := next], versions, top, editedSince)
  {
  }

  /**
   * The three-way rule: what the server sent is known; a property with no local change takes it,
   * a property with one keeps its value.
   */
  ghost predicate Adopts(before: Fields, knownBefore: Fields, sent: Fields, after: Fields, knownAfter: Fields) {
    forall p ::
      && ValueOf(knownAfter, p) == (if p in sent then Some(sent[p]) else ValueOf(knownBefore, p))
      && ValueOf(after, p) == (if p in sent && ValueOf(before, p) == ValueOf(knownBefore, p) then Some(sent[p])
                               else ValueOf(before, p))
  }

  lemma AdoptsNothing(data: Fields, known: Fields)
    ensures Adopts(data, known, map[], data, known)
  {
  }

  lemma AdoptsOne(before: Fields, knownBefore: Fields, sent: Fields, mid: Fields, knownMid: Fields, p: string, v: Value,
                  after: Fields, knownAfter: Fields)
    requires Adopts(before, knownBefore, sent, mid, knownMid) && p !in sent
    requires knownAfter == knownMid[p := v]
    requires after == if ValueOf(mid, p) != ValueOf(knownMid, p) then mid else mid[p := v]
    ensures Adopts(before, knownBefore, sent[p := v], after, knownAfter)
  {
  }

  /** Of these properties, the ones with a tracked original are the ones that differ from it. */
  ghost predicate Measures(data: Fields, modified: Tracked, known: Fields, ps: set<string>) {
    forall p :: p in ps ==> (TrackedAs(modified, p).Some? <==> ValueOf(data, p) != ValueOf(known, p))
  }

  lemma MeasuresOne(p: string, data: Fields, modified: Tracked, known: Fields, ps: set<string>, data': Fields,
                    modified': Tracked, known': Fields)
    requires Measures(data, modified, known, ps) && SameElsewhere(p, data, data') && SameElsewhere(p, known, known')
    requires forall q :: q != p ==> TrackedAs(modified', q) == TrackedAs(modified, q)
    requires p in modified' <==> ValueOf(data', p) != ValueOf(known', p)
    ensures Measures(data', modified', known', ps + {p})
  {
    hide ValueOf;
  }

  /**
   * The properties an update touches count as changed since whatever was captured before: those with
   * a local change, and those whose value it changes.
   */
  ghost predicate Touches(before: Fields, knownBefore: Fields, sent: Fields, versions: map<string, nat>, top: nat,
                          versions': map<string, nat>) {
    forall p ::
      if p in sent && (ValueOf(before, p) != ValueOf(knownBefore, p) || ValueOf(before, p) != Some(sent[p]))
      then VersionIn(versions', p) > top else VersionIn(versions', p) == VersionIn(versions, p)
  }

  lemma NothingTouched(data: Fields, modified: Tracked, known: Fields, versions: map<string, nat>, top: nat)
    ensures Touches(data, known, map[], versions, top, versions) && Measures(data, modified, known, {})
  {
  }

  lemma WithElsewhere(p: string, v: Option<Value>, data: Fields)
    ensures SameElsewhere(p, data, With(data, p, v)) && SameElsewhere(p, data, data)
    ensures ValueOf(With(data, p, v), p) == v && With(data, p, v) - {p} == data - {p}
  {
  }

  lemma SameValue(data: Fields, p: string)
    ensures With(data, p, ValueOf(data, p)) == data
  {
  }

  lemma OnlyOneSent(p: string, v: Value, data: Fields, known: Fields, data': Fields, known': Fields)
    requires known' == known[p := v] && (data' == data || data' == data[p := v])
    ensures SameElsewhere(p, data, data') && SameElsewhere(p, known, known')
  {
  }

  lemma TouchesOne(before: Fields, knownBefore: Fields, sent: Fields, mid: Fields, knownMid: Fields,
                   versions: map<string, nat>, top: nat, versionsMid: map<string, nat>, topMid: nat, p: string,
                   v: Value, versions': map<string, nat>, top': nat)
    requires Adopts(before, knownBefore, sent, mid, knownMid) && p !in sent && top <= topMid
    requires Touches(before, knownBefore, sent, versions, top, versionsMid)
    requires var bumped := ValueOf(mid, p) != ValueOf(knownMid, p) || ValueOf(mid, p) != Some(v);
             && top' == topMid + (if bumped then 1 else 0)
             && versions' == if bumped then versionsMid[p := top'] else versionsMid
    ensures Touches(before, knownBefore, sent[p := v], versions, top, versions') && top <= top'
  {
    hide ValueOf;
  }

  lemma Sent(s: Snapshot, data: Fields, known: Fields, versions: map<string, nat>, top: nat, editedSince: set<string>)
    requires Recognises(s, data, known, versions, top, editedSince)
    ensures forall p :: p in s.changes <==> p in s.versions
    ensures forall p :: p in s.versions && s.versions[p] == VersionIn(versions, p) ==> s.changes[p] == ValueOf(data, p)
    ensures forall p ::
              p in s.versions && VersionIn(versions, p) <= s.version ==> VersionIn(versions, p) == s.versions[p]
    ensures forall p ::
              p !in s.versions && VersionIn(versions, p) <= s.version ==> ValueOf(data, p) == ValueOf(known, p)
  {
    forall p ensures p in s.changes <==> p in s.versions {
      assert RecognisesAt(s, p, ValueOf(data, p), ValueOf(known, p), VersionIn(versions, p), p in editedSince);
    }
  }

  /** Where the save whose turn it is stands: woken up, waiting for the store, or past it. */
  datatype Turn = NoTurn | Woken | Sending(snapshot: Snapshot) | Over

  class Model {
    var id: string
    var data: Fields
    /** properties with a tracked original */
    var modified: Tracked
    var propertyVersions: map<string, nat>
    var changeVersion: nat
    var saveActive: bool
    var saveWaiters: nat
    /** the suspended save that has its turn */
    var turn: Turn
    /** the last value known at the server, property by property */
    ghost var known: Fields
    /** properties edited locally since the running save was captured */
    ghost var editedSince: set<string>

    constructor (id: string, data: Fields)
      ensures Valid() && this.id == id && this.data == data && known == data
      ensures turn == NoTurn && !saveActive && saveWaiters == 0 && modified == map[] && editedSince == {}
      ensures changeVersion == 0 && forall p :: VersionOf(p) == 0
    {
      this.id, this.data, known := id, data, data;
      modified, propertyVersions, changeVersion := map[], map[], 0;
      turn, saveActive, saveWaiters, editedSince := NoTurn, false, 0, {};
    }

    /** The tracked original, or the current value if untracked. */
    function Baseline(p: string): Option<Value>
      reads this
    {
      Base(data, modified, p)
    }

    function VersionOf(p: string): nat
      reads this
    {
      VersionIn(propertyVersions, p)
    }

    ghost function Captured(): Option<Snapshot>
      reads this
    {
      if turn.Sending? then Some(turn.snapshot) else None
    }

    ghost predicate Dirty(p: string)
      reads this
    {
      ValueOf(data, p) != ValueOf(known, p)
    }

    ghost predicate Valid()
      reads this
    {
      && Tracks(data, modified, known)
      && Versioned(propertyVersions, changeVersion)
      && (turn.Sending? ==> Recognises(turn.snapshot, data, known, propertyVersions, changeVersion, editedSince))
      && saveActive == !turn.NoTurn?
      && (saveWaiters > 0 ==> saveActive)
    }

    method BumpPropertyVersion(p: string)
      modifies this`changeVersion, this`propertyVersions
      ensures changeVersion == old(changeVersion) + 1
      ensures propertyVersions == old(propertyVersions)[p := changeVersion]
    {
      changeVersion := changeVersion + 1;
      propertyVersions := propertyVersions[p := changeVersion];
    }

    /** The first change since the server's value keeps it as the original. */
    method PropertyChanged(p: string, oldValue: Option<Value>)
      modifies this`modified, this`changeVersion, this`propertyVersions
      ensures changeVersion == old(changeVersion) + 1
      ensures propertyVersions == old(propertyVersions)[p := changeVersion]
      ensures modified == if p in old(modified) then old(modified) else old(modified)[p := oldValue]
    {
      BumpPropertyVersion(p);
      if p !in modified {
        modified := modified[p := oldValue];
      }
    }

    /** A local edit. */
    method SetProperty(p: string, v: Option<Value>)
      requires Valid()
      modifies this`data, this`modified, this`changeVersion, this`propertyVersions, this`editedSince
      ensures Valid() && known == old(known)
      ensures data == With(old(data), p, v)
      ensures modified == if v == old(ValueOf(data, p)) || p in old(modified) then old(modified)
                          else old(modified)[p := old(ValueOf(data, p))]
      ensures changeVersion == old(changeVersion) + (if v == old(ValueOf(data, p)) then 0 else 1)
      ensures propertyVersions == if v == old(ValueOf(data, p)) then old(propertyVersions)
                                  else old(propertyVersions)[p := changeVersion]
      ensures turn.Sending? && v != old(ValueOf(data, p)) ==> editedSince == old(editedSince) + {p}
      ensures !turn.Sending? || v == old(ValueOf(data, p)) ==> editedSince == old(editedSince)
    {
      hide Tracks, Versioned, Recognises, ValueOf, With;
      var oldValue := ValueOf(data, p);
      WithElsewhere(p, v, data);
      if v == oldValue {
        SameValue(data, p);
        return;
      }
      BaselineKnown(p);
      data := With(data, p, v);
      PropertyChanged(p, oldValue);
      if turn.Sending? {
        editedSince := editedSince + {p};
      }
      BumpKeeps(p, Captured(), old(data), data, known, known, old(propertyVersions), old(changeVersion),
                old(editedSince), editedSince);
      TracksAt(p, old(data), old(modified), known, data, modified, known);
    }

    lemma EditsAreNewer()
      requires Valid() && turn.Sending?
      ensures forall p :: p in editedSince ==> VersionOf(p) > turn.snapshot.version
    {
    }

    lemma BaselineKnown(p: string)
      requires Valid()
      ensures Baseline(p) == ValueOf(known, p)
    {
    }

    /** One entry of an update from the server, preserving local changes. */
    method ApplyOne(key: string, next: Value)
      requires Valid()
      modifies this`data, this`modified, this`changeVersion, this`propertyVersions, this`known
      ensures Valid() && known == old(known)[key := next]
      ensures data == if old(Dirty(key)) then old(data) else old(data)[key := next]
      ensures (key in modified <==> Dirty(key))
              && forall q :: q != key ==> TrackedAs(modified, q) == old(TrackedAs(modified, q))
      ensures var bumped := old(Dirty(key) || ValueOf(data, key) != Some(next));
              && changeVersion == old(changeVersion) + (if bumped then 1 else 0)
              && propertyVersions == if bumped then old(propertyVersions)[key := changeVersion]
                                     else old(propertyVersions)
    {
      hide Tracks, Versioned, Recognises;
      BaselineKnown(key);
      known := known[key := next];
      var current := ValueOf(data, key);
      var bump := true;
      if key in modified && current != modified[key] {
        if current == Some(next) {
          modified := modified - {key};
        } else {
          modified := modified[key := Some(next)];
        }
      } else {
        modified := modified - {key};
        bump := current != Some(next);
        data := data[key := next];
      }
      if bump {
        BumpPropertyVersion(key);
        BumpAfterSend(key, next, Captured(), old(data), data, old(known), old(propertyVersions), old(changeVersion),
                      editedSince);
      } else {
        assert data == old(data);
        SentAgain(key, next, Captured(), data, old(known), propertyVersions, changeVersion, editedSince);
      }
      ServerSent(key, next, old(data), old(modified), old(known), data, modified);
    }

    /**
     * _applyUpdate with preserveChanges: a property without local changes takes the server's
     * value, one with local changes keeps them, and the server's value becomes what they are
     * measured against.
     */
    method ApplyUpdate(changes: Fields)
      requires Valid()
      modifies this`id, this`data, this`modified, this`changeVersion, this`propertyVersions, this`known
      ensures Valid() && Adopts(old(data), old(known), changes - {"id"}, data, known)
      ensures id == if "id" in changes && changes["id"].Text? then changes["id"].s else old(id)
      ensures Measures(data, modified, known, changes.Keys - {"id"})
      ensures Touches(old(data), old(known), changes - {"id"}, old(propertyVersions), old(changeVersion),
                      propertyVersions)
    {
      hide Tracks, Versioned, Recognises, Valid, Adopts, Measures, Touches, TrackedAs, ValueOf, VersionIn;
      var left := changes.Keys;
      ghost var sent: Fields := map[];
      AdoptsNothing(data, known);
      NothingTouched(data, modified, known, propertyVersions, changeVersion);
      assert sent.Keys == {};
      while left != {}
        invariant Valid() && left <= changes.Keys
        invariant sent.Keys == changes.Keys - left - {"id"} && forall p :: p in sent ==> sent[p] == changes[p]
        invariant Adopts(old(data), old(known), sent, data, known)
        invariant Measures(data, modified, known, sent.Keys) && changeVersion >= old(changeVersion)
        invariant Touches(old(data), old(known), sent, old(propertyVersions), old(changeVersion), propertyVersions)
        invariant id == if "id" in changes && "id" !in left && changes["id"].Text? then changes["id"].s else old(id)
      {
        var key :| key in left;
        left := left - {key};
        if key == "id" {
          if changes[key].Text? {
            SetId(changes[key].s);
          }
        } else {
          ghost var data0, known0, modified0, versions0, top0 := data, known, modified, propertyVersions, changeVersion;
          ApplyOne(key, changes[key]);
          TouchesOne(old(data), old(known), sent, data0, known0, old(propertyVersions), old(changeVersion), versions0,
                     top0, key, changes[key], propertyVersions, changeVersion);
          AdoptsOne(old(data), old(known), sent, data0, known0, key, changes[key], data, known);
          OnlyOneSent(key, changes[key], data0, known0, data, known);
          MeasuresOne(key, data0, modified0, known0, sent.Keys, data, modified, known);
          assert sent[key := changes[key]].Keys == sent.Keys + {key};
          sent := sent[key := changes[key]];
        }
      }
      assert sent == changes - {"id"};
    }

    method SetId(newId: string)
      requires Valid()
      modifies this`id
      ensures Valid() && id == newId
    {
      id := newId;
    }

    /** The unsent difference: exactly the properties whose value is not the server's. */
    method CaptureChangeSnapshot() returns (s: Snapshot)
      requires Valid()
      ensures forall p :: p in s.changes <==> Dirty(p)
      ensures forall p :: p in s.changes ==> s.changes[p] == ValueOf(data, p)
      ensures s.original.Keys == s.changes.Keys && forall p :: p in s.original ==> s.original[p] == ValueOf(known, p)
      ensures s.versions.Keys == s.changes.Keys && forall p :: p in s.versions ==> s.versions[p] == VersionOf(p)
      ensures s.version == changeVersion
    {
      var changes: Tracked, original: Tracked, versions: map<string, nat> := map[], map[], map[];
      var left := modified.Keys;
      while left != {}
        invariant left <= modified.Keys
        invariant forall p :: p in changes <==> p in modified && p !in left && ValueOf(data, p) != modified[p]
        invariant forall p :: p in changes ==> changes[p] == ValueOf(data, p)
        invariant original.Keys == changes.Keys && versions.Keys == changes.Keys
        invariant forall p :: p in original ==> p in modified && original[p] == modified[p]
        invariant forall p :: p in versions ==> versions[p] == VersionOf(p)
      {
        var p :| p in left;
        left := left - {p};
        if ValueOf(data, p) != modified[p] {
          original := original[p := modified[p]];
          changes := changes[p := ValueOf(data, p)];
          versions := versions[p := VersionOf(p)];
        }
      }
      s := Snapshot(changes, original, versions, changeVersion);
      forall p ensures p in s.changes <==> Dirty(p) {
        assert Baseline(p) == ValueOf(known, p);
      }
    }

    /** The save carries exactly the unsent difference. */
    ghost predicate Sends(s: Snapshot)
      reads this
    {
      && (forall p :: p in s.changes <==> Dirty(p))
      && (forall p :: p in s.changes ==> s.changes[p] == ValueOf(data, p))
    }

    /** save, up to its first await: if a save has its turn the call waits for its own, else it starts. */
    method Save() returns (sends: bool)
      requires Valid()
      modifies this`turn, this`saveActive, this`saveWaiters, this`editedSince
      ensures Valid() && saveActive && sends == (turn.Sending? && !old(saveActive))
      ensures old(saveActive)
              ==> turn == old(turn) && saveWaiters == old(saveWaiters) + 1 && editedSince == old(editedSince)
      ensures !old(saveActive) ==> saveWaiters == old(saveWaiters) && (sends || turn.Over?)
      ensures sends <==> !old(saveActive) && exists p :: Dirty(p)
      ensures sends ==> editedSince == {} && Sends(turn.snapshot)
    {
      if saveActive {
        saveWaiters := saveWaiters + 1;
        return false;
      }
      saveActive, turn := true, Woken;
      sends := StartPersist();
    }

    /** persistChanges up to the call of the store, or all of it if there is nothing to send. */
    method StartPersist() returns (sends: bool)
      requires Valid() && turn.Woken?
      modifies this`turn, this`editedSince
      ensures Valid() && sends == turn.Sending? && (sends || turn.Over?)
      ensures sends <==> exists p :: Dirty(p)
      ensures sends ==> editedSince == {} && Sends(turn.snapshot)
    {
      var s := CaptureChangeSnapshot();
      if s.changes == map[] {
        turn, sends := Over, false;
        forall p ensures !Dirty(p) {
          assert p !in s.changes;
        }
        return;
      }
      turn, editedSince, sends := Sending(s), {}, true;
      var p :| p in s.changes;
      assert Dirty(p);
    }

    /** The finally block of save: the turn goes to a save that waits, or nobody has it. */
    method EndTurn() returns (waiter: bool)
      requires Valid() && turn.Over?
      modifies this`turn, this`saveActive, this`saveWaiters
      ensures Valid() && waiter == (old(saveWaiters) > 0) && saveActive == waiter
      ensures turn == if waiter then Woken else NoTurn
      ensures saveWaiters == if waiter then old(saveWaiters) - 1 else 0
    {
      waiter := saveWaiters > 0;
      if waiter {
        saveWaiters, turn := saveWaiters - 1, Woken;
      } else {
        saveActive, turn := false, NoTurn;
      }
    }

    /** The store threw: the difference stays unsent, and every edit since stays where it is. */
    method FailSave()
      requires Valid() && turn.Sending?
      modifies this`turn
      ensures Valid() && turn.Over?
      ensures forall p :: p in old(turn).snapshot.changes && VersionOf(p) <= old(turn).snapshot.version ==> Dirty(p)
      ensures forall p :: p !in old(turn).snapshot.changes && VersionOf(p) <= old(turn).snapshot.version ==> !Dirty(p)
    {
      turn := Over;
    }

    /** What the store accepted is now what the server has. */
    method ClearSavedChanges(s: Snapshot)
      requires Valid() && turn.Over? && Recognises(s, data, known, propertyVersions, changeVersion, editedSince)
      modifies this`modified, this`known
      ensures Valid()
      ensures forall p :: ValueOf(known, p) == if p in s.changes then s.changes[p] else old(ValueOf(known, p))
      ensures Measures(data, modified, known, s.changes.Keys)
    {
      hide Tracks, Versioned, Recognises, Measures, TrackedAs, ValueOf, With;
      Sent(s, data, known, propertyVersions, changeVersion, editedSince);
      var left := s.versions.Keys;
      ghost var cleared: set<string> := {};
      NothingTouched(data, modified, known, propertyVersions, changeVersion);
      while left != {}
        invariant left <= s.versions.Keys && cleared == s.versions.Keys - left
        invariant Tracks(data, modified, known) && Measures(data, modified, known, cleared)
        invariant forall p ::
                    ValueOf(known, p) == if p in cleared then s.changes[p] else old(ValueOf(known, p))
      {
        var p :| p in left;
        ghost var known0, modified0 := known, modified;
        left := left - {p};
        ClearOne(p, s.changes[p], VersionOf(p) == s.versions[p]);
        WithElsewhere(p, s.changes[p], known0);
        MeasuresOne(p, data, modified0, known0, cleared, data, modified, known);
        cleared := cleared + {p};
      }
      assert cleared == s.changes.Keys;
    }

    method ClearOne(p: string, saved: Option<Value>, sameVersion: bool)
      requires Tracks(data, modified, known) && (sameVersion ==> ValueOf(data, p) == saved)
      modifies this`modified, this`known
      ensures Tracks(data, modified, known) && known == With(old(known), p, saved)
      ensures (p in modified <==> Dirty(p))
              && forall q :: q != p ==> TrackedAs(modified, q) == old(TrackedAs(modified, q))
    {
      hide Tracks;
      known := With(known, p, saved);
      if sameVersion || ValueOf(data, p) == saved {
        modified := modified - {p};
      } else {
        modified := modified[p := saved];
      }
      ServerAccepted(p, saved, data, old(modified), old(known), modified);
    }

    /** The answer's fields count only where nothing changed since the save was captured. */
    method ApplySaveResult(updated: Fields, s: Snapshot) returns (ghost accepted: Fields)
      requires Valid()
      modifies this`id, this`data, this`modified, this`changeVersion, this`propertyVersions, this`known
      ensures Valid()
      ensures forall p :: p in accepted <==> p in updated && old(VersionOf(p)) <= s.version
      ensures forall p :: p in accepted ==> accepted[p] == updated[p]
      ensures Adopts(old(data), old(known), accepted - {"id"}, data, known)
      ensures id == if "id" in accepted && accepted["id"].Text? then accepted["id"].s else old(id)
    {
      var sinceSave: Fields := map[];
      var left := updated.Keys;
      while left != {}
        invariant left <= updated.Keys
        invariant forall p :: p in sinceSave <==> p in updated && p !in left && VersionOf(p) <= s.version
        invariant forall p :: p in sinceSave ==> sinceSave[p] == updated[p]
      {
        var p :| p in left;
        left := left - {p};
        if VersionOf(p) <= s.version {
          sinceSave := sinceSave[p := updated[p]];
        }
      }
      accepted := sinceSave;
      ApplyUpdate(sinceSave);
    }

    /**
     * The store answered: the saved values are the server's, then whatever the answer adds. Where
     * nothing has touched a property since the save was captured the answer counts, and leaves it
     * clean; everywhere else the value stays, an edit made meanwhile with it, and is measured
     * against what was saved or, if the save did not carry it, against what the server had.
     */
    method FinishSave(updated: Fields)
      requires Valid() && turn.Sending?
      modifies this`turn, this`id, this`data, this`modified, this`changeVersion, this`propertyVersions, this`known
      ensures Valid() && turn.Over?
      ensures var s := old(turn).snapshot;
              forall p ::
                if p in updated && p != "id" && old(VersionOf(p)) <= s.version then
                  ValueOf(data, p) == ValueOf(known, p) == Some(updated[p])
                else
                  && ValueOf(data, p) == old(ValueOf(data, p))
                  && ValueOf(known, p) == if p in s.changes then s.changes[p] else old(ValueOf(known, p))
      ensures id == if "id" in updated && updated["id"].Text? && old(VersionOf("id")) <= old(turn).snapshot.version
                    then updated["id"].s else old(id)
      ensures forall p :: p in editedSince ==> old(VersionOf(p)) > old(turn).snapshot.version
    {
      hide Tracks, Versioned, Recognises;
      var s := turn.snapshot;
      Sent(s, data, known, propertyVersions, changeVersion, editedSince);
      EditsAreNewer();
      turn := Over;
      ClearSavedChanges(s);
      ghost var known0 := known;
      forall p | old(VersionOf(p)) <= s.version ensures ValueOf(data, p) == ValueOf(known0, p) {
        assert p in s.changes ==> old(VersionOf(p)) == s.versions[p];
      }
      ghost var accepted := ApplySaveResult(updated, s);
      ghost var sent := accepted - {"id"};
      forall p
        ensures ValueOf(data, p) == if p in sent then Some(sent[p]) else old(ValueOf(data, p))
        ensures ValueOf(known, p) == if p in sent then Some(sent[p]) else ValueOf(known0, p) {
        assert p in sent ==> old(VersionOf(p)) <= s.version;
      }
    }
  }
}
