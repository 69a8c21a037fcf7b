/** The identity map of one model: a map that forgets its least recently used entries. */
module LruMap {
  import opened Records

  /** Infinity, or any number: the option is not restricted to whole numbers. */
  datatype Limit = Infinite | Finite(size: real)

  function Drop(order: seq<string>, id: string): seq<string> {
    if order == [] then []
    else (if order[0] == id then [] else [order[0]]) + Drop(order[1..], id)
  }

  /** Set.delete followed by Set.add: the id moves to the newest end. */
  function Touched(order: seq<string>, id: string): seq<string> {
    Drop(order, id) + [id]
  }

  ghost predicate NoRepeats(order: seq<string>) {
    forall i, j :: 0 <= i < j < |order| ==> order[i] != order[j]
  }

  /** The order lists exactly the ids of the map. */
  ghost predicate SameIds(order: seq<string>, entries: map<string, Fields>) {
    NoRepeats(order) && forall x :: x in order <==> x in entries
  }

  /** Oldest touch first. */
  ghost predicate ByTime(order: seq<string>, times: map<string, nat>, clock: nat) {
    && (forall i :: 0 <= i < |order| ==> order[i] in times && times[order[i]] < clock)
    && forall i, j :: 0 <= i < j < |order| ==> times[order[i]] < times[order[j]]
  }

  lemma {:induction false} DropMembers(order: seq<string>, id: string)
    ensures forall x :: x in Drop(order, id) <==> x in order && x != id
    ensures NoRepeats(order) ==> NoRepeats(Drop(order, id))
    ensures id !in order ==> Drop(order, id) == order
  {
    if order != [] {
      var tail := order[1..];
      DropMembers(tail, id);
      var rest := Drop(tail, id);
      if NoRepeats(order) {
        TailNoRepeats(order);
        Prepend(order[0], rest);
      }
    }
  }

  lemma TailNoRepeats(order: seq<string>)
    requires order != [] && NoRepeats(order)
    ensures NoRepeats(order[1..]) && order[0] !in order[1..]
    ensures forall x :: x in order[1..] <==> x in order && x != order[0]
  {
    forall x | x in order && x != order[0] ensures x in order[1..] {
      var i :| 0 <= i < |order| && order[i] == x;
      assert order[1..][i - 1] == x;
    }
  }

  lemma Prepend(x: string, rest: seq<string>)
    requires NoRepeats(rest) && x !in rest
    ensures NoRepeats([x] + rest)
  {
  }

  lemma TailByTime(order: seq<string>, times: map<string, nat>, clock: nat)
    requires order != [] && ByTime(order, times, clock)
    ensures ByTime(order[1..], times, clock)
    ensures forall x :: x in order[1..] ==> times[order[0]] < times[x]
  {
  }

  /** Removing one id leaves the others in the order they were in. */
  lemma {:induction false} DropByTime(order: seq<string>, id: string, times: map<string, nat>, clock: nat)
    requires ByTime(order, times, clock)
    ensures ByTime(Drop(order, id), times, clock)
  {
    if order != [] {
      var tail := order[1..];
      TailByTime(order, times, clock);
      DropByTime(tail, id, times, clock);
      DropMembers(tail, id);
      var rest := Drop(tail, id);
      forall x | x in rest ensures times[order[0]] < times[x] {
        assert x in tail;
      }
    }
  }

  /** A touch makes the id the newest and moves no other. */
  lemma TouchedByTime(order: seq<string>, id: string, times: map<string, nat>, clock: nat)
    requires ByTime(order, times, clock) && NoRepeats(order)
    ensures ByTime(Touched(order, id), times[id := clock], clock + 1)
    ensures NoRepeats(Touched(order, id)) && forall x :: x in Touched(order, id) <==> x in order || x == id
  {
    DropByTime(order, id, times, clock);
    DropMembers(order, id);
    var rest, times' := Drop(order, id), times[id := clock];
    forall i | 0 <= i < |rest| ensures rest[i] != id && rest[i] in times && times'[rest[i]] == times[rest[i]] < clock {
      assert rest[i] in rest;
    }
  }

  /** More entries than the limit allows. */
  predicate Over(n: nat, limit: Limit) {
    limit.Finite? && limit.size > 0.0 && n as real > limit.size
  }

  /** The newest entries within the limit. */
  function Kept(order: seq<string>, limit: Limit): seq<string> {
    if Over(|order|, limit) then Kept(order[1..], limit) else order
  }

  /** They are the end of the order, as long as the limit allows and no shorter. */
  lemma {:induction false} KeptIsNewest(order: seq<string>, limit: Limit)
    ensures |Kept(order, limit)| <= |order| && Kept(order, limit) == order[|order| - |Kept(order, limit)|..]
    ensures !Over(|Kept(order, limit)|, limit)
    ensures |Kept(order, limit)| < |order| ==> Over(|Kept(order, limit)| + 1, limit)
  {
    if Over(|order|, limit) {
      KeptIsNewest(order[1..], limit);
    }
  }

  /** Whatever goes was last touched before whatever stays. */
  lemma EvictedWereOlder(order: seq<string>, limit: Limit, times: map<string, nat>, clock: nat, x: string, y: string)
    requires ByTime(order, times, clock) && x in order && x !in Kept(order, limit) && y in Kept(order, limit)
    ensures x in times && y in times && times[x] < times[y]
  {
    KeptIsNewest(order, limit);
    var kept := Kept(order, limit);
    var n := |order| - |kept|;
    var i :| 0 <= i < |order| && order[i] == x;
    var j :| 0 <= j < |kept| && kept[j] == y;
    assert order[n + j] == y;
    assert forall m :: n <= m < |order| ==> order[m] == kept[m - n];
  }

  /** The entry just written survives if and only if the limit has room for one entry. */
  lemma JustWrittenSurvives(order: seq<string>, id: string, limit: Limit)
    ensures id in Kept(Touched(order, id), limit)
            <==> limit.Infinite? || limit.size <= 0.0 || limit.size >= 1.0
  {
    var touched := Touched(order, id);
    KeptIsNewest(touched, limit);
    var kept := Kept(touched, limit);
    DropMembers(order, id);
    if |kept| > 0 {
      assert kept[|kept| - 1] == touched[|touched| - 1] == id;
    }
  }

  /** Some entries of another map, unchanged. */
  predicate Part(entries: map<string, Fields>, of: map<string, Fields>) {
    forall x :: x in entries ==> x in of && entries[x] == of[x]
  }

  class IdentityMap {
    var entries: map<string, Fields>
    var accessOrder: seq<string>
    var maxSize: Limit
    /** what onEvict was told, in order */
    var evictions: seq<string>
    /** when each entry was last touched */
    ghost var times: map<string, nat>
    ghost var clock: nat

    constructor (maxSize: Limit)
      ensures Valid() && entries == map[] && this.maxSize == maxSize && evictions == []
    {
      entries, accessOrder, evictions, times, clock := map[], [], [], map[], 0;
      this.maxSize := maxSize;
    }

    ghost predicate Valid()
      reads this
    {
      SameIds(accessOrder, entries) && ByTime(accessOrder, times, clock)
    }

    /** The limit holds; it does as long as maxSize is not lowered. */
    ghost predicate WithinLimit()
      reads this
    {
      !Over(|entries|, maxSize)
    }

    lemma SizeIsOrder()
      requires Valid()
      ensures |entries| == |accessOrder|
    {
      CountOf(accessOrder, entries.Keys);
    }

    method SetMaxSize(maxSize: Limit)
      modifies this`maxSize
      ensures this.maxSize == maxSize
    {
      this.maxSize := maxSize;
    }

    /** Moves an entry to the newest end of the order. */
    method Touch(id: string)
      requires id in entries && NoRepeats(accessOrder) && ByTime(accessOrder, times, clock)
      requires forall x :: x in accessOrder || x == id <==> x in entries
      modifies this`accessOrder, this`times, this`clock
      ensures Valid() && accessOrder == Touched(old(accessOrder), id)
      ensures times == old(times)[id := old(clock)] && clock == old(clock) + 1
    {
      hide ByTime, NoRepeats, Drop;
      TouchedByTime(accessOrder, id, times, clock);
      accessOrder := Drop(accessOrder, id);
      accessOrder := accessOrder + [id];
      times := times[id := clock];
      clock := clock + 1;
    }

    method EvictOldest() returns (oldest: string)
      requires Valid() && accessOrder != []
      modifies this`entries, this`accessOrder
      ensures Valid() && oldest == old(accessOrder)[0] && accessOrder == old(accessOrder)[1..]
      ensures entries == old(entries) - {oldest} && |entries| == |accessOrder|
    {
      TailNoRepeats(accessOrder);
      TailByTime(accessOrder, times, clock);
      oldest := accessOrder[0];
      accessOrder := accessOrder[1..];
      entries := entries - {oldest};
      SizeIsOrder();
    }

    /** Drops the oldest entries until the limit holds, then tells the listener. */
    method EvictIfNeeded()
      requires Valid()
      modifies this`entries, this`accessOrder, this`evictions
      ensures Valid() && WithinLimit()
      ensures accessOrder == Kept(old(accessOrder), maxSize) && Part(entries, old(entries))
      ensures |accessOrder| <= |old(accessOrder)|
      ensures evictions == old(evictions) + old(accessOrder)[..|old(accessOrder)| - |accessOrder|]
    {
      hide ByTime, NoRepeats, SameIds;
      var evicted := [];
      SizeIsOrder();
      ghost var order := accessOrder;
      while Over(|entries|, maxSize)
        invariant Valid() && evictions == old(evictions) && |entries| == |accessOrder| <= |order|
        invariant Kept(accessOrder, maxSize) == Kept(order, maxSize) && Part(entries, old(entries))
        invariant accessOrder == order[|order| - |accessOrder|..] && evicted == order[..|order| - |accessOrder|]
        decreases |entries|
      {
        var oldest := EvictOldest();
        evicted := evicted + [oldest];
      }
      evictions := evictions + evicted;
    }

    method Get(id: string) returns (value: Option<Fields>)
      requires Valid()
      modifies this`accessOrder, this`times, this`clock
      ensures Valid() && value == (if id in entries then Some(entries[id]) else None)
      ensures accessOrder == if id in entries then Touched(old(accessOrder), id) else old(accessOrder)
    {
      if id !in entries {
        return None;
      }
      Touch(id);
      value := Some(entries[id]);
    }

    /** Replaces or creates the entry; the oldest ones make room. */
    method Set(id: string, instance: Fields)
      requires Valid()
      modifies this`entries, this`accessOrder, this`evictions, this`times, this`clock
      ensures Valid() && WithinLimit()
      ensures accessOrder == Kept(Touched(old(accessOrder), id), maxSize)
      ensures Part(entries, old(entries)[id := instance])
    {
      entries := entries[id := instance];
      Touch(id);
      EvictIfNeeded();
    }

    method Update(id: string, changes: Fields) returns (existing: bool)
      requires Valid()
      modifies this`entries, this`accessOrder, this`times, this`clock
      ensures Valid() && existing == (id in old(entries))
      ensures entries == if existing then old(entries)[id := old(entries)[id] + changes] else old(entries)
      ensures accessOrder == if existing then Touched(old(accessOrder), id) else old(accessOrder)
    {
      existing := id in entries;
      if existing {
        entries := entries[id := entries[id] + changes];
        Touch(id);
      }
    }

    /** Merges into an entry, which evicts nothing, or creates it, which may. */
    method Merge(id: string, data: Fields)
      requires Valid()
      modifies this`entries, this`accessOrder, this`evictions, this`times, this`clock
      ensures Valid()
      ensures old(WithinLimit()) || id !in old(entries) ==> WithinLimit()
      ensures accessOrder == if id in old(entries) then Touched(old(accessOrder), id)
                             else Kept(Touched(old(accessOrder), id), maxSize)
      ensures id in old(entries) ==> entries == old(entries)[id := old(entries)[id] + data]
      ensures id !in old(entries) ==> Part(entries, old(entries)[id := data])
    {
      if id in entries {
        entries := entries[id := entries[id] + data];
        Touch(id);
        SizeUnchanged(old(entries), entries);
        return;
      }
      entries := entries[id := data];
      Touch(id);
      EvictIfNeeded();
    }

    method Delete(id: string) returns (existed: bool)
      requires Valid()
      modifies this`entries, this`accessOrder
      ensures Valid() && existed == (id in old(entries)) && entries == old(entries) - {id}
      ensures accessOrder == Drop(old(accessOrder), id)
      ensures old(WithinLimit()) ==> WithinLimit()
    {
      DropMembers(accessOrder, id);
      DropByTime(accessOrder, id, times, clock);
      accessOrder := Drop(accessOrder, id);
      existed := id in entries;
      entries := entries - {id};
      FewerEntries(old(entries), entries);
    }
  }

  lemma SizeUnchanged(a: map<string, Fields>, b: map<string, Fields>)
    requires a.Keys == b.Keys
    ensures |a| == |b|
  {
    assert |a| == |a.Keys| && |b| == |b.Keys|;
  }

  lemma {:induction false} FewerIds(a: set<string>, b: set<string>)
    requires b <= a
    ensures |b| <= |a|
  {
    if b != {} {
      var x :| x in b;
      FewerIds(a - {x}, b - {x});
    }
  }

  lemma FewerEntries(a: map<string, Fields>, b: map<string, Fields>)
    requires b.Keys <= a.Keys
    ensures |b| <= |a|
  {
    FewerIds(a.Keys, b.Keys);
    assert |a| == |a.Keys| && |b| == |b.Keys|;
  }

  lemma {:induction false} CountOf(order: seq<string>, ids: set<string>)
    requires NoRepeats(order) && forall x :: x in order <==> x in ids
    ensures |ids| == |order|
  {
    if order == [] {
      assert ids == {};
    } else {
      TailNoRepeats(order);
      CountOf(order[1..], ids - {order[0]});
    }
  }
}
