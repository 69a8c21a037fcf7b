/** Reading the stored sync actions in id order: the index path against the full scan. */
module SyncActionStore {
  import opened Records
  import opened SyncIds

  datatype StoredAction = StoredAction(id: string, payload: string)

  /** Ids as the server writes them. */
  predicate Canonical(id: string) {
    Numeric(id) && Stripped(id) == id && |id| <= 9999
  }

  /** A record set keyed by id: canonical and distinct. */
  ghost predicate KeyedById(all: seq<StoredAction>) {
    && (forall i :: 0 <= i < |all| ==> Canonical(all[i].id))
    && forall i, j :: 0 <= i < j < |all| ==> all[i].id != all[j].id
  }

  /** Ids by value, each larger than the one before. */
  ghost predicate Ascending(s: seq<StoredAction>) {
    && (forall i :: 0 <= i < |s| ==> Canonical(s[i].id))
    && forall i, j :: 0 <= i < j < |s| ==> Num(s[i].id) < Num(s[j].id)
  }

  lemma CanonicalEqual(a: string, b: string)
    requires Canonical(a) && Canonical(b) && Num(a) == Num(b)
    ensures a == b
  {
    CompareIsNumeric(a, b);
    SameLengthOrder(Stripped(a), Stripped(b));
  }

  // ---- what each path computes

  function InsertBy(s: seq<StoredAction>, a: StoredAction, byKey: bool): seq<StoredAction> {
    if s == [] then [a]
    else if Before(a, s[0], byKey) then [a] + s
    else [s[0]] + InsertBy(s[1..], a, byKey)
  }

  predicate Before(a: StoredAction, b: StoredAction, byKey: bool) {
    if byKey then CompareText(ToSyncIdKey(a.id), ToSyncIdKey(b.id)) < 0 else CompareSyncId(a.id, b.id) < 0
  }

  function SortBy(s: seq<StoredAction>, byKey: bool): seq<StoredAction> {
    if s == [] then [] else InsertBy(SortBy(s[..|s| - 1], byKey), s[|s| - 1], byKey)
  }

  /** `all.filter((action) => isSyncIdGreaterThan(action.id, after))` */
  function Above(s: seq<StoredAction>, after: string): seq<StoredAction> {
    if s == [] then []
    else Above(s[..|s| - 1], after) + (if CompareSyncId(s[|s| - 1].id, after) > 0 then [s[|s| - 1]] else [])
  }

  /** The index records with a key above the range's lower bound. */
  function InRange(s: seq<StoredAction>, after: string): seq<StoredAction> {
    if s == [] then []
    else
      var last := s[|s| - 1];
      InRange(s[..|s| - 1], after)
      + (if CompareText(ToSyncIdKey(last.id), ToSyncIdKey(after)) > 0 then [last] else [])
  }

  /** How many of n records the cursor loop keeps: it counts up until it is at or past the limit. */
  function CursorCount(n: nat, limit: Option<real>): nat {
    if limit.None? then n
    else if limit.value == 0.0 || n == 0 then 0
    else if limit.value <= 1.0 then 1
    else if limit.value >= n as real then n
    else -(-limit.value).Floor
  }

  /** A number without its fraction, as slice reads it. */
  function Truncated(x: real): int {
    if x >= 0.0 then x.Floor else -(-x).Floor
  }

  /** It is the whole number next to x on the side of zero. */
  lemma TruncatedExactly(x: real, n: int)
    ensures n == Truncated(x) <==> if x >= 0.0 then 0.0 <= n as real <= x < (n + 1) as real
                                   else (n - 1) as real < x <= n as real <= 0.0
  {
  }

  /** How many `slice(0, limit)` keeps: a negative end counts from the back. */
  function SliceCount(n: nat, limit: Option<real>): nat {
    if limit.None? then n
    else
      var end := Truncated(limit.value);
      if end < 0 then (if n + end < 0 then 0 else n + end) else if end < n then end else n
  }

  class ActionStore {
    /** the records, in primary key order */
    var records: seq<StoredAction>
    var hasIndex: bool

    constructor (records: seq<StoredAction>, hasIndex: bool)
      ensures this.records == records && this.hasIndex == hasIndex
    {
      this.records, this.hasIndex := records, hasIndex;
    }

    /** The index cursor, record by record, until the limit. */
    method ScanIndex(after: string, limit: Option<real>) returns (results: seq<StoredAction>)
      ensures var found := InRange(SortBy(records, true), after);
              results == found[..CursorCount(|found|, limit)]
    {
      hide InRange, SortBy;
      results := [];
      var cursor := InRange(SortBy(records, true), after);
      if limit == Some(0.0) {
        return;
      }
      var i := 0;
      while i < |cursor|
        invariant 0 <= i <= |cursor| && results == cursor[..i]
        invariant limit.Some? ==> i as real < limit.value || i == 0
      {
        results := results + [cursor[i]];
        i := i + 1;
        if limit.Some? && |results| as real >= limit.value {
          break;
        }
      }
    }

    method GetSyncActions(after: string, limit: Option<real>) returns (results: seq<StoredAction>)
      ensures hasIndex ==> var found := InRange(SortBy(records, true), after);
                           results == found[..CursorCount(|found|, limit)]
      ensures !hasIndex ==> var found := SortBy(Above(records, after), false);
                            results == found[..SliceCount(|found|, limit)]
    {
      if hasIndex {
        results := ScanIndex(after, limit);
        return;
      }
      var filtered := [];
      for i := 0 to |records|
        invariant filtered == Above(records[..i], after)
      {
        assert records[..i + 1][..i] == records[..i];
        if CompareSyncId(records[i].id, after) > 0 {
          filtered := filtered + [records[i]];
        }
      }
      assert records[..|records|] == records;
      var sorted := SortBy(filtered, false);
      results := sorted[..SliceCount(|sorted|, limit)];
    }

    /** A cursor over the store deletes what the snapshot supersedes. */
    method PruneSyncActions(before: string)
      modifies this`records
      ensures records == Above(old(records), before)
    {
      hide CompareSyncId;
      var i := 0;
      ghost var seen := 0;
      assert old(records)[..0] == [];
      while i < |records|
        invariant 0 <= i <= |records| && 0 <= seen <= |old(records)|
        invariant records[..i] == Above(old(records)[..seen], before) && records[i..] == old(records)[seen..]
        decreases |old(records)| - seen
      {
        assert records[i] == records[i..][0] == old(records)[seen];
        assert old(records)[..seen + 1][..seen] == old(records)[..seen];
        if CompareSyncId(records[i].id, before) <= 0 {
          records := records[..i] + records[i + 1..];
        } else {
          i := i + 1;
        }
        seen := seen + 1;
      }
      assert old(records)[..|old(records)|] == old(records);
      assert records[..i] == records;
    }
  }

  // ---- the two paths agree

  /** For canonical ids the two orders are the numeric one. */
  lemma BeforeIsNumeric(a: StoredAction, b: StoredAction, byKey: bool)
    requires Canonical(a.id) && Canonical(b.id)
    ensures Before(a, b, byKey) <==> Num(a.id) < Num(b.id)
  {
    CompareIsNumeric(a.id, b.id);
    KeyOrder(a.id, b.id);
  }

  /** The scan orders ids of any length by value; the index does not, from 10000 digits on. */
  lemma ScanOrderIsNumeric(a: StoredAction, b: StoredAction)
    requires Numeric(a.id) && Numeric(b.id)
    ensures Before(a, b, false) <==> Num(a.id) < Num(b.id)
    ensures 1000 <= |Stripped(a.id)| <= 9999 && |Stripped(b.id)| == 10000 ==>
              !Before(a, b, true) && Before(a, b, false)
  {
    CompareIsNumeric(a.id, b.id);
    if 1000 <= |Stripped(a.id)| <= 9999 && |Stripped(b.id)| == 10000 {
      KeyOrderBreaks(a.id, b.id);
    }
  }

  lemma {:induction false} InsertSorted(s: seq<StoredAction>, a: StoredAction, byKey: bool)
    requires Ascending(s) && Canonical(a.id) && forall x :: x in s ==> x.id != a.id
    ensures Ascending(InsertBy(s, a, byKey))
    ensures forall x :: x in InsertBy(s, a, byKey) <==> x in s || x == a
  {
    hide Before, Num, Stripped, CompareText, ToSyncIdKey, CompareSyncId, PadStart;
    if s != [] {
      BeforeIsNumeric(a, s[0], byKey);
      assert s[0] in s;
      if Num(a.id) == Num(s[0].id) {
        CanonicalEqual(a.id, s[0].id);
      }
      if !Before(a, s[0], byKey) {
        assert forall x :: x in s[1..] ==> x in s;
        InsertSorted(s[1..], a, byKey);
        AscendingHead(s[0], InsertBy(s[1..], a, byKey));
      }
    }
  }

  lemma AscendingHead(first: StoredAction, rest: seq<StoredAction>)
    requires Ascending(rest) && Canonical(first.id)
    requires forall x :: x in rest ==> Canonical(x.id) && Num(first.id) < Num(x.id)
    ensures Ascending([first] + rest)
  {
    var all := [first] + rest;
    forall i, j | 0 <= i < j < |all| ensures Num(all[i].id) < Num(all[j].id) {
      assert all[j] == rest[j - 1] && rest[j - 1] in rest;
    }
  }

  lemma {:induction false} SortSorts(s: seq<StoredAction>, byKey: bool)
    requires KeyedById(s)
    ensures Ascending(SortBy(s, byKey)) && forall x :: x in SortBy(s, byKey) <==> x in s
  {
    if s != [] {
      var n := |s| - 1;
      SortSorts(s[..n], byKey);
      forall x | x in SortBy(s[..n], byKey) ensures x.id != s[n].id {
        assert x in s[..n];
      }
      InsertSorted(SortBy(s[..n], byKey), s[n], byKey);
      assert s == s[..n] + [s[n]];
    }
  }

  lemma {:induction false} AboveMembers(s: seq<StoredAction>, after: string)
    requires KeyedById(s)
    ensures KeyedById(Above(s, after))
    ensures forall x :: x in Above(s, after) <==> x in s && CompareSyncId(x.id, after) > 0
  {
    if s != [] {
      var n := |s| - 1;
      AboveMembers(s[..n], after);
      assert s == s[..n] + [s[n]];
      var front := Above(s[..n], after);
      forall i | 0 <= i < |front| ensures front[i].id != s[n].id {
        assert front[i] in front && front[i] in s[..n];
      }
    }
  }

  lemma AscendingInit(s: seq<StoredAction>)
    requires Ascending(s) && s != []
    ensures Ascending(s[..|s| - 1]) && Canonical(s[|s| - 1].id)
    ensures forall x :: x in s[..|s| - 1] ==> x in s && Canonical(x.id) && Num(x.id) < Num(s[|s| - 1].id)
    ensures forall x :: x in s <==> x in s[..|s| - 1] || x == s[|s| - 1]
  {
    assert s == s[..|s| - 1] + [s[|s| - 1]];
  }

  lemma AscendingSnoc(front: seq<StoredAction>, last: StoredAction)
    requires Ascending(front) && Canonical(last.id)
    requires forall x :: x in front ==> Canonical(x.id) && Num(x.id) < Num(last.id)
    ensures Ascending(front + [last])
  {
    var all := front + [last];
    forall i, j | 0 <= i < j < |all| ensures Num(all[i].id) < Num(all[j].id) {
      assert all[i] == front[i] && front[i] in front;
    }
  }

  lemma {:induction false} InRangeMembers(s: seq<StoredAction>, after: string)
    requires Ascending(s)
    ensures Ascending(InRange(s, after))
    ensures forall x :: x in InRange(s, after) <==> x in s && CompareText(ToSyncIdKey(x.id), ToSyncIdKey(after)) > 0
  {
    hide Num, Stripped, CompareText, ToSyncIdKey, PadStart, Ascending, Canonical, Numeric;
    if s == [] {
      AscendingNothing();
    } else {
      var n := |s| - 1;
      AscendingInit(s);
      InRangeMembers(s[..n], after);
      AscendingSnoc(InRange(s[..n], after), s[n]);
      assert InRange(s[..n], after) + [] == InRange(s[..n], after);
    }
  }

  lemma AscendingNothing()
    ensures Ascending([])
  {
  }

  /** The first record is the one with the smallest id. */
  lemma SameFirst(a: seq<StoredAction>, b: seq<StoredAction>)
    requires Ascending(a) && Ascending(b) && a != [] && b != [] && forall x :: x in a <==> x in b
    ensures a[0] == b[0]
  {
    assert a[0] in b && b[0] in a;
    var i :| 0 <= i < |b| && b[i] == a[0];
    var j :| 0 <= j < |a| && a[j] == b[0];
  }

  lemma {:induction false} AscendingUnique(a: seq<StoredAction>, b: seq<StoredAction>)
    requires Ascending(a) && Ascending(b) && forall x :: x in a <==> x in b
    ensures a == b
  {
    hide Num, Canonical, Numeric;
    if a == [] || b == [] {
      EmptyMembers(a);
      EmptyMembers(b);
    } else {
      SameFirst(a, b);
      TailAscending(a);
      TailAscending(b);
      forall x ensures x in a[1..] <==> x in b[1..] {
        TailMembers(a, x);
        TailMembers(b, x);
      }
      AscendingUnique(a[1..], b[1..]);
      assert a == [a[0]] + a[1..] && b == [b[0]] + b[1..];
    }
  }

  lemma TailAscending(a: seq<StoredAction>)
    requires a != [] && Ascending(a)
    ensures Ascending(a[1..])
  {
  }

  lemma EmptyMembers(a: seq<StoredAction>)
    ensures a == [] <==> forall x :: x !in a
  {
    assert a != [] ==> a[0] in a;
  }

  lemma TailMembers(a: seq<StoredAction>, x: StoredAction)
    requires a != [] && Ascending(a)
    ensures x in a[1..] <==> x in a && x != a[0]
  {
    if x in a && x != a[0] {
      var i :| 0 <= i < |a| && a[i] == x;
      assert a[1..][i - 1] == x;
    }
  }

  /** Both paths find the same records, in the same order. */
  lemma SameRecords(all: seq<StoredAction>, after: string)
    requires KeyedById(all) && Numeric(after) && |Stripped(after)| <= 9999
    ensures InRange(SortBy(all, true), after) == SortBy(Above(all, after), false)
  {
    SortSorts(all, true);
    InRangeMembers(SortBy(all, true), after);
    AboveMembers(all, after);
    SortSorts(Above(all, after), false);
    forall x ensures x in InRange(SortBy(all, true), after) <==> x in SortBy(Above(all, after), false) {
      if x in all {
        KeyOrder(x.id, after);
        CompareIsNumeric(x.id, after);
      }
    }
    AscendingUnique(InRange(SortBy(all, true), after), SortBy(Above(all, after), false));
  }

  /**
   * The index path returns what the scan returns exactly if there is no limit, or nothing matches,
   * or the limit is not negative and is whole or large enough, or it is negative and the slice
   * keeps one record too.
   */
  lemma IndexAgreesWithScan(all: seq<StoredAction>, after: string, limit: Option<real>)
    requires KeyedById(all) && Numeric(after) && |Stripped(after)| <= 9999
    ensures var byIndex := InRange(SortBy(all, true), after);
            var byScan := SortBy(Above(all, after), false);
            var n := |byScan|;
            byIndex[..CursorCount(|byIndex|, limit)] == byScan[..SliceCount(n, limit)]
            <==> || limit.None? || n == 0
                 || (limit.value >= 0.0
                     && (Truncated(limit.value) as real == limit.value || Truncated(limit.value) >= n))
                 || (limit.value < 0.0 && Truncated(limit.value) < 0 && n + Truncated(limit.value) == 1)
  {
    SameRecords(all, after);
    var found := SortBy(Above(all, after), false);
    CountsAgree(|found|, limit);
    var c, s := CursorCount(|found|, limit), SliceCount(|found|, limit);
    assert |found[..c]| == c && |found[..s]| == s;
  }

  lemma CountsAgree(n: nat, limit: Option<real>)
    ensures CursorCount(n, limit) <= n && SliceCount(n, limit) <= n
    ensures CursorCount(n, limit) == SliceCount(n, limit)
            <==> || limit.None? || n == 0
                 || (limit.value >= 0.0
                     && (Truncated(limit.value) as real == limit.value || Truncated(limit.value) >= n))
                 || (limit.value < 0.0 && Truncated(limit.value) < 0 && n + Truncated(limit.value) == 1)
  {
  }

  /** Pruning removes exactly the actions at or below the snapshot. */
  lemma PruneIsExact(all: seq<StoredAction>, before: string, a: StoredAction)
    requires KeyedById(all) && Numeric(before) && a in all
    ensures a in Above(all, before) <==> Num(a.id) > Num(before)
  {
    AboveMembers(all, before);
    CompareIsNumeric(a.id, before);
  }
}
