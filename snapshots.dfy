/**
 * The snapshot record of the call recorder and its two merge routines:
 * the bounded per-function history (`mergeSnapshot`) and the global index
 * (`mergeMainSnapshot`), together with the timestamp update
 * (`updateProperties`). A stored list is the list read from its JSON file;
 * the merges return the list they write back.
 */
module Snapshots {
  import opened Wrappers

  /**
   * An argument or a return value, as far as the recorder tells values apart:
   * a string, a value JSON can serialise (kept as its JSON text), or one it
   * cannot (`undefined`, a function, a cyclic object).
   */
  datatype Value = Str(text: string) | Json(text: string) | Unserializable

  /** A reading of the wall clock: `getTime()` and its `toLocaleString()`. */
  datatype Clock = Clock(millis: int, display: string)

  /** One recorded invocation. `creationTime == None` marks a snapshot that was never timed. */
  datatype Snapshot = Snapshot(
    id: string,
    targetName: string,
    functionName: string,
    creationTime: Option<int>,
    creationTimeString: string,
    updateTime: int,
    updateTimeString: string,
    elapsedTime: int,
    numberOfCall: int,
    input: seq<Value>,
    output: Value)

  /** The largest number of entries the per-function history keeps. */
  const HISTORY_CAP := 10

  /** The fields the timestamp update leaves alone agree. */
  predicate SameRecord(a: Snapshot, b: Snapshot) {
    a.id == b.id && a.targetName == b.targetName && a.functionName == b.functionName
    && a.input == b.input && a.output == b.output
  }

  /** Two snapshots record the same function: the same target name and function name. */
  predicate SameFunction(a: Snapshot, b: Snapshot) {
    a.targetName == b.targetName && a.functionName == b.functionName
  }

  // ---------------------------------------------------------------------------
  // updateProperties

  /**
   * `updateProperties`: a snapshot never timed starts its clock (one call,
   * nothing elapsed); a timed one is stamped with the new update time and
   * adds the time since its ORIGINAL creation to its elapsed time.
   */
  function UpdateProperties(s: Snapshot, now: Clock): (r: Snapshot)
    ensures SameRecord(r, s)
    ensures r.updateTime == now.millis && r.updateTimeString == now.display
    ensures s.creationTime.None? ==>
      && r.creationTime == Some(now.millis) && r.creationTimeString == now.display
      && r.updateTime == now.millis && r.elapsedTime == 0 && r.numberOfCall == 1
    ensures s.creationTime.Some? ==>
      && r.creationTime == s.creationTime && r.creationTimeString == s.creationTimeString
      && r.numberOfCall == s.numberOfCall
      && r.elapsedTime - s.elapsedTime == r.updateTime - s.creationTime.value
  {
    match s.creationTime
    case None =>
      s.(creationTime := Some(now.millis), creationTimeString := now.display,
         updateTime := now.millis, updateTimeString := now.display,
         elapsedTime := 0, numberOfCall := 1)
    case Some(c) =>
      s.(updateTime := now.millis, updateTimeString := now.display,
         elapsedTime := s.elapsedTime + (now.millis - c))
  }

  /** The snapshot after one `updateProperties` per clock reading, in order. */
  function UpdateAll(s: Snapshot, clocks: seq<Clock>): Snapshot
    decreases |clocks|
  {
    if clocks == [] then s else UpdateAll(UpdateProperties(s, clocks[0]), clocks[1..])
  }

  /** The sum over the readings of the time since `origin`. */
  function MillisSince(clocks: seq<Clock>, origin: int): int
    decreases |clocks|
  {
    if clocks == [] then 0 else (clocks[0].millis - origin) + MillisSince(clocks[1..], origin)
  }

  /**
   * Repeated updates of one timed snapshot accumulate, for every update, the
   * time since the original creation (not since the previous update), and
   * never change the creation time or the call count.
   */
  lemma {:induction false} ElapsedAnchoredAtCreation(s: Snapshot, clocks: seq<Clock>)
    requires s.creationTime.Some?
    ensures var r := UpdateAll(s, clocks);
      && SameRecord(r, s) && r.creationTime == s.creationTime && r.numberOfCall == s.numberOfCall
      && r.elapsedTime == s.elapsedTime + MillisSince(clocks, s.creationTime.value)
      && (clocks != [] ==> r.updateTime == clocks[|clocks| - 1].millis)
    decreases |clocks|
  {
    if clocks != [] {
      var s1 := UpdateProperties(s, clocks[0]);
      ElapsedAnchoredAtCreation(s1, clocks[1..]);
      if |clocks| > 1 {
        assert clocks[1..][|clocks[1..]| - 1] == clocks[|clocks| - 1];
      }
    }
  }

  // ---------------------------------------------------------------------------
  // Searching and summing a stored list

  /** The position of the first entry carrying `id`. */
  function FirstWithId(entries: seq<Snapshot>, id: string): (r: Option<nat>)
    ensures r.Some? ==> r.value < |entries| && entries[r.value].id == id
    ensures r.Some? ==> forall j :: 0 <= j < r.value ==> entries[j].id != id
    ensures r.None? ==> forall j :: 0 <= j < |entries| ==> entries[j].id != id
  {
    if entries == [] then None
    else if entries[0].id == id then Some(0)
    else match FirstWithId(entries[1..], id)
      case None => None
      case Some(k) => Some(k + 1)
  }

  /** Some entry carries `id`. */
  predicate HasId(entries: seq<Snapshot>, id: string) {
    exists j :: 0 <= j < |entries| && entries[j].id == id
  }

  /** The position of the last entry recording the same function as `snap`. */
  function LastOfFunction(entries: seq<Snapshot>, snap: Snapshot): (r: Option<nat>)
    ensures r.Some? ==> r.value < |entries| && SameFunction(entries[r.value], snap)
    ensures r.Some? ==> forall j :: r.value < j < |entries| ==> !SameFunction(entries[j], snap)
    ensures r.None? ==> forall j :: 0 <= j < |entries| ==> !SameFunction(entries[j], snap)
    decreases |entries|
  {
    if entries == [] then None
    else if SameFunction(entries[|entries| - 1], snap) then Some(|entries| - 1)
    else LastOfFunction(entries[..|entries| - 1], snap)
  }

  /** The elapsed times of the entries recording the same function as `snap`, summed. */
  function ElapsedOf(entries: seq<Snapshot>, snap: Snapshot): int
    decreases |entries|
  {
    if entries == [] then 0
    else ElapsedOf(entries[..|entries| - 1], snap)
         + (if SameFunction(entries[|entries| - 1], snap) then entries[|entries| - 1].elapsedTime else 0)
  }

  /** The call counts of the entries recording the same function as `snap`, summed. */
  function CallsOf(entries: seq<Snapshot>, snap: Snapshot): int
    decreases |entries|
  {
    if entries == [] then 0
    else CallsOf(entries[..|entries| - 1], snap)
         + (if SameFunction(entries[|entries| - 1], snap) then entries[|entries| - 1].numberOfCall else 0)
  }

  /** No two entries record the same function. */
  predicate OnePerFunction(entries: seq<Snapshot>) {
    forall i, j :: 0 <= i < j < |entries| ==> !SameFunction(entries[i], entries[j])
  }

  /** No two entries carry the same id. */
  predicate DistinctIds(entries: seq<Snapshot>) {
    forall i, j :: 0 <= i < j < |entries| ==> entries[i].id != entries[j].id
  }

  function RemoveAt(entries: seq<Snapshot>, k: nat): seq<Snapshot>
    requires k < |entries|
  {
    entries[..k] + entries[k + 1..]
  }

  // ---------------------------------------------------------------------------
  // mergeMainSnapshot: the global index

  /** The incoming snapshot with the elapsed times and call counts of every stored entry of its function added in. */
  function Aggregated(snapshot: Snapshot, entries: seq<Snapshot>): Snapshot {
    snapshot.(elapsedTime := snapshot.elapsedTime + ElapsedOf(entries, snapshot),
              numberOfCall := snapshot.numberOfCall + CallsOf(entries, snapshot))
  }

  /**
   * What `mergeMainSnapshot` leaves behind: the snapshot as the caller sees it
   * afterwards, and the list it writes. An entry with the same id is replaced
   * in place and nothing is aggregated; otherwise the snapshot absorbs every
   * entry of its function, the last of them is removed and the snapshot goes
   * to the front.
   */
  function MainMerged(snapshot: Snapshot, stored: seq<Snapshot>): (Snapshot, seq<Snapshot>) {
    match FirstWithId(stored, snapshot.id)
    case Some(i) => (snapshot, stored[i := snapshot])
    case None =>
      var merged := Aggregated(snapshot, stored);
      match LastOfFunction(stored, snapshot)
      case Some(k) => (merged, [merged] + RemoveAt(stored, k))
      case None => (merged, [merged] + stored)
  }

  /** `mergeMainSnapshot`, on the list read from the index file. */
  method MergeMainSnapshot(snapshot: Snapshot, stored: seq<Snapshot>) returns (updated: Snapshot, entries: seq<Snapshot>)
    ensures (updated, entries) == MainMerged(snapshot, stored)
  {
    var arraySnap := stored;
    var i := 0;
    while i < |arraySnap|
      invariant 0 <= i <= |arraySnap| && arraySnap == stored
      invariant forall j :: 0 <= j < i ==> stored[j].id != snapshot.id
    {
      if arraySnap[i].id == snapshot.id {
        arraySnap := arraySnap[i := snapshot];
        return snapshot, arraySnap;
      }
      i := i + 1;
    }

    updated := snapshot;
    var foundSnap: Option<nat> := None;
    i := 0;
    while i < |arraySnap|
      invariant 0 <= i <= |arraySnap| && arraySnap == stored
      invariant foundSnap == LastOfFunction(arraySnap[..i], snapshot)
      invariant updated == Aggregated(snapshot, arraySnap[..i])
    {
      assert arraySnap[..i + 1][..i] == arraySnap[..i];
      if SameFunction(arraySnap[i], snapshot) {
        foundSnap := Some(i);
        updated := updated.(elapsedTime := updated.elapsedTime + arraySnap[i].elapsedTime,
                            numberOfCall := updated.numberOfCall + arraySnap[i].numberOfCall);
      }
      i := i + 1;
    }
    assert arraySnap[..i] == stored;

    if foundSnap.Some? {
      arraySnap := arraySnap[..foundSnap.value] + arraySnap[foundSnap.value + 1..];
    }
    entries := [updated] + arraySnap;
  }

  /** An id match replaces the first entry with that id, in place, and aggregates nothing. */
  lemma MainReplacesById(snapshot: Snapshot, stored: seq<Snapshot>, i: nat)
    requires i < |stored| && stored[i].id == snapshot.id
    requires forall j :: 0 <= j < i ==> stored[j].id != snapshot.id
    ensures var (updated, entries) := MainMerged(snapshot, stored);
      && updated == snapshot && |entries| == |stored| && entries[i] == snapshot
      && forall j :: 0 <= j < |stored| && j != i ==> entries[j] == stored[j]
  {
    var r := FirstWithId(stored, snapshot.id);
    assert r == Some(i) by {
      if r.None? || r.value > i { assert stored[i].id == snapshot.id; }
    }
  }

  /**
   * Without an id match the snapshot absorbs the elapsed times and call counts
   * of all entries of its function and goes to the front; only the last of
   * those entries leaves the list.
   */
  lemma MainAggregatesFunction(snapshot: Snapshot, stored: seq<Snapshot>)
    requires !HasId(stored, snapshot.id)
    ensures var (updated, entries) := MainMerged(snapshot, stored);
      && SameRecord(updated, snapshot)
      && updated.elapsedTime == snapshot.elapsedTime + ElapsedOf(stored, snapshot)
      && updated.numberOfCall == snapshot.numberOfCall + CallsOf(stored, snapshot)
      && entries[0] == updated
      && (LastOfFunction(stored, snapshot).None? ==> entries[1..] == stored)
      && (LastOfFunction(stored, snapshot).Some? ==>
            entries[1..] == RemoveAt(stored, LastOfFunction(stored, snapshot).value))
  {
  }

  /** With at most one entry per function, the sums over a function are that entry's values. */
  lemma {:induction false} NoMatchSumsZero(entries: seq<Snapshot>, snap: Snapshot)
    requires forall j :: 0 <= j < |entries| ==> !SameFunction(entries[j], snap)
    ensures CallsOf(entries, snap) == 0 && ElapsedOf(entries, snap) == 0
    decreases |entries|
  {
    if entries != [] {
      NoMatchSumsZero(entries[..|entries| - 1], snap);
    }
  }

  lemma {:induction false} SumsOfConcat(a: seq<Snapshot>, b: seq<Snapshot>, snap: Snapshot)
    ensures CallsOf(a + b, snap) == CallsOf(a, snap) + CallsOf(b, snap)
    ensures ElapsedOf(a + b, snap) == ElapsedOf(a, snap) + ElapsedOf(b, snap)
    decreases |b|
  {
    if b == [] {
      assert a + b == a;
    } else {
      var b' := b[..|b| - 1];
      assert (a + b)[..|a + b| - 1] == a + b';
      assert (a + b)[|a + b| - 1] == b[|b| - 1];
      SumsOfConcat(a, b', snap);
    }
  }

  /** The sums over a list split around position `k`. */
  lemma SumsAround(entries: seq<Snapshot>, k: nat, snap: Snapshot)
    requires k < |entries|
    ensures CallsOf(entries, snap) == CallsOf(RemoveAt(entries, k), snap)
              + (if SameFunction(entries[k], snap) then entries[k].numberOfCall else 0)
    ensures ElapsedOf(entries, snap) == ElapsedOf(RemoveAt(entries, k), snap)
              + (if SameFunction(entries[k], snap) then entries[k].elapsedTime else 0)
  {
    var pre, post := entries[..k], entries[k + 1..];
    assert entries == pre + [entries[k]] + post;
    SumsOfConcat(pre + [entries[k]], post, snap);
    SumsOfConcat(pre, [entries[k]], snap);
    SumsOfConcat(pre, post, snap);
    assert [entries[k]][..0] == [];
  }

  /**
   * The index keeps at most one entry per function, provided an id is only
   * ever used for one function; and it grows by at most one entry.
   */
  lemma MainKeepsOnePerFunction(snapshot: Snapshot, stored: seq<Snapshot>)
    requires OnePerFunction(stored)
    requires forall j :: 0 <= j < |stored| && stored[j].id == snapshot.id ==> SameFunction(stored[j], snapshot)
    ensures var (_, entries) := MainMerged(snapshot, stored);
      OnePerFunction(entries) && |stored| <= |entries| <= |stored| + 1
  {
    var updated := Aggregated(snapshot, stored);
    match FirstWithId(stored, snapshot.id)
    case Some(i) =>
      ReplaceKeepsOnePerFunction(stored, i, snapshot);
    case None =>
      match LastOfFunction(stored, snapshot)
      case Some(k) =>
        RemovedWasTheOnly(stored, k, snapshot);
        RemoveKeepsOnePerFunction(stored, k);
        ConsKeepsOnePerFunction(updated, RemoveAt(stored, k));
      case None =>
        ConsKeepsOnePerFunction(updated, stored);
  }

  lemma ReplaceKeepsOnePerFunction(stored: seq<Snapshot>, i: nat, snapshot: Snapshot)
    requires OnePerFunction(stored) && i < |stored| && SameFunction(stored[i], snapshot)
    ensures OnePerFunction(stored[i := snapshot])
  {
    var entries := stored[i := snapshot];
    forall a, b | 0 <= a < b < |entries| ensures !SameFunction(entries[a], entries[b]) {
      assert !SameFunction(stored[a], stored[b]);
    }
  }

  lemma RemoveKeepsOnePerFunction(stored: seq<Snapshot>, k: nat)
    requires OnePerFunction(stored) && k < |stored|
    ensures OnePerFunction(RemoveAt(stored, k))
  {
    var rest := RemoveAt(stored, k);
    forall a, b | 0 <= a < b < |rest| ensures !SameFunction(rest[a], rest[b]) {
      var a', b' := if a < k then a else a + 1, if b < k then b else b + 1;
      assert rest[a] == stored[a'] && rest[b] == stored[b'];
    }
  }

  lemma ConsKeepsOnePerFunction(head: Snapshot, rest: seq<Snapshot>)
    requires OnePerFunction(rest) && forall j :: 0 <= j < |rest| ==> !SameFunction(rest[j], head)
    ensures OnePerFunction([head] + rest)
  {
    var entries := [head] + rest;
    forall a, b | 0 <= a < b < |entries| ensures !SameFunction(entries[a], entries[b]) {
      assert entries[b] == rest[b - 1];
      if a > 0 {
        assert entries[a] == rest[a - 1];
      }
    }
  }

  /** With one entry per function, removing the last entry of a function leaves none of it. */
  lemma RemovedWasTheOnly(stored: seq<Snapshot>, k: nat, snap: Snapshot)
    requires OnePerFunction(stored) && k < |stored| && SameFunction(stored[k], snap)
    ensures forall j :: 0 <= j < |RemoveAt(stored, k)| ==> !SameFunction(RemoveAt(stored, k)[j], snap)
  {
    var rest := RemoveAt(stored, k);
    forall j | 0 <= j < |rest| ensures !SameFunction(rest[j], snap) {
      if j < k {
        assert rest[j] == stored[j];
        assert !SameFunction(stored[j], stored[k]);
      } else {
        assert rest[j] == stored[j + 1];
        assert !SameFunction(stored[k], stored[j + 1]);
      }
    }
  }

  /** The sums over a list with one more entry in front. */
  lemma SumsOfCons(head: Snapshot, rest: seq<Snapshot>, snap: Snapshot)
    ensures CallsOf([head] + rest, snap) == CallsOf(rest, snap) + (if SameFunction(head, snap) then head.numberOfCall else 0)
    ensures ElapsedOf([head] + rest, snap) == ElapsedOf(rest, snap) + (if SameFunction(head, snap) then head.elapsedTime else 0)
  {
    SumsOfConcat([head], rest, snap);
    assert [head][..0] == [];
  }

  /**
   * With one entry per function and no id match, the index's totals for the
   * snapshot's function become the old totals plus the snapshot's own.
   */
  lemma MainTotalsOfFunction(snapshot: Snapshot, stored: seq<Snapshot>)
    requires OnePerFunction(stored) && !HasId(stored, snapshot.id)
    ensures CallsOf(MainMerged(snapshot, stored).1, snapshot) == snapshot.numberOfCall + CallsOf(stored, snapshot)
    ensures ElapsedOf(MainMerged(snapshot, stored).1, snapshot) == snapshot.elapsedTime + ElapsedOf(stored, snapshot)
  {
    MainAggregatesFunction(snapshot, stored);
    var updated := Aggregated(snapshot, stored);
    match LastOfFunction(stored, snapshot)
    case Some(k) =>
      var rest := RemoveAt(stored, k);
      assert MainMerged(snapshot, stored).1 == [updated] + rest;
      SumsOfCons(updated, rest, snapshot);
      RemovedWasTheOnly(stored, k, snapshot);
      NoMatchSumsZero(rest, snapshot);
    case None =>
      SumsOfCons(updated, stored, snapshot);
      NoMatchSumsZero(stored, snapshot);
  }

  /** With no id match, the index's totals for every other function stay as they were. */
  lemma MainTotalsOfOthers(snapshot: Snapshot, stored: seq<Snapshot>, other: Snapshot)
    requires !HasId(stored, snapshot.id) && !SameFunction(other, snapshot)
    ensures CallsOf(MainMerged(snapshot, stored).1, other) == CallsOf(stored, other)
    ensures ElapsedOf(MainMerged(snapshot, stored).1, other) == ElapsedOf(stored, other)
  {
    MainAggregatesFunction(snapshot, stored);
    var updated := Aggregated(snapshot, stored);
    match LastOfFunction(stored, snapshot)
    case Some(k) =>
      var rest := RemoveAt(stored, k);
      assert MainMerged(snapshot, stored).1 == [updated] + rest;
      SumsOfCons(updated, rest, other);
      SumsAround(stored, k, other);
    case None =>
      SumsOfCons(updated, stored, other);
  }

  // ---------------------------------------------------------------------------
  // mergeSnapshot: the per-function history

  /** Every entry carrying the snapshot's id replaced by the snapshot. */
  function ReplaceId(entries: seq<Snapshot>, snapshot: Snapshot): (r: seq<Snapshot>)
    ensures |r| == |entries|
  {
    seq(|entries|, j requires 0 <= j < |entries| =>
      if entries[j].id == snapshot.id then snapshot else entries[j])
  }

  /**
   * What `mergeSnapshot` writes: every entry with the snapshot's id replaced
   * in place, or else the snapshot put in front; then, if the list has grown
   * past the cap, its last entry dropped (on either path).
   */
  function HistoryMerged(snapshot: Snapshot, stored: seq<Snapshot>): seq<Snapshot> {
    var grown := if HasId(stored, snapshot.id) then ReplaceId(stored, snapshot) else [snapshot] + stored;
    if |grown| > HISTORY_CAP then grown[..|grown| - 1] else grown
  }

  /** `mergeSnapshot`, on the list read from the function's history file. */
  method MergeSnapshot(snapshot: Snapshot, stored: seq<Snapshot>) returns (entries: seq<Snapshot>)
    ensures entries == HistoryMerged(snapshot, stored)
  {
    var arraySnap := stored;
    var found := false;
    var i := 0;
    while i < |arraySnap|
      invariant 0 <= i <= |arraySnap| == |stored|
      invariant forall j :: 0 <= j < i ==> arraySnap[j] == (if stored[j].id == snapshot.id then snapshot else stored[j])
      invariant forall j :: i <= j < |stored| ==> arraySnap[j] == stored[j]
      invariant found <==> exists j :: 0 <= j < i && stored[j].id == snapshot.id
    {
      if arraySnap[i].id == snapshot.id {
        arraySnap := arraySnap[i := snapshot];
        found := true;
      }
      i := i + 1;
    }
    assert arraySnap == ReplaceId(stored, snapshot);
    if !found {
      arraySnap := [snapshot] + arraySnap;
    }
    if |arraySnap| > HISTORY_CAP {
      arraySnap := arraySnap[..|arraySnap| - 1];
    }
    entries := arraySnap;
  }

  /** A history within the cap stays within it, and no history grows past the larger of its length and the cap. */
  lemma HistoryCapped(snapshot: Snapshot, stored: seq<Snapshot>)
    ensures |HistoryMerged(snapshot, stored)| <= if |stored| <= HISTORY_CAP then HISTORY_CAP else |stored|
    ensures |stored| <= HISTORY_CAP ==> |HistoryMerged(snapshot, stored)| <= HISTORY_CAP
  {
  }

  /** A new id goes to the front; the older entries follow in order, the oldest dropped when the cap is exceeded. */
  lemma HistoryInsertsNewest(snapshot: Snapshot, stored: seq<Snapshot>)
    requires !HasId(stored, snapshot.id) && |stored| <= HISTORY_CAP
    ensures var r := HistoryMerged(snapshot, stored);
      && r[0] == snapshot
      && |r| == (if |stored| < HISTORY_CAP then |stored| + 1 else HISTORY_CAP)
      && r[1..] == stored[..|r| - 1]
  {
  }

  /**
   * A known id replaces every entry with that id in place: a history within
   * the cap keeps its length and order, and no other entry changes.
   */
  lemma HistoryReplacesInPlace(snapshot: Snapshot, stored: seq<Snapshot>)
    requires HasId(stored, snapshot.id) && |stored| <= HISTORY_CAP
    ensures var r := HistoryMerged(snapshot, stored);
      && |r| == |stored|
      && forall j :: 0 <= j < |r| ==> r[j] == (if stored[j].id == snapshot.id then snapshot else stored[j])
  {
  }

  /** The drop runs on the replace path too: a history already over the cap loses its oldest entry even on an id match. */
  lemma HistoryTrimsOnReplace(snapshot: Snapshot, stored: seq<Snapshot>)
    requires HasId(stored, snapshot.id) && |stored| > HISTORY_CAP
    ensures HistoryMerged(snapshot, stored) == ReplaceId(stored, snapshot)[..|stored| - 1]
  {
  }

  /** The history never holds two entries with one id once it starts without. */
  lemma HistoryKeepsIdsDistinct(snapshot: Snapshot, stored: seq<Snapshot>)
    requires DistinctIds(stored)
    ensures DistinctIds(HistoryMerged(snapshot, stored))
  {
    var grown := if HasId(stored, snapshot.id) then ReplaceId(stored, snapshot) else [snapshot] + stored;
    if HasId(stored, snapshot.id) {
      var k :| 0 <= k < |stored| && stored[k].id == snapshot.id;
      forall a, b | 0 <= a < b < |grown| ensures grown[a].id != grown[b].id {
      }
    } else {
      forall a, b | 0 <= a < b < |grown| ensures grown[a].id != grown[b].id {
        if a == 0 {
          assert grown[b] == stored[b - 1];
        } else {
          assert grown[a] == stored[a - 1] && grown[b] == stored[b - 1];
        }
      }
    }
    var r := HistoryMerged(snapshot, stored);
    forall a, b | 0 <= a < b < |r| ensures r[a].id != r[b].id {
      assert r[a] == grown[a] && r[b] == grown[b];
    }
  }
}
