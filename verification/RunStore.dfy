/** The runs of one model as the run store keeps them (src/storage/run_store.rs): appended, pruned to a
    limit from the oldest end, and read newest first. Age is the spawn time, not the order of appending. */
module RunStores {
  import opened Options
  import opened Baseline

  /** `sort_by_key` with this key. */
  function StableSort(runs: seq<RunRecord>, key: RunRecord -> int): seq<RunRecord> {
    if runs == [] then []
    else Placed(runs[|runs| - 1], StableSort(runs[..|runs| - 1], key), key)
  }

  /** Behind everything that does not sort after it. */
  function Placed(r: RunRecord, sorted: seq<RunRecord>, key: RunRecord -> int): seq<RunRecord> {
    var i := NotAfter(sorted, key, key(r));
    sorted[..i] + [r] + sorted[i..]
  }

  /** How many have at most this key. */
  function NotAfter(runs: seq<RunRecord>, key: RunRecord -> int, k: int): (n: nat)
    ensures n <= |runs|
  {
    if runs == [] then 0
    else NotAfter(runs[..|runs| - 1], key, k) + if key(runs[|runs| - 1]) <= k then 1 else 0
  }

  const OLDEST_FIRST: RunRecord -> int := (r: RunRecord) => r.spawnTime
  const NEWEST_FIRST: RunRecord -> int := (r: RunRecord) => -r.spawnTime

  function Firsts(runs: seq<RunRecord>, n: nat): seq<RunRecord> {
    if |runs| <= n then runs else runs[..n]
  }

  /** Up to `n` runs, newest first. */
  function Recent(runs: seq<RunRecord>, n: nat): seq<RunRecord> {
    Firsts(StableSort(runs, NEWEST_FIRST), n)
  }

  /** The index without these runs. */
  function Without(runs: seq<RunRecord>, victims: seq<RunRecord>): seq<RunRecord> {
    if victims == [] then runs
    else Kept(Without(runs, victims[..|victims| - 1]), {victims[|victims| - 1].runId})
  }

  /** The oldest beyond the limit. */
  function Victims(runs: seq<RunRecord>, keep: Option<nat>): seq<RunRecord> {
    if keep.None? || |runs| <= keep.value then []
    else Firsts(StableSort(runs, OLDEST_FIRST), |runs| - keep.value)
  }

  function Appended(runs: seq<RunRecord>, record: RunRecord, keep: Option<nat>): seq<RunRecord> {
    Without(runs + [record], Victims(runs + [record], keep))
  }

  class RunStore {
    const keep: Option<nat>
    /** In the order of appending. */
    var runs: seq<RunRecord>

    constructor (keep: Option<nat>, indexed: seq<RunRecord>)
      ensures this.keep == keep && runs == indexed
    {
      this.keep, runs := keep, indexed;
    }

    method Append(record: RunRecord)
      modifies this
      ensures runs == Appended(old(runs), record, keep)
    {
      runs := runs + [record];
      PruneIfNeeded();
    }

    method PruneIfNeeded()
      modifies this
      ensures runs == Without(old(runs), Victims(old(runs), keep))
    {
      if keep.None? || |runs| <= keep.value {
        return;
      }
      var byAge := StableSort(runs, OLDEST_FIRST);
      var evictCount := |runs| - keep.value;
      var victims := Firsts(byAge, evictCount);
      for i := 0 to |victims|
        invariant runs == Without(old(runs), victims[..i])
      {
        assert victims[..i + 1][..i] == victims[..i];
        RemoveFromIndex(victims[i].runId);
      }
      assert victims[..|victims|] == victims;
    }

    method RemoveFromIndex(id: nat)
      modifies this
      ensures runs == Kept(old(runs), {id})
    {
      var kept: seq<RunRecord> := [];
      for i := 0 to |runs|
        invariant runs == old(runs)
        invariant kept == Kept(runs[..i], {id})
      {
        assert runs[..i + 1][..i] == runs[..i];
        if runs[i].runId != id {
          kept := kept + [runs[i]];
        }
      }
      assert runs[..|runs|] == runs;
      runs := kept;
    }
  }

  // ---------------------------------------------------------------- what the sort is

  predicate InOrder(runs: seq<RunRecord>, key: RunRecord -> int) {
    forall i, j :: 0 <= i < j < |runs| ==> key(runs[i]) <= key(runs[j])
  }

  /** The runs with this key, as they come. */
  function WithKey(runs: seq<RunRecord>, key: RunRecord -> int, k: int): seq<RunRecord> {
    if runs == [] then []
    else
      var last := runs[|runs| - 1];
      WithKey(runs[..|runs| - 1], key, k) + if key(last) == k then [last] else []
  }

  lemma {:induction false} WithKeySplit(a: seq<RunRecord>, b: seq<RunRecord>, key: RunRecord -> int, k: int)
    ensures WithKey(a + b, key, k) == WithKey(a, key, k) + WithKey(b, key, k)
    ensures NotAfter(a + b, key, k) == NotAfter(a, key, k) + NotAfter(b, key, k)
    decreases |b|
  {
    if b == [] {
      assert a + b == a;
    } else {
      assert (a + b)[..|a + b| - 1] == a + b[..|b| - 1];
      WithKeySplit(a, b[..|b| - 1], key, k);
    }
  }

  lemma {:induction false} NoneWithKey(runs: seq<RunRecord>, key: RunRecord -> int, k: int)
    requires forall r <- runs :: key(r) != k
    ensures WithKey(runs, key, k) == []
  {
    if runs != [] {
      NoneWithKey(runs[..|runs| - 1], key, k);
      assert runs[|runs| - 1] in runs;
    }
  }

  lemma WithKeyOne(r: RunRecord, key: RunRecord -> int, k: int)
    ensures WithKey([r], key, k) == if key(r) == k then [r] else []
    ensures NotAfter([r], key, k) == if key(r) <= k then 1 else 0
  {
    assert [r][..0] == [];
    assert WithKey([], key, k) == [] && NotAfter([], key, k) == 0;
  }

  /** In a list in order, those not after a key are exactly its front. */
  lemma {:induction false} NotAfterIsFront(runs: seq<RunRecord>, key: RunRecord -> int, k: int)
    requires InOrder(runs, key)
    ensures forall i :: 0 <= i < |runs| ==> (i < NotAfter(runs, key, k) <==> key(runs[i]) <= k)
  {
    if runs != [] {
      NotAfterIsFront(runs[..|runs| - 1], key, k);
    }
  }

  lemma PlacedInOrder(r: RunRecord, sorted: seq<RunRecord>, key: RunRecord -> int)
    requires InOrder(sorted, key)
    ensures InOrder(Placed(r, sorted, key), key)
  {
    NotAfterIsFront(sorted, key, key(r));
    hide NotAfter;
  }

  lemma PlacedKeeps(r: RunRecord, sorted: seq<RunRecord>, key: RunRecord -> int, k: int)
    requires InOrder(sorted, key)
    ensures WithKey(Placed(r, sorted, key), key, k) == WithKey(sorted, key, k) + if key(r) == k then [r] else []
    ensures NotAfter(Placed(r, sorted, key), key, k) == NotAfter(sorted, key, k) + if key(r) <= k then 1 else 0
  {
    NotAfterIsFront(sorted, key, key(r));
    hide NotAfter, WithKey;
    var i := NotAfter(sorted, key, key(r));
    var front, back := sorted[..i], sorted[i..];
    assert sorted == front + back;
    WithKeySplit(front, back, key, k);
    WithKeySplit(front + [r], back, key, k);
    WithKeySplit(front, [r], key, k);
    WithKeyOne(r, key, k);
    if key(r) == k {
      NoneWithKey(back, key, k);
    }
  }

  /** The sort is what a stable sort is: in order, and runs with the same key in their old order. */
  lemma {:induction false} SortIsStable(runs: seq<RunRecord>, key: RunRecord -> int, k: int)
    ensures InOrder(StableSort(runs, key), key)
    ensures WithKey(StableSort(runs, key), key, k) == WithKey(runs, key, k)
    ensures NotAfter(StableSort(runs, key), key, k) == NotAfter(runs, key, k)
    ensures |StableSort(runs, key)| == |runs|
  {
    if runs != [] {
      var n := |runs| - 1;
      SortIsStable(runs[..n], key, k);
      PlacedInOrder(runs[n], StableSort(runs[..n], key), key);
      PlacedKeeps(runs[n], StableSort(runs[..n], key), key, k);
    }
  }

  lemma {:induction false} LastWithKey(runs: seq<RunRecord>, key: RunRecord -> int, k: int)
    ensures forall r <- WithKey(runs, key, k) :: r in runs && key(r) == k
    ensures runs != [] && key(runs[|runs| - 1]) == k ==>
              WithKey(runs, key, k) == WithKey(runs[..|runs| - 1], key, k) + [runs[|runs| - 1]]
  {
    if runs != [] {
      LastWithKey(runs[..|runs| - 1], key, k);
    }
  }

  /** The runs of each key are the same, in the same order. */
  ghost predicate SameGroups(a: seq<RunRecord>, b: seq<RunRecord>, key: RunRecord -> int) {
    forall k :: WithKey(a, key, k) == WithKey(b, key, k)
  }

  lemma LastHasLargestKey(runs: seq<RunRecord>, other: seq<RunRecord>, key: RunRecord -> int)
    requires runs != [] && InOrder(other, key) && SameGroups(runs, other, key)
    ensures other != [] && key(runs[|runs| - 1]) <= key(other[|other| - 1])
  {
    var k := key(runs[|runs| - 1]);
    LastWithKey(runs, key, k);
    LastWithKey(other, key, k);
    assert WithKey(runs, key, k) == WithKey(other, key, k);
    hide WithKey;
    assert WithKey(other, key, k) != [];
    var r := WithKey(other, key, k)[0];
    assert r in WithKey(other, key, k);
    var i :| 0 <= i < |other| && other[i] == r;
  }

  lemma SameLast(a: seq<RunRecord>, b: seq<RunRecord>, key: RunRecord -> int)
    requires a != [] && b != [] && key(a[|a| - 1]) == key(b[|b| - 1]) && SameGroups(a, b, key)
    ensures a[|a| - 1] == b[|b| - 1]
  {
    var last := key(a[|a| - 1]);
    LastWithKey(a, key, last);
    LastWithKey(b, key, last);
    assert WithKey(a, key, last) == WithKey(b, key, last);
    hide WithKey;
    var group := WithKey(a, key, last);
    assert group[|group| - 1] == a[|a| - 1];
  }

  lemma CancelEnd(a: seq<RunRecord>, b: seq<RunRecord>, end: seq<RunRecord>)
    requires a + end == b + end
    ensures a == b
  {
    assert |a| == |b|;
    assert a == (a + end)[..|a|];
  }

  lemma FrontsAgree(a: seq<RunRecord>, b: seq<RunRecord>, key: RunRecord -> int)
    requires a != [] && b != [] && a[|a| - 1] == b[|b| - 1] && SameGroups(a, b, key)
    ensures SameGroups(a[..|a| - 1], b[..|b| - 1], key)
  {
    var frontA, frontB, last := a[..|a| - 1], b[..|b| - 1], a[|a| - 1];
    assert a == frontA + [last] && b == frontB + [last];
    forall k: int
      ensures WithKey(frontA, key, k) == WithKey(frontB, key, k)
    {
      assert WithKey(a, key, k) == WithKey(b, key, k);
      WithKeySplit(frontA, [last], key, k);
      WithKeySplit(frontB, [last], key, k);
      CancelEnd(WithKey(frontA, key, k), WithKey(frontB, key, k), WithKey([last], key, k));
    }
  }

  /** Only one list is in order and has the runs of each key in a given order. */
  lemma {:induction false} StableOrderIsUnique(a: seq<RunRecord>, b: seq<RunRecord>, key: RunRecord -> int)
    requires InOrder(a, key) && InOrder(b, key) && SameGroups(a, b, key)
    ensures a == b
    decreases |a|
  {
    hide SameGroups;
    if a != [] {
      LastHasLargestKey(a, b, key);
    }
    if b != [] {
      LastHasLargestKey(b, a, key) by {
        Symmetric(a, b, key);
      }
    }
    if a != [] && b != [] {
      SameLast(a, b, key);
      FrontsAgree(a, b, key);
      StableOrderIsUnique(a[..|a| - 1], b[..|b| - 1], key);
    }
  }

  lemma Symmetric(a: seq<RunRecord>, b: seq<RunRecord>, key: RunRecord -> int)
    requires SameGroups(a, b, key)
    ensures SameGroups(b, a, key)
  {
    forall k
      ensures WithKey(b, key, k) == WithKey(a, key, k)
    {
      assert WithKey(a, key, k) == WithKey(b, key, k);
    }
  }

  /** Where the sort puts the run that was appended last: behind all that do not sort after it, ties included. */
  lemma LastIsPlaced(runs: seq<RunRecord>, key: RunRecord -> int)
    requires runs != []
    ensures var n := |runs| - 1;
            var at := NotAfter(runs[..n], key, key(runs[n]));
            at <= n && |StableSort(runs, key)| == |runs| && StableSort(runs, key)[at] == runs[n]
  {
    var n := |runs| - 1;
    SortIsStable(runs[..n], key, key(runs[n]));
    SortIsStable(runs, key, key(runs[n]));
  }

  // ---------------------------------------------------------------- what appending leaves

  lemma {:induction false} SortDistinct(runs: seq<RunRecord>, key: RunRecord -> int)
    ensures forall r :: r in StableSort(runs, key) <==> r in runs
    ensures DistinctIds(runs) ==> DistinctIds(StableSort(runs, key))
  {
    if runs != [] {
      var n := |runs| - 1;
      SortDistinct(runs[..n], key);
      assert runs == runs[..n] + [runs[n]];
      var sorted := StableSort(runs[..n], key);
      var i := NotAfter(sorted, key, key(runs[n]));
      assert sorted == sorted[..i] + sorted[i..];
      if DistinctIds(runs) {
        PlacedDistinct(runs[n], sorted, i);
      }
    }
  }

  lemma PlacedDistinct(r: RunRecord, sorted: seq<RunRecord>, i: nat)
    requires i <= |sorted| && DistinctIds(sorted) && forall q <- sorted :: q.runId != r.runId
    ensures DistinctIds(sorted[..i] + [r] + sorted[i..])
  {
    assert forall k :: 0 <= k < |sorted| ==> sorted[k] in sorted;
  }

  lemma DistinctPush(front: seq<RunRecord>, r: RunRecord)
    requires DistinctIds(front) && forall q <- front :: q.runId != r.runId
    ensures DistinctIds(front + [r])
  {
    assert forall k :: 0 <= k < |front| ==> front[k] in front;
  }

  lemma DistinctPop(front: seq<RunRecord>, r: RunRecord)
    requires DistinctIds(front + [r])
    ensures DistinctIds(front) && forall q <- front :: q.runId != r.runId
  {
    var all := front + [r];
    assert forall k :: 0 <= k < |front| ==> all[k] == front[k];
    assert all[|front|] == r;
  }

  lemma {:induction false} KeptMembers(runs: seq<RunRecord>, id: nat)
    ensures forall q :: q in Kept(runs, {id}) <==> q in runs && q.runId != id
  {
    if runs != [] {
      var n := |runs| - 1;
      KeptMembers(runs[..n], id);
      assert runs == runs[..n] + [runs[n]];
    }
  }

  lemma {:induction false} KeptDistinct(runs: seq<RunRecord>, id: nat)
    requires DistinctIds(runs)
    ensures DistinctIds(Kept(runs, {id}))
  {
    if runs != [] {
      var n := |runs| - 1;
      var front := runs[..n];
      assert runs == front + [runs[n]];
      KeptDistinct(front, id);
      DistinctPop(front, runs[n]);
      KeptMembers(front, id);
      hide DistinctIds;
      if runs[n].runId != id {
        DistinctPush(Kept(front, {id}), runs[n]);
      }
    }
  }

  lemma {:induction false} KeptAll(runs: seq<RunRecord>, id: nat)
    requires forall r <- runs :: r.runId != id
    ensures Kept(runs, {id}) == runs
  {
    if runs != [] {
      var n := |runs| - 1;
      assert runs == runs[..n] + [runs[n]];
      KeptAll(runs[..n], id);
    }
  }

  lemma {:induction false} KeptButOne(runs: seq<RunRecord>, v: RunRecord)
    requires DistinctIds(runs) && v in runs
    ensures |Kept(runs, {v.runId})| == |runs| - 1
  {
    var n := |runs| - 1;
    var front := runs[..n];
    assert runs == front + [runs[n]];
    DistinctPop(front, runs[n]);
    hide DistinctIds;
    if runs[n] == v {
      KeptAll(front, v.runId);
    } else {
      KeptButOne(front, v);
    }
  }

  /** Without some of its runs the index has all the others. */
  lemma {:induction false} WithoutOthers(runs: seq<RunRecord>, victims: seq<RunRecord>)
    requires DistinctIds(runs) && DistinctIds(victims) && forall v <- victims :: v in runs
    ensures var left := Without(runs, victims);
            && DistinctIds(left) && |left| == |runs| - |victims|
            && (forall q :: q in left <==> q in runs && q !in victims)
    decreases |victims|
  {
    if victims != [] {
      var n := |victims| - 1;
      var v, left := victims[n], Without(runs, victims[..n]);
      assert victims == victims[..n] + [v];
      WithoutOthers(runs, victims[..n]);
      DistinctPop(victims[..n], v);
      KeptMembers(left, v.runId);
      KeptDistinct(left, v.runId);
      KeptButOne(left, v) by {
        assert v !in victims[..n];
      }
      hide DistinctIds, Kept;
      assert v !in victims[..n] && v in left;
      forall q | q in left && q.runId == v.runId
        ensures q == v
      {
        SameIdSameRun(left, q, v);
      }
    }
  }

  lemma SameIdSameRun(runs: seq<RunRecord>, a: RunRecord, b: RunRecord)
    requires DistinctIds(runs) && a in runs && b in runs && a.runId == b.runId
    ensures a == b
  {
    var i :| 0 <= i < |runs| && runs[i] == a;
    var j :| 0 <= j < |runs| && runs[j] == b;
    assert i == j;
  }

  lemma {:induction false} LastStays(runs: seq<RunRecord>, record: RunRecord, victims: seq<RunRecord>)
    requires forall v <- victims :: v.runId != record.runId
    ensures var left := Without(runs + [record], victims);
            left != [] && left[|left| - 1] == record
    decreases |victims|
  {
    if victims != [] {
      var n := |victims| - 1;
      assert victims == victims[..n] + [victims[n]];
      LastStays(runs, record, victims[..n]);
    }
  }

  /** `left` is some of `all`, and nothing that is gone is newer than anything left. */
  ghost predicate OldestGone(all: seq<RunRecord>, left: seq<RunRecord>) {
    && (forall r <- left :: r in all)
    && (forall r <- left, v <- all :: v !in left ==> v.spawnTime <= r.spawnTime)
  }

  ghost predicate AreOldest(all: seq<RunRecord>, victims: seq<RunRecord>) {
    && (forall v <- victims :: v in all)
    && (forall r <- all, v <- victims :: r !in victims ==> v.spawnTime <= r.spawnTime)
  }

  /** Appending keeps the limit; what is evicted is no newer than anything that stays; and the run just
      appended is itself evicted exactly when too few of the others are as old as it is. Otherwise it is
      the last of the index. */
  lemma AppendKeepsNewest(runs: seq<RunRecord>, record: RunRecord, limit: nat)
    requires DistinctIds(runs + [record])
    ensures var all := runs + [record];
            var left := Appended(runs, record, Some(limit));
            && |left| == (if |all| <= limit then |all| else limit)
            && OldestGone(all, left)
            && (record in left <==> |all| <= limit + NotAfter(runs, OLDEST_FIRST, record.spawnTime))
            && (record in left ==> left[|left| - 1] == record)
  {
    hide StableSort, Victims, AreOldest, OldestGone, DistinctIds;
    var victims := Victims(runs + [record], Some(limit));
    VictimsAreOldest(runs + [record], limit);
    IsVictimIff(runs, record, limit);
    LeftAfter(runs, record, victims);
  }

  lemma LeftAfter(runs: seq<RunRecord>, record: RunRecord, victims: seq<RunRecord>)
    requires DistinctIds(runs + [record]) && DistinctIds(victims) && AreOldest(runs + [record], victims)
    ensures var all := runs + [record];
            var left := Without(all, victims);
            && |left| == |all| - |victims| && OldestGone(all, left)
            && (record in left <==> record !in victims)
            && (record in left ==> left[|left| - 1] == record)
  {
    var all := runs + [record];
    WithoutOthers(all, victims);
    if record !in victims {
      StillLast(runs, record, victims);
    }
    hide DistinctIds;
    assert all[|runs|] == record;
  }

  lemma VictimsAreOldest(all: seq<RunRecord>, limit: nat)
    requires DistinctIds(all)
    ensures var victims := Victims(all, Some(limit));
            && |victims| == (if |all| <= limit then 0 else |all| - limit)
            && DistinctIds(victims) && AreOldest(all, victims)
  {
    var sorted, victims := StableSort(all, OLDEST_FIRST), Victims(all, Some(limit));
    SortDistinct(all, OLDEST_FIRST);
    SortIsStable(all, OLDEST_FIRST, 0);
    hide StableSort;
    FirstsSortFirst(sorted, victims, OLDEST_FIRST);
    hide DistinctIds, InOrder;
    forall r <- all, v <- victims | r !in victims
      ensures v.spawnTime <= r.spawnTime
    {
      assert r in sorted && OLDEST_FIRST(v) <= OLDEST_FIRST(r);
    }
  }

  lemma IsVictimIff(runs: seq<RunRecord>, record: RunRecord, limit: nat)
    requires DistinctIds(runs + [record])
    ensures var all := runs + [record];
            record in Victims(all, Some(limit)) <==> limit + NotAfter(runs, OLDEST_FIRST, record.spawnTime) < |all|
  {
    var all := runs + [record];
    var at := NotAfter(runs, OLDEST_FIRST, record.spawnTime);
    assert all[..|runs|] == runs && OLDEST_FIRST(record) == record.spawnTime;
    SortDistinct(all, OLDEST_FIRST);
    LastIsPlaced(all, OLDEST_FIRST);
    hide StableSort, NotAfter;
    FirstsWithin(StableSort(all, OLDEST_FIRST), Victims(all, Some(limit)), at);
    hide DistinctIds;
  }

  lemma FirstsWithin(sorted: seq<RunRecord>, victims: seq<RunRecord>, at: nat)
    requires DistinctIds(sorted) && victims <= sorted && at < |sorted|
    ensures sorted[at] in victims <==> at < |victims|
  {
    assert forall i :: 0 <= i < |victims| ==> sorted[i] == victims[i] && victims[i] in victims;
  }

  lemma StillLast(runs: seq<RunRecord>, record: RunRecord, victims: seq<RunRecord>)
    requires DistinctIds(runs + [record]) && record !in victims && forall v <- victims :: v in runs + [record]
    ensures var left := Without(runs + [record], victims);
            left != [] && left[|left| - 1] == record
  {
    forall v <- victims
      ensures v.runId != record.runId
    {
      if v.runId == record.runId {
        SameIdSameRun(runs + [record], v, record);
      }
    }
    LastStays(runs, record, victims);
  }

  lemma FirstsSortFirst(sorted: seq<RunRecord>, firsts: seq<RunRecord>, key: RunRecord -> int)
    requires InOrder(sorted, key) && DistinctIds(sorted) && firsts <= sorted
    ensures DistinctIds(firsts) && InOrder(firsts, key) && forall v <- firsts :: v in sorted
    ensures forall r <- sorted, v <- firsts :: r !in firsts ==> key(v) <= key(r)
  {
    assert forall i :: 0 <= i < |firsts| ==> sorted[i] == firsts[i] && firsts[i] in firsts;
    forall r <- sorted, v <- firsts | r !in firsts
      ensures key(v) <= key(r)
    {
      var i :| 0 <= i < |sorted| && sorted[i] == r;
      var j :| 0 <= j < |firsts| && firsts[j] == v;
    }
  }

  /** Reading gives the newest runs: `n` of them or all, newest first, and none older than one left out. */
  lemma RecentAreNewest(runs: seq<RunRecord>, n: nat)
    requires DistinctIds(runs)
    ensures var recent := Recent(runs, n);
            && |recent| == (if |runs| <= n then |runs| else n)
            && DistinctIds(recent) && (forall r <- recent :: r in runs)
            && (forall i, j :: 0 <= i < j < |recent| ==> recent[i].spawnTime >= recent[j].spawnTime)
            && (forall r <- runs, q <- recent :: r !in recent ==> r.spawnTime <= q.spawnTime)
  {
    var sorted, recent := StableSort(runs, NEWEST_FIRST), Recent(runs, n);
    SortDistinct(runs, NEWEST_FIRST);
    SortIsStable(runs, NEWEST_FIRST, 0);
    hide StableSort;
    FirstsSortFirst(sorted, recent, NEWEST_FIRST);
    hide DistinctIds;
    assert forall i, j :: 0 <= i < j < |recent| ==> NEWEST_FIRST(recent[i]) <= NEWEST_FIRST(recent[j]);
    forall r <- runs, q <- recent | r !in recent
      ensures r.spawnTime <= q.spawnTime
    {
      assert r in sorted && NEWEST_FIRST(q) <= NEWEST_FIRST(r);
    }
  }
}
