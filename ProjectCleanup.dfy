/**
 * The project index of `src/storage-new.ts` as a JavaScript `Map` (entries plus insertion
 * order), and `performCleanup` stated over it: the stale projects go first, then, while the
 * index is over its limit, the least recently accessed ones. A project whose directory cannot
 * be deleted stays in the index; a `failing` set names those.
 */
module ProjectCleanup {
  import opened JsStrings
  import opened StoreRecords

  /** `Map<string, ProjectStorageInfo>`: the entries and the order in which keys were added. */
  datatype IndexState = IndexState(order: seq<string>, index: map<string, ProjectInfo>)

  /** Every key once in the order, and the order holds exactly the keys. */
  predicate Valid(st: IndexState) {
    && Distinct(st.order)
    && (forall i :: 0 <= i < |st.order| ==> st.order[i] in st.index)
    && (forall k :: k in st.index ==> k in st.order)
  }

  const EmptyIndex: IndexState := IndexState([], map[])

  /** The keys of `Array.from(map.values())`, i.e. what `saveProjectIndex` writes, in order. */
  function Values(st: IndexState): (r: seq<ProjectInfo>)
    requires Valid(st)
    ensures |r| == |st.order|
    ensures forall i :: 0 <= i < |r| ==> r[i] == st.index[st.order[i]]
  {
    seq(|st.order|, i requires 0 <= i < |st.order| && Valid(st) => st.index[st.order[i]])
  }

  /** The order with one key taken out. */
  function RemoveKey(order: seq<string>, k: string): (r: seq<string>)
    ensures forall x :: x in r <==> x in order && x != k
    ensures Distinct(order) ==> Distinct(r)
  {
    if order == [] then []
    else
      var rest := RemoveKey(order[1..], k);
      assert forall x :: x in rest ==> x in order[1..];
      assert Distinct(order) ==> Distinct(order[1..]) && order[0] !in rest;
      if order[0] == k then rest else [order[0]] + rest
  }

  /** `map.delete(k)`. */
  function Delete(st: IndexState, k: string): (r: IndexState)
    ensures Valid(st) ==> Valid(r)
    ensures r.index == st.index - {k}
  {
    var order := RemoveKey(st.order, k);
    assert forall i :: 0 <= i < |order| ==> order[i] in order;
    IndexState(order, st.index - {k})
  }

  /** `map.set(k, info)`: a new key goes last, an existing key keeps its place. */
  function Set(st: IndexState, k: string, info: ProjectInfo): (r: IndexState)
    ensures Valid(st) ==> Valid(r)
    ensures r.index == st.index[k := info]
    ensures k in st.index ==> r.order == st.order
    ensures k !in st.index ==> r.order == st.order + [k]
  {
    if k in st.index then IndexState(st.order, st.index[k := info])
    else IndexState(st.order + [k], st.index[k := info])
  }

  /** The keys of `keys` whose deletion goes through. */
  function Gone(keys: seq<string>, failing: set<string>): set<string>
  {
    set k | k in keys && k !in failing
  }

  /** One `try { delete directory; map.delete(k) } catch {}` per key, in order. */
  function DropAll(st: IndexState, keys: seq<string>, failing: set<string>): (r: IndexState)
    ensures Valid(st) ==> Valid(r)
    ensures r.index == st.index - Gone(keys, failing)
    decreases |keys|
  {
    if keys == [] then st
    else
      var last := keys[|keys| - 1];
      var prev := DropAll(st, keys[..|keys| - 1], failing);
      assert Gone(keys, failing) == Gone(keys[..|keys| - 1], failing) + (if last in failing then {} else {last});
      if last in failing then prev else Delete(prev, last)
  }

  predicate IsStale(info: ProjectInfo, now: int) {
    now - info.lastAccessed > StaleThreshold
  }

  /** The first loop of `performCleanup`: the stale keys, in index order. */
  function StaleKeys(order: seq<string>, index: map<string, ProjectInfo>, now: int): (r: seq<string>)
    requires forall i :: 0 <= i < |order| ==> order[i] in index
    ensures forall x :: x in r <==> x in order && IsStale(index[x], now)
  {
    if order == [] then []
    else
      var last := order[|order| - 1];
      var prev := StaleKeys(order[..|order| - 1], index, now);
      assert forall x :: x in order <==> x in order[..|order| - 1] || x == last;
      prev + (if IsStale(index[last], now) then [last] else [])
  }

  // ---------------------------------------------------------------- the sort by recency

  function LastAccessed(index: map<string, ProjectInfo>, k: string): int
  {
    if k in index then index[k].lastAccessed else 0
  }

  /** Newest first. */
  predicate SortedByRecency(s: seq<string>, index: map<string, ProjectInfo>) {
    forall i, j :: 0 <= i < j < |s| ==> LastAccessed(index, s[i]) >= LastAccessed(index, s[j])
  }

  /** Insert `x` after every key at least as recent, as a stable sort places it. */
  function Insert(x: string, s: seq<string>, index: map<string, ProjectInfo>): (r: seq<string>)
    ensures |r| == |s| + 1
    ensures forall y :: y in r <==> y in s || y == x
  {
    if s == [] then [x]
    else if LastAccessed(index, s[0]) >= LastAccessed(index, x) then
      var rest := Insert(x, s[1..], index);
      assert forall y :: y in s <==> y == s[0] || y in s[1..];
      [s[0]] + rest
    else [x] + s
  }

  lemma {:induction false} InsertSorted(x: string, s: seq<string>, index: map<string, ProjectInfo>)
    requires SortedByRecency(s, index)
    ensures SortedByRecency(Insert(x, s, index), index)
    decreases |s|
  {
    if s != [] && LastAccessed(index, s[0]) >= LastAccessed(index, x) {
      InsertSorted(x, s[1..], index);
      var r := Insert(x, s, index);
      var rest := Insert(x, s[1..], index);
      assert r == [s[0]] + rest;
      forall j | 0 < j < |r| ensures LastAccessed(index, r[0]) >= LastAccessed(index, r[j]) {
        assert r[j] in rest;
        var y := r[j];
        if y != x {
          var m :| 0 <= m < |s[1..]| && s[1..][m] == y;
          assert s[m + 1] == y;
        }
      }
    }
  }

  lemma {:induction false} InsertDistinct(x: string, s: seq<string>, index: map<string, ProjectInfo>)
    requires Distinct(s) && x !in s
    ensures Distinct(Insert(x, s, index))
    decreases |s|
  {
    if s != [] && LastAccessed(index, s[0]) >= LastAccessed(index, x) {
      InsertDistinct(x, s[1..], index);
      var rest := Insert(x, s[1..], index);
      assert s[0] !in s[1..];
      assert s[0] !in rest;
    }
  }

  /**
   * `Array.from(projectIndex.entries()).sort((a, b) => b.lastAccessed - a.lastAccessed)`,
   * on the keys: an insertion sort, stable as `Array.prototype.sort` is.
   */
  function ByRecency(keys: seq<string>, index: map<string, ProjectInfo>): (r: seq<string>)
    ensures |r| == |keys|
    ensures forall y :: y in r <==> y in keys
  {
    if keys == [] then []
    else
      var prev := ByRecency(keys[..|keys| - 1], index);
      assert forall y :: y in keys <==> y in keys[..|keys| - 1] || y == keys[|keys| - 1];
      Insert(keys[|keys| - 1], prev, index)
  }

  /** The sort yields the same keys, each once, newest first. */
  lemma {:induction false} ByRecencySpec(keys: seq<string>, index: map<string, ProjectInfo>)
    requires Distinct(keys)
    ensures Distinct(ByRecency(keys, index)) && SortedByRecency(ByRecency(keys, index), index)
    decreases |keys|
  {
    if keys != [] {
      var init := keys[..|keys| - 1];
      ByRecencySpec(init, index);
      assert keys[|keys| - 1] !in init;
      InsertDistinct(keys[|keys| - 1], ByRecency(init, index), index);
      InsertSorted(keys[|keys| - 1], ByRecency(init, index), index);
    }
  }

  // ---------------------------------------------------------------- performCleanup

  /** The index after the stale projects were deleted. */
  function AfterStale(st: IndexState, now: int, failing: set<string>): IndexState
    requires Valid(st)
  {
    DropAll(st, StaleKeys(st.order, st.index, now), failing)
  }

  /** `sortedProjects.slice(maxProjects)` when the index is still too large, else nothing. */
  function ExcessKeys(st: IndexState, maxProjects: nat): seq<string>
    requires Valid(st)
  {
    ValidCard(st);
    if |st.index| > maxProjects then ByRecency(st.order, st.index)[maxProjects..] else []
  }

  /**
   * The index after `performCleanup(now)`. Each phase calls the file system afresh, so each
   * has its own set of failing deletions: a project whose stale deletion failed may still be
   * removed by the size phase.
   */
  function Cleanup(st: IndexState, now: int, maxProjects: nat, staleFailing: set<string>, excessFailing: set<string>): (r: IndexState)
    requires Valid(st)
    ensures Valid(r)
  {
    var mid := AfterStale(st, now, staleFailing);
    DropAll(mid, ExcessKeys(mid, maxProjects), excessFailing)
  }

  /** The projects whose directory, hot entry and index entry the cleanup removes. */
  function Deleted(st: IndexState, now: int, maxProjects: nat, staleFailing: set<string>, excessFailing: set<string>): set<string>
    requires Valid(st)
  {
    Gone(StaleKeys(st.order, st.index, now), staleFailing)
      + Gone(ExcessKeys(AfterStale(st, now, staleFailing), maxProjects), excessFailing)
  }

  /** Removing the deleted projects is all the cleanup does to the entries. */
  lemma CleanupRemovesDeleted(st: IndexState, now: int, maxProjects: nat, staleFailing: set<string>, excessFailing: set<string>)
    requires Valid(st)
    ensures Cleanup(st, now, maxProjects, staleFailing, excessFailing).index
      == st.index - Deleted(st, now, maxProjects, staleFailing, excessFailing)
  {
    var mid := AfterStale(st, now, staleFailing);
    var a := Gone(StaleKeys(st.order, st.index, now), staleFailing);
    var b := Gone(ExcessKeys(mid, maxProjects), excessFailing);
    assert mid.index == st.index - a;
    assert Cleanup(st, now, maxProjects, staleFailing, excessFailing).index == mid.index - b;
    assert Deleted(st, now, maxProjects, staleFailing, excessFailing) == a + b;
    MinusTwiceIndex(st.index, a, b);
  }

  lemma MinusTwiceIndex(m: map<string, ProjectInfo>, a: set<string>, b: set<string>)
    ensures (m - a) - b == m - (a + b)
  {
  }

  /** A distinct sequence has as many elements as its set. */
  lemma {:induction false} DistinctCard(s: seq<string>)
    requires Distinct(s)
    ensures |set x | x in s| == |s|
    decreases |s|
  {
    if s != [] {
      var init := s[..|s| - 1];
      DistinctCard(init);
      assert (set x | x in s) == (set x | x in init) + {s[|s| - 1]};
      assert s[|s| - 1] !in init;
    }
  }

  /** A valid index has one entry per key of its order. */
  lemma ValidCard(st: IndexState)
    requires Valid(st)
    ensures |st.index| == |st.order|
  {
    assert st.index.Keys == set x | x in st.order;
    DistinctCard(st.order);
  }

  /** With every deletion succeeding, no stale project remains. */
  lemma CleanupRemovesStale(st: IndexState, now: int, maxProjects: nat)
    requires Valid(st)
    ensures var r := Cleanup(st, now, maxProjects, {}, {});
      forall k :: k in r.index ==> !IsStale(r.index[k], now)
  {
  }

  /** Dropping the tail of a distinct sequence from a valid index leaves its head. */
  lemma DropTail(mid: IndexState, sorted: seq<string>, n: nat)
    requires Valid(mid) && Distinct(sorted) && n <= |sorted|
    requires forall x :: x in sorted <==> x in mid.index
    ensures DropAll(mid, sorted[n..], {}).index.Keys == set x | x in sorted[..n]
  {
    var r := DropAll(mid, sorted[n..], {});
    assert r.index == mid.index - Gone(sorted[n..], {});
    forall x | x in r.index ensures x in sorted[..n] {
      var i :| 0 <= i < |sorted| && sorted[i] == x;
    }
    forall x | x in sorted[..n] ensures x in r.index {
      var i :| 0 <= i < n && sorted[..n][i] == x;
    }
  }

  /**
   * With every size-phase deletion succeeding, at most `maxProjects` projects remain, whatever
   * failed in the stale phase.
   */
  lemma CleanupBound(st: IndexState, now: int, maxProjects: nat, staleFailing: set<string>)
    requires Valid(st)
    ensures |Cleanup(st, now, maxProjects, staleFailing, {}).index| <= maxProjects
  {
    ExcessTrimmed(AfterStale(st, now, staleFailing), maxProjects);
  }

  /** The size phase leaves at most `maxProjects` projects when no deletion fails. */
  lemma ExcessTrimmed(mid: IndexState, maxProjects: nat)
    requires Valid(mid)
    ensures |DropAll(mid, ExcessKeys(mid, maxProjects), {}).index| <= maxProjects
  {
    ValidCard(mid);
    if |mid.index| > maxProjects {
      var sorted := ByRecency(mid.order, mid.index);
      ByRecencySpec(mid.order, mid.index);
      DropTailCard(mid, sorted, maxProjects);
    }
  }

  /** Dropping all but the first `n` of a distinct listing of the index leaves `n` projects. */
  lemma DropTailCard(mid: IndexState, sorted: seq<string>, n: nat)
    requires Valid(mid) && Distinct(sorted) && n <= |sorted|
    requires forall x :: x in sorted <==> x in mid.index
    ensures |DropAll(mid, sorted[n..], {}).index| == n
  {
    DropTail(mid, sorted, n);
    DistinctCard(sorted[..n]);
    var r := DropAll(mid, sorted[n..], {});
    assert |r.index| == |r.index.Keys|;
  }

  /**
   * With every deletion succeeding, the projects kept are the most recently accessed: each
   * project dropped without being stale was accessed no later than every project kept.
   */
  lemma CleanupKeepsMostRecent(st: IndexState, now: int, maxProjects: nat, kept: string, dropped: string)
    requires Valid(st)
    requires kept in Cleanup(st, now, maxProjects, {}, {}).index
    requires dropped in st.index && dropped !in Cleanup(st, now, maxProjects, {}, {}).index
    requires !IsStale(st.index[dropped], now)
    ensures st.index[dropped].lastAccessed <= st.index[kept].lastAccessed
  {
    var mid := AfterStale(st, now, {});
    assert dropped in mid.index;
    var sorted := ByRecency(mid.order, mid.index);
    ByRecencySpec(mid.order, mid.index);
    assert dropped in sorted[maxProjects..];
    var j :| maxProjects <= j < |sorted| && sorted[j] == dropped;
    var i :| 0 <= i < |sorted| && sorted[i] == kept;
    assert LastAccessed(mid.index, sorted[i]) >= LastAccessed(mid.index, sorted[j]);
  }

  lemma {:induction false} NoStaleKeys(order: seq<string>, index: map<string, ProjectInfo>, now: int)
    requires forall i :: 0 <= i < |order| ==> order[i] in index
    requires forall k :: k in index ==> !IsStale(index[k], now)
    ensures StaleKeys(order, index, now) == []
    decreases |order|
  {
    if order != [] {
      NoStaleKeys(order[..|order| - 1], index, now);
    }
  }

  /** Nothing stale and nothing over the limit: the cleanup changes nothing. */
  lemma CleanupQuiescent(st: IndexState, now: int, maxProjects: nat, staleFailing: set<string>, excessFailing: set<string>)
    requires Valid(st)
    requires forall k :: k in st.index ==> !IsStale(st.index[k], now)
    requires |st.index| <= maxProjects
    ensures Cleanup(st, now, maxProjects, staleFailing, excessFailing) == st
    ensures Deleted(st, now, maxProjects, staleFailing, excessFailing) == {}
  {
    NoStaleKeys(st.order, st.index, now);
  }

  /** With every deletion succeeding, a second cleanup at the same time removes nothing. */
  lemma CleanupIdempotent(st: IndexState, now: int, maxProjects: nat)
    requires Valid(st)
    ensures var r := Cleanup(st, now, maxProjects, {}, {});
      Cleanup(r, now, maxProjects, {}, {}) == r && Deleted(r, now, maxProjects, {}, {}) == {}
  {
    var r := Cleanup(st, now, maxProjects, {}, {});
    CleanupRemovesStale(st, now, maxProjects);
    CleanupBound(st, now, maxProjects, {});
    CleanupQuiescent(r, now, maxProjects, {}, {});
  }
}
