/**
 * The multi-tier commit store of `src/storage-new.ts`. The in-memory tiers are the `hotCache`
 * and `projectIndex` maps the source updates in place; the files under each project's storage
 * directory are modelled as maps keyed by project too: `warm` (`warm-cache.json`),
 * `hotFiles` (`hot-cache.json`) and `savedIndex` (`project-index.json`). The project key
 * and `Date.now()` are parameters.
 */
module ProjectStore {
  import opened Wrappers
  import opened GitTypes
  import opened StoreRecords
  import opened ProjectCleanup

  class ProjectStore {
    var hotCache: map<string, HotData>
    var projectIndex: map<string, ProjectInfo>
    /** The insertion order of `projectIndex`, which `Array.from` and the sort observe. */
    var indexOrder: seq<string>
    var warm: map<string, CommitGraph>
    var hotFiles: map<string, HotData>
    var savedIndex: seq<ProjectInfo>
    const hotCacheSize: nat
    const maxProjects: nat

    function Index(): IndexState
      reads this
    {
      IndexState(indexOrder, projectIndex)
    }

    predicate Valid()
      reads this
    {
      ProjectCleanup.Valid(Index())
    }

    /** Empty memory over whatever the project directories already hold. */
    constructor (hotCacheSize: nat, maxProjects: nat, warm: map<string, CommitGraph>, hotFiles: map<string, HotData>)
      ensures Valid() && hotCache == map[] && Index() == EmptyIndex
      ensures this.warm == warm && this.hotFiles == hotFiles && savedIndex == []
      ensures this.hotCacheSize == hotCacheSize && this.maxProjects == maxProjects
    {
      this.hotCacheSize := hotCacheSize;
      this.maxProjects := maxProjects;
      hotCache := map[];
      projectIndex := map[];
      indexOrder := [];
      this.warm := warm;
      this.hotFiles := hotFiles;
      savedIndex := [];
    }

    /**
     * `getCommits`: a fresh hot entry is served as a graph; otherwise the warm graph is
     * served as stored and its snapshot becomes the hot entry (in memory and on disk);
     * otherwise the empty graph.
     */
    method GetCommits(key: string, now: int) returns (g: CommitGraph)
      modifies this`hotCache, this`hotFiles
      ensures key in old(hotCache) && IsHotDataValid(old(hotCache)[key], now) ==>
        g == BuildGraph(old(hotCache)[key]) && hotCache == old(hotCache) && hotFiles == old(hotFiles)
      ensures !(key in old(hotCache) && IsHotDataValid(old(hotCache)[key], now)) && key in warm ==>
        && g == warm[key]
        && hotCache == old(hotCache)[key := ExtractHotData(warm[key], hotCacheSize, now)]
        && hotFiles == old(hotFiles)[key := ExtractHotData(warm[key], hotCacheSize, now)]
      ensures !(key in old(hotCache) && IsHotDataValid(old(hotCache)[key], now)) && key !in warm ==>
        g == EmptyGraph && hotCache == old(hotCache) && hotFiles == old(hotFiles)
    {
      if key in hotCache && IsHotDataValid(hotCache[key], now) {
        return BuildGraph(hotCache[key]);
      }
      if key in warm {
        var hot := ExtractHotData(warm[key], hotCacheSize, now);
        hotCache := hotCache[key := hot];
        hotFiles := hotFiles[key := hot];
        return warm[key];
      }
      return EmptyGraph;
    }

    /**
     * `saveCommits`: the index entry is set (stamped `now`, counting the graph's `total`) and
     * the index written, then the snapshot becomes the hot entry, then the graph the warm one.
     */
    method SaveCommits(key: string, g: CommitGraph, now: int, localPath: string)
      requires Valid()
      modifies this`projectIndex, this`indexOrder, this`savedIndex, this`hotCache, this`hotFiles, this`warm
      ensures Valid()
      ensures Index() == Set(old(Index()), key, ProjectInfo(key, localPath, now, g.logResult.total))
      ensures projectIndex[key].totalCommits == g.logResult.total && projectIndex[key].lastAccessed == now
      ensures savedIndex == Values(Index())
      ensures hotCache == old(hotCache)[key := ExtractHotData(g, hotCacheSize, now)]
      ensures hotFiles == old(hotFiles)[key := ExtractHotData(g, hotCacheSize, now)]
      ensures warm == old(warm)[key := g]
    {
      var st := Set(Index(), key, ProjectInfo(key, localPath, now, g.logResult.total));
      indexOrder, projectIndex := st.order, st.index;
      savedIndex := Values(Index());
      var hot := ExtractHotData(g, hotCacheSize, now);
      hotCache := hotCache[key := hot];
      hotFiles := hotFiles[key := hot];
      warm := warm[key := g];
    }

    /**
     * `updateCommitFiles`: in each tier, the first commit with that hash gets the files and
     * the tier is written back; a tier without the project or the commit is left alone.
     */
    method UpdateCommitFiles(key: string, hash: string, files: seq<CommitFile>)
      modifies this`hotCache, this`hotFiles, this`warm
      ensures key in old(hotCache) && FindIndex(old(hotCache)[key].recentCommits, hash).Some? ==>
        var hot := old(hotCache)[key];
        var updated := hot.(recentCommits := WithFiles(hot.recentCommits, hash, files));
        hotCache == old(hotCache)[key := updated] && hotFiles == old(hotFiles)[key := updated]
      ensures !(key in old(hotCache) && FindIndex(old(hotCache)[key].recentCommits, hash).Some?) ==>
        hotCache == old(hotCache) && hotFiles == old(hotFiles)
      ensures key in old(warm) && FindIndex(old(warm)[key].logResult.all, hash).Some? ==>
        var w := old(warm)[key];
        warm == old(warm)[key := w.(logResult := w.logResult.(all := WithFiles(w.logResult.all, hash, files)))]
      ensures !(key in old(warm) && FindIndex(old(warm)[key].logResult.all, hash).Some?) ==>
        warm == old(warm)
    {
      if key in hotCache {
        var hot := hotCache[key];
        if FindIndex(hot.recentCommits, hash).Some? {
          var updated := hot.(recentCommits := WithFiles(hot.recentCommits, hash, files));
          hotCache := hotCache[key := updated];
          hotFiles := hotFiles[key := updated];
        }
      }
      if key in warm {
        var w := warm[key];
        if FindIndex(w.logResult.all, hash).Some? {
          warm := warm[key := w.(logResult := w.logResult.(all := WithFiles(w.logResult.all, hash, files)))];
        }
      }
    }

    /**
     * `getCommit`: the hot entry is searched first, whatever its age; a miss there falls
     * through to the warm graph.
     */
    function GetCommit(key: string, hash: string): (r: Option<Commit>)
      reads this
      ensures r.Some? ==> r.value.hash == hash
      ensures key in hotCache && FindIndex(hotCache[key].recentCommits, hash).Some? ==>
        r == Some(hotCache[key].recentCommits[FindIndex(hotCache[key].recentCommits, hash).value])
      ensures
        && (key !in hotCache || FindIndex(hotCache[key].recentCommits, hash).None?)
        && key in warm && FindIndex(warm[key].logResult.all, hash).Some?
        ==> r == Some(warm[key].logResult.all[FindIndex(warm[key].logResult.all, hash).value])
      ensures r.None? <==>
        (key !in hotCache || FindIndex(hotCache[key].recentCommits, hash).None?) &&
        (key !in warm || FindIndex(warm[key].logResult.all, hash).None?)
    {
      var inHot := if key in hotCache then FindIndex(hotCache[key].recentCommits, hash) else None;
      if inHot.Some? then Some(hotCache[key].recentCommits[inHot.value])
      else if key in warm then
        match FindIndex(warm[key].logResult.all, hash)
        case Some(i) => Some(warm[key].logResult.all[i])
        case None => None
      else None
    }

    /** Deleting a project's directory and its two in-memory entries. */
    method RemoveProject(key: string)
      requires Valid()
      modifies this`projectIndex, this`indexOrder, this`hotCache, this`hotFiles, this`warm
      ensures Valid() && Index() == Delete(old(Index()), key)
      ensures hotCache == old(hotCache) - {key}
      ensures warm == old(warm) - {key} && hotFiles == old(hotFiles) - {key}
    {
      var st := Delete(Index(), key);
      indexOrder, projectIndex := st.order, st.index;
      hotCache := hotCache - {key};
      warm := warm - {key};
      hotFiles := hotFiles - {key};
    }

    /**
     * `clearCommits`: the hot entry always goes; the index entry goes, and the index is
     * written, only when deleting the project's directory succeeded.
     */
    method ClearCommits(key: string, deleteSucceeds: bool)
      requires Valid()
      modifies this
      ensures Valid()
      ensures hotCache == old(hotCache) - {key}
      ensures deleteSucceeds ==> Index() == Delete(old(Index()), key) && savedIndex == Values(Index())
      ensures deleteSucceeds ==> warm == old(warm) - {key} && hotFiles == old(hotFiles) - {key}
      ensures !deleteSucceeds ==>
        Index() == old(Index()) && savedIndex == old(savedIndex) && warm == old(warm) && hotFiles == old(hotFiles)
    {
      hotCache := hotCache - {key};
      if deleteSucceeds {
        RemoveProject(key);
        savedIndex := Values(Index());
      }
    }

    /** Deletes each of `keys` in turn, skipping the ones whose directory cannot be deleted. */
    method RemoveAll(keys: seq<string>, failing: set<string>)
      requires Valid()
      modifies this`projectIndex, this`indexOrder, this`hotCache, this`hotFiles, this`warm
      ensures Valid() && Index() == DropAll(old(Index()), keys, failing)
      ensures hotCache == old(hotCache) - Gone(keys, failing)
      ensures warm == old(warm) - Gone(keys, failing) && hotFiles == old(hotFiles) - Gone(keys, failing)
    {
      var i := 0;
      while i < |keys|
        invariant 0 <= i <= |keys| && Valid()
        invariant Index() == DropAll(old(Index()), keys[..i], failing)
        invariant hotCache == old(hotCache) - Gone(keys[..i], failing)
        invariant warm == old(warm) - Gone(keys[..i], failing)
        invariant hotFiles == old(hotFiles) - Gone(keys[..i], failing)
      {
        assert keys[..i + 1][..i] == keys[..i];
        assert Gone(keys[..i + 1], failing) == Gone(keys[..i], failing) + (if keys[i] in failing then {} else {keys[i]});
        if keys[i] !in failing {
          RemoveProject(keys[i]);
        }
        i := i + 1;
      }
      assert keys[..i] == keys;
    }

    /** The first loop of `performCleanup`: it only reads the index. */
    method FindStale(now: int) returns (stale: seq<string>)
      requires Valid()
      ensures stale == StaleKeys(indexOrder, projectIndex, now)
    {
      stale := [];
      var i := 0;
      while i < |indexOrder|
        invariant 0 <= i <= |indexOrder|
        invariant stale == StaleKeys(indexOrder[..i], projectIndex, now)
      {
        assert indexOrder[..i + 1][..i] == indexOrder[..i];
        var key := indexOrder[i];
        if now - projectIndex[key].lastAccessed > StaleThreshold {
          stale := stale + [key];
        }
        i := i + 1;
      }
      assert indexOrder[..i] == indexOrder;
    }

    /** The stale phase of `performCleanup`; the index is written when it found any. */
    method StalePhase(now: int, failing: set<string>) returns (stale: seq<string>)
      requires Valid()
      modifies this`projectIndex, this`indexOrder, this`savedIndex, this`hotCache, this`hotFiles, this`warm
      ensures stale == StaleKeys(old(indexOrder), old(projectIndex), now)
      ensures Valid() && Index() == AfterStale(old(Index()), now, failing)
      ensures hotCache == old(hotCache) - Gone(stale, failing)
      ensures warm == old(warm) - Gone(stale, failing) && hotFiles == old(hotFiles) - Gone(stale, failing)
      ensures savedIndex == if stale != [] then Values(Index()) else old(savedIndex)
    {
      stale := FindStale(now);
      SaveAfterRemoving(stale, failing);
    }

    /** The projects past the first `maxProjects` by recency, when there are more than that. */
    method FindExcess() returns (excess: seq<string>)
      requires Valid()
      ensures excess == ExcessKeys(Index(), maxProjects)
      ensures |excess| == if |projectIndex| > maxProjects then |projectIndex| - maxProjects else 0
    {
      ValidCard(Index());
      excess := [];
      if |projectIndex| > maxProjects {
        var sorted := ByRecency(indexOrder, projectIndex);
        excess := sorted[maxProjects..];
      }
    }

    /** The size phase of `performCleanup`; the index is written when it removed any. */
    method ExcessPhase(failing: set<string>) returns (excess: seq<string>)
      requires Valid()
      modifies this`projectIndex, this`indexOrder, this`savedIndex, this`hotCache, this`hotFiles, this`warm
      ensures excess == ExcessKeys(old(Index()), maxProjects)
      ensures Valid() && Index() == DropAll(old(Index()), excess, failing)
      ensures hotCache == old(hotCache) - Gone(excess, failing)
      ensures warm == old(warm) - Gone(excess, failing) && hotFiles == old(hotFiles) - Gone(excess, failing)
      ensures savedIndex == if excess != [] then Values(Index()) else old(savedIndex)
    {
      excess := FindExcess();
      SaveAfterRemoving(excess, failing);
    }

    /** Deleting the given projects, then writing the index when there were any. */
    method SaveAfterRemoving(excess: seq<string>, failing: set<string>)
      requires Valid()
      modifies this`projectIndex, this`indexOrder, this`savedIndex, this`hotCache, this`hotFiles, this`warm
      ensures Valid() && Index() == DropAll(old(Index()), excess, failing)
      ensures hotCache == old(hotCache) - Gone(excess, failing)
      ensures warm == old(warm) - Gone(excess, failing) && hotFiles == old(hotFiles) - Gone(excess, failing)
      ensures savedIndex == if excess != [] then Values(Index()) else old(savedIndex)
    {
      RemoveAll(excess, failing);
      if |excess| > 0 {
        savedIndex := Values(Index());
      }
    }

    /**
     * `performCleanup`: stale projects are deleted, then, if the index is still over
     * `maxProjects`, every project after the first `maxProjects` by recency. The index is
     * written after each phase that had something to delete. `staleFailing` and
     * `excessFailing` are the deletions that fail in each phase.
     */
    method PerformCleanup(now: int, staleFailing: set<string>, excessFailing: set<string>)
      requires Valid()
      modifies this`projectIndex, this`indexOrder, this`savedIndex, this`hotCache, this`hotFiles, this`warm
      ensures Valid() && Index() == Cleanup(old(Index()), now, maxProjects, staleFailing, excessFailing)
      ensures hotCache == old(hotCache) - ProjectCleanup.Deleted(old(Index()), now, maxProjects, staleFailing, excessFailing)
      ensures warm == old(warm) - ProjectCleanup.Deleted(old(Index()), now, maxProjects, staleFailing, excessFailing)
      ensures hotFiles == old(hotFiles) - ProjectCleanup.Deleted(old(Index()), now, maxProjects, staleFailing, excessFailing)
      ensures
        var st := old(Index());
        if StaleKeys(st.order, st.index, now) != [] || ExcessKeys(AfterStale(st, now, staleFailing), maxProjects) != []
        then savedIndex == Values(Index())
        else savedIndex == old(savedIndex)
    {
      var stale := StalePhase(now, staleFailing);
      var excess := ExcessPhase(excessFailing);
      ghost var a := Gone(stale, staleFailing);
      ghost var b := Gone(excess, excessFailing);
      MinusTwice(old(hotCache), a, b);
      MinusTwice(old(warm), a, b);
      MinusTwice(old(hotFiles), a, b);
    }
  }

  lemma MinusTwice<V>(m: map<string, V>, a: set<string>, b: set<string>)
    ensures (m - a) - b == m - (a + b)
  {
  }

  /** Saving and then reading within the hour serves the hot snapshot of what was saved. */
  method SaveThenRead(store: ProjectStore, key: string, g: CommitGraph, now: int, later: int) returns (r: CommitGraph)
    requires store.Valid() && now <= later < now + HotMaxAge
    modifies store
    ensures r == BuildGraph(ExtractHotData(g, store.hotCacheSize, now))
  {
    store.SaveCommits(key, g, now, "");
    r := store.GetCommits(key, later);
  }

  /** A miss in the hot tier is served from the warm tier once, then from the hot tier. */
  method WarmThenHot(store: ProjectStore, key: string, now: int) returns (first: CommitGraph, second: CommitGraph)
    requires key !in store.hotCache && key in store.warm
    modifies store
    ensures first == old(store.warm[key])
    ensures second == BuildGraph(ExtractHotData(first, store.hotCacheSize, now))
  {
    first := store.GetCommits(key, now);
    second := store.GetCommits(key, now);
  }

  /** With every deletion succeeding, a second cleanup at the same time removes nothing. */
  method CleanupTwice(store: ProjectStore, now: int)
    requires store.Valid()
    modifies store
    ensures store.Valid() && store.Index() == Cleanup(old(store.Index()), now, store.maxProjects, {}, {})
    ensures forall k :: k in store.projectIndex ==> !IsStale(store.projectIndex[k], now)
    ensures |store.projectIndex| <= store.maxProjects
  {
    store.PerformCleanup(now, {}, {});
    ghost var once := store.Index();
    CleanupIdempotent(old(store.Index()), now, store.maxProjects);
    CleanupRemovesStale(old(store.Index()), now, store.maxProjects);
    CleanupBound(old(store.Index()), now, store.maxProjects, {});
    store.PerformCleanup(now, {}, {});
    assert store.Index() == once;
  }
}
