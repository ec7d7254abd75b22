/**
 * The records of the multi-tier store of `src/storage-new.ts` and its pure helpers: the
 * hot-tier snapshot of a commit graph, the per-project index entry, and the conversions
 * between a graph and its snapshot.
 */
module StoreRecords {
  import opened Wrappers
  import opened JsStrings
  import opened GitTypes

  /** `DEFAULT_CONFIG.hotCacheSize` and `DEFAULT_CONFIG.maxProjects`. */
  const DefaultHotCacheSize: nat := 50
  const DefaultMaxProjects: nat := 10

  /** A hot snapshot is fresh for one hour (`60 * 60 * 1000` ms). */
  const HotMaxAge: int := 3_600_000

  /** A project not accessed for 30 days (`30 * 24 * 60 * 60 * 1000` ms) is stale. */
  const StaleThreshold: int := 2_592_000_000

  /** `ProjectHotData`: the newest part of a graph, with the time it was taken. */
  datatype HotData = HotData(
    recentCommits: seq<Commit>,
    activeBranches: seq<string>,
    operations: seq<Operation>,
    lastUpdated: int)

  /** `ProjectStorageInfo`, without the constant `storageFiles` names. */
  datatype ProjectInfo = ProjectInfo(
    gitRemoteUrl: string,
    localPath: string,
    lastAccessed: int,
    totalCommits: int)

  /** `isHotDataValid`, with `Date.now()` as `now`. */
  predicate IsHotDataValid(hot: HotData, now: int) {
    now - hot.lastUpdated < HotMaxAge
  }

  /**
   * `extractHotDataFromCommitGraph`: the first `size` commits and operations (all of them
   * when there are fewer), every branch, stamped with `now`.
   */
  function ExtractHotData(g: CommitGraph, size: nat, now: int): (hot: HotData)
    ensures |hot.recentCommits| == if |g.logResult.all| < size then |g.logResult.all| else size
    ensures hot.recentCommits == g.logResult.all[..|hot.recentCommits|]
    ensures |hot.operations| == if |g.operations| < size then |g.operations| else size
    ensures hot.operations == g.operations[..|hot.operations|]
    ensures hot.activeBranches == g.branches && hot.lastUpdated == now
  {
    HotData(Take(g.logResult.all, size), g.branches, Take(g.operations, size), now)
  }

  /** `buildCommitGraphFromHotData`: `total` counts the snapshot, `latest` is `null`. */
  function BuildGraph(hot: HotData): (g: CommitGraph)
    ensures g.logResult.all == hot.recentCommits && g.logResult.total == |hot.recentCommits|
    ensures g.logResult.latest == None
    ensures g.operations == hot.operations && g.branches == hot.activeBranches
  {
    CommitGraph(hot.operations, hot.activeBranches, LogResult(hot.recentCommits, |hot.recentCommits|, None))
  }

  /** What `getCommits` returns when neither tier has the project. */
  const EmptyGraph: CommitGraph := CommitGraph([], [], LogResult([], 0, None))

  /** A snapshot taken at `taken` stays valid for exactly one hour. */
  lemma SnapshotFreshForAnHour(g: CommitGraph, size: nat, taken: int, now: int)
    ensures IsHotDataValid(ExtractHotData(g, size, taken), now) <==> now < taken + HotMaxAge
  {
  }

  /**
   * A graph that fits in the hot tier, whose `total` counts its commits and which has no
   * `latest`, comes back unchanged from its snapshot.
   */
  lemma SmallGraphRoundTrip(g: CommitGraph, size: nat, now: int)
    requires |g.logResult.all| <= size && |g.operations| <= size
    requires g.logResult.total == |g.logResult.all| && g.logResult.latest == None
    ensures BuildGraph(ExtractHotData(g, size, now)) == g
  {
    var hot := ExtractHotData(g, size, now);
    assert hot.recentCommits == g.logResult.all;
    assert hot.operations == g.operations;
  }

  /** Any graph: the one rebuilt from its snapshot starts with the same commits and operations. */
  lemma RebuiltGraphIsPrefix(g: CommitGraph, size: nat, now: int)
    ensures var r := BuildGraph(ExtractHotData(g, size, now));
      && |r.logResult.all| <= size && r.logResult.all == g.logResult.all[..|r.logResult.all|]
      && |r.operations| <= size && r.operations == g.operations[..|r.operations|]
      && r.logResult.total <= size && r.branches == g.branches
  {
  }

  /** A snapshot that fits is recovered from the graph built from it. */
  lemma SnapshotRoundTrip(hot: HotData, size: nat)
    requires |hot.recentCommits| <= size && |hot.operations| <= size
    ensures ExtractHotData(BuildGraph(hot), size, hot.lastUpdated) == hot
  {
  }
}
