/**
 * The records the extension passes around: a commit as `git log` gives it, its changed
 * files, its `--stat` summary, and the commit graph the history view and the multi-tier store
 * exchange.
 */
module GitTypes {
  import opened Wrappers

  /** One changed file of a commit: `{ path, status, oldPath? }`. */
  datatype CommitFile = CommitFile(path: string, status: string, oldPath: Option<string>)

  /** The per-commit `--stat` summary. */
  datatype CommitStats = CommitStats(files: nat, additions: nat, deletions: nat)

  /** A commit record; `stats` and `files` are filled in after the log query. */
  datatype Commit = Commit(
    hash: string,
    authorName: string,
    authorEmail: string,
    message: string,
    body: string,
    date: string,
    stats: Option<CommitStats>,
    files: Option<seq<CommitFile>>)

  /** One entry of the graph view; the store only carries these through. */
  datatype Operation = Operation(hash: string, branch: string)

  /** `{ all, total, latest }` as the log returns it. */
  datatype LogResult = LogResult(all: seq<Commit>, total: int, latest: Option<Commit>)

  /** `{ operations, branches, logResult }`. */
  datatype CommitGraph = CommitGraph(operations: seq<Operation>, branches: seq<string>, logResult: LogResult)

  /** The `GIT_STATUS` letters. */
  const Modified: string := "M"
  const Added: string := "A"
  const Deleted: string := "D"
  const Renamed: string := "R"
  const Copied: string := "C"
  const Untracked: string := "U"
  const Ignored: string := "I"

  // ---------------------------------------------------------------- finding a commit

  /** `commits.find(c => c.hash === hash)`, as the index of the first match. */
  function FindIndex(commits: seq<Commit>, hash: string): (r: Option<nat>)
    ensures r.Some? ==> r.value < |commits| && commits[r.value].hash == hash
    ensures r.Some? ==> forall j :: 0 <= j < r.value ==> commits[j].hash != hash
    ensures r.None? <==> forall j :: 0 <= j < |commits| ==> commits[j].hash != hash
  {
    if commits == [] then None
    else if commits[0].hash == hash then Some(0)
    else match FindIndex(commits[1..], hash)
      case None => None
      case Some(i) => Some(i + 1)
  }

  /** The list after `commit.files = files` on the first commit with `hash`. */
  function WithFiles(commits: seq<Commit>, hash: string, files: seq<CommitFile>): (r: seq<Commit>)
    ensures |r| == |commits|
    ensures FindIndex(commits, hash).None? ==> r == commits
    ensures FindIndex(commits, hash).Some? ==>
      var i := FindIndex(commits, hash).value;
      && r[i] == commits[i].(files := Some(files))
      && forall j :: 0 <= j < |r| && j != i ==> r[j] == commits[j]
  {
    match FindIndex(commits, hash)
    case None => commits
    case Some(i) => commits[i := commits[i].(files := Some(files))]
  }

  /** Updating the files leaves every hash where it was, so the same commit is found again. */
  lemma WithFilesKeepsHashes(commits: seq<Commit>, hash: string, files: seq<CommitFile>)
    ensures forall j :: 0 <= j < |commits| ==> WithFiles(commits, hash, files)[j].hash == commits[j].hash
    ensures FindIndex(WithFiles(commits, hash, files), hash) == FindIndex(commits, hash)
  {
    var r := WithFiles(commits, hash, files);
    assert forall j :: 0 <= j < |commits| ==> r[j].hash == commits[j].hash;
    SameHashesSameIndex(commits, r, hash);
  }

  lemma {:induction false} SameHashesSameIndex(a: seq<Commit>, b: seq<Commit>, hash: string)
    requires |a| == |b| && forall j :: 0 <= j < |a| ==> a[j].hash == b[j].hash
    ensures FindIndex(a, hash) == FindIndex(b, hash)
    decreases |a|
  {
    if a != [] && a[0].hash != hash {
      SameHashesSameIndex(a[1..], b[1..], hash);
    }
  }

  /** A second update with the same files changes nothing. */
  lemma WithFilesIdempotent(commits: seq<Commit>, hash: string, files: seq<CommitFile>)
    ensures WithFiles(WithFiles(commits, hash, files), hash, files) == WithFiles(commits, hash, files)
  {
    WithFilesKeepsHashes(commits, hash, files);
  }
}
