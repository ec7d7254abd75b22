/**
 * The global-state commit store (`src/storage.ts`): the commit list kept under one key of
 * the extension's global state, and the singleton that owns it.
 */
module Storage {
  import opened Wrappers
  import opened GitTypes

  const CommitsKey: string := "git-panel.commits"
  const NotInitialized: string := "StorageService must be initialized with context first"

  /**
   * The host's global state, reduced to the one kind of value stored here. Writing
   * `undefined` removes the key.
   */
  class Memento {
    var values: map<string, seq<Commit>>

    constructor ()
      ensures values == map[]
    {
      values := map[];
    }

    function Get(key: string): Option<seq<Commit>>
      reads this
    {
      if key in values then Some(values[key]) else None
    }

    method Update(key: string, value: Option<seq<Commit>>)
      modifies this
      ensures values == if value.Some? then old(values)[key := value.value] else old(values) - {key}
    {
      match value
      case Some(v) => values := values[key := v];
      case None => values := values - {key};
    }
  }

  class StorageService {
    const context: Memento

    constructor (context: Memento)
      ensures this.context == context
    {
      this.context := context;
    }

    /** `getCommits`: the stored list, or `[]` when nothing is stored. */
    function GetCommits(): (r: seq<Commit>)
      reads this, context
      ensures CommitsKey !in context.values ==> r == []
      ensures CommitsKey in context.values ==> r == context.values[CommitsKey]
    {
      context.Get(CommitsKey).GetOr([])
    }

    /** `getCommit`: the first stored commit with that hash. */
    function GetCommit(hash: string): (r: Option<Commit>)
      reads this, context
      ensures r.Some? ==> r.value.hash == hash && r.value in GetCommits()
      ensures r.None? <==> forall c :: c in GetCommits() ==> c.hash != hash
      ensures FindIndex(GetCommits(), hash).Some? ==>
        r == Some(GetCommits()[FindIndex(GetCommits(), hash).value])
    {
      var commits := GetCommits();
      match FindIndex(commits, hash)
      case None => None
      case Some(i) => Some(commits[i])
    }

    method SaveCommits(commits: seq<Commit>)
      modifies context
      ensures context.values == old(context.values)[CommitsKey := commits]
      ensures GetCommits() == commits
    {
      context.Update(CommitsKey, Some(commits));
    }

    /** Stores the list with the first matching commit's files replaced; no write on a miss. */
    method UpdateCommitFiles(hash: string, files: seq<CommitFile>)
      modifies context
      ensures FindIndex(old(GetCommits()), hash).None? ==> context.values == old(context.values)
      ensures FindIndex(old(GetCommits()), hash).Some? ==>
        context.values == old(context.values)[CommitsKey := WithFiles(old(GetCommits()), hash, files)]
      ensures GetCommits() == WithFiles(old(GetCommits()), hash, files)
    {
      var commits := GetCommits();
      var found := FindIndex(commits, hash);
      if found.Some? {
        SaveCommits(WithFiles(commits, hash, files));
      }
    }

    /** `clearCommits` writes `undefined`, which removes the key. */
    method ClearCommits()
      modifies context
      ensures context.values == old(context.values) - {CommitsKey}
      ensures GetCommits() == []
    {
      context.Update(CommitsKey, None);
    }
  }

  /** The class-level `instance` slot. */
  class Registry {
    var instance: StorageService?

    constructor ()
      ensures instance == null
    {
      instance := null;
    }

    /** `initialize`: the first call creates the service; later calls return it unchanged. */
    method Initialize(context: Memento) returns (s: StorageService)
      modifies this
      ensures old(instance) != null ==> s == old(instance) && instance == old(instance)
      ensures old(instance) == null ==> fresh(s) && s.context == context && instance == s
    {
      if instance == null {
        instance := new StorageService(context);
      }
      s := instance;
    }

    /** `getInstance`: an error before `initialize`. */
    method GetInstance() returns (r: Result<StorageService>)
      ensures instance == null ==> r == Failure(NotInitialized)
      ensures instance != null ==> r == Success(instance)
    {
      if instance == null {
        return Failure(NotInitialized);
      }
      return Success(instance);
    }
  }

  /** A caller that initialises twice ends up with one service, bound to the first context. */
  method InitializeTwice(first: Memento, second: Memento) returns (a: StorageService, b: StorageService)
    ensures a == b && a.context == first
  {
    var registry := new Registry();
    a := registry.Initialize(first);
    b := registry.Initialize(second);
    var got := registry.GetInstance();
    assert got == Success(a);
  }

  /** Save, update and read back through one service. */
  method SaveUpdateRead(m: Memento, commits: seq<Commit>, hash: string, files: seq<CommitFile>) returns (found: Option<Commit>)
    modifies m
    ensures FindIndex(commits, hash).Some? ==> found == Some(commits[FindIndex(commits, hash).value].(files := Some(files)))
    ensures FindIndex(commits, hash).None? ==> found == None
  {
    var service := new StorageService(m);
    service.SaveCommits(commits);
    service.UpdateCommitFiles(hash, files);
    WithFilesKeepsHashes(commits, hash, files);
    found := service.GetCommit(hash);
  }
}
