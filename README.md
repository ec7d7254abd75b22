# vsc-git-panel in Dafny

This project models the logic of the vsc-git-panel VS Code extension, a Git history and
changes panel. Git, the file system and the VS Code host are replaced by parameters:
- the text a `git` command prints;
- the project key;
- `Date.now()`;
- which deletions fail.

The modelled pieces are these:

- **Multi-tier commit store** (`src/storage-new.ts`). `ProjectStore.dfy` is a class whose fields are:
  - the in-memory `hotCache` and `projectIndex` maps;
  - the index's insertion order;
  - the per-project `warm-cache.json`, `hot-cache.json` and `project-index.json` files, as maps.

  Three more modules hold the pure parts:
  - `StoreRecords.dfy`: the hot snapshot, its one-hour freshness rule and its conversions to and from a graph.
  - `GitUrls.dfy`: the URL-to-key normaliser.
  - `ProjectCleanup.dfy`: the cleanup pass as a function over the index, with its eviction properties.
- **Commit file tree** (`src/views/diff/FileTreeView.ts`). `FileTreeView.dfy` covers two things:
  - the `git show --name-status` line parser;
  - `buildFileTree`, as methods with the source's nested loops.

  The builder's linked nodes are an arena: a node id indexes the node list, and each node has its own children array. A folder's children array reached through `folderChildren` is therefore the same array its node shows.
- **Helpers** (`src/utils.ts`, in `Utils.dfy`): `parseGitStatus`, `shortHash`, `getFileNameByPath`, and the `getBranchColor` cache as a class with its hash loop.
- **Git output parsing** (`src/git/index.ts`, in `GitLog.dfy`): the `--stat` summary line, the loop of `getHistory` that attaches stats to an array of commits, and the parent token of `rev-list --parents`.
- **Flat changes list** (`src/views/diff/FileTreeProvider.ts`), **decoration tables** (`src/decoration/utils.ts`), **file node** (`src/views/diff/entity/FileNode.ts`) and **go-to-commit validator** (`src/commands/goToCommit.ts`).
- **Global-state store** (`src/storage.ts`, in `Storage.dfy`): the commit list kept under one key, and its singleton.

Shared modules:
- `Wrappers`: `Option` and `Result`.
- `JsStrings`: JavaScript's `split`, `join`, `trim`, `slice` and number rendering, with their laws.
- `GitTypes`: the commit records, and `find` plus the in-place update of a commit's `files`.

The model follows the code as written, in particular:
- `getColor` of a status git prints that is outside its table (such as `C`) gives `gitDecoration.undefined`.
- The string hash of `getBranchColor` is not reduced to 32 bits, because only `hash << 5` is. The model keeps the exact value and proves it congruent to the 32-bit `h * 31 + c` fold.
- A `buildFileTree` file whose directory segments are all empty (`/x`) is dropped, as written.

## Model

| member | source | states |
|---|---|---|
| Decoration.ColorName | src/decoration/utils.ts:5-12 | the colour table has an entry exactly for M, D, A, R, U and I |
| Decoration.TooltipName | src/decoration/utils.ts:17-24 | the tooltip table has an entry exactly for the same six statuses |
| Decoration.ColorId | src/decoration/utils.ts:4-14 | the id is `gitDecoration.` followed by the table's colour name; outside the table it is `gitDecoration.undefined` |
| Decoration.Tooltip | src/decoration/utils.ts:16-27 | a known status gets the table's word; the tooltip differs from the status exactly when the table knows it, and is empty only for the empty status |
| Decoration.ColorIdInjective | src/decoration/utils.ts:5-13 | two known statuses with the same colour id are the same status |
| Decoration.CopiedHasNoEntry | src/decoration/utils.ts:5-26 | the copied status `C` gets `gitDecoration.undefined` and the tooltip `C` |
| FileNodes.Label | src/views/diff/entity/FileNode.ts:9 | the label is a suffix of the path: the whole path, or the non-empty `/`-free segment after its last `/`; a path ending in `/` is its own label |
| FileNodes.LabelOfNestedFile | src/views/diff/entity/FileNode.ts:9 | `dir/name` is labelled `name` |
| FileNodes.LabelOfBareName | src/views/diff/entity/FileNode.ts:9 | a path without `/` labels itself |
| FileNodes.Icon | src/views/diff/entity/FileNode.ts:20-33 | each of M, A, D, R (after trimming) gets its own diff icon, in both directions, and every other status gets `file` |
| FileNodes.TrimIdempotent | src/views/diff/entity/FileNode.ts:21 | trimming twice is trimming once |
| FileNodes.IconIgnoresPadding | src/views/diff/entity/FileNode.ts:21 | whitespace around a status does not change its icon |
| FileNodes.NewFileNode | src/views/diff/entity/FileNode.ts:5-18 | path and status kept; the label and icon as above; the tooltip is the status, a space and the path; the command is `vscGitPanel.openDiff` with `{path, status}` |
| FileNodes.FromFileItem | src/views/diff/entity/FileNode.ts:35-40 | path and status are passed through, and so is the command argument |
| FileNodes.CommandRebuildsNode | src/views/diff/entity/FileNode.ts:13-40 | the node rebuilt from its command argument is the same node |
| GoToCommit.ValidateInput | src/commands/goToCommit.ts:13-21 | accepted iff at least 7 characters that are all hex digits (either case); fewer than 7 always get the length message, more with a non-hex character the hex message |
| GoToCommit.AfterInput | src/commands/goToCommit.ts:24-29 | a dismissed or empty input refreshes nothing; any other text forces a refresh that searches for exactly that text |
| GoToCommit.AcceptedInputIsSearched | src/commands/goToCommit.ts:13-29 | text the validator accepts is searched for as typed |
| Utils.ParseGitStatus | src/utils.ts:46-55 | a `^[A-Z]\d*$` status gives its letter, with a similarity exactly when digits follow, and then the similarity is the digits' decimal value; anything else is returned whole with no similarity |
| Utils.ParseLetter | src/utils.ts:47-53 | a bare upper-case letter parses to itself with no similarity |
| Utils.ParseLetterWithScore | src/utils.ts:47-51 | a letter followed by any non-empty run of digits parses to the letter and the digits' value |
| Utils.ParsePaddedScore | src/utils.ts:47-51 | a letter followed by a score zero-padded as git prints it (`R086`) parses to the letter and that score |
| Utils.ShortHash | src/utils.ts:86-88 | the first `min(7, length)` characters |
| Utils.ShortHashIdempotent | src/utils.ts:86-88 | shortening twice is shortening once |
| Utils.FileNameByPath | src/utils.ts:90-92 | a `/`-free suffix of the path, preceded by `/` when shorter than the path |
| Utils.FileNameOfDirectoryPath | src/utils.ts:90-92 | a path ending in `/` has the empty file name |
| Utils.FileNameOfBareName | src/utils.ts:90-92 | a path without `/` is its own file name |
| Utils.ToInt32 | src/utils.ts:68 | the 32-bit conversion of `<<` lands in `[-2^31, 2^31)` |
| Utils.Fold32 | src/utils.ts:66-69 | the reference 32-bit `h * 31 + c` fold is below 2^32 |
| Utils.StringHashIsFold32 | src/utils.ts:66-69 | the loop's hash is congruent to the 32-bit `h * 31 + c` fold modulo 2^32 |
| Utils.StringHashBound | src/utils.ts:66-69 | the hash grows at most linearly with the name's length, so it stays an exact double for any realistic branch name |
| Utils.BaseHue | src/utils.ts:71 | the base hue is in `[0, 360)` |
| Utils.BranchColors.constructor | src/utils.ts:8-9 | an empty cache and a zero counter |
| Utils.BranchColors.HashOf | src/utils.ts:66-69 | the loop computes the string hash |
| Utils.BranchColors.GetBranchColor | src/utils.ts:61-84 | a cached name returns its colour and changes nothing; a new name gets the colour of its base hue and the current counter, is cached, and the counter goes up by one |
| Utils.SameBranchTwice | src/utils.ts:61-84 | two calls for one name return the same colour and move the counter at most once |
| FileTreeProvider.StatusLetter | src/views/diff/FileTreeProvider.ts:60-71 | M, A, D, R, C and U map to themselves and T to M, on the first character only; anything else, the empty status included, gives `?` |
| FileTreeProvider.LineRoundTrip | src/views/diff/FileTreeProvider.ts:44-45 | `status\tpath` splits back into the status and the path, with tabs inside the path kept |
| FileTreeProvider.LineWithoutTab | src/views/diff/FileTreeProvider.ts:44-45 | a line without a tab is all status and has the empty path |
| FileTreeProvider.FileTreeProvider.constructor | src/views/diff/FileTreeProvider.ts:9-13 | no commit is selected |
| FileTreeProvider.FileTreeProvider.Refresh | src/views/diff/FileTreeProvider.ts:15-18 | the selected commit becomes the given hash |
| FileTreeProvider.FileTreeProvider.GetChildren | src/views/diff/FileTreeProvider.ts:24-58 | no commit or a failed show gives no nodes; otherwise one node per non-empty trimmed output line, with that line's path and status letter |
| Storage.Memento.Update | src/storage.ts:49-51 | writing a value stores it under the key, and writing `undefined` removes the key |
| Storage.StorageService.GetCommits | src/storage.ts:40-42 | the stored list, or `[]` when nothing is stored |
| Storage.StorageService.GetCommit | src/storage.ts:44-47 | the result is the first stored commit with the hash: it has the hash and is stored, and none is found iff no stored commit has the hash |
| Storage.StorageService.SaveCommits | src/storage.ts:27-29 | only the commits key is overwritten, and reading back gives the saved list |
| Storage.StorageService.UpdateCommitFiles | src/storage.ts:31-38 | nothing is written on a miss; otherwise the list is written back with only the first matching commit's files replaced |
| Storage.StorageService.ClearCommits | src/storage.ts:49-51 | the key is removed, and reading afterwards gives `[]` |
| Storage.Registry.Initialize | src/storage.ts:13-18 | the first call creates a service on the given context; later calls return that same service |
| Storage.Registry.GetInstance | src/storage.ts:20-25 | an error before `initialize`, the instance after |
| Storage.InitializeTwice | src/storage.ts:13-25 | initialising twice yields one service, bound to the first context |
| Storage.SaveUpdateRead | src/storage.ts:27-47 | after save and update, reading the hash gives the first matching commit with the new files, or nothing |
| GitTypes.FindIndex | src/storage.ts:33 | the index of the first commit with the hash, or none exactly when no commit has it |
| GitTypes.WithFiles | src/storage.ts:31-38 | only the first match gets the new files; a miss changes nothing; the length is kept |
| GitTypes.WithFilesKeepsHashes | src/storage.ts:33-36 | updating keeps every hash in place, so the same commit is found again |
| GitTypes.WithFilesIdempotent | src/storage.ts:31-38 | a second update with the same files changes nothing |
| JsStrings.Split | src/views/diff/FileTreeProvider.ts:44 | `split` always gives at least one part |
| JsStrings.JoinSplit | src/views/diff/FileTreeProvider.ts:44-45 | joining the parts of a split gives back the string |
| JsStrings.SplitJoin | src/views/diff/FileTreeProvider.ts:39-42 | splitting joined separator-free parts gives them back |
| JsStrings.TrimSpec | src/views/diff/entity/FileNode.ts:21 | `trim` returns a contiguous piece with no whitespace at either end, and everything cut off is whitespace |
| JsStrings.OutputOfLines | src/views/diff/FileTreeProvider.ts:39-42 | non-empty newline-free lines survive the trim, split and filter pipeline, in order |
| JsStrings.RemoveAll | src/views/diff/FileTreeView.ts:19 | the result has no tab, the same other characters, and is unchanged if there was none |
| JsStrings.NonEmpty | src/views/diff/FileTreeView.ts:112 | the kept lines are non-empty lines of the input; with no empty line nothing is dropped |
| JsStrings.Take | src/storage-new.ts:387-389 | `slice(0, n)` is the prefix of length `min(n, length)` |
| JsStrings.NatToStringRoundTrip | src/git/index.ts:46-48 | `parseInt` of a rendered number gives the number |
| GitLog.LeadingDigits | src/git/index.ts:41-43 | the maximal run of digits at the start of the text |
| GitLog.StatsFromLine | src/git/index.ts:40-50 | stats are set exactly when the last line is non-empty and contains `changed` |
| GitLog.FilesReadBack | src/git/index.ts:41-46 | the file count of git's summary line is read back, singular or plural |
| GitLog.InsertionsReadBack | src/git/index.ts:42-47 | the insertion count is read back, 0 when git leaves the clause out |
| GitLog.DeletionsReadBack | src/git/index.ts:43-48 | the deletion count is read back, 0 when git leaves the clause out |
| GitLog.SummaryMentionsChanged | src/git/index.ts:40 | git's summary line contains `changed` |
| GitLog.StatsLineRoundTrip | src/git/index.ts:40-50 | the stats read back from git's summary line are the stats it printed |
| GitLog.SummaryLineShape | src/git/index.ts:37-38 | the summary line is non-empty, has no line break and ends in a non-space, so it is the last trimmed line |
| GitLog.StatOutputRoundTrip | src/git/index.ts:36-50 | for the whole `show --stat` output (file lines, then the summary) the attached stats are the printed ones |
| GitLog.WithStats | src/git/index.ts:35-55 | a failed show gives `{0,0,0}`; a parsed summary replaces the stats; an output without one leaves the commit as it was; nothing but `stats` changes |
| GitLog.AttachStats | src/git/index.ts:34-56 | every commit of the array gets the stats of its own output, and one failure does not stop the others |
| GitLog.StatsFor | src/git/index.ts:35-55 | one loop turn does what `WithStats` states |
| GitLog.ParentFromRevList | src/git/index.ts:66-76 | a parent is a non-empty token without spaces; a failed call gives none |
| GitLog.RootHasNoParent | src/git/index.ts:68-70 | the output of a root commit gives no parent |
| GitLog.FirstParentRead | src/git/index.ts:68-70 | the output of a commit with parents gives its first parent |
| GitUrls.IndexOf | src/storage-new.ts:76-77 | the first occurrence, or none exactly when the character is absent |
| GitUrls.LowerAscii | src/storage-new.ts:79 | the same length, with every letter lower-cased |
| GitUrls.Sanitize | src/storage-new.ts:80 | the same length, with every character outside `[a-z0-9]` replaced by `-` |
| GitUrls.NormalizeGitUrl | src/storage-new.ts:74-81 | every character of the key is in `[a-z0-9-]`, and the key is as long as the rewritten URL |
| GitUrls.SafeIsFixed | src/storage-new.ts:74-81 | a text of safe characters normalises to itself |
| GitUrls.NormalizeIdempotent | src/storage-new.ts:74-81 | normalising a key again gives the same key |
| GitUrls.RemoteFormsAgree | src/storage-new.ts:76-78 | `git@host:path.git`, `https://host/path.git` and `https://user@host/path` give the key of `https://host/path` |
| GitUrls.PlainRewritten | src/storage-new.ts:76-78 | `https://host/path` passes the three rewrites unchanged |
| GitUrls.SshRewritten | src/storage-new.ts:77-78 | `git@host:path.git` is rewritten to `https://host/path` |
| GitUrls.GitSuffixRewritten | src/storage-new.ts:76-78 | `https://host/path.git` is rewritten to `https://host/path` |
| GitUrls.UserRewritten | src/storage-new.ts:76-78 | `https://user@host/path` is rewritten to `https://host/path` |
| StoreRecords.ExtractHotData | src/storage-new.ts:385-392 | commits and operations are the prefixes of length `min(size, length)`; branches are kept; the snapshot is stamped with `now` |
| StoreRecords.BuildGraph | src/storage-new.ts:395-405 | the snapshot's commits, operations and branches; `total` counts the commits; `latest` is null |
| StoreRecords.SnapshotFreshForAnHour | src/storage-new.ts:379-392 | a snapshot taken at `t` is valid at `now` iff `now < t + 3600000` |
| StoreRecords.SmallGraphRoundTrip | src/storage-new.ts:385-405 | a graph that fits, whose `total` counts its commits and that has no `latest`, comes back unchanged |
| StoreRecords.RebuiltGraphIsPrefix | src/storage-new.ts:385-405 | any rebuilt graph starts with the original's commits and operations, at most `size` of each |
| StoreRecords.SnapshotRoundTrip | src/storage-new.ts:385-405 | a snapshot that fits is recovered from the graph built from it |
| ProjectCleanup.Values | src/storage-new.ts:163 | the saved index lists the entries in insertion order |
| ProjectCleanup.RemoveKey | src/storage-new.ts:439 | the order keeps every other key and stays duplicate-free |
| ProjectCleanup.Delete | src/storage-new.ts:439 | the entry goes and the index stays valid |
| ProjectCleanup.Set | src/storage-new.ts:295 | the entry is set; a new key goes last, and a known key keeps its place |
| ProjectCleanup.DropAll | src/storage-new.ts:435-445 | exactly the keys whose deletion succeeds leave the index, which stays valid |
| ProjectCleanup.StaleKeys | src/storage-new.ts:426-432 | exactly the keys not accessed for more than 30 days |
| ProjectCleanup.ByRecency | src/storage-new.ts:454-455 | the sort returns exactly the keys it was given |
| ProjectCleanup.ByRecencySpec | src/storage-new.ts:454-455 | the sort is newest first and lists each key once |
| ProjectCleanup.Cleanup | src/storage-new.ts:421-479 | the cleanup keeps the index valid; the stale phase and the size phase each have their own failing deletions |
| ProjectCleanup.CleanupRemovesDeleted | src/storage-new.ts:421-474 | the cleanup removes exactly the stale projects whose stale-phase deletion succeeds and the excess projects whose size-phase deletion succeeds |
| ProjectCleanup.CleanupRemovesStale | src/storage-new.ts:426-445 | with every deletion succeeding, no stale project remains |
| ProjectCleanup.CleanupBound | src/storage-new.ts:452-474 | with every size-phase deletion succeeding, at most `maxProjects` projects remain, whatever failed in the stale phase |
| ProjectCleanup.CleanupKeepsMostRecent | src/storage-new.ts:452-474 | a non-stale project that was dropped was accessed no later than any project kept |
| ProjectCleanup.CleanupQuiescent | src/storage-new.ts:421-474 | with nothing stale and nothing over the limit, the cleanup changes nothing |
| ProjectCleanup.CleanupIdempotent | src/storage-new.ts:421-474 | with every deletion succeeding, a second cleanup at the same time removes nothing |
| ProjectStore.ProjectStore.constructor | src/storage-new.ts:33-37 | empty in-memory maps over the given project files |
| ProjectStore.ProjectStore.GetCommits | src/storage-new.ts:246-275 | a fresh hot entry is served as its graph; else the warm graph is served unchanged and its snapshot becomes the hot entry, in memory and on disk; else the empty graph |
| ProjectStore.ProjectStore.SaveCommits | src/storage-new.ts:278-307 | the index entry is stamped `now` and counts the graph's `total`, and the index is written; the snapshot becomes the hot entry; the graph becomes the warm one |
| ProjectStore.ProjectStore.UpdateCommitFiles | src/storage-new.ts:310-332 | in each tier only the first commit with the hash gets the files; a tier without the project or the commit is not written |
| ProjectStore.ProjectStore.GetCommit | src/storage-new.ts:335-353 | the hot tier's first match is returned, whatever its age; on a hot miss, the warm tier's first match; none is found exactly when neither tier has the hash |
| ProjectStore.ProjectStore.ClearCommits | src/storage-new.ts:356-376 | the hot entry always goes; the index entry goes, and the index is written, only when deleting the directory succeeds |
| ProjectStore.ProjectStore.RemoveProject | src/storage-new.ts:437-440 | the directory, the index entry and the hot entry go |
| ProjectStore.ProjectStore.RemoveAll | src/storage-new.ts:435-445 | each key whose deletion succeeds leaves every tier; the others stay |
| ProjectStore.ProjectStore.FindStale | src/storage-new.ts:426-432 | the loop collects the stale keys in index order |
| ProjectStore.ProjectStore.StalePhase | src/storage-new.ts:426-450 | the stale projects are removed, and the index is written when there were any |
| ProjectStore.ProjectStore.FindExcess | src/storage-new.ts:453-457 | the keys past the first `maxProjects` by recency, as many as the excess |
| ProjectStore.ProjectStore.ExcessPhase | src/storage-new.ts:452-474 | the excess projects are removed, and the index is written when there were any |
| ProjectStore.ProjectStore.SaveAfterRemoving | src/storage-new.ts:458-473 | the given projects are removed, and the index is written when there were any |
| ProjectStore.ProjectStore.PerformCleanup | src/storage-new.ts:421-479 | the index becomes the cleanup function's result, each phase with its own failing deletions, so a project whose stale deletion failed is retried by the size phase; every tier loses exactly the deleted projects; the index is written when some phase had work |
| ProjectStore.SaveThenRead | src/storage-new.ts:246-307 | saving and then reading within the hour serves the snapshot of what was saved |
| ProjectStore.WarmThenHot | src/storage-new.ts:249-263 | a hot miss is served from the warm tier once, then from its snapshot |
| ProjectStore.CleanupTwice | src/storage-new.ts:421-479 | after two cleanups nothing is stale and at most `maxProjects` projects remain |
| FileTreeView.ParseLine | src/views/diff/FileTreeView.ts:113-131 | the status is the parsed type of the first field; a path exactly when the line has a tab; an old path only on a rename; a similarity only with an old path |
| FileTreeView.RenameLineRead | src/views/diff/FileTreeView.ts:114-125 | `R<digits>\told\tnew`, for any non-empty digit run, gives the path `new`, the old path `old` and the digits' value as similarity |
| FileTreeView.GitRenameLineRead | src/views/diff/FileTreeView.ts:114-125 | a rename line with git's three-digit zero-padded score (`R086\told\tnew`) gives `new`, `old` and that score |
| FileTreeView.PlainLineRead | src/views/diff/FileTreeView.ts:114-130 | a line with one tab gives its path, the parsed type, and no old path |
| FileTreeView.CopyLineRead | src/views/diff/FileTreeView.ts:114-130 | `C<digits>\tsource\tcopy`, for any non-empty digit run (git prints `C075`), is read as the source path, with no old path |
| FileTreeView.ParseOutput | src/views/diff/FileTreeView.ts:109-131 | one record per non-empty trimmed line, in order |
| FileTreeView.DirsFacts | src/views/diff/FileTreeView.ts:20-23 | directory segments hold no `/`, and there are some exactly when the path has a `/` |
| FileTreeView.MapValues | src/views/diff/FileTreeView.ts:89 | `Array.from(root.values())` lists the entries in key insertion order |
| FileTreeView.LastWithPath | src/views/diff/FileTreeView.ts:66-71 | a lookup in the rebuilt child map finds the last child with that path, as `new Map` keeps the last entry per key, or none exactly when no child has it |
| FileTreeView.Lookup | src/views/diff/FileTreeView.ts:46 | a found node has the looked-up path; on the root map the result is its entry for the key, if any; on a children snapshot a miss means no listed child has the path |
| FileTreeView.Result | src/views/diff/FileTreeView.ts:89 | the result is well formed: every child comes after its parent and every id names a node |
| FileTreeView.Enter | src/views/diff/FileTreeView.ts:40-65 | one directory pass leaves a node at the path; the builder only grows, by folders; at most that path is registered; root entries are kept; in the collision-free case the tidy shape holds with the path registered for the node |
| FileTreeView.EnterHit | src/views/diff/FileTreeView.ts:46-65 | a hit changes nothing, and in the collision-free case the node found is the folder registered for the path |
| FileTreeView.EnterMiss | src/views/diff/FileTreeView.ts:47-63 | a miss creates one folder, placed at the top or under its parent, and keeps the tidy shape |
| FileTreeView.Walk | src/views/diff/FileTreeView.ts:35-72 | the walk skips empty segments; `currentPath` joins the non-empty ones; `currentNode` is its folder; only those paths are registered, exactly those in the collision-free case |
| FileTreeView.WalkStep | src/views/diff/FileTreeView.ts:39-72 | one turn of the directory loop keeps the walk's invariant |
| FileTreeView.AddFile | src/views/diff/FileTreeView.ts:18-87 | a file with no `/` is set in the root map; a file with only empty segments changes nothing; otherwise root entries are kept, only the file's folder paths are registered, and (without collisions) its node is the last child of its deepest folder |
| FileTreeView.AddedRoot | src/views/diff/FileTreeView.ts:23-33 | a file with no `/` is added as a root entry |
| FileTreeView.AddedNothing | src/views/diff/FileTreeView.ts:74-86 | a walk that enters no folder adds nothing |
| FileTreeView.AddedLeaf | src/views/diff/FileTreeView.ts:74-86 | the file node is pushed into the children of the walk's last folder |
| FileTreeView.AddAll | src/views/diff/FileTreeView.ts:15-88 | the loop over the files keeps the builder invariant for every prefix of the list |
| FileTreeView.AddNext | src/views/diff/FileTreeView.ts:18-87 | one turn of the file loop keeps the builder invariant |
| FileTreeView.BuildFileTree | src/views/diff/FileTreeView.ts:14-90 | sub-folders sit one segment deeper and files in their deepest folder; each node id occurs at most once across all children arrays, since a folder is pushed only when created and a file node only once; top-level paths are distinct; every file node comes from a file; the last root file of each `/`-free path is at the top. Without collisions: exactly one folder per directory prefix, each placed at the top or under its parent, and each nested file a child of its deepest folder |
| FileTreeView.BuiltShape | src/views/diff/FileTreeView.ts:14-90 | the returned nodes have the shape stated for `BuildFileTree` |
| FileTreeView.BuiltRootFiles | src/views/diff/FileTreeView.ts:23-33 | the last file with a given `/`-free path is in the returned array |
| FileTreeView.BuiltFolders | src/views/diff/FileTreeView.ts:47-63 | without collisions every folder is at the top or among its parent's children |
| FileTreeView.BuiltNested | src/views/diff/FileTreeView.ts:74-86 | without collisions, every nested file is among its deepest folder's children |
| FileTreeView.AsCommitFiles | src/views/diff/FileTreeView.ts:117-131 | the records become file records, or none exactly when some line had no path (then `replace` throws on `undefined`) |
| FileTreeView.GetChildren | src/views/diff/FileTreeView.ts:92-142 | an empty hash, a failed or empty show, or a pathless line gives `{[], 0}`; otherwise `total` is the number of non-empty lines and the tree has the whole shape stated for `BuildFileTree` over the parsed records, the collision-free part included |

## Left out

- Git, the file system, the clock and the VS Code host are not modelled. A command's output is a parameter, `None` when the call threw. `Date.now()` is the `now` parameter. A deletion that fails is named in a failing set, one per cleanup phase.
- JSON serialisation, `createDirectory` and the `logger`/`console` calls are left out: they do not decide any result.
- In `getProjectKey`, the `git config` remote lookup and the `sha256` path hash fallback are left out. The project key is a parameter.
- `initializeStorage`, `loadGlobalConfig`, `loadProjectIndex`, `preloadCurrentProject` and the global config file are left out. The configuration appears only as the `hotCacheSize` and `maxProjects` fields, with the default constants.
- The `setTimeout` that reschedules `performCleanup` is left out; the cleanup is modelled as one call.
- ProjectStore: a failure to write a file (which the source logs and swallows) is not modelled; every write goes through.
- ProjectStore.ProjectStore.UpdateCommitFiles and ProjectStore.ProjectStore.GetCommits: they do not model object sharing. In the source the hot snapshot shares commit objects with the graph the caller saved. On a hot hit `getCommits` returns a graph whose `logResult.all` is the hot cache's own `recentCommits` array, objects included (src/storage-new.ts:246-253 and 396-406). So a caller that later mutates what `getCommits` returned changes the cache too. The model returns values: only the hot entry is updated, and a caller's copy never writes back.
- ProjectCleanup.ByRecency: it is proved sorted and a permutation, not stable. Equal times are ordered as the source's stable sort orders them; only that order is not stated.
- In `getBranchColor`, the floating-point hue, the golden-ratio step, `Math.round` and the `hsl(...)` text are abstract. `colorOf(baseHue, counter)` stands for them.
- GitUrls.LowerAscii: it lower-cases ASCII letters only. `toLowerCase` also maps some other characters to ASCII text, such as U+212A (Kelvin sign) to `k` and U+0130 to `i` followed by U+0307. For a URL holding one, the source's key keeps `k` or `i-` where `GitUrls.NormalizeGitUrl` writes `-`, and the source's key can be longer than the rewritten URL.
- Strings are sequences of Unicode scalar values, not UTF-16 code units. For text outside the Basic Multilingual Plane this changes more than lengths; the next two lines name the results it changes.
- GitUrls.Sanitize: the source's `replace(/[^a-z0-9]/g, '-')` has no `u` flag, so it turns a character outside the Basic Multilingual Plane (two UTF-16 units) into `--`; the model writes one `-`.
- Utils.BranchColors.HashOf: the source's loop adds the two `charCodeAt` surrogate units of a character outside the Basic Multilingual Plane, where `Utils.HashStep` adds one code point. Such a branch name gets a different hash, and so possibly a different colour.
- GitLog.StatsFromLine: `Number.parseInt` returns a double, so a digit run above 2^53 loses precision in the source, while `GitLog.LeadingDigits` reads it exactly.
- Utils.ParseGitStatus: the similarity is read with `Number.parseInt` too, with the same precision loss above 2^53; the model's number is exact.
- Decoration.ColorId and Decoration.Tooltip: the tables are object literals and the status is any string (the `status` query of the resource URI). A key that `Object.prototype` supplies, such as `constructor` or `__proto__`, is looked up on the prototype in the source, while the model treats it as outside the table. The model's results hold for every status that is not such a name, which includes every status git prints.
- `getHistory`'s `--max-count=100` is a git argument. It is recorded as `GitLog.MaxHistoryCount`, but the log is an input, so the bound is not enforced by the model. A failure of the log call itself, which is rethrown, is left out.
- GitLog.StatsFor assigns the commit back even when its stats do not change, since the value is equal.
- FileTreeView: the folder and file nodes are data, not `FolderNode`/`FileNode` objects. `FolderNode` is not part of this model. The builder's 4-argument `FileNode` keeps its path, status, commit hash and old path; the 2-argument entity is modelled separately in `FileNodes`.
- The flat list imports `./FileNode`, which is not part of this model; the 2-argument entity `FileNodes.NewFileNode` stands in for it.
- FileTreeView.BuildFileTree: folder uniqueness, placement and file placement are proved only when no file path equals a folder path. When one does, the source can lose files (a file node found as `currentNode` has no children array), and no claim is made.
- The `similarity` of a rename record is parsed but dropped by `buildFileTree`, as in the source.
- The private constructor and static `instance` of `StorageService` are modelled as a `Registry` object that owns the instance slot.
- The webviews, tree-item wrappers, commands other than go-to-commit, the change monitor and the decoration provider are host plumbing with no model here.
- The commit-graph builder, branch propagation and the filter-keyed history cache are not in the modelled files.
