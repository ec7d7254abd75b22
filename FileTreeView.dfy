/**
 * The commit file tree of `src/views/diff/FileTreeView.ts`: the `git show --name-status`
 * output of one commit parsed into file records, and `buildFileTree`, which files every path
 * under a chain of folder nodes. The tree nodes the builder links together are an arena:
 * a node id indexes `nodes`, and `kids[id]` is that node's `children` array, so an array
 * reached through the `folderChildren` map is the same array its folder node shows.
 */
module FileTreeView {
  import opened Wrappers
  import opened JsStrings
  import opened GitTypes
  import Utils

  // ---------------------------------------------------------------- the show output

  /** One parsed line; `path` is missing (`undefined`) on a line without a tab. */
  datatype ChangedFile = ChangedFile(
    status: string,
    path: Option<string>,
    oldPath: Option<string>,
    similarity: Option<nat>)

  /**
   * `const [status, ...pathParts] = line.split('\t')`: a rename with exactly two paths
   * yields the new path, the old path and the score; every other line its first path.
   */
  function ParseLine(line: string): (r: ChangedFile)
    ensures r.status == Utils.ParseGitStatus(BeforeFirst(line, '\t')).kind
    ensures r.path.Some? <==> '\t' in line
    ensures r.oldPath.Some? ==> r.status == Renamed
    ensures r.similarity.Some? ==> r.oldPath.Some?
  {
    SplitHeadAndTail(line, '\t');
    SplitSingle(line, '\t');
    var fields := Split(line, '\t');
    var parsed := Utils.ParseGitStatus(fields[0]);
    var pathParts := fields[1..];
    if parsed.kind == Renamed && |pathParts| == 2 then
      ChangedFile(parsed.kind, Some(pathParts[1]), Some(pathParts[0]), parsed.similarity)
    else
      ChangedFile(parsed.kind, if |pathParts| > 0 then Some(pathParts[0]) else None, None, None)
  }

  /** A rename line `R<digits>\told\tnew` reads back as the new path, the old path and the digits' value. */
  lemma RenameLineRead(ds: string, oldPath: string, newPath: string)
    requires ds != [] && AllDigits(ds)
    requires '\t' !in oldPath && '\t' !in newPath
    ensures ParseLine("R" + ds + "\t" + oldPath + "\t" + newPath)
      == ChangedFile(Renamed, Some(newPath), Some(oldPath), Some(DigitsValue(ds)))
  {
    var status := "R" + ds;
    assert '\t' !in status by {
      assert forall i :: 1 <= i < |status| ==> status[i] == ds[i - 1];
    }
    var line := "R" + ds + "\t" + oldPath + "\t" + newPath;
    assert line == status + ['\t'] + (oldPath + ['\t'] + newPath);
    SplitAfterPrefix(status, '\t', oldPath + ['\t'] + newPath);
    SplitAfterPrefix(oldPath, '\t', newPath);
    SplitWithoutSep(newPath, '\t');
    Utils.ParseLetterWithScore('R', ds);
  }

  /** A rename line as git prints it, the score zero-padded to three digits (`R086`), gives that score. */
  lemma GitRenameLineRead(score: nat, oldPath: string, newPath: string)
    requires '\t' !in oldPath && '\t' !in newPath
    ensures ParseLine("R" + ZeroPadded(score, 3) + "\t" + oldPath + "\t" + newPath)
      == ChangedFile(Renamed, Some(newPath), Some(oldPath), Some(score))
  {
    ZeroPaddedRoundTrip(score, 3);
    RenameLineRead(ZeroPadded(score, 3), oldPath, newPath);
  }

  /**
   * A line with one tab gives its path whatever the status, and only a rename with two paths
   * keeps an old path.
   */
  lemma PlainLineRead(status: string, path: string)
    requires '\t' !in status && '\t' !in path
    ensures ParseLine(status + "\t" + path) == ChangedFile(Utils.ParseGitStatus(status).kind, Some(path), None, None)
  {
    assert status + "\t" + path == status + ['\t'] + path;
    SplitAfterPrefix(status, '\t', path);
    SplitWithoutSep(path, '\t');
  }

  /** A copy line `C<digits>\tsource\tcopy` (git prints `C075`) is read as its source path, with no old path. */
  lemma CopyLineRead(ds: string, source: string, copy: string)
    requires ds != [] && AllDigits(ds)
    requires '\t' !in source && '\t' !in copy
    ensures ParseLine("C" + ds + "\t" + source + "\t" + copy)
      == ChangedFile(Copied, Some(source), None, None)
  {
    var status := "C" + ds;
    assert '\t' !in status by {
      assert forall i :: 1 <= i < |status| ==> status[i] == ds[i - 1];
    }
    var line := "C" + ds + "\t" + source + "\t" + copy;
    assert line == status + ['\t'] + (source + ['\t'] + copy);
    SplitAfterPrefix(status, '\t', source + ['\t'] + copy);
    SplitAfterPrefix(source, '\t', copy);
    SplitWithoutSep(copy, '\t');
    Utils.ParseLetterWithScore('C', ds);
  }

  /** The records of a whole output, one per non-empty line. */
  function ParseOutput(output: string): (r: seq<ChangedFile>)
    ensures |r| == |OutputLines(output)|
    ensures forall k :: 0 <= k < |r| ==> r[k] == ParseLine(OutputLines(output)[k])
  {
    var lines := OutputLines(output);
    seq(|lines|, k requires 0 <= k < |lines| => ParseLine(lines[k]))
  }

  // ---------------------------------------------------------------- paths

  /** `file.path.replace(/\t/g, '')`. */
  function Normalized(path: string): string { RemoveAll(path, '\t') }

  /** `parts.slice(0, -1)` of `path.split('/')`: every segment before the last `/`. */
  function Dirs(path: string): seq<string>
  {
    var parts := Split(path, '/');
    parts[..|parts| - 1]
  }

  /** The directory segments the builder walks: the non-empty ones. */
  function Segments(path: string): seq<string> { NonEmpty(Dirs(path)) }

  /** The path of the deepest folder of `path`. */
  function DirKey(path: string): string { Join(Segments(path), '/') }

  /** The folder paths `segs[0]`, `segs[0]/segs[1]`, ... for the first `k` segments. */
  function PrefixSet(segs: seq<string>, k: nat): set<string>
    requires k <= |segs|
  {
    if k == 0 then {} else PrefixSet(segs, k - 1) + {Join(segs[..k], '/')}
  }

  /** Every folder path on the way to `path`. */
  function Prefixes(path: string): set<string>
  {
    PrefixSet(Segments(path), |Segments(path)|)
  }

  /** Every folder path on the way to any of the files. */
  function FilePrefixes(files: seq<CommitFile>): set<string>
  {
    if files == [] then {} else FilePrefixes(files[..|files| - 1]) + Prefixes(Normalized(files[|files| - 1].path))
  }

  /** No file path is also the path of a folder: the case in which no file is lost. */
  predicate CollisionFree(files: seq<CommitFile>)
  {
    forall k :: 0 <= k < |files| ==> Normalized(files[k].path) !in FilePrefixes(files)
  }

  /** The directory segments hold no `/`, and there are some exactly when the path holds a `/`. */
  lemma DirsFacts(path: string)
    ensures forall m :: 0 <= m < |Dirs(path)| ==> '/' !in Dirs(path)[m]
    ensures Dirs(path) == [] <==> '/' !in path
  {
    SplitPartsFree(path, '/');
    SplitSingle(path, '/');
  }

  /** Joining segments that are non-empty gives a non-empty path. */
  lemma JoinNonEmpty(parts: seq<string>)
    requires |parts| >= 1 && parts[|parts| - 1] != ""
    ensures Join(parts, '/') != ""
  {
    JoinEndsWithLast(parts, '/');
  }

  /** Two `q/d` spellings of one path with `/`-free last segments agree on both parts. */
  lemma SameLastSegment(q1: string, d1: string, q2: string, d2: string)
    requires '/' !in d1 && '/' !in d2
    requires q1 + "/" + d1 == q2 + "/" + d2
    ensures q1 == q2 && d1 == d2
  {
    var s := q1 + "/" + d1;
    assert s == q1 + ['/'] + d1 == q2 + ['/'] + d2;
    LastPartAfterSep(q1, '/', d1);
    LastPartAfterSep(q2, '/', d2);
    assert q1 == s[..|q1|] == q2;
  }

  /** Taking more segments only adds folder paths. */
  lemma {:induction false} PrefixSetGrows(segs: seq<string>, k: nat, k2: nat)
    requires k <= k2 <= |segs|
    ensures PrefixSet(segs, k) <= PrefixSet(segs, k2)
    decreases k2
  {
    if k < k2 {
      PrefixSetGrows(segs, k, k2 - 1);
    }
  }

  // ---------------------------------------------------------------- the tree

  /**
   * A tree node: a `FolderNode(name, path)`, or the `FileNode` the builder constructs from
   * the normalised path, the status, the commit hash and the old path.
   */
  datatype TreeItem =
    | Folder(name: string, path: string)
    | Leaf(path: string, status: string, commitHash: string, oldPath: Option<string>)

  function LeafFor(file: CommitFile, commitHash: string): TreeItem
  {
    Leaf(Normalized(file.path), file.status, commitHash, file.oldPath)
  }

  /**
   * A folder is named by a non-empty segment and sits at the top (its path is its name) or at
   * some parent path plus `/name`; a file path holds no tab.
   */
  predicate Shaped(n: TreeItem)
  {
    match n
    case Folder(name, path) =>
      name != "" && '/' !in name &&
      (path == name || (|path| > |name| && path == path[..|path| - |name| - 1] + "/" + name))
    case Leaf(path, _, _, _) => '\t' !in path
  }

  /** The path of the folder a nested folder belongs in. */
  function ParentPath(n: TreeItem): string
    requires n.Folder? && |n.path| > |n.name|
  {
    n.path[..|n.path| - |n.name| - 1]
  }

  /** Only a folder has children, and a sub-folder sits one segment deeper. */
  predicate FolderFits(parent: TreeItem, child: TreeItem)
  {
    && parent.Folder?
    && (child.Folder? ==> child.path == parent.path + "/" + child.name)
  }

  /** A file sits in its deepest folder. */
  predicate LeafFits(parent: TreeItem, child: TreeItem)
  {
    child.Leaf? ==> Segments(child.path) != [] && DirKey(child.path) == parent.path
  }

  /** A folder holds sub-folders one segment deeper and the files whose deepest folder it is. */
  predicate ChildFits(parent: TreeItem, child: TreeItem)
  {
    FolderFits(parent, child) && LeafFits(parent, child)
  }

  /** The root map holds top-level folders and files with no `/`. */
  predicate AtTop(n: TreeItem)
  {
    && (n.Folder? ==> n.path == n.name)
    && (n.Leaf? ==> '/' !in n.path)
  }

  /** What `buildFileTree` returns: the nodes, their children arrays and `Array.from(root.values())`. */
  datatype Forest = Forest(nodes: seq<TreeItem>, kids: seq<seq<nat>>, top: seq<nat>)

  /** Every id names a node, and every child comes after its parent, so the tree is finite. */
  predicate WellFormed(f: Forest)
  {
    && |f.kids| == |f.nodes|
    && (forall j, m :: 0 <= j < |f.kids| && 0 <= m < |f.kids[j]| ==> j < f.kids[j][m] < |f.nodes|)
    && (forall m :: 0 <= m < |f.top| ==> f.top[m] < |f.nodes|)
  }

  /** The items in the children array of node `j`. */
  function ChildItems(f: Forest, j: nat): seq<TreeItem>
    requires WellFormed(f) && j < |f.nodes|
  {
    seq(|f.kids[j]|, m requires 0 <= m < |f.kids[j]| => f.nodes[f.kids[j][m]])
  }

  /** The items of the returned array. */
  function TopItems(f: Forest): seq<TreeItem>
    requires WellFormed(f)
  {
    seq(|f.top|, m requires 0 <= m < |f.top| => f.nodes[f.top[m]])
  }

  /** `Array.from(map.values())` for a map whose keys, in insertion order, are `keys`. */
  function MapValues(keys: seq<string>, m: map<string, nat>): (r: seq<nat>)
    requires forall i :: 0 <= i < |keys| ==> keys[i] in m
    ensures |r| == |keys| && forall i :: 0 <= i < |keys| ==> r[i] == m[keys[i]]
  {
    seq(|keys|, i requires 0 <= i < |keys| => m[keys[i]])
  }

  // ---------------------------------------------------------------- the builder state

  /**
   * The locals of `buildFileTree`: the node arena with its children arrays, `folderChildren`
   * (a folder path and the node whose children array is registered for it) and `root` (its
   * keys in insertion order, and its entries).
   */
  datatype Builder = Builder(
    nodes: seq<TreeItem>,
    kids: seq<seq<nat>>,
    folders: map<string, nat>,
    keys: seq<string>,
    root: map<string, nat>)

  const EmptyBuilder: Builder := Builder([], [], map[], [], map[])

  /** Children ids come after their parent, which is a folder. */
  ghost predicate KidsOk(nodes: seq<TreeItem>, kids: seq<seq<nat>>)
  {
    && |kids| == |nodes|
    && (forall j, m :: 0 <= j < |kids| && 0 <= m < |kids[j]| ==>
          j < kids[j][m] < |nodes| && FolderFits(nodes[j], nodes[kids[j][m]]))
  }

  /** Every file child sits in its deepest folder (kept apart from `Ok` to keep proofs small). */
  ghost predicate LeavesFit(nodes: seq<TreeItem>, kids: seq<seq<nat>>)
  {
    forall j, m :: 0 <= j < |kids| && j < |nodes| && 0 <= m < |kids[j]| && kids[j][m] < |nodes| ==>
      LeafFits(nodes[j], nodes[kids[j][m]])
  }

  /**
   * Every node id sits in at most one place of all the children arrays together: a node is
   * pushed once, into one parent.
   */
  ghost predicate KidsOnce(kids: seq<seq<nat>>)
  {
    forall j, m, j', m' ::
      0 <= j < |kids| && 0 <= m < |kids[j]| && 0 <= j' < |kids| && 0 <= m' < |kids[j']| && kids[j][m] == kids[j'][m'] ==>
      j == j' && m == m'
  }

  /** The children arrays' facts the builder's steps carry along besides `Ok`. */
  ghost predicate Linked(nodes: seq<TreeItem>, kids: seq<seq<nat>>)
  {
    LeavesFit(nodes, kids) && KidsOnce(kids)
  }

  /** A new, empty children array holds no id. */
  lemma AppendOnce(kids: seq<seq<nat>>)
    requires KidsOnce(kids)
    ensures KidsOnce(kids + [[]])
  {
    var kids' := kids + [[]];
    forall j, m, j', m' |
      0 <= j < |kids'| && 0 <= m < |kids'[j]| && 0 <= j' < |kids'| && 0 <= m' < |kids'[j']| && kids'[j][m] == kids'[j'][m']
      ensures j == j' && m == m'
    {
      assert kids'[j] == kids[j] && kids'[j'] == kids[j'];
    }
  }

  /**
   * A new node `n` (every id so far is below it) gets an empty children array and is pushed
   * into the array of node `t`: it sits in exactly that one place.
   */
  lemma AppendPushOnce(kids: seq<seq<nat>>, n: nat, t: nat)
    requires KidsOnce(kids) && t <= |kids| == n
    requires forall j, m :: 0 <= j < |kids| && 0 <= m < |kids[j]| ==> kids[j][m] < n
    ensures KidsOnce((kids + [[]])[t := (kids + [[]])[t] + [n]])
  {
    var k0 := kids + [[]];
    AppendOnce(kids);
    var kids' := k0[t := k0[t] + [n]];
    forall j, m, j', m' |
      0 <= j < |kids'| && 0 <= m < |kids'[j]| && 0 <= j' < |kids'| && 0 <= m' < |kids'[j']| && kids'[j][m] == kids'[j'][m']
      ensures j == j' && m == m'
    {
      if j != t || m < |k0[t]| {
        assert kids'[j][m] == k0[j][m];
      }
      if j' != t || m' < |k0[t]| {
        assert kids'[j'][m'] == k0[j'][m'];
      }
    }
  }

  ghost predicate AllShaped(nodes: seq<TreeItem>)
  {
    forall j :: 0 <= j < |nodes| ==> Shaped(nodes[j])
  }

  /** `folderChildren` maps a path to a folder node with that path. */
  ghost predicate FoldersOk(nodes: seq<TreeItem>, folders: map<string, nat>)
  {
    forall p :: p in folders ==> folders[p] < |nodes| && nodes[folders[p]].Folder? && nodes[folders[p]].path == p
  }

  /** The root map: keys once each, in order, each mapped to a top-level node with that path. */
  ghost predicate RootOk(nodes: seq<TreeItem>, keys: seq<string>, root: map<string, nat>)
  {
    && Distinct(keys)
    && (forall k :: k in root <==> k in keys)
    && (forall k :: k in root ==> root[k] < |nodes| && nodes[root[k]].path == k && AtTop(nodes[root[k]]))
  }

  ghost predicate Ok(b: Builder)
  {
    KidsOk(b.nodes, b.kids) && AllShaped(b.nodes) && FoldersOk(b.nodes, b.folders) && RootOk(b.nodes, b.keys, b.root)
  }

  /** A folder `p` is in the root map when it is top-level, else in its parent's children. */
  ghost predicate Placed(b: Builder, p: string)
    requires Ok(b) && p in b.folders
  {
    var f := b.folders[p];
    var n := b.nodes[f];
    if n.path == n.name then p in b.root && b.root[p] == f
    else ParentPath(n) in b.folders && f in b.kids[b.folders[ParentPath(n)]]
  }

  /** One folder node per registered path: every folder is the one registered for its path. */
  ghost predicate FoldersUnique(nodes: seq<TreeItem>, folders: map<string, nat>)
  {
    forall j :: 0 <= j < |nodes| && nodes[j].Folder? ==> nodes[j].path in folders && folders[nodes[j].path] == j
  }

  /** No file sits at a folder path. */
  ghost predicate LeavesOutside(nodes: seq<TreeItem>, prefixes: set<string>)
  {
    forall j :: 0 <= j < |nodes| && nodes[j].Leaf? ==> nodes[j].path !in prefixes
  }

  /** Every registered folder is a folder path, placed in the tree. */
  ghost predicate AllPlaced(b: Builder, prefixes: set<string>)
    requires Ok(b)
  {
    forall p :: p in b.folders ==> p in prefixes && Placed(b, p)
  }

  /** The shape kept while no file path is a folder path. */
  ghost predicate Tidy(b: Builder, prefixes: set<string>)
    requires Ok(b)
  {
    FoldersUnique(b.nodes, b.folders) && LeavesOutside(b.nodes, prefixes) && AllPlaced(b, prefixes)
  }

  /** Nodes are only appended, children arrays only pushed to, and folder paths only added. */
  ghost predicate Grows(b: Builder, b': Builder)
  {
    && |b.nodes| <= |b'.nodes|
    && (forall j :: 0 <= j < |b.nodes| ==> b'.nodes[j] == b.nodes[j])
    && |b.kids| <= |b'.kids|
    && (forall j :: 0 <= j < |b.kids| ==> |b.kids[j]| <= |b'.kids[j]| && b'.kids[j][..|b.kids[j]|] == b.kids[j])
    && (forall p :: p in b.folders ==> p in b'.folders)
  }

  lemma GrowsRefl(b: Builder)
    ensures Grows(b, b)
  {
    forall j | 0 <= j < |b.kids| ensures b.kids[j][..|b.kids[j]|] == b.kids[j] {
    }
  }

  lemma GrowsTrans(b1: Builder, b2: Builder, b3: Builder)
    requires Grows(b1, b2) && Grows(b2, b3)
    ensures Grows(b1, b3)
  {
    forall j | 0 <= j < |b1.kids| ensures |b1.kids[j]| <= |b3.kids[j]| && b3.kids[j][..|b1.kids[j]|] == b1.kids[j] {
      assert b3.kids[j][..|b1.kids[j]|] == b3.kids[j][..|b2.kids[j]|][..|b1.kids[j]|];
    }
  }

  /** A child array that only grew still holds what it held. */
  lemma StillIn(list: seq<nat>, list': seq<nat>, f: nat)
    requires f in list && |list| <= |list'| && list'[..|list|] == list
    ensures f in list'
  {
    var m :| 0 <= m < |list| && list[m] == f;
    assert list'[m] == f;
  }

  /**
   * What a step keeps of the tidy shape when it only grows the arena, re-points no folder path
   * and moves no registered folder out of the root map.
   */
  lemma TidyGrows(b: Builder, b': Builder, prefixes: set<string>)
    requires Ok(b) && Ok(b') && AllPlaced(b, prefixes) && Grows(b, b')
    requires forall p :: p in b.folders ==> b'.folders[p] == b.folders[p]
    requires forall k :: k in b.root && k in b.folders ==> k in b'.root && b'.root[k] == b.root[k]
    ensures forall p :: p in b.folders ==> p in prefixes && Placed(b', p)
  {
    forall p | p in b.folders ensures Placed(b', p) {
      assert Placed(b, p);
      var f := b.folders[p];
      var n := b.nodes[f];
      assert b'.nodes[f] == n;
      if n.path != n.name {
        var t := b.folders[ParentPath(n)];
        StillIn(b.kids[t], b'.kids[t], f);
      }
    }
  }

  /** The result: the arena, and `Array.from(root.values())`. */
  function Result(b: Builder): (f: Forest)
    requires Ok(b)
    ensures WellFormed(f)
  {
    Forest(b.nodes, b.kids, MapValues(b.keys, b.root))
  }

  /** `folderChildren.get(q) || []`. */
  function FolderKids(b: Builder, q: string): seq<nat>
    requires Ok(b)
  {
    if q in b.folders then b.kids[b.folders[q]] else []
  }

  /** `map.get(key)` on `new Map(children.map(child => [child.path, child]))`: the last match. */
  function LastWithPath(nodes: seq<TreeItem>, list: seq<nat>, key: string): (r: Option<nat>)
    requires forall m :: 0 <= m < |list| ==> list[m] < |nodes|
    ensures r.Some? ==> r.value in list && nodes[r.value].path == key
    ensures r.Some? ==>
      exists m :: 0 <= m < |list| && list[m] == r.value && (forall m' :: m < m' < |list| ==> nodes[list[m']].path != key)
    ensures r.None? ==> forall m :: 0 <= m < |list| ==> nodes[list[m]].path != key
  {
    if list == [] then None
    else if nodes[list[|list| - 1]].path == key then Some(list[|list| - 1])
    else LastWithPath(nodes, list[..|list| - 1], key)
  }

  /** `parentMap.get(key)`: the root map itself (`None`), or a snapshot of a folder's children. */
  function Lookup(b: Builder, parentMap: Option<seq<nat>>, key: string): (r: Option<nat>)
    requires Ok(b)
    requires parentMap.Some? ==> forall m :: 0 <= m < |parentMap.value| ==> parentMap.value[m] < |b.nodes|
    ensures r.Some? ==> r.value < |b.nodes| && b.nodes[r.value].path == key
    ensures parentMap.None? ==> r == if key in b.root then Some(b.root[key]) else None
    ensures parentMap.Some? && r.None? ==>
      forall m :: 0 <= m < |parentMap.value| ==> b.nodes[parentMap.value[m]].path != key
  {
    match parentMap
    case None => if key in b.root then Some(b.root[key]) else None
    case Some(list) => LastWithPath(b.nodes, list, key)
  }

  /** Without collisions, a top-level folder path is in the root map exactly when it is registered. */
  lemma RootLookupTidy(b: Builder, prefixes: set<string>, key: string)
    requires Ok(b) && Tidy(b, prefixes)
    requires key in prefixes && key != "" && '/' !in key
    ensures Lookup(b, None, key) == if key in b.folders then Some(b.folders[key]) else None
  {
    if key in b.root {
      assert b.nodes[b.root[key]].Folder?;
    }
  }

  /**
   * Without collisions, a folder path one segment below a registered folder is among that
   * folder's children exactly when it is registered.
   */
  lemma ChildLookupTidy(b: Builder, prefixes: set<string>, q: string, d: string)
    requires Ok(b) && Tidy(b, prefixes)
    requires q in b.folders && d != "" && '/' !in d && q + "/" + d in prefixes
    ensures var key := q + "/" + d;
      LastWithPath(b.nodes, b.kids[b.folders[q]], key) == if key in b.folders then Some(b.folders[key]) else None
  {
    var key := q + "/" + d;
    var list := b.kids[b.folders[q]];
    var r := LastWithPath(b.nodes, list, key);
    if r.Some? {
      assert b.nodes[r.value].Folder?;
    } else if key in b.folders {
      var n := b.nodes[b.folders[key]];
      assert Placed(b, key);
      if n.path != n.name {
        SameLastSegment(ParentPath(n), n.name, q, d);
      }
    }
  }

  // ---------------------------------------------------------------- builder steps

  /** `root.set(key, id)`: a new key goes to the end of the order, a known one keeps its place. */
  function SetRoot(b: Builder, key: string, id: nat): Builder
  {
    b.(root := b.root[key := id], keys := if key in b.root then b.keys else b.keys + [key])
  }

  /** A node with an empty children array at the end of the arena. */
  function Append(b: Builder, item: TreeItem): Builder
  {
    b.(nodes := b.nodes + [item], kids := b.kids + [[]])
  }

  /**
   * A new `FolderNode(dirName, path)`: its children array registered in `folderChildren`,
   * the folder set in the root map when it is top-level, else pushed into the children
   * registered for `parentPath`, if any.
   */
  function NewFolder(b: Builder, dirName: string, path: string, parentPath: Option<string>): Builder
    requires Ok(b)
  {
    var node := |b.nodes|;
    var b1 := Append(b, Folder(dirName, path)).(folders := b.folders[path := node]);
    if parentPath.None? then SetRoot(b1, path, node)
    else if parentPath.value in b1.folders then
      var t := b1.folders[parentPath.value];
      b1.(kids := b1.kids[t := b1.kids[t] + [node]])
    else b1
  }

  /** The file node of a nested file, pushed into the children registered for `dirPath`, if any. */
  function AddLeaf(b: Builder, item: TreeItem, dirPath: string): Builder
    requires Ok(b)
  {
    if dirPath in b.folders then
      var t := b.folders[dirPath];
      var b1 := Append(b, item);
      b1.(kids := b1.kids[t := b1.kids[t] + [|b.nodes|]])
    else b
  }

  /** A file with no `/`: `root.set(normalizedPath, fileNode)`. */
  function RootFile(b: Builder, item: TreeItem): Builder
  {
    SetRoot(Append(b, item), item.path, |b.nodes|)
  }

  lemma AppendOk(b: Builder, item: TreeItem)
    requires Ok(b) && Shaped(item)
    ensures Ok(Append(b, item)) && Grows(b, Append(b, item))
  {
    var b' := Append(b, item);
    forall j, m | 0 <= j < |b'.kids| && 0 <= m < |b'.kids[j]|
      ensures j < b'.kids[j][m] < |b'.nodes| && FolderFits(b'.nodes[j], b'.nodes[b'.kids[j][m]])
    {
      assert b'.kids[j] == b.kids[j];
    }
    forall j | 0 <= j < |b.kids| ensures b'.kids[j][..|b.kids[j]|] == b.kids[j] {
      assert b'.kids[j] == b.kids[j];
    }
  }

  /** Pushing a later node that fits into a node's children keeps the arrays valid. */
  lemma PushOk(b: Builder, t: nat, c: nat)
    requires Ok(b) && t < c < |b.nodes| && FolderFits(b.nodes[t], b.nodes[c])
    ensures var b' := b.(kids := b.kids[t := b.kids[t] + [c]]); Ok(b') && Grows(b, b')
  {
    var kids' := b.kids[t := b.kids[t] + [c]];
    forall j, m | 0 <= j < |kids'| && 0 <= m < |kids'[j]|
      ensures j < kids'[j][m] < |b.nodes| && FolderFits(b.nodes[j], b.nodes[kids'[j][m]])
    {
      if j == t && m == |b.kids[t]| {
        assert kids'[j][m] == c;
      } else {
        assert kids'[j][m] == b.kids[j][m];
      }
    }
    assert kids'[t][..|b.kids[t]|] == b.kids[t];
  }

  lemma SetRootOk(b: Builder, key: string, id: nat)
    requires Ok(b) && id < |b.nodes| && b.nodes[id].path == key && AtTop(b.nodes[id])
    ensures Ok(SetRoot(b, key, id)) && Grows(b, SetRoot(b, key, id))
  {
  }

  /** A folder one non-empty, `/`-free segment below `parentPath` (or at the top) keeps the builder valid. */
  lemma NewFolderOk(b: Builder, dirName: string, path: string, parentPath: Option<string>)
    requires Ok(b)
    requires dirName != "" && '/' !in dirName
    requires parentPath.None? ==> path == dirName
    requires parentPath.Some? ==> path == parentPath.value + "/" + dirName
    ensures Ok(NewFolder(b, dirName, path, parentPath)) && Grows(b, NewFolder(b, dirName, path, parentPath))
  {
    var node := |b.nodes|;
    var item := Folder(dirName, path);
    if parentPath.Some? {
      assert path[..|path| - |dirName| - 1] == parentPath.value;
    }
    AppendOk(b, item);
    var b0 := Append(b, item);
    var b1 := b0.(folders := b.folders[path := node]);
    assert Ok(b1) && Grows(b, b1);
    if parentPath.None? {
      SetRootOk(b1, path, node);
    } else if parentPath.value in b1.folders {
      var t := b1.folders[parentPath.value];
      PushOk(b1, t, node);
      GrowsTrans(b, b1, NewFolder(b, dirName, path, parentPath));
    }
  }

  /** Adding a folder at a registered-nowhere path, with no collisions, keeps the tidy shape. */
  lemma NewFolderTidy(b: Builder, prefixes: set<string>, dirName: string, path: string, parentPath: Option<string>)
    requires Ok(b) && Tidy(b, prefixes)
    requires dirName != "" && '/' !in dirName
    requires parentPath.None? ==> path == dirName && path !in b.root
    requires parentPath.Some? ==> path == parentPath.value + "/" + dirName && parentPath.value in b.folders
    requires path in prefixes && path !in b.folders
    ensures Ok(NewFolder(b, dirName, path, parentPath))
    ensures Tidy(NewFolder(b, dirName, path, parentPath), prefixes)
  {
    NewFolderOk(b, dirName, path, parentPath);
    var b' := NewFolder(b, dirName, path, parentPath);
    var node := |b.nodes|;
    assert b'.nodes == b.nodes + [Folder(dirName, path)];
    assert b'.folders == b.folders[path := node];
    UniqueAfterAppend(b.nodes, b.folders, Folder(dirName, path), b'.folders);
    LeavesAfterAppend(b.nodes, prefixes, Folder(dirName, path));
    NewFolderPlaced(b, prefixes, dirName, path, parentPath);
  }

  lemma NewFolderPlaced(b: Builder, prefixes: set<string>, dirName: string, path: string, parentPath: Option<string>)
    requires Ok(b) && AllPlaced(b, prefixes)
    requires dirName != "" && '/' !in dirName
    requires parentPath.None? ==> path == dirName && path !in b.root
    requires parentPath.Some? ==> path == parentPath.value + "/" + dirName && parentPath.value in b.folders
    requires path in prefixes && path !in b.folders
    requires Ok(NewFolder(b, dirName, path, parentPath)) && Grows(b, NewFolder(b, dirName, path, parentPath))
    ensures AllPlaced(NewFolder(b, dirName, path, parentPath), prefixes)
  {
    var b' := NewFolder(b, dirName, path, parentPath);
    assert b'.folders == b.folders[path := |b.nodes|];
    TidyGrows(b, b', prefixes);
    if parentPath.None? {
      TopFolderPlaced(b, dirName);
    } else {
      ChildFolderPlaced(b, dirName, path, parentPath.value);
    }
  }

  lemma TopFolderPlaced(b: Builder, dirName: string)
    requires Ok(b) && dirName != "" && '/' !in dirName && dirName !in b.root
    requires Ok(NewFolder(b, dirName, dirName, None))
    ensures dirName in NewFolder(b, dirName, dirName, None).folders
    ensures Placed(NewFolder(b, dirName, dirName, None), dirName)
  {
    var b' := NewFolder(b, dirName, dirName, None);
    assert b'.folders[dirName] == |b.nodes| && b'.nodes[|b.nodes|] == Folder(dirName, dirName);
    assert b'.root[dirName] == |b.nodes|;
  }

  lemma ChildFolderPlaced(b: Builder, dirName: string, path: string, q: string)
    requires Ok(b) && dirName != "" && '/' !in dirName && path == q + "/" + dirName && q in b.folders
    requires Ok(NewFolder(b, dirName, path, Some(q)))
    ensures path in NewFolder(b, dirName, path, Some(q)).folders
    ensures Placed(NewFolder(b, dirName, path, Some(q)), path)
  {
    var b' := NewFolder(b, dirName, path, Some(q));
    var node := |b.nodes|;
    assert b'.folders[path] == node && b'.nodes[node] == Folder(dirName, path);
    assert ParentPath(b'.nodes[node]) == q;
    assert q != path;
    assert b'.folders[q] == b.folders[q];
    assert b'.kids[b.folders[q]] == b.kids[b.folders[q]] + [node];
  }

  lemma UniqueAfterAppend(nodes: seq<TreeItem>, folders: map<string, nat>, item: TreeItem, folders': map<string, nat>)
    requires FoldersUnique(nodes, folders)
    requires item.Folder? ==> item.path !in folders && folders' == folders[item.path := |nodes|]
    requires item.Leaf? ==> folders' == folders
    ensures FoldersUnique(nodes + [item], folders')
  {
    var nodes' := nodes + [item];
    forall j | 0 <= j < |nodes'| && nodes'[j].Folder? ensures nodes'[j].path in folders' && folders'[nodes'[j].path] == j {
      if j < |nodes| {
        assert nodes'[j] == nodes[j];
      }
    }
  }

  lemma LeavesAfterAppend(nodes: seq<TreeItem>, prefixes: set<string>, item: TreeItem)
    requires LeavesOutside(nodes, prefixes)
    requires item.Leaf? ==> item.path !in prefixes
    ensures LeavesOutside(nodes + [item], prefixes)
  {
    var nodes' := nodes + [item];
    forall j | 0 <= j < |nodes'| && nodes'[j].Leaf? ensures nodes'[j].path !in prefixes {
      if j < |nodes| {
        assert nodes'[j] == nodes[j];
      }
    }
  }

  lemma AddLeafOk(b: Builder, item: TreeItem, dirPath: string)
    requires Ok(b) && item.Leaf? && Shaped(item)
    requires Segments(item.path) != [] && DirKey(item.path) == dirPath
    ensures Ok(AddLeaf(b, item, dirPath)) && Grows(b, AddLeaf(b, item, dirPath))
  {
    if dirPath in b.folders {
      AppendOk(b, item);
      var b1 := Append(b, item);
      PushOk(b1, b.folders[dirPath], |b.nodes|);
      GrowsTrans(b, b1, AddLeaf(b, item, dirPath));
    }
  }

  lemma AddLeafTidy(b: Builder, prefixes: set<string>, item: TreeItem, dirPath: string)
    requires Ok(b) && Tidy(b, prefixes) && item.Leaf? && Shaped(item) && item.path !in prefixes
    requires Segments(item.path) != [] && DirKey(item.path) == dirPath
    ensures Ok(AddLeaf(b, item, dirPath)) && Tidy(AddLeaf(b, item, dirPath), prefixes)
  {
    AddLeafOk(b, item, dirPath);
    if dirPath in b.folders {
      var b' := AddLeaf(b, item, dirPath);
      assert b'.folders == b.folders && b'.root == b.root && b'.nodes == b.nodes + [item];
      UniqueAfterAppend(b.nodes, b.folders, item, b'.folders);
      LeavesAfterAppend(b.nodes, prefixes, item);
      TidyGrows(b, b', prefixes);
      assert AllPlaced(b', prefixes);
    }
  }

  lemma RootFileOk(b: Builder, item: TreeItem)
    requires Ok(b) && item.Leaf? && Shaped(item) && '/' !in item.path
    ensures Ok(RootFile(b, item)) && Grows(b, RootFile(b, item))
  {
    AppendOk(b, item);
    SetRootOk(Append(b, item), item.path, |b.nodes|);
    GrowsTrans(b, Append(b, item), RootFile(b, item));
  }

  lemma RootFileTidy(b: Builder, prefixes: set<string>, item: TreeItem)
    requires Ok(b) && Tidy(b, prefixes) && item.Leaf? && Shaped(item) && '/' !in item.path && item.path !in prefixes
    ensures Ok(RootFile(b, item)) && Tidy(RootFile(b, item), prefixes)
  {
    RootFileOk(b, item);
    var b' := RootFile(b, item);
    assert b'.folders == b.folders && b'.nodes == b.nodes + [item];
    UniqueAfterAppend(b.nodes, b.folders, item, b'.folders);
    LeavesAfterAppend(b.nodes, prefixes, item);
    TidyGrows(b, b', prefixes);
    assert AllPlaced(b', prefixes);
  }

  // ---------------------------------------------------------------- adding one file

  /** Adding a file at `np` keeps the tidy shape: its folders are folder paths and it is none. */
  ghost predicate Clear(b: Builder, prefixes: set<string>, np: string)
  {
    Ok(b) && Tidy(b, prefixes) && Prefixes(np) <= prefixes && np !in prefixes
  }

  /** While one folder node stands for each path, a growing builder keeps every registered entry. */
  lemma EntriesKept(b: Builder, b': Builder)
    requires Ok(b) && Ok(b') && Grows(b, b') && FoldersUnique(b'.nodes, b'.folders)
    ensures forall p :: p in b.folders ==> b'.folders[p] == b.folders[p]
  {
    forall p | p in b.folders ensures b'.folders[p] == b.folders[p] {
      var j := b.folders[p];
      assert b'.nodes[j] == b.nodes[j];
    }
  }

  /**
   * One pass of the directory loop on the path side: an empty segment is skipped, any other
   * extends `currentPath` by one segment and adds one folder path.
   */
  lemma PathStep(segs: seq<string>, dirs: seq<string>, i: nat, done: seq<string>, currentPath: string)
    requires i < |dirs| && '/' !in dirs[i]
    requires segs == done + NonEmpty(dirs[i..])
    requires forall m :: 0 <= m < |done| ==> done[m] != "" && '/' !in done[m]
    requires currentPath == Join(done, '/')
    ensures dirs[i] == "" ==> segs == done + NonEmpty(dirs[i + 1..])
    ensures dirs[i] != "" ==>
      var path := if currentPath == "" then dirs[i] else currentPath + "/" + dirs[i];
      && segs == (done + [dirs[i]]) + NonEmpty(dirs[i + 1..])
      && (currentPath == "" <==> done == [])
      && path == Join(done + [dirs[i]], '/')
      && PrefixSet(segs, |done| + 1) == PrefixSet(segs, |done|) + {path}
      && PrefixSet(segs, |done| + 1) <= PrefixSet(segs, |segs|)
  {
    var d := dirs[i];
    SegmentStep(segs, dirs, i, done);
    if d != "" {
      JoinStep(done, d, currentPath);
      PrefixSetStep(segs, |done|);
      assert segs[..|done| + 1] == done + [d];
      PrefixSetGrows(segs, |done| + 1, |segs|);
    }
  }

  lemma SegmentStep(segs: seq<string>, dirs: seq<string>, i: nat, done: seq<string>)
    requires i < |dirs| && segs == done + NonEmpty(dirs[i..])
    ensures dirs[i] == "" ==> segs == done + NonEmpty(dirs[i + 1..])
    ensures dirs[i] != "" ==> segs == (done + [dirs[i]]) + NonEmpty(dirs[i + 1..])
  {
    assert dirs[i..] == [dirs[i]] + dirs[i + 1..];
    assert ([dirs[i]] + dirs[i + 1..])[1..] == dirs[i + 1..];
  }

  lemma JoinStep(done: seq<string>, d: string, currentPath: string)
    requires forall m :: 0 <= m < |done| ==> done[m] != ""
    requires currentPath == Join(done, '/')
    ensures currentPath == "" <==> done == []
    ensures Join(done + [d], '/') == if currentPath == "" then d else currentPath + "/" + d
  {
    if done != [] {
      JoinNonEmpty(done);
      JoinAppend(done, '/', d);
    } else {
      assert done + [d] == [d];
    }
  }

  lemma PrefixSetStep(segs: seq<string>, k: nat)
    requires k < |segs|
    ensures PrefixSet(segs, k + 1) == PrefixSet(segs, k) + {Join(segs[..k + 1], '/')}
  {
  }

  /** The case in which a pass of the directory loop keeps the tidy shape. */
  ghost predicate TidyCase(b: Builder, path: string, parentPath: Option<string>, prefixes: set<string>)
    requires Ok(b)
  {
    Tidy(b, prefixes) && path in prefixes && (parentPath.Some? ==> parentPath.value in b.folders)
  }

  /**
   * What one pass of the directory loop leaves: a valid builder that only grew, a node at
   * `path`, at most `path` newly registered, the root map's entries kept, only folders added,
   * and in the tidy case the tidy shape with `path` registered for `node`.
   */
  ghost predicate Entered(b: Builder, b': Builder, path: string, node: nat, tidy: bool, prefixes: set<string>)
  {
    && Ok(b') && Grows(b, b') && (Linked(b.nodes, b.kids) ==> Linked(b'.nodes, b'.kids))
    && node < |b'.nodes| && b'.nodes[node].path == path
    && (forall p :: p in b'.folders ==> p in b.folders || p == path)
    && (forall k :: k in b.root ==> k in b'.root && b'.root[k] == b.root[k])
    && (forall j :: |b.nodes| <= j < |b'.nodes| ==> b'.nodes[j].Folder?)
    && (tidy ==> Tidy(b', prefixes) && b'.folders.Keys == b.folders.Keys + {path} && path in b'.folders && b'.folders[path] == node)
  }

  /**
   * One pass of the loop over `directories`: `parentMap.get(currentPath)`, or, when that
   * misses, a new folder for `path` placed in the root map or under `parentPath`.
   */
  method Enter(b: Builder, dirName: string, path: string, parentMap: Option<seq<nat>>, parentPath: Option<string>, ghost prefixes: set<string>)
    returns (b': Builder, node: nat)
    requires Ok(b) && dirName != "" && '/' !in dirName
    requires parentMap.None? <==> parentPath.None?
    requires parentPath.None? ==> path == dirName
    requires parentPath.Some? ==> path == parentPath.value + "/" + dirName && parentMap.value == FolderKids(b, parentPath.value)
    ensures Entered(b, b', path, node, TidyCase(b, path, parentPath, prefixes), prefixes)
  {
    var found := Lookup(b, parentMap, path);
    if found.Some? {
      EnterHit(b, dirName, path, parentMap, parentPath, prefixes);
      return b, found.value;
    }
    EnterMiss(b, dirName, path, parentMap, parentPath, prefixes);
    b' := NewFolder(b, dirName, path, parentPath);
    node := |b.nodes|;
  }

  /** A hit changes nothing; in the tidy case the node found is the folder registered for the path. */
  lemma EnterHit(b: Builder, dirName: string, path: string, parentMap: Option<seq<nat>>, parentPath: Option<string>, prefixes: set<string>)
    requires Ok(b) && dirName != "" && '/' !in dirName
    requires parentMap.None? <==> parentPath.None?
    requires parentPath.None? ==> path == dirName
    requires parentPath.Some? ==> path == parentPath.value + "/" + dirName && parentMap.value == FolderKids(b, parentPath.value)
    requires Lookup(b, parentMap, path).Some?
    ensures Entered(b, b, path, Lookup(b, parentMap, path).value, TidyCase(b, path, parentPath, prefixes), prefixes)
  {
    var node := Lookup(b, parentMap, path).value;
    var tidy := TidyCase(b, path, parentPath, prefixes);
    if tidy {
      if parentPath.None? {
        RootLookupTidy(b, prefixes, path);
      } else {
        ChildLookupTidy(b, prefixes, parentPath.value, dirName);
      }
    }
    StayEntered(b, path, node, tidy, prefixes);
  }

  /** A folder found where it was looked for is entered without changing the builder. */
  lemma StayEntered(b: Builder, path: string, node: nat, tidy: bool, prefixes: set<string>)
    requires Ok(b) && node < |b.nodes| && b.nodes[node].path == path
    requires tidy ==> Tidy(b, prefixes) && path in b.folders && b.folders[path] == node
    ensures Entered(b, b, path, node, tidy, prefixes)
  {
    GrowsRefl(b);
  }

  /** A miss adds one folder; in the tidy case the path was registered nowhere, so the shape holds. */
  lemma EnterMiss(b: Builder, dirName: string, path: string, parentMap: Option<seq<nat>>, parentPath: Option<string>, prefixes: set<string>)
    requires Ok(b) && dirName != "" && '/' !in dirName
    requires parentMap.None? <==> parentPath.None?
    requires parentPath.None? ==> path == dirName
    requires parentPath.Some? ==> path == parentPath.value + "/" + dirName && parentMap.value == FolderKids(b, parentPath.value)
    requires Lookup(b, parentMap, path).None?
    ensures Entered(b, NewFolder(b, dirName, path, parentPath), path, |b.nodes|, TidyCase(b, path, parentPath, prefixes), prefixes)
  {
    NewFolderOk(b, dirName, path, parentPath);
    NewFolderShape(b, dirName, path, parentPath);
    if Linked(b.nodes, b.kids) {
      NewFolderLinked(b, dirName, path, parentPath);
    }
    if TidyCase(b, path, parentPath, prefixes) {
      MissedTidy(b, dirName, path, parentMap, parentPath, prefixes);
    }
  }

  /**
   * A new folder adds no file child, so every file child still sits in its deepest folder; and
   * the folder is pushed only here, where it is created, so it has one place.
   */
  lemma NewFolderLinked(b: Builder, dirName: string, path: string, parentPath: Option<string>)
    requires Ok(b) && Linked(b.nodes, b.kids)
    ensures Linked(NewFolder(b, dirName, path, parentPath).nodes, NewFolder(b, dirName, path, parentPath).kids)
  {
    var b' := NewFolder(b, dirName, path, parentPath);
    var b1 := Append(b, Folder(dirName, path)).(folders := b.folders[path := |b.nodes|]);
    if parentPath.Some? && parentPath.value in b1.folders {
      AppendPushOnce(b.kids, |b.nodes|, b1.folders[parentPath.value]);
    } else {
      AppendOnce(b.kids);
    }
    assert b'.nodes == b.nodes + [Folder(dirName, path)];
    forall j, m | 0 <= j < |b'.kids| && j < |b'.nodes| && 0 <= m < |b'.kids[j]| && b'.kids[j][m] < |b'.nodes|
      ensures LeafFits(b'.nodes[j], b'.nodes[b'.kids[j][m]])
    {
      if j < |b.kids| && m < |b.kids[j]| {
        assert b'.kids[j][m] == b.kids[j][m];
      } else {
        assert b'.kids[j][m] == |b.nodes|;
      }
    }
  }

  /** What a new folder changes: one node, one registered path, and no existing root entry. */
  lemma NewFolderShape(b: Builder, dirName: string, path: string, parentPath: Option<string>)
    requires Ok(b)
    requires parentPath.None? ==> path !in b.root
    ensures var b' := NewFolder(b, dirName, path, parentPath);
      && |b.nodes| < |b'.nodes| && b'.nodes[|b.nodes|].path == path
      && (forall p :: p in b'.folders ==> p in b.folders || p == path)
      && (forall k :: k in b.root ==> k in b'.root && b'.root[k] == b.root[k])
      && (forall j :: |b.nodes| <= j < |b'.nodes| ==> b'.nodes[j].Folder?)
      && b'.folders.Keys == b.folders.Keys + {path} && path in b'.folders && b'.folders[path] == |b.nodes|
  {
    var b' := NewFolder(b, dirName, path, parentPath);
    assert b'.nodes == b.nodes + [Folder(dirName, path)];
    assert b'.folders == b.folders[path := |b.nodes|];
  }

  /** A miss in the tidy case: the path is registered nowhere, so the new folder keeps the shape. */
  lemma MissedTidy(b: Builder, dirName: string, path: string, parentMap: Option<seq<nat>>, parentPath: Option<string>, prefixes: set<string>)
    requires Ok(b) && dirName != "" && '/' !in dirName
    requires parentMap.None? <==> parentPath.None?
    requires parentPath.None? ==> path == dirName
    requires parentPath.Some? ==> path == parentPath.value + "/" + dirName && parentMap.value == FolderKids(b, parentPath.value)
    requires Lookup(b, parentMap, path).None?
    requires Tidy(b, prefixes) && path in prefixes && (parentPath.Some? ==> parentPath.value in b.folders)
    ensures Ok(NewFolder(b, dirName, path, parentPath)) && Tidy(NewFolder(b, dirName, path, parentPath), prefixes)
  {
    if parentPath.None? {
      RootLookupTidy(b, prefixes, path);
    } else {
      ChildLookupTidy(b, prefixes, parentPath.value, dirName);
    }
    NewFolderTidy(b, prefixes, dirName, path, parentPath);
  }

  /**
   * The state of the loop over `directories` after `i` segments, `done` of them non-empty:
   * `currentPath` joins `done`, `currentNode` is the node for it and `parentMap` a snapshot of
   * its children; the builder only grew, by folders on the way, keeping the root map's
   * entries; in the tidy case the tidy shape holds and exactly the paths walked were added.
   */
  ghost predicate Walking(b: Builder, b': Builder, dirs: seq<string>, i: nat, done: seq<string>, currentPath: string,
                          currentNode: Option<nat>, parentMap: Option<seq<nat>>, tidy: bool, prefixes: set<string>)
    requires Ok(b)
  {
    WalkPath(dirs, i, done, currentPath) && WalkBuild(b, b', dirs, done, currentPath, currentNode, parentMap, tidy, prefixes)
  }

  /** The path side: `done` is the non-empty segments among the first `i`, and `currentPath` joins them. */
  ghost predicate WalkPath(dirs: seq<string>, i: nat, done: seq<string>, currentPath: string)
  {
    && i <= |dirs|
    && NonEmpty(dirs) == done + NonEmpty(dirs[i..])
    && (forall m :: 0 <= m < |done| ==> done[m] != "" && '/' !in done[m])
    && currentPath == Join(done, '/')
  }

  /** The builder side. */
  ghost predicate WalkBuild(b: Builder, b': Builder, dirs: seq<string>, done: seq<string>, currentPath: string,
                            currentNode: Option<nat>, parentMap: Option<seq<nat>>, tidy: bool, prefixes: set<string>)
    requires Ok(b)
  {
    && |done| <= |NonEmpty(dirs)|
    && WalkGrow(b, b', done)
    && WalkCursor(b', done, currentPath, currentNode, parentMap)
    && WalkTidy(b, b', dirs, done, currentPath, currentNode, tidy, prefixes)
  }

  /** The builder only grew, by folders, keeping the root map's entries, and not at all before the first segment. */
  ghost predicate WalkGrow(b: Builder, b': Builder, done: seq<string>)
  {
    && Ok(b') && Grows(b, b') && (Linked(b.nodes, b.kids) ==> Linked(b'.nodes, b'.kids))
    && (forall k :: k in b.root ==> k in b'.root && b'.root[k] == b.root[k])
    && (done == [] ==> b' == b)
    && (forall j :: |b.nodes| <= j < |b'.nodes| ==> b'.nodes[j].Folder?)
  }

  /** `currentNode` is a node at `currentPath` and `parentMap` a snapshot of its children, both unset at first. */
  ghost predicate WalkCursor(b': Builder, done: seq<string>, currentPath: string, currentNode: Option<nat>, parentMap: Option<seq<nat>>)
    requires Ok(b')
  {
    && (currentNode.None? <==> done == [])
    && (parentMap.None? <==> done == [])
    && (currentNode.Some? ==> currentNode.value < |b'.nodes| && b'.nodes[currentNode.value].path == currentPath)
    && (parentMap.Some? ==> parentMap.value == FolderKids(b', currentPath))
  }

  /** Only the paths walked are registered; in the tidy case exactly those, with the tidy shape kept. */
  ghost predicate WalkTidy(b: Builder, b': Builder, dirs: seq<string>, done: seq<string>, currentPath: string,
                           currentNode: Option<nat>, tidy: bool, prefixes: set<string>)
    requires Ok(b) && Ok(b') && |done| <= |NonEmpty(dirs)|
  {
    && (forall p :: p in b'.folders ==> p in b.folders || p in PrefixSet(NonEmpty(dirs), |done|))
    && (tidy ==> WalkShape(b, b', PrefixSet(NonEmpty(dirs), |done|), currentPath, currentNode, prefixes)
                 && PrefixSet(NonEmpty(dirs), |NonEmpty(dirs)|) <= prefixes)
  }

  /** The tidy case: the tidy shape, the `walked` paths added, and `currentNode` the folder for `currentPath`. */
  ghost predicate WalkShape(b: Builder, b': Builder, walked: set<string>, currentPath: string, currentNode: Option<nat>, prefixes: set<string>)
    requires Ok(b) && Ok(b')
  {
    && Tidy(b', prefixes)
    && b'.folders.Keys == b.folders.Keys + walked
    && (currentNode.Some? ==> currentPath in b'.folders && b'.folders[currentPath] == currentNode.value)
  }

  lemma WalkStart(b: Builder, dirs: seq<string>, tidy: bool, prefixes: set<string>)
    requires Ok(b)
    requires tidy ==> Tidy(b, prefixes) && PrefixSet(NonEmpty(dirs), |NonEmpty(dirs)|) <= prefixes
    ensures Walking(b, b, dirs, 0, [], "", None, None, tidy, prefixes)
  {
    assert dirs[0..] == dirs;
    WalkBuildStart(b, dirs, tidy, prefixes);
  }

  lemma WalkBuildStart(b: Builder, dirs: seq<string>, tidy: bool, prefixes: set<string>)
    requires Ok(b)
    requires tidy ==> Tidy(b, prefixes) && PrefixSet(NonEmpty(dirs), |NonEmpty(dirs)|) <= prefixes
    ensures WalkBuild(b, b, dirs, [], "", None, None, tidy, prefixes)
  {
    GrowsRefl(b);
    var none: seq<string> := [];
    assert PrefixSet(NonEmpty(dirs), |none|) == {};
  }

  lemma WalkSkip(b: Builder, b': Builder, dirs: seq<string>, i: nat, done: seq<string>, currentPath: string,
                 currentNode: Option<nat>, parentMap: Option<seq<nat>>, tidy: bool, prefixes: set<string>)
    requires Ok(b) && Walking(b, b', dirs, i, done, currentPath, currentNode, parentMap, tidy, prefixes)
    requires i < |dirs| && dirs[i] == ""
    ensures Walking(b, b', dirs, i + 1, done, currentPath, currentNode, parentMap, tidy, prefixes)
  {
    SegmentStep(NonEmpty(dirs), dirs, i, done);
  }

  /** Before entering a non-empty segment: the arguments `Enter` needs. */
  lemma WalkReady(b: Builder, b': Builder, dirs: seq<string>, i: nat, done: seq<string>, currentPath: string,
                  currentNode: Option<nat>, parentMap: Option<seq<nat>>, tidy: bool, prefixes: set<string>)
    requires Ok(b) && Walking(b, b', dirs, i, done, currentPath, currentNode, parentMap, tidy, prefixes)
    requires i < |dirs| && dirs[i] != ""
    ensures currentPath == "" <==> done == []
  {
    JoinStep(done, dirs[i], currentPath);
  }

  /** After entering a non-empty segment: the state one segment further down. */
  lemma WalkEnter(b: Builder, b0: Builder, b1: Builder, dirs: seq<string>, i: nat, done: seq<string>, currentPath: string,
                  currentNode: Option<nat>, parentMap: Option<seq<nat>>, tidy: bool, prefixes: set<string>,
                  path: string, parentPath: Option<string>, node: nat,
                  done': seq<string>, currentNode': Option<nat>, parentMap': Option<seq<nat>>)
    requires Ok(b) && Walking(b, b0, dirs, i, done, currentPath, currentNode, parentMap, tidy, prefixes)
    requires i < |dirs| && dirs[i] != "" && '/' !in dirs[i]
    requires path == if currentPath == "" then dirs[i] else currentPath + "/" + dirs[i]
    requires parentPath == if currentNode.None? then None else Some(currentPath)
    requires Ok(b0) && Entered(b0, b1, path, node, TidyCase(b0, path, parentPath, prefixes), prefixes)
    requires done' == done + [dirs[i]] && currentNode' == Some(node) && parentMap' == Some(FolderKids(b1, path))
    ensures Walking(b, b1, dirs, i + 1, done', path, currentNode', parentMap', tidy, prefixes)
  {
    var segs := NonEmpty(dirs);
    PathStep(segs, dirs, i, done, currentPath);
    WalkPathEnter(dirs, i, done, currentPath, path);
    WalkBuildEnter(b, b0, b1, dirs, done, currentPath, currentNode, parentMap, tidy, prefixes, dirs[i], path, parentPath, node);
  }

  lemma WalkPathEnter(dirs: seq<string>, i: nat, done: seq<string>, currentPath: string, path: string)
    requires WalkPath(dirs, i, done, currentPath)
    requires i < |dirs| && dirs[i] != "" && '/' !in dirs[i]
    requires path == if currentPath == "" then dirs[i] else currentPath + "/" + dirs[i]
    ensures WalkPath(dirs, i + 1, done + [dirs[i]], path)
  {
    PathStep(NonEmpty(dirs), dirs, i, done, currentPath);
  }

  lemma WalkBuildEnter(b: Builder, b0: Builder, b1: Builder, dirs: seq<string>, done: seq<string>, currentPath: string,
                       currentNode: Option<nat>, parentMap: Option<seq<nat>>, tidy: bool, prefixes: set<string>,
                       d: string, path: string, parentPath: Option<string>, node: nat)
    requires Ok(b) && WalkBuild(b, b0, dirs, done, currentPath, currentNode, parentMap, tidy, prefixes)
    requires |done| < |NonEmpty(dirs)|
    requires PrefixSet(NonEmpty(dirs), |done| + 1) == PrefixSet(NonEmpty(dirs), |done|) + {path}
    requires PrefixSet(NonEmpty(dirs), |done| + 1) <= PrefixSet(NonEmpty(dirs), |NonEmpty(dirs)|)
    requires parentPath == if currentNode.None? then None else Some(currentPath)
    requires Ok(b0) && Entered(b0, b1, path, node, TidyCase(b0, path, parentPath, prefixes), prefixes)
    ensures WalkBuild(b, b1, dirs, done + [d], path, Some(node), Some(FolderKids(b1, path)), tidy, prefixes)
  {
    WalkGrowEnter(b, b0, b1, done, d, path, node, TidyCase(b0, path, parentPath, prefixes), prefixes);
    WalkCursorEnter(b0, b1, done, d, path, node, TidyCase(b0, path, parentPath, prefixes), prefixes);
    WalkTidyEnter(b, b0, b1, dirs, done, currentPath, currentNode, tidy, prefixes, d, path, parentPath, node);
  }

  lemma WalkGrowEnter(b: Builder, b0: Builder, b1: Builder, done: seq<string>, d: string, path: string, node: nat, t: bool, prefixes: set<string>)
    requires WalkGrow(b, b0, done) && Entered(b0, b1, path, node, t, prefixes)
    ensures WalkGrow(b, b1, done + [d])
  {
    GrowsTrans(b, b0, b1);
  }

  lemma WalkCursorEnter(b0: Builder, b1: Builder, done: seq<string>, d: string, path: string, node: nat, t: bool, prefixes: set<string>)
    requires Entered(b0, b1, path, node, t, prefixes)
    ensures WalkCursor(b1, done + [d], path, Some(node), Some(FolderKids(b1, path)))
  {
  }

  lemma WalkTidyEnter(b: Builder, b0: Builder, b1: Builder, dirs: seq<string>, done: seq<string>, currentPath: string,
                      currentNode: Option<nat>, tidy: bool, prefixes: set<string>,
                      d: string, path: string, parentPath: Option<string>, node: nat)
    requires Ok(b) && Ok(b0) && |done| <= |NonEmpty(dirs)| && WalkTidy(b, b0, dirs, done, currentPath, currentNode, tidy, prefixes)
    requires |done| < |NonEmpty(dirs)|
    requires PrefixSet(NonEmpty(dirs), |done| + 1) == PrefixSet(NonEmpty(dirs), |done|) + {path}
    requires PrefixSet(NonEmpty(dirs), |done| + 1) <= PrefixSet(NonEmpty(dirs), |NonEmpty(dirs)|)
    requires parentPath == if currentNode.None? then None else Some(currentPath)
    requires Ok(b0) && Entered(b0, b1, path, node, TidyCase(b0, path, parentPath, prefixes), prefixes)
    ensures WalkTidy(b, b1, dirs, done + [d], path, Some(node), tidy, prefixes)
  {
    var all := PrefixSet(NonEmpty(dirs), |NonEmpty(dirs)|);
    var walked' := PrefixSet(NonEmpty(dirs), |done + [d]|);
    assert |done + [d]| == |done| + 1;
    assert Ok(b1);
    forall p | p in b1.folders ensures p in b.folders || p in walked' {
      assert p in b0.folders || p == path;
    }
    if tidy {
      assert path in all;
      ShapeEnter(b, b0, b1, PrefixSet(NonEmpty(dirs), |done|), walked',
                 currentPath, currentNode, prefixes, path, parentPath, node);
    }
  }

  lemma ShapeEnter(b: Builder, b0: Builder, b1: Builder, walked: set<string>, walked': set<string>, currentPath: string,
                   currentNode: Option<nat>, prefixes: set<string>, path: string, parentPath: Option<string>, node: nat)
    requires Ok(b) && Ok(b0) && WalkShape(b, b0, walked, currentPath, currentNode, prefixes) && path in prefixes && walked' == walked + {path}
    requires parentPath == if currentNode.None? then None else Some(currentPath)
    requires Entered(b0, b1, path, node, TidyCase(b0, path, parentPath, prefixes), prefixes)
    ensures WalkShape(b, b1, walked', path, Some(node), prefixes)
  {
    TidyCaseHolds(b, b0, walked, currentPath, currentNode, prefixes, path, parentPath);
    ShapeAfter(b, b0, b1, walked, walked', path, node, prefixes);
  }

  /** Along a tidy walk, entering the next folder is the tidy case of `Enter`. */
  lemma TidyCaseHolds(b: Builder, b0: Builder, walked: set<string>, currentPath: string, currentNode: Option<nat>,
                      prefixes: set<string>, path: string, parentPath: Option<string>)
    requires Ok(b) && Ok(b0) && WalkShape(b, b0, walked, currentPath, currentNode, prefixes) && path in prefixes
    requires parentPath == if currentNode.None? then None else Some(currentPath)
    ensures TidyCase(b0, path, parentPath, prefixes)
  {
  }

  lemma ShapeAfter(b: Builder, b0: Builder, b1: Builder, walked: set<string>, walked': set<string>, path: string, node: nat,
                   prefixes: set<string>)
    requires Ok(b) && Ok(b1)
    requires b0.folders.Keys == b.folders.Keys + walked && walked' == walked + {path}
    requires Tidy(b1, prefixes) && b1.folders.Keys == b0.folders.Keys + {path} && path in b1.folders && b1.folders[path] == node
    ensures WalkShape(b, b1, walked', path, Some(node), prefixes)
  {
  }

  /**
   * What the loop over `directories` leaves: a valid builder that only grew, by folders on the
   * way, keeping the root map's entries; `currentPath` joins the non-empty segments and
   * `currentNode` is a node at it, unset when there are none; only the walked paths are
   * registered, and in the tidy case exactly those, with `currentNode` the folder for
   * `currentPath` and the tidy shape kept.
   */
  ghost predicate Walked(b: Builder, b': Builder, dirs: seq<string>, currentPath: string, currentNode: Option<nat>, prefixes: set<string>)
    requires Ok(b)
  {
    var segs := NonEmpty(dirs);
    && Ok(b') && Grows(b, b') && (Linked(b.nodes, b.kids) ==> Linked(b'.nodes, b'.kids))
    && currentPath == Join(segs, '/')
    && (currentNode.None? <==> segs == [])
    && (currentNode.Some? ==> currentNode.value < |b'.nodes| && b'.nodes[currentNode.value].path == currentPath)
    && (forall p :: p in b'.folders ==> p in b.folders || p in PrefixSet(segs, |segs|))
    && (forall k :: k in b.root ==> k in b'.root && b'.root[k] == b.root[k])
    && (segs == [] ==> b' == b)
    && (forall j :: |b.nodes| <= j < |b'.nodes| ==> b'.nodes[j].Folder?)
    && (Tidy(b, prefixes) && PrefixSet(segs, |segs|) <= prefixes ==>
          && Tidy(b', prefixes)
          && b'.folders.Keys == b.folders.Keys + PrefixSet(segs, |segs|)
          && (currentNode.Some? ==> currentPath in b'.folders && b'.folders[currentPath] == currentNode.value))
  }

  /** After the last segment `done` is every non-empty segment, so the loop's state is its result. */
  lemma WalkEnd(b: Builder, b': Builder, dirs: seq<string>, done: seq<string>, currentPath: string,
                currentNode: Option<nat>, parentMap: Option<seq<nat>>, prefixes: set<string>)
    requires Ok(b)
    requires Walking(b, b', dirs, |dirs|, done, currentPath, currentNode, parentMap,
                     Tidy(b, prefixes) && PrefixSet(NonEmpty(dirs), |NonEmpty(dirs)|) <= prefixes, prefixes)
    ensures Walked(b, b', dirs, currentPath, currentNode, prefixes)
  {
    assert dirs[|dirs|..] == [];
    assert done == NonEmpty(dirs);
  }

  /**
   * The loop over `directories` (the segments before the last `/`): each non-empty segment
   * extends `currentPath` and enters or creates its folder.
   */
  method Walk(b: Builder, dirs: seq<string>, ghost prefixes: set<string>)
    returns (b': Builder, currentPath: string, currentNode: Option<nat>)
    requires Ok(b) && forall m :: 0 <= m < |dirs| ==> '/' !in dirs[m]
    ensures Walked(b, b', dirs, currentPath, currentNode, prefixes)
  {
    ghost var tidy := Tidy(b, prefixes) && PrefixSet(NonEmpty(dirs), |NonEmpty(dirs)|) <= prefixes;
    ghost var done: seq<string> := [];
    currentPath := "";
    currentNode := None;
    var parentMap: Option<seq<nat>> := None;
    b' := b;
    WalkStart(b, dirs, tidy, prefixes);
    for i := 0 to |dirs|
      invariant Walking(b, b', dirs, i, done, currentPath, currentNode, parentMap, tidy, prefixes)
    {
      b', currentPath, currentNode, parentMap, done :=
        WalkStep(b, b', dirs, i, done, currentPath, currentNode, parentMap, tidy, prefixes);
    }
    WalkEnd(b, b', dirs, done, currentPath, currentNode, parentMap, prefixes);
  }

  /** One turn of the loop over `directories`: an empty segment skipped, any other one entered. */
  method WalkStep(b: Builder, b': Builder, dirs: seq<string>, i: nat, ghost done: seq<string>, currentPath: string,
                  currentNode: Option<nat>, parentMap: Option<seq<nat>>, ghost tidy: bool, ghost prefixes: set<string>)
    returns (b'': Builder, currentPath': string, currentNode': Option<nat>, parentMap': Option<seq<nat>>, ghost done': seq<string>)
    requires Ok(b) && i < |dirs| && '/' !in dirs[i]
    requires Walking(b, b', dirs, i, done, currentPath, currentNode, parentMap, tidy, prefixes)
    ensures Walking(b, b'', dirs, i + 1, done', currentPath', currentNode', parentMap', tidy, prefixes)
  {
    var dirName := dirs[i];
    if dirName == "" {
      WalkSkip(b, b', dirs, i, done, currentPath, currentNode, parentMap, tidy, prefixes);
      return b', currentPath, currentNode, parentMap, done;
    }
    WalkReady(b, b', dirs, i, done, currentPath, currentNode, parentMap, tidy, prefixes);
    currentPath' := if currentPath == "" then dirName else currentPath + "/" + dirName;
    var parentPath := if currentNode.None? then None else Some(b'.nodes[currentNode.value].path);
    var node;
    b'', node := Enter(b', dirName, currentPath', parentMap, parentPath, prefixes);
    currentNode' := Some(node);
    parentMap' := Some(FolderKids(b'', currentPath'));
    done' := done + [dirs[i]];
    WalkEnter(b, b', b'', dirs, i, done, currentPath, currentNode, parentMap, tidy, prefixes, currentPath', parentPath, node,
              done', currentNode', parentMap');
  }

  /** The id of the last node, the one a file node gets when it is added. */
  function LastId(b: Builder): nat
  {
    if |b.nodes| == 0 then 0 else |b.nodes| - 1
  }

  /** The last entry of a children array: the one pushed most recently. */
  function LastOf(list: seq<nat>): Option<nat>
  {
    if list == [] then None else Some(list[|list| - 1])
  }

  /**
   * What adding one file leaves: a valid builder that only grew; a file with no `/` set in
   * the root map; otherwise the root map's entries kept, and nothing at all when there is no
   * non-empty directory segment; only the file's folder paths registered and only its own
   * file node added; and, when no folder path collides, the tidy shape with exactly the
   * file's folder paths added and its node the last child of its deepest folder.
   */
  ghost predicate Added(b: Builder, b': Builder, file: CommitFile, commitHash: string, prefixes: set<string>)
    requires Ok(b)
  {
    var np := Normalized(file.path);
    && Ok(b') && Grows(b, b') && (Linked(b.nodes, b.kids) ==> Linked(b'.nodes, b'.kids))
    && ('/' !in np ==> b' == RootFile(b, LeafFor(file, commitHash)))
    && ('/' in np ==> forall k :: k in b.root ==> k in b'.root && b'.root[k] == b.root[k])
    && ('/' in np && Segments(np) == [] ==> b' == b)
    && (forall p :: p in b'.folders ==> p in b.folders || p in Prefixes(np))
    && (forall j :: |b.nodes| <= j < |b'.nodes| && b'.nodes[j].Leaf? ==> b'.nodes[j] == LeafFor(file, commitHash))
    && (Clear(b, prefixes, np) ==>
          && Tidy(b', prefixes)
          && b'.folders.Keys == b.folders.Keys + Prefixes(np))
    && (Clear(b, prefixes, np) && Segments(np) != [] ==>
          && |b'.nodes| > |b.nodes| && b'.nodes[LastId(b')] == LeafFor(file, commitHash)
          && DirKey(np) in b'.folders && LastId(b') in b'.kids[b'.folders[DirKey(np)]]
          && LastOf(b'.kids[b'.folders[DirKey(np)]]) == Some(LastId(b')))
  }

  /**
   * `buildFileTree`'s loop body for one file: a file with no `/` set in the root map, else the
   * walk down its directories and the file node pushed into the deepest folder's children.
   */
  method AddFile(b: Builder, file: CommitFile, commitHash: string, ghost prefixes: set<string>) returns (b': Builder)
    requires Ok(b)
    ensures Added(b, b', file, commitHash, prefixes)
  {
    var np := Normalized(file.path);
    var item := LeafFor(file, commitHash);
    var dirs := Dirs(np);
    DirsFacts(np);
    if |dirs| == 0 {
      AddedRoot(b, file, commitHash, prefixes);
      return RootFile(b, item);
    }
    var bw, currentPath, currentNode := Walk(b, dirs, prefixes);
    if currentNode.Some? {
      var dirPath := bw.nodes[currentNode.value].path;
      AddedLeaf(b, bw, file, commitHash, currentPath, currentNode.value, prefixes);
      b' := AddLeaf(bw, item, dirPath);
    } else {
      AddedNothing(b, bw, file, commitHash, currentPath, prefixes);
      b' := bw;
    }
  }

  lemma AddedRoot(b: Builder, file: CommitFile, commitHash: string, prefixes: set<string>)
    requires Ok(b) && '/' !in Normalized(file.path)
    ensures Added(b, RootFile(b, LeafFor(file, commitHash)), file, commitHash, prefixes)
  {
    var np := Normalized(file.path);
    var item := LeafFor(file, commitHash);
    DirsFacts(np);
    RootFileOk(b, item);
    if Linked(b.nodes, b.kids) {
      RootFileLinked(b, item);
    }
    if Clear(b, prefixes, np) {
      RootFileTidy(b, prefixes, item);
    }
  }

  lemma AddedNothing(b: Builder, bw: Builder, file: CommitFile, commitHash: string, currentPath: string, prefixes: set<string>)
    requires Ok(b) && '/' in Normalized(file.path)
    requires Walked(b, bw, Dirs(Normalized(file.path)), currentPath, None, prefixes)
    ensures Added(b, bw, file, commitHash, prefixes)
  {
    GrowsRefl(b);
  }

  lemma AddedLeaf(b: Builder, bw: Builder, file: CommitFile, commitHash: string, currentPath: string, node: nat, prefixes: set<string>)
    requires Ok(b) && '/' in Normalized(file.path)
    requires Walked(b, bw, Dirs(Normalized(file.path)), currentPath, Some(node), prefixes)
    ensures Added(b, AddLeaf(bw, LeafFor(file, commitHash), bw.nodes[node].path), file, commitHash, prefixes)
  {
    var np := Normalized(file.path);
    assert Segments(np) == NonEmpty(Dirs(np)) && Segments(np) != [];
    assert DirKey(np) == currentPath == bw.nodes[node].path;
    assert Prefixes(np) == PrefixSet(Segments(np), |Segments(np)|);
    LeafAdded(b, bw, file, commitHash, currentPath, prefixes);
  }

  /** The walk's result with the file node pushed into the folder at `dirPath` is what `Added` asks. */
  lemma LeafAdded(b: Builder, bw: Builder, file: CommitFile, commitHash: string, dirPath: string, prefixes: set<string>)
    requires Ok(b) && Ok(bw) && Grows(b, bw) && (Linked(b.nodes, b.kids) ==> Linked(bw.nodes, bw.kids))
    requires '/' in Normalized(file.path) && Segments(Normalized(file.path)) != []
    requires DirKey(Normalized(file.path)) == dirPath
    requires forall p :: p in bw.folders ==> p in b.folders || p in Prefixes(Normalized(file.path))
    requires forall k :: k in b.root ==> k in bw.root && bw.root[k] == b.root[k]
    requires forall j :: |b.nodes| <= j < |bw.nodes| ==> bw.nodes[j].Folder?
    requires Clear(b, prefixes, Normalized(file.path)) ==>
      && Tidy(bw, prefixes)
      && bw.folders.Keys == b.folders.Keys + Prefixes(Normalized(file.path))
      && dirPath in bw.folders
    ensures Added(b, AddLeaf(bw, LeafFor(file, commitHash), dirPath), file, commitHash, prefixes)
  {
    var np := Normalized(file.path);
    var item := LeafFor(file, commitHash);
    var clear := Clear(b, prefixes, np);
    LeafStep(bw, item, dirPath, prefixes, clear);
    var b' := AddLeaf(bw, item, dirPath);
    LeafAddedFrame(b, bw, b', np, item);
    if clear {
      LeafAddedClear(b, bw, b', np, item, dirPath, prefixes);
    }
  }

  /** What pushing a file node keeps, whatever the folder paths. */
  lemma LeafAddedFrame(b: Builder, bw: Builder, b': Builder, np: string, item: TreeItem)
    requires Grows(b, bw) && Grows(bw, b')
    requires b'.folders == bw.folders && b'.root == bw.root
    requires forall p :: p in bw.folders ==> p in b.folders || p in Prefixes(np)
    requires forall k :: k in b.root ==> k in bw.root && bw.root[k] == b.root[k]
    requires forall j :: |b.nodes| <= j < |bw.nodes| ==> bw.nodes[j].Folder?
    requires forall j :: |bw.nodes| <= j < |b'.nodes| ==> b'.nodes[j] == item
    ensures Grows(b, b')
    ensures forall p :: p in b'.folders ==> p in b.folders || p in Prefixes(np)
    ensures forall k :: k in b.root ==> k in b'.root && b'.root[k] == b.root[k]
    ensures forall j :: |b.nodes| <= j < |b'.nodes| && b'.nodes[j].Leaf? ==> b'.nodes[j] == item
  {
    GrowsTrans(b, bw, b');
  }

  /** Without a colliding path the file node is the last node and a child of its deepest folder. */
  lemma LeafAddedClear(b: Builder, bw: Builder, b': Builder, np: string, item: TreeItem, dirPath: string, prefixes: set<string>)
    requires b'.folders == bw.folders && DirKey(np) == dirPath
    requires bw.folders.Keys == b.folders.Keys + Prefixes(np)
    requires |bw.nodes| >= |b.nodes| && |b'.nodes| == |bw.nodes| + 1 && b'.nodes[|bw.nodes|] == item
    requires dirPath in b'.folders && b'.folders[dirPath] < |b'.kids| && |bw.nodes| in b'.kids[b'.folders[dirPath]]
    requires LastOf(b'.kids[b'.folders[dirPath]]) == Some(|bw.nodes|)
    ensures b'.folders.Keys == b.folders.Keys + Prefixes(np)
    ensures |b'.nodes| > |b.nodes|
    ensures b'.nodes[LastId(b')] == item
    ensures DirKey(np) in b'.folders && LastId(b') in b'.kids[b'.folders[DirKey(np)]]
    ensures LastOf(b'.kids[b'.folders[DirKey(np)]]) == Some(LastId(b'))
  {
  }

  /** Pushing the file node into its deepest folder's children keeps every shape it must keep. */
  lemma LeafStep(b: Builder, item: TreeItem, dirPath: string, prefixes: set<string>, clear: bool)
    requires Ok(b) && item.Leaf? && '\t' !in item.path
    requires Segments(item.path) != [] && DirKey(item.path) == dirPath
    requires clear ==> Tidy(b, prefixes) && item.path !in prefixes && dirPath in b.folders
    ensures var b' := AddLeaf(b, item, dirPath);
      && Ok(b') && Grows(b, b') && (Linked(b.nodes, b.kids) ==> Linked(b'.nodes, b'.kids))
      && b'.folders == b.folders && b'.root == b.root
      && (forall j :: |b.nodes| <= j < |b'.nodes| ==> b'.nodes[j] == item)
      && (clear ==>
            && Tidy(b', prefixes) && |b'.nodes| == |b.nodes| + 1 && b'.nodes[|b.nodes|] == item
            && |b.nodes| in b'.kids[b'.folders[dirPath]]
            && LastOf(b'.kids[b'.folders[dirPath]]) == Some(|b.nodes|))
  {
    AddLeafOk(b, item, dirPath);
    if Linked(b.nodes, b.kids) {
      AddLeafLinked(b, item, dirPath);
    }
    if clear {
      AddLeafTidy(b, prefixes, item, dirPath);
    }
  }

  /** A pushed file node sits in its deepest folder, and in no other place. */
  lemma AddLeafLinked(b: Builder, item: TreeItem, dirPath: string)
    requires Ok(b) && Linked(b.nodes, b.kids) && item.Leaf?
    requires Segments(item.path) != [] && DirKey(item.path) == dirPath
    ensures Linked(AddLeaf(b, item, dirPath).nodes, AddLeaf(b, item, dirPath).kids)
  {
    if dirPath in b.folders {
      var b' := AddLeaf(b, item, dirPath);
      var t := b.folders[dirPath];
      AppendPushOnce(b.kids, |b.nodes|, t);
      assert b'.nodes == b.nodes + [item];
      forall j, m | 0 <= j < |b'.kids| && j < |b'.nodes| && 0 <= m < |b'.kids[j]| && b'.kids[j][m] < |b'.nodes|
        ensures LeafFits(b'.nodes[j], b'.nodes[b'.kids[j][m]])
      {
        if j < |b.kids| && m < |b.kids[j]| {
          assert b'.kids[j][m] == b.kids[j][m];
        } else {
          assert j == t && b'.kids[j][m] == |b.nodes|;
        }
      }
    }
  }

  /** A file at the top adds an empty children array and no child at all. */
  lemma RootFileLinked(b: Builder, item: TreeItem)
    requires Ok(b) && Linked(b.nodes, b.kids)
    ensures Linked(RootFile(b, item).nodes, RootFile(b, item).kids)
  {
    var b' := RootFile(b, item);
    AppendOnce(b.kids);
    forall j, m | 0 <= j < |b'.kids| && j < |b'.nodes| && 0 <= m < |b'.kids[j]| && b'.kids[j][m] < |b'.nodes|
      ensures LeafFits(b'.nodes[j], b'.nodes[b'.kids[j][m]])
    {
      assert j < |b.kids| && b'.kids[j] == b.kids[j];
      assert b'.nodes[j] == b.nodes[j] && b'.nodes[b'.kids[j][m]] == b.nodes[b.kids[j][m]];
    }
  }

  // ---------------------------------------------------------------- buildFileTree

  /** The normalised path of file `k`. */
  function PathOf(files: seq<CommitFile>, k: nat): string
    requires k < |files|
  {
    Normalized(files[k].path)
  }

  /** No file among the first `n` after file `k` has the same normalised path. */
  predicate LastAt(files: seq<CommitFile>, n: nat, k: nat)
    requires k < n <= |files|
  {
    forall k' :: k < k' < n ==> PathOf(files, k') != PathOf(files, k)
  }

  /** Every file node comes from one of the first `n` files. */
  ghost predicate LeavesFrom(nodes: seq<TreeItem>, files: seq<CommitFile>, n: nat, commitHash: string)
    requires n <= |files|
  {
    forall j :: 0 <= j < |nodes| && nodes[j].Leaf? ==> exists k :: 0 <= k < n && nodes[j] == LeafFor(files[k], commitHash)
  }

  /** Each file with no `/` that no later one overrides is in the root map, as node `leafOf[k]`. */
  ghost predicate RootFiles(b: Builder, files: seq<CommitFile>, n: nat, leafOf: seq<nat>, commitHash: string)
    requires n <= |files| && |leafOf| == n
  {
    forall k :: 0 <= k < n && '/' !in PathOf(files, k) && LastAt(files, n, k) ==>
      && PathOf(files, k) in b.root && b.root[PathOf(files, k)] == leafOf[k]
      && leafOf[k] < |b.nodes| && b.nodes[leafOf[k]] == LeafFor(files[k], commitHash)
  }

  /** Each file with a non-empty directory segment is node `leafOf[k]`, a child of its deepest folder. */
  ghost predicate NestedFiles(b: Builder, files: seq<CommitFile>, n: nat, leafOf: seq<nat>, commitHash: string)
    requires Ok(b) && n <= |files| && |leafOf| == n
  {
    forall k :: 0 <= k < n && Segments(PathOf(files, k)) != [] ==>
      && DirKey(PathOf(files, k)) in b.folders
      && leafOf[k] < |b.nodes| && b.nodes[leafOf[k]] == LeafFor(files[k], commitHash)
      && leafOf[k] in b.kids[b.folders[DirKey(PathOf(files, k))]]
  }

  /** The folder paths of a file are folder paths of the whole list. */
  lemma {:induction false} PrefixesIn(files: seq<CommitFile>, k: nat)
    requires k < |files|
    ensures Prefixes(PathOf(files, k)) <= FilePrefixes(files)
    decreases |files|
  {
    if k < |files| - 1 {
      PrefixesIn(files[..|files| - 1], k);
      assert files[..|files| - 1][k] == files[k];
    }
  }

  /** The folder paths of the first `i + 1` files: those of the first `i`, and file `i`'s. */
  lemma FilePrefixesStep(files: seq<CommitFile>, i: nat)
    requires i < |files|
    ensures FilePrefixes(files[..i + 1]) == FilePrefixes(files[..i]) + Prefixes(PathOf(files, i))
  {
    assert files[..i + 1][..i] == files[..i];
  }

  lemma LeavesFromStep(b: Builder, b': Builder, files: seq<CommitFile>, i: nat, commitHash: string, prefixes: set<string>)
    requires Ok(b) && i < |files| && LeavesFrom(b.nodes, files, i, commitHash)
    requires Added(b, b', files[i], commitHash, prefixes)
    ensures LeavesFrom(b'.nodes, files, i + 1, commitHash)
  {
    forall j | 0 <= j < |b'.nodes| && b'.nodes[j].Leaf?
      ensures exists k :: 0 <= k < i + 1 && b'.nodes[j] == LeafFor(files[k], commitHash)
    {
      if j < |b.nodes| {
        assert b'.nodes[j] == b.nodes[j];
        var k :| 0 <= k < i && b.nodes[j] == LeafFor(files[k], commitHash);
        assert 0 <= k < i + 1;
      } else {
        assert b'.nodes[j] == LeafFor(files[i], commitHash);
      }
    }
  }

  lemma RootFilesStep(b: Builder, b': Builder, files: seq<CommitFile>, i: nat, leafOf: seq<nat>, commitHash: string, prefixes: set<string>)
    requires Ok(b) && i < |files| && |leafOf| == i && RootFiles(b, files, i, leafOf, commitHash)
    requires Added(b, b', files[i], commitHash, prefixes)
    ensures RootFiles(b', files, i + 1, leafOf + [LastId(b')], commitHash)
  {
    var leafOf' := leafOf + [LastId(b')];
    forall k | 0 <= k < i + 1 && '/' !in PathOf(files, k) && LastAt(files, i + 1, k)
      ensures PathOf(files, k) in b'.root && b'.root[PathOf(files, k)] == leafOf'[k]
      ensures leafOf'[k] < |b'.nodes| && b'.nodes[leafOf'[k]] == LeafFor(files[k], commitHash)
    {
      if k < i {
        assert LastAt(files, i, k);
        assert PathOf(files, i) != PathOf(files, k);
        assert leafOf'[k] == leafOf[k];
        RootFileKept(b, b', PathOf(files, i), LeafFor(files[i], commitHash), PathOf(files, k), leafOf[k], LeafFor(files[k], commitHash));
      } else {
        RootFileNew(b, b', LeafFor(files[i], commitHash));
      }
    }
  }

  /** A root file recorded before a step keeps its entry when a file of another path is added. */
  lemma RootFileKept(b: Builder, b': Builder, np: string, item: TreeItem, path: string, id: nat, leaf: TreeItem)
    requires |b.nodes| <= |b'.nodes| && forall j :: 0 <= j < |b.nodes| ==> b'.nodes[j] == b.nodes[j]
    requires '/' !in np ==> b' == RootFile(b, item)
    requires '/' in np ==> forall k :: k in b.root ==> k in b'.root && b'.root[k] == b.root[k]
    requires item.path == np && path != np
    requires path in b.root && b.root[path] == id && id < |b.nodes| && b.nodes[id] == leaf
    ensures path in b'.root && b'.root[path] == id && id < |b'.nodes| && b'.nodes[id] == leaf
  {
  }

  /** A file added at the top is the last node, and the root entry for its path. */
  lemma RootFileNew(b: Builder, b': Builder, item: TreeItem)
    requires b' == RootFile(b, item)
    ensures item.path in b'.root && b'.root[item.path] == LastId(b')
    ensures LastId(b') < |b'.nodes| && b'.nodes[LastId(b')] == item
  {
  }

  lemma NestedFilesStep(b: Builder, b': Builder, files: seq<CommitFile>, i: nat, leafOf: seq<nat>, commitHash: string)
    requires Ok(b) && i < |files| && |leafOf| == i && NestedFiles(b, files, i, leafOf, commitHash)
    requires Ok(b') && Grows(b, b') && FoldersUnique(b'.nodes, b'.folders)
    requires Segments(PathOf(files, i)) != [] ==>
      var key := DirKey(PathOf(files, i));
      && |b'.nodes| > |b.nodes| && b'.nodes[LastId(b')] == LeafFor(files[i], commitHash)
      && key in b'.folders && LastId(b') in b'.kids[b'.folders[key]]
    ensures NestedFiles(b', files, i + 1, leafOf + [LastId(b')], commitHash)
  {
    var leafOf' := leafOf + [LastId(b')];
    EntriesKept(b, b');
    forall k | 0 <= k < i + 1 && Segments(PathOf(files, k)) != []
      ensures DirKey(PathOf(files, k)) in b'.folders
      ensures leafOf'[k] < |b'.nodes| && b'.nodes[leafOf'[k]] == LeafFor(files[k], commitHash)
      ensures leafOf'[k] in b'.kids[b'.folders[DirKey(PathOf(files, k))]]
    {
      if k < i {
        var t := b.folders[DirKey(PathOf(files, k))];
        assert leafOf'[k] == leafOf[k];
        assert b'.nodes[leafOf[k]] == b.nodes[leafOf[k]];
        StillIn(b.kids[t], b'.kids[t], leafOf[k]);
      }
    }
  }

  /** The state of `buildFileTree`'s loop after `i` files. */
  ghost predicate Building(b: Builder, files: seq<CommitFile>, i: nat, leafOf: seq<nat>, commitHash: string)
    requires i <= |files|
  {
    && |leafOf| == i && Ok(b) && Linked(b.nodes, b.kids)
    && LeavesFrom(b.nodes, files, i, commitHash)
    && RootFiles(b, files, i, leafOf, commitHash)
    && (CollisionFree(files) ==>
          && Tidy(b, FilePrefixes(files))
          && b.folders.Keys == FilePrefixes(files[..i])
          && NestedFiles(b, files, i, leafOf, commitHash))
  }

  lemma BuildingStart(files: seq<CommitFile>, commitHash: string)
    ensures Building(EmptyBuilder, files, 0, [], commitHash)
  {
    assert files[..0] == [];
  }

  lemma BuildingStep(b: Builder, b': Builder, files: seq<CommitFile>, i: nat, leafOf: seq<nat>, leafOf': seq<nat>, commitHash: string)
    requires i < |files| && Building(b, files, i, leafOf, commitHash)
    requires Added(b, b', files[i], commitHash, FilePrefixes(files))
    requires leafOf' == leafOf + [LastId(b')]
    ensures Building(b', files, i + 1, leafOf', commitHash)
  {
    var prefixes := FilePrefixes(files);
    LeavesFromStep(b, b', files, i, commitHash, prefixes);
    RootFilesStep(b, b', files, i, leafOf, commitHash, prefixes);
    if CollisionFree(files) {
      PrefixesIn(files, i);
      assert Clear(b, prefixes, PathOf(files, i));
      FilePrefixesStep(files, i);
      assert Tidy(b', prefixes);
      NestedFilesStep(b, b', files, i, leafOf, commitHash);
    }
  }

  /** A folder is in the returned array when it is top-level, else among its parent folder's children. */
  predicate FolderPlaced(f: Forest, folders: map<string, nat>, n: TreeItem)
    requires WellFormed(f)
  {
    && n.Folder? && Shaped(n)
    && (n.path == n.name ==> n in TopItems(f))
    && (n.path != n.name ==>
          ParentPath(n) in folders && folders[ParentPath(n)] < |f.nodes| && n in ChildItems(f, folders[ParentPath(n)]))
  }

  /** A key of the root map names a node of the returned array. */
  lemma InTop(b: Builder, key: string)
    requires Ok(b) && key in b.root
    ensures b.nodes[b.root[key]] in TopItems(Result(b))
  {
    var m :| 0 <= m < |b.keys| && b.keys[m] == key;
    assert TopItems(Result(b))[m] == b.nodes[b.root[key]];
  }

  /**
   * The shape of a built tree that holds for any files: sub-folders one segment deeper and
   * files in their deepest folder; every id in one children array at one place; top-level
   * nodes at the top, with distinct paths; every file node made from a file; and the last
   * record of each `/`-free path at the top.
   */
  ghost predicate TreeShape(f: Forest, files: seq<CommitFile>, commitHash: string)
  {
    && WellFormed(f)
    && (forall j, m :: 0 <= j < |f.kids| && 0 <= m < |f.kids[j]| ==> ChildFits(f.nodes[j], f.nodes[f.kids[j][m]]))
    && KidsOnce(f.kids)
    && (forall j :: 0 <= j < |f.nodes| ==> Shaped(f.nodes[j]))
    && (forall m :: 0 <= m < |f.top| ==> AtTop(TopItems(f)[m]))
    && (forall m, m' :: 0 <= m < m' < |f.top| ==> TopItems(f)[m].path != TopItems(f)[m'].path)
    && (forall j :: 0 <= j < |f.nodes| && f.nodes[j].Leaf? ==>
          exists k :: 0 <= k < |files| && f.nodes[j] == LeafFor(files[k], commitHash))
    && (forall k :: 0 <= k < |files| && '/' !in PathOf(files, k) && LastAt(files, |files|, k) ==>
          LeafFor(files[k], commitHash) in TopItems(f))
  }

  /**
   * What a built tree also has when no file path is a folder path: `folders` holds exactly the
   * directory prefixes, each for the one folder node with that path; each folder sits at the
   * top or among its parent's children; and each nested file is a child of its deepest folder.
   */
  ghost predicate TreeTidy(f: Forest, folders: map<string, nat>, files: seq<CommitFile>, commitHash: string)
    requires WellFormed(f)
  {
    && folders.Keys == FilePrefixes(files)
    && (forall p :: p in folders ==> folders[p] < |f.nodes| && f.nodes[folders[p]].Folder? && f.nodes[folders[p]].path == p)
    && (forall j :: 0 <= j < |f.nodes| && f.nodes[j].Folder? ==> f.nodes[j].path in folders && folders[f.nodes[j].path] == j)
    && (forall p :: p in folders ==> folders[p] < |f.nodes| && FolderPlaced(f, folders, f.nodes[folders[p]]))
    && (forall k :: 0 <= k < |files| && Segments(PathOf(files, k)) != [] ==>
          DirKey(PathOf(files, k)) in folders && LeafFor(files[k], commitHash) in ChildItems(f, folders[DirKey(PathOf(files, k))]))
  }

  /**
   * `buildFileTree(files, commitHash)`: the nodes with their children arrays and the top-level
   * nodes in the root map's order; `folders` is `folderChildren`'s key set with the node
   * registered for each.
   */
  method BuildFileTree(files: seq<CommitFile>, commitHash: string) returns (f: Forest, ghost folders: map<string, nat>)
    ensures TreeShape(f, files, commitHash)
    ensures CollisionFree(files) ==> TreeTidy(f, folders, files, commitHash)
  {
    var b, leafOf := AddAll(files, commitHash);
    f := Result(b);
    folders := b.folders;
    BuiltShape(b, files, leafOf, commitHash);
    BuiltRootFiles(b, files, leafOf, commitHash);
    if CollisionFree(files) {
      assert files[..|files|] == files;
      BuiltFolders(b, files, leafOf, commitHash);
      BuiltNested(b, files, leafOf, commitHash);
    }
  }

  // ---------------------------------------------------------------- getChildren

  /**
   * The parsed records as the builder's file records, or `None` when some record has no path:
   * `buildFileTree` then calls `replace` on `undefined` and the call throws.
   */
  function AsCommitFiles(parsed: seq<ChangedFile>): (r: Option<seq<CommitFile>>)
    ensures r.None? <==> exists k :: 0 <= k < |parsed| && parsed[k].path.None?
    ensures r.Some? ==> |r.value| == |parsed| && forall k :: 0 <= k < |parsed| ==>
      r.value[k] == CommitFile(parsed[k].path.value, parsed[k].status, parsed[k].oldPath)
  {
    if forall k :: 0 <= k < |parsed| ==> parsed[k].path.Some? then
      Some(seq(|parsed|, k requires 0 <= k < |parsed| => CommitFile(parsed[k].path.value, parsed[k].status, parsed[k].oldPath)))
    else
      None
  }

  /** The empty result `{ files: [], total: 0 }`. */
  const NoFiles := Forest([], [], [])

  /**
   * `getChildren`: the files of one commit as a tree and their count. `show` is what
   * `git show --name-status --pretty=format: -M -C <hash>` printed, `None` when it threw;
   * an empty hash, a failed or empty show, and a line without a path all give the empty result.
   */
  method GetChildren(commitHash: string, show: Option<string>) returns (files: Forest, total: nat, ghost folders: map<string, nat>)
    ensures commitHash == "" || show.None? || show == Some("") ==> files == NoFiles && total == 0
    ensures commitHash != "" && show.Some? && show.value != "" && AsCommitFiles(ParseOutput(show.value)).None? ==>
      files == NoFiles && total == 0
    ensures commitHash != "" && show.Some? && show.value != "" && AsCommitFiles(ParseOutput(show.value)).Some? ==>
      var records := AsCommitFiles(ParseOutput(show.value)).value;
      && total == |OutputLines(show.value)|
      && TreeShape(files, records, commitHash)
      && (CollisionFree(records) ==> TreeTidy(files, folders, records, commitHash))
  {
    if commitHash == "" || show.None? || show.value == "" {
      return NoFiles, 0, map[];
    }
    var parsed := ParseOutput(show.value);
    var records := AsCommitFiles(parsed);
    if records.None? {
      return NoFiles, 0, map[];
    }
    files, folders := BuildFileTree(records.value, commitHash);
    total := |parsed|;
  }

  /** `for (const file of files)`: every file added in turn, starting from empty maps. */
  method AddAll(files: seq<CommitFile>, commitHash: string) returns (b: Builder, ghost leafOf: seq<nat>)
    ensures Building(b, files, |files|, leafOf, commitHash)
  {
    b := EmptyBuilder;
    leafOf := [];
    BuildingStart(files, commitHash);
    for i := 0 to |files|
      invariant Building(b, files, i, leafOf, commitHash)
    {
      b, leafOf := AddNext(b, files, i, leafOf, commitHash);
    }
  }

  /** One turn of the loop over the files: the next file added, with the id its file node got. */
  method AddNext(b: Builder, files: seq<CommitFile>, i: nat, ghost leafOf: seq<nat>, commitHash: string)
    returns (b': Builder, ghost leafOf': seq<nat>)
    requires i < |files| && Building(b, files, i, leafOf, commitHash)
    ensures Building(b', files, i + 1, leafOf', commitHash)
  {
    b' := AddFile(b, files[i], commitHash, FilePrefixes(files));
    leafOf' := leafOf + [LastId(b')];
    BuildingStep(b, b', files, i, leafOf, leafOf', commitHash);
  }

  lemma BuiltShape(b: Builder, files: seq<CommitFile>, leafOf: seq<nat>, commitHash: string)
    requires Building(b, files, |files|, leafOf, commitHash)
    ensures var f := Result(b);
      && (forall j, m :: 0 <= j < |f.kids| && 0 <= m < |f.kids[j]| ==> ChildFits(f.nodes[j], f.nodes[f.kids[j][m]]))
      && KidsOnce(f.kids)
      && (forall j :: 0 <= j < |f.nodes| ==> Shaped(f.nodes[j]))
      && (forall m :: 0 <= m < |f.top| ==> AtTop(TopItems(f)[m]))
      && (forall m, m' :: 0 <= m < m' < |f.top| ==> TopItems(f)[m].path != TopItems(f)[m'].path)
      && (forall j :: 0 <= j < |f.nodes| && f.nodes[j].Leaf? ==>
            exists k :: 0 <= k < |files| && f.nodes[j] == LeafFor(files[k], commitHash))
  {
    var f := Result(b);
    forall m | 0 <= m < |f.top| ensures TopItems(f)[m].path == b.keys[m] && AtTop(TopItems(f)[m]) {
      assert TopItems(f)[m] == b.nodes[b.root[b.keys[m]]];
    }
  }

  lemma BuiltRootFiles(b: Builder, files: seq<CommitFile>, leafOf: seq<nat>, commitHash: string)
    requires Building(b, files, |files|, leafOf, commitHash)
    ensures forall k :: 0 <= k < |files| && '/' !in PathOf(files, k) && LastAt(files, |files|, k) ==>
      LeafFor(files[k], commitHash) in TopItems(Result(b))
  {
    forall k | 0 <= k < |files| && '/' !in PathOf(files, k) && LastAt(files, |files|, k)
      ensures LeafFor(files[k], commitHash) in TopItems(Result(b))
    {
      InTop(b, PathOf(files, k));
    }
  }

  lemma BuiltFolders(b: Builder, files: seq<CommitFile>, leafOf: seq<nat>, commitHash: string)
    requires Building(b, files, |files|, leafOf, commitHash) && CollisionFree(files)
    ensures forall p :: p in b.folders ==> b.folders[p] < |b.nodes| && FolderPlaced(Result(b), b.folders, b.nodes[b.folders[p]])
  {
    var f := Result(b);
    forall p | p in b.folders ensures FolderPlaced(f, b.folders, b.nodes[b.folders[p]]) {
      assert Placed(b, p);
      var n := b.nodes[b.folders[p]];
      if n.path == n.name {
        InTop(b, p);
      } else {
        var t := b.folders[ParentPath(n)];
        var m :| 0 <= m < |b.kids[t]| && b.kids[t][m] == b.folders[p];
        assert ChildItems(f, t)[m] == n;
      }
    }
  }

  lemma BuiltNested(b: Builder, files: seq<CommitFile>, leafOf: seq<nat>, commitHash: string)
    requires Ok(b) && |leafOf| == |files| && NestedFiles(b, files, |files|, leafOf, commitHash)
    ensures forall k :: 0 <= k < |files| && Segments(PathOf(files, k)) != [] ==>
      DirKey(PathOf(files, k)) in b.folders && LeafFor(files[k], commitHash) in ChildItems(Result(b), b.folders[DirKey(PathOf(files, k))])
  {
    var f := Result(b);
    forall k | 0 <= k < |files| && Segments(PathOf(files, k)) != []
      ensures DirKey(PathOf(files, k)) in b.folders && LeafFor(files[k], commitHash) in ChildItems(f, b.folders[DirKey(PathOf(files, k))])
    {
      var t := b.folders[DirKey(PathOf(files, k))];
      var m :| 0 <= m < |b.kids[t]| && b.kids[t][m] == leafOf[k];
      assert ChildItems(f, t)[m] == LeafFor(files[k], commitHash);
    }
  }
}
