/**
 * The file entry of the changes tree (`src/views/diff/entity/FileNode.ts`): a tree item built
 * from a path and a status, whose label, tooltip, icon and click command are all derived in
 * the constructor and never change afterwards.
 */
module FileNodes {
  import opened JsStrings

  /** The argument object of the `vscGitPanel.openDiff` command. */
  datatype DiffArgs = DiffArgs(path: string, status: string)

  /** `{ command, title, arguments }`. */
  datatype Command = Command(command: string, title: string, arguments: seq<DiffArgs>)

  /** The tree item; `caption` is its `label`. */
  datatype FileNode = FileNode(
    path: string,
    status: string,
    caption: string,
    tooltip: string,
    icon: string,
    command: Command)

  /** `{ path, status }`, as the tree hands it to `fromFileItem`. */
  datatype FileTreeItem = FileTreeItem(path: string, status: string)

  const OpenDiffCommand: string := "vscGitPanel.openDiff"
  const OpenDiffTitle: string := "Show Changes"

  /**
   * `path.split('/').pop() || path`: the last segment, or the whole path when that segment
   * is empty (a path ending in `/`, or the empty path).
   */
  function Label(path: string): (r: string)
    ensures |r| <= |path| && path[|path| - |r|..] == r
    ensures r == path || ('/' !in r && r != "" && path[|path| - |r| - 1] == '/')
    ensures path != [] && path[|path| - 1] == '/' ==> r == path
  {
    LastPartIsSuffix(path, '/');
    var last := LastPart(path, '/');
    if last == "" then path else last
  }

  /** The name of a file under some directory is its label. */
  lemma LabelOfNestedFile(dir: string, name: string)
    requires name != "" && '/' !in name
    ensures Label(dir + "/" + name) == name
  {
    LastPartAfterSep(dir, '/', name);
    assert dir + "/" + name == dir + ['/'] + name;
  }

  /** A name without `/` labels itself. */
  lemma LabelOfBareName(path: string)
    requires '/' !in path
    ensures Label(path) == path
  {
    SplitWithoutSep(path, '/');
  }

  /** `getIconForStatus`: the theme icon id, chosen on the trimmed status. */
  function Icon(status: string): (r: string)
    ensures Trim(status) == "M" <==> r == "diff-modified"
    ensures Trim(status) == "A" <==> r == "diff-added"
    ensures Trim(status) == "D" <==> r == "diff-removed"
    ensures Trim(status) == "R" <==> r == "diff-renamed"
    ensures r == "file" <==> Trim(status) !in {"M", "A", "D", "R"}
  {
    var s := Trim(status);
    if s == "M" then "diff-modified"
    else if s == "A" then "diff-added"
    else if s == "D" then "diff-removed"
    else if s == "R" then "diff-renamed"
    else "file"
  }

  /** `trim` gives a string with no whitespace at its ends, so trimming again changes nothing. */
  lemma TrimIdempotent(s: string)
    ensures Trim(Trim(s)) == Trim(s)
  {
    TrimSpec(s);
    TrimUntouched(Trim(s));
  }

  /** Whitespace around a status does not change the icon. */
  lemma IconIgnoresPadding(status: string)
    ensures Icon(Trim(status)) == Icon(status)
  {
    TrimIdempotent(status);
  }

  /** `new FileNode(path, status)`. */
  function NewFileNode(path: string, status: string): (n: FileNode)
    ensures n.path == path && n.status == status
    ensures n.caption == Label(path) && n.icon == Icon(status)
    ensures |n.tooltip| == |status| + 1 + |path|
    ensures n.tooltip[..|status|] == status && n.tooltip[|status|] == ' '
    ensures n.tooltip[|status| + 1..] == path
    ensures n.command.command == OpenDiffCommand && n.command.title == OpenDiffTitle
    ensures n.command.arguments == [DiffArgs(path, status)]
  {
    FileNode(path, status, Label(path), status + " " + path, Icon(status),
      Command(OpenDiffCommand, OpenDiffTitle, [DiffArgs(path, status)]))
  }

  /** `FileNode.fromFileItem`: path and status are passed through, as is the command. */
  function FromFileItem(item: FileTreeItem): (n: FileNode)
    ensures n.path == item.path && n.status == item.status
    ensures n.command.arguments == [DiffArgs(item.path, item.status)]
  {
    NewFileNode(item.path, item.status)
  }

  /** The command's argument is enough to rebuild the node it came from. */
  lemma CommandRebuildsNode(path: string, status: string)
    ensures var a := NewFileNode(path, status).command.arguments[0];
      FromFileItem(FileTreeItem(a.path, a.status)) == NewFileNode(path, status)
  {
  }
}
