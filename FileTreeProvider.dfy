/**
 * The flat changes list (`src/views/diff/FileTreeProvider.ts`): it remembers the selected
 * commit, reads that commit's `git show --name-status` output and turns every non-empty line
 * into a `FileNode`, with the status reduced to one letter.
 */
module FileTreeProvider {
  import opened Wrappers
  import opened JsStrings
  import opened FileNodes

  /**
   * The private `parseGitStatus`: the first character looked up in the status table (`T`,
   * a type change, is shown as modified), `?` for anything else, the empty status included.
   */
  function StatusLetter(status: string): (r: string)
    ensures r in {"M", "A", "D", "R", "C", "U", "?"}
    ensures r == "?" <==> status == "" || status[0] !in "MADRCUT"
    ensures status != "" && status[0] in "MADRCU" ==> r == [status[0]]
    ensures status != "" && status[0] == 'T' ==> r == "M"
  {
    if status == "" then "?"
    else
      var c := status[0];
      if c == 'M' || c == 'A' || c == 'D' || c == 'R' || c == 'C' || c == 'U' then [c]
      else if c == 'T' then "M"
      else "?"
  }

  /** `const [status, ...pathParts] = line.split('\t'); path = pathParts.join('\t')`. */
  function StatusField(line: string): string { BeforeFirst(line, '\t') }
  function PathField(line: string): string { AfterFirst(line, '\t') }

  /**
   * A line is the status, a tab and the path: splitting it gives both back, with any tab
   * inside the path kept ("Handle paths with tabs").
   */
  lemma LineRoundTrip(status: string, path: string)
    requires '\t' !in status
    ensures StatusField(status + "\t" + path) == status
    ensures PathField(status + "\t" + path) == path
  {
    var line := status + "\t" + path;
    SplitHeadAndTail(line, '\t');
    SplitAfterPrefix(status, '\t', path);
    JoinSplit(path, '\t');
    assert line == status + ['\t'] + path;
  }

  /** A line without a tab has the whole line as its status and the empty path. */
  lemma LineWithoutTab(line: string)
    requires '\t' !in line
    ensures StatusField(line) == line && PathField(line) == ""
  {
    SplitHeadAndTail(line, '\t');
    SplitSingle(line, '\t');
  }

  /** The node for one line. */
  function NodeOfLine(line: string): FileNode
  {
    NewFileNode(PathField(line), StatusLetter(StatusField(line)))
  }

  class FileTreeProvider {
    var commitHash: string

    constructor ()
      ensures commitHash == ""
    {
      commitHash := "";
    }

    /** `refresh`: select another commit (the change event is host plumbing). */
    method Refresh(hash: string)
      modifies this
      ensures commitHash == hash
    {
      commitHash := hash;
    }

    /**
     * `getChildren`. `show` is what `git show --name-status` printed for `commitHash`, or
     * `None` when it failed; no commit selected, or a failure, gives no nodes.
     */
    method GetChildren(show: Option<string>) returns (nodes: seq<FileNode>)
      ensures commitHash == "" || show == None ==> nodes == []
      ensures commitHash != "" && show.Some? ==>
        var lines := OutputLines(show.value);
        |nodes| == |lines| &&
        forall k :: 0 <= k < |nodes| ==>
          nodes[k].path == PathField(lines[k]) &&
          nodes[k].status == StatusLetter(StatusField(lines[k])) &&
          nodes[k] == NodeOfLine(lines[k])
    {
      if commitHash == "" {
        return [];
      }
      match show
      case None =>
        nodes := [];
      case Some(output) =>
        var lines := OutputLines(output);
        nodes := seq(|lines|, k requires 0 <= k < |lines| => NodeOfLine(lines[k]));
    }
  }
}
