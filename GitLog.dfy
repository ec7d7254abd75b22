/**
 * The text parsing of `src/git/index.ts` lifted out of its subprocess calls: the `--stat`
 * summary line read for each commit of `getHistory`, the loop that attaches the stats, and the
 * parent token of `git rev-list --parents -n 1`.
 */
module GitLog {
  import opened Wrappers
  import opened JsStrings
  import opened GitTypes

  /** `getHistory` asks git for at most this many commits (`--max-count=100`). */
  const MaxHistoryCount: nat := 100

  // ---------------------------------------------------------------- regular-expression search

  /** The maximal run of digits at the start of `s`. */
  function LeadingDigits(s: string): (ds: string)
    ensures |ds| <= |s| && ds == s[..|ds|] && AllDigits(ds)
    ensures |ds| < |s| ==> !IsDigit(s[|ds|])
    decreases |s|
  {
    if s != [] && IsDigit(s[0]) then [s[0]] + LeadingDigits(s[1..]) else ""
  }

  /**
   * The pattern `(\d+)<tail>` matches at the start of `s` for one of the alternative tails:
   * `\d+` can only give back digits, and no tail starts with one, so only the whole leading run
   * can be followed by the tail.
   */
  predicate MatchesHere(s: string, tails: seq<string>) {
    s != [] && IsDigit(s[0]) && exists k :: 0 <= k < |tails| && StartsWith(s[|LeadingDigits(s)|..], tails[k])
  }

  /** `s.match(/(\d+)<tail>/)` with `Number.parseInt` of group 1: the leftmost match wins. */
  function FindCount(s: string, tails: seq<string>): (r: Option<nat>)
    decreases |s|
  {
    if s == [] then None
    else if MatchesHere(s, tails) then Some(DigitsValue(LeadingDigits(s)))
    else FindCount(s[1..], tails)
  }

  const FileTails: seq<string> := [" file changed", " files changed"]
  const InsertionTails: seq<string> := [" insertion(+)", " insertions(+)"]
  const DeletionTails: seq<string> := [" deletion(-)", " deletions(-)"]

  /** The last line of the trimmed `git show --stat --format=` output. */
  function LastLine(output: string): string
  {
    LastPart(Trim(output), '\n')
  }

  /**
   * The stats of one commit read from its last line: only a line that contains `changed` sets
   * them, and each clause that is absent counts 0.
   */
  function StatsFromLine(line: string): (r: Option<CommitStats>)
    ensures r.Some? <==> line != "" && Contains(line, "changed")
  {
    if line != "" && Contains(line, "changed") then
      Some(CommitStats(
        FindCount(line, FileTails).GetOr(0),
        FindCount(line, InsertionTails).GetOr(0),
        FindCount(line, DeletionTails).GetOr(0)))
    else None
  }

  /** The stats `getHistory` attaches for the output of a successful `git show --stat`. */
  function ParseStatSummary(output: string): Option<CommitStats>
  {
    StatsFromLine(LastLine(output))
  }

  // ---------------------------------------------------------------- git's own summary line

  function Plural(n: nat, one: string, many: string): string {
    if n == 1 then one else many
  }

  function FileWord(n: nat): string { Plural(n, " file changed", " files changed") }
  function InsertionWord(n: nat): string { Plural(n, " insertion(+)", " insertions(+)") }
  function DeletionWord(n: nat): string { Plural(n, " deletion(-)", " deletions(-)") }

  /** One clause of the summary: a lead text, a count and the word that names it. */
  function Clause(lead: string, n: nat, word: string): string {
    lead + NatToString(n) + word
  }

  function FileClause(st: CommitStats): string { Clause(" ", st.files, FileWord(st.files)) }

  /** git prints the insertions unless only deletions happened. */
  function InsertionClause(st: CommitStats): string {
    if st.additions > 0 || st.deletions == 0 then Clause(", ", st.additions, InsertionWord(st.additions)) else ""
  }

  /** git prints the deletions unless only insertions happened. */
  function DeletionClause(st: CommitStats): string {
    if st.deletions > 0 || st.additions == 0 then Clause(", ", st.deletions, DeletionWord(st.deletions)) else ""
  }

  /**
   * The summary line git prints under `--stat`: the file count, then the insertion and
   * deletion clauses; a commit that changed no file gets the file clause alone.
   */
  function GitSummaryLine(st: CommitStats): string
  {
    FileClause(st) + SummaryTail(st)
  }

  /** What follows the file clause: nothing for a commit that changed no file. */
  function SummaryTail(st: CommitStats): string
  {
    if st.files == 0 then "" else InsertionClause(st) + DeletionClause(st)
  }

  /** Summaries git can print: an empty change list has no insertions and no deletions. */
  predicate Printable(st: CommitStats) {
    st.files == 0 ==> st.additions == 0 && st.deletions == 0
  }

  predicate NoDigits(s: string) { forall i :: 0 <= i < |s| ==> !IsDigit(s[i]) }

  /** Text without digits is skipped by the search. */
  lemma {:induction false} SkipText(lit: string, rest: string, tails: seq<string>)
    requires NoDigits(lit)
    ensures FindCount(lit + rest, tails) == FindCount(rest, tails)
    decreases |lit|
  {
    if lit != [] {
      var s := lit + rest;
      assert s[0] == lit[0];
      assert s[1..] == lit[1..] + rest;
      SkipText(lit[1..], rest, tails);
    } else {
      assert lit + rest == rest;
    }
  }

  /** A number followed by something other than a tail is skipped by the search. */
  lemma {:induction false} SkipNumber(ds: string, rest: string, tails: seq<string>)
    requires AllDigits(ds)
    requires rest != [] && !IsDigit(rest[0])
    requires forall k :: 0 <= k < |tails| ==> !StartsWith(rest, tails[k])
    ensures FindCount(ds + rest, tails) == FindCount(rest, tails)
    decreases |ds|
  {
    if ds != [] {
      var s := ds + rest;
      LeadingDigitsOf(ds, rest);
      assert s[0] == ds[0];
      assert s[|ds|..] == rest;
      assert !MatchesHere(s, tails);
      assert s[1..] == ds[1..] + rest;
      SkipNumber(ds[1..], rest, tails);
    } else {
      assert ds + rest == rest;
    }
  }

  /** A number followed by one of the tails is what the search returns. */
  lemma FindNumber(ds: string, rest: string, tails: seq<string>, k: nat)
    requires AllDigits(ds) && ds != []
    requires rest != [] && !IsDigit(rest[0])
    requires k < |tails| && StartsWith(rest, tails[k])
    ensures FindCount(ds + rest, tails) == Some(DigitsValue(ds))
  {
    var s := ds + rest;
    LeadingDigitsOf(ds, rest);
    assert s[|ds|..] == rest;
    assert s[0] == ds[0];
    assert MatchesHere(s, tails);
  }

  lemma {:induction false} LeadingDigitsOf(ds: string, rest: string)
    requires AllDigits(ds)
    requires rest == [] || !IsDigit(rest[0])
    ensures LeadingDigits(ds + rest) == ds
    decreases |ds|
  {
    if ds == [] {
      assert ds + rest == rest;
    } else {
      assert (ds + rest)[0] == ds[0];
      assert (ds + rest)[1..] == ds[1..] + rest;
      LeadingDigitsOf(ds[1..], rest);
    }
  }

  /** A clause whose word starts one of the tails yields its count. */
  lemma ClauseFound(lead: string, n: nat, word: string, rest: string, tails: seq<string>, k: nat)
    requires NoDigits(lead) && word != [] && !IsDigit(word[0])
    requires k < |tails| && StartsWith(word + rest, tails[k])
    ensures FindCount(Clause(lead, n, word) + rest, tails) == Some(n)
  {
    NatToStringRoundTrip(n);
    var ds := NatToString(n);
    assert Clause(lead, n, word) + rest == lead + (ds + (word + rest));
    SkipText(lead, ds + (word + rest), tails);
    FindNumber(ds, word + rest, tails, k);
  }

  /** A clause whose word starts none of the tails is passed over. */
  lemma ClauseSkipped(lead: string, n: nat, word: string, rest: string, tails: seq<string>)
    requires NoDigits(lead) && NoDigits(word) && word != []
    requires forall k :: 0 <= k < |tails| ==> !StartsWith(word + rest, tails[k])
    ensures FindCount(Clause(lead, n, word) + rest, tails) == FindCount(rest, tails)
  {
    NatToStringRoundTrip(n);
    var ds := NatToString(n);
    assert Clause(lead, n, word) + rest == lead + (ds + (word + rest));
    SkipText(lead, ds + (word + rest), tails);
    assert (word + rest)[0] == word[0];
    SkipNumber(ds, word + rest, tails);
    SkipText(word, rest, tails);
  }

  /** Texts that differ in their second character do not start one another. */
  lemma NotPrefix(x: string, tails: seq<string>)
    requires |x| >= 2
    requires forall k :: 0 <= k < |tails| ==> |tails[k]| >= 2 && tails[k][1] != x[1]
    ensures forall k :: 0 <= k < |tails| ==> !StartsWith(x, tails[k])
  {
    forall k | 0 <= k < |tails| ensures !StartsWith(x, tails[k]) {
      if StartsWith(x, tails[k]) {
        assert false;
      }
    }
  }

  /** The second letter of each word of the summary, which tells them apart. */
  lemma WordLetters(n: nat)
    ensures |FileWord(n)| >= 2 && FileWord(n)[1] == 'f' && NoDigits(FileWord(n))
    ensures |InsertionWord(n)| >= 2 && InsertionWord(n)[1] == 'i' && NoDigits(InsertionWord(n))
    ensures |DeletionWord(n)| >= 2 && DeletionWord(n)[1] == 'd' && NoDigits(DeletionWord(n))
  {
  }

  /** The second letter of each tail the search looks for. */
  lemma TailLetters()
    ensures forall k :: 0 <= k < |FileTails| ==> |FileTails[k]| >= 2 && FileTails[k][1] == 'f'
    ensures forall k :: 0 <= k < |InsertionTails| ==> |InsertionTails[k]| >= 2 && InsertionTails[k][1] == 'i'
    ensures forall k :: 0 <= k < |DeletionTails| ==> |DeletionTails[k]| >= 2 && DeletionTails[k][1] == 'd'
  {
  }

  /** Each word starts the tail of its own kind, whatever follows it. */
  lemma WordsHit(n: nat, rest: string)
    ensures StartsWith(FileWord(n) + rest, FileTails[if n == 1 then 0 else 1])
    ensures StartsWith(InsertionWord(n) + rest, InsertionTails[if n == 1 then 0 else 1])
    ensures StartsWith(DeletionWord(n) + rest, DeletionTails[if n == 1 then 0 else 1])
  {
    assert (FileWord(n) + rest)[..|FileWord(n)|] == FileWord(n);
    assert (InsertionWord(n) + rest)[..|InsertionWord(n)|] == InsertionWord(n);
    assert (DeletionWord(n) + rest)[..|DeletionWord(n)|] == DeletionWord(n);
  }

  /** A word with a second letter no tail has starts none of them, whatever follows it. */
  lemma WordMisses(w: string, rest: string, tails: seq<string>, c: char)
    requires |w| >= 2 && w[1] == c
    requires forall k :: 0 <= k < |tails| ==> |tails[k]| >= 2 && tails[k][1] != c
    ensures forall k :: 0 <= k < |tails| ==> !StartsWith(w + rest, tails[k])
  {
    assert (w + rest)[1] == c;
    NotPrefix(w + rest, tails);
  }

  /** The file count comes back from git's summary line. */
  lemma FilesReadBack(st: CommitStats)
    ensures FindCount(GitSummaryLine(st), FileTails) == Some(st.files)
  {
    var rest := SummaryTail(st);
    var w := FileWord(st.files);
    WordLetters(st.files);
    WordsHit(st.files, rest);
    ClauseFound(" ", st.files, w, rest, FileTails, if st.files == 1 then 0 else 1);
  }

  /** The file clause is passed over by a search for tails whose second letter is not `f`. */
  lemma FileClauseSkipped(st: CommitStats, tails: seq<string>)
    requires forall k :: 0 <= k < |tails| ==> |tails[k]| >= 2 && tails[k][1] != 'f'
    ensures FindCount(GitSummaryLine(st), tails) == FindCount(SummaryTail(st), tails)
  {
    WordLetters(st.files);
    WordMisses(FileWord(st.files), SummaryTail(st), tails, 'f');
    ClauseSkipped(" ", st.files, FileWord(st.files), SummaryTail(st), tails);
  }

  /** The insertion count comes back, 0 when git left its clause out. */
  lemma InsertionsReadBack(st: CommitStats)
    requires Printable(st)
    ensures FindCount(GitSummaryLine(st), InsertionTails).GetOr(0) == st.additions
  {
    TailLetters();
    FileClauseSkipped(st, InsertionTails);
    if st.files != 0 {
      InsertionsInTail(st);
    }
  }

  lemma InsertionsInTail(st: CommitStats)
    ensures FindCount(InsertionClause(st) + DeletionClause(st), InsertionTails).GetOr(0) == st.additions
  {
    var ic, dc := InsertionClause(st), DeletionClause(st);
    WordLetters(st.additions);
    WordLetters(st.deletions);
    TailLetters();
    if ic != "" {
      WordsHit(st.additions, dc);
      ClauseFound(", ", st.additions, InsertionWord(st.additions), dc, InsertionTails, if st.additions == 1 then 0 else 1);
    } else {
      WordMisses(DeletionWord(st.deletions), "", InsertionTails, 'd');
      ClauseSkipped(", ", st.deletions, DeletionWord(st.deletions), "", InsertionTails);
      assert ic + dc == Clause(", ", st.deletions, DeletionWord(st.deletions)) + "";
    }
  }

  /** The deletion count comes back, 0 when git left its clause out. */
  lemma DeletionsReadBack(st: CommitStats)
    requires Printable(st)
    ensures FindCount(GitSummaryLine(st), DeletionTails).GetOr(0) == st.deletions
  {
    TailLetters();
    FileClauseSkipped(st, DeletionTails);
    if st.files != 0 {
      DeletionsInTail(st);
    }
  }

  lemma DeletionsInTail(st: CommitStats)
    ensures FindCount(InsertionClause(st) + DeletionClause(st), DeletionTails).GetOr(0) == st.deletions
  {
    var ic, dc := InsertionClause(st), DeletionClause(st);
    WordLetters(st.additions);
    WordLetters(st.deletions);
    TailLetters();
    if ic != "" {
      WordMisses(InsertionWord(st.additions), dc, DeletionTails, 'i');
      ClauseSkipped(", ", st.additions, InsertionWord(st.additions), dc, DeletionTails);
    } else {
      assert ic + dc == dc;
    }
    if dc != "" {
      WordsHit(st.deletions, "");
      ClauseFound(", ", st.deletions, DeletionWord(st.deletions), "", DeletionTails, if st.deletions == 1 then 0 else 1);
      assert dc == dc + "";
    }
  }

  /** `changed` occurs in the file clause. */
  lemma SummaryMentionsChanged(st: CommitStats)
    ensures Contains(GitSummaryLine(st), "changed")
  {
    var rest := SummaryTail(st);
    var noun := if st.files == 1 then " file " else " files ";
    FileWordEnds(st.files, noun);
    var pre := " " + NatToString(st.files) + noun;
    assert GitSummaryLine(st) == pre + "changed" + rest;
    ContainsMiddle(pre, "changed", rest);
  }

  lemma FileWordEnds(n: nat, noun: string)
    requires noun == if n == 1 then " file " else " files "
    ensures FileWord(n) == noun + "changed"
  {
  }

  /** Every clause of git's summary line is read back with its count. */
  lemma StatsLineRoundTrip(st: CommitStats)
    requires Printable(st)
    ensures StatsFromLine(GitSummaryLine(st)) == Some(st)
  {
    SummaryMentionsChanged(st);
    FilesReadBack(st);
    InsertionsReadBack(st);
    DeletionsReadBack(st);
  }

  /** Text without a line break that does not end in whitespace. */
  predicate Flat(s: string) {
    '\n' !in s && (s == [] || !IsJsWhitespace(s[|s| - 1]))
  }

  lemma FlatConcat(a: string, b: string)
    requires Flat(a) && Flat(b)
    ensures Flat(a + b)
  {
    if b == [] {
      assert a + b == a;
    } else {
      assert (a + b)[|a + b| - 1] == b[|b| - 1];
    }
  }

  /** The words of the summary are flat. */
  lemma WordsFlat(n: nat)
    ensures FileWord(n) != [] && Flat(FileWord(n))
    ensures InsertionWord(n) != [] && Flat(InsertionWord(n))
    ensures DeletionWord(n) != [] && Flat(DeletionWord(n))
  {
  }

  lemma ClauseShape(lead: string, n: nat, word: string)
    requires '\n' !in lead && word != [] && Flat(word)
    ensures Clause(lead, n, word) != [] && Flat(Clause(lead, n, word))
  {
    NatToStringRoundTrip(n);
    var ds := NatToString(n);
    assert '\n' !in ds by {
      if '\n' in ds { assert false; }
    }
    var c := Clause(lead, n, word);
    assert c[|c| - 1] == word[|word| - 1];
  }

  /** git's summary line has no line break and ends in a non-space character. */
  lemma SummaryLineShape(st: CommitStats)
    ensures var line := GitSummaryLine(st);
      && line != [] && '\n' !in line && !IsJsWhitespace(line[|line| - 1])
  {
    var fc, ic, dc := FileClause(st), InsertionClause(st), DeletionClause(st);
    WordsFlat(st.files);
    WordsFlat(st.additions);
    WordsFlat(st.deletions);
    ClauseShape(" ", st.files, FileWord(st.files));
    if ic != "" {
      ClauseShape(", ", st.additions, InsertionWord(st.additions));
    }
    if dc != "" {
      ClauseShape(", ", st.deletions, DeletionWord(st.deletions));
    }
    FlatConcat(ic, dc);
    var tail := if st.files == 0 then "" else ic + dc;
    FlatConcat(fc, tail);
    assert GitSummaryLine(st) == fc + tail;
  }

  /**
   * The whole `git show --stat --format=` output of a commit that changed something: the
   * per-file lines, then git's summary line. `getHistory` attaches exactly that summary.
   */
  lemma StatOutputRoundTrip(fileLines: string, st: CommitStats)
    requires Printable(st)
    requires exists i :: 0 <= i < |fileLines| && !IsJsWhitespace(fileLines[i])
    ensures ParseStatSummary(fileLines + "\n" + GitSummaryLine(st) + "\n") == Some(st)
  {
    SummaryLineShape(st);
    LastLineOfOutput(fileLines, GitSummaryLine(st));
    StatsLineRoundTrip(st);
  }

  // ---------------------------------------------------------------- attaching the stats

  /**
   * What one iteration of the `getHistory` loop does to a commit: a failed `git show` gives
   * zero stats, a parsed summary replaces them, and an output without a summary line leaves
   * the commit untouched. Nothing but `stats` changes.
   */
  function WithStats(c: Commit, output: Option<string>): (r: Commit)
    ensures r == c.(stats := r.stats)
    ensures output.None? ==> r.stats == Some(CommitStats(0, 0, 0))
    ensures output.Some? && ParseStatSummary(output.value).Some? ==> r.stats == ParseStatSummary(output.value)
    ensures output.Some? && ParseStatSummary(output.value).None? ==> r == c
  {
    match output
    case None => c.(stats := Some(CommitStats(0, 0, 0)))
    case Some(text) =>
      match ParseStatSummary(text)
      case Some(st) => c.(stats := Some(st))
      case None => c
  }

  /**
   * The loop of `getHistory` over the log's commits; `outputs[i]` is the result of the
   * `git show --stat` call for commit `i`, `None` when that call threw. A failure for one
   * commit does not stop the others.
   */
  method AttachStats(commits: array<Commit>, outputs: seq<Option<string>>)
    requires |outputs| == commits.Length
    modifies commits
    ensures forall i :: 0 <= i < commits.Length ==> commits[i] == WithStats(old(commits[i]), outputs[i])
  {
    var i := 0;
    while i < commits.Length
      invariant 0 <= i <= commits.Length
      invariant forall j :: 0 <= j < i ==> commits[j] == WithStats(old(commits[j]), outputs[j])
      invariant forall j :: i <= j < commits.Length ==> commits[j] == old(commits[j])
    {
      commits[i] := StatsFor(commits[i], outputs[i]);
      i := i + 1;
    }
  }

  /** The body of that loop for one commit. */
  method StatsFor(c: Commit, output: Option<string>) returns (r: Commit)
    ensures r == WithStats(c, output)
  {
    r := c;
    match output {
      case None =>
        r := c.(stats := Some(CommitStats(0, 0, 0)));
      case Some(text) =>
        var lines := Split(Trim(text), '\n');
        var lastLine := lines[|lines| - 1];
        if lastLine != "" && Contains(lastLine, "changed") {
          r := c.(stats := StatsFromLine(lastLine));
        }
    }
  }

  // ---------------------------------------------------------------- getParentCommit

  /**
   * `getParentCommit`: the second space-separated token of the `rev-list` output, or none
   * when there is no such token (a root commit) or the call threw (`None` output).
   */
  function ParentFromRevList(output: Option<string>): (parent: Option<string>)
    ensures parent.Some? ==> parent.value != "" && ' ' !in parent.value
    ensures output.None? ==> parent.None?
  {
    match output
    case None => None
    case Some(text) =>
      var tokens := Split(Trim(text), ' ');
      SplitPartsFree(Trim(text), ' ');
      if |tokens| > 1 && tokens[1] != "" then Some(tokens[1]) else None
  }

  predicate IsHash(h: string) { h != [] && forall i :: 0 <= i < |h| ==> IsHexDigit(h[i]) }

  /** What `git rev-list --parents -n 1 <hash>` prints: the commit, then its parents. */
  function RevListOutput(hash: string, parents: seq<string>): string
  {
    (if parents == [] then hash else hash + " " + Join(parents, ' ')) + "\n"
  }

  lemma HashHasNoSpace(h: string)
    requires IsHash(h)
    ensures ' ' !in h && !IsJsWhitespace(h[0]) && !IsJsWhitespace(h[|h| - 1])
  {
    if ' ' in h { assert false; }
  }

  /** A root commit: `rev-list` prints the hash alone, and there is no parent. */
  lemma RootHasNoParent(hash: string)
    requires IsHash(hash)
    ensures ParentFromRevList(Some(RevListOutput(hash, []))) == None
  {
    HashHasNoSpace(hash);
    TrimTrailingNewline(hash);
    SplitWithoutSep(hash, ' ');
  }

  /** The parent read back from `rev-list` is the first parent. */
  lemma FirstParentRead(hash: string, parents: seq<string>)
    requires IsHash(hash) && parents != []
    requires forall k :: 0 <= k < |parents| ==> IsHash(parents[k])
    ensures ParentFromRevList(Some(RevListOutput(hash, parents))) == Some(parents[0])
  {
    var text := RevListOutput(hash, parents);
    var line := hash + " " + Join(parents, ' ');
    assert text == line + "\n";
    RevListLineEnds(hash, parents, line);
    TrimTrailingNewline(line);
    RevListLineSplit(hash, parents, line);
    HashHasNoSpace(parents[0]);
    SecondToken(text, [hash] + parents);
  }

  /** The parent read from the output is its second space-separated token, when that is there. */
  lemma SecondToken(text: string, tokens: seq<string>)
    requires Split(Trim(text), ' ') == tokens && |tokens| > 1 && tokens[1] != ""
    ensures ParentFromRevList(Some(text)) == Some(tokens[1])
  {
  }

  /** The line `rev-list --parents` prints starts and ends with a hash digit. */
  lemma RevListLineEnds(hash: string, parents: seq<string>, line: string)
    requires IsHash(hash) && parents != []
    requires forall k :: 0 <= k < |parents| ==> IsHash(parents[k])
    requires line == hash + " " + Join(parents, ' ')
    ensures line != [] && !IsJsWhitespace(line[0]) && !IsJsWhitespace(line[|line| - 1])
  {
    var joined := Join(parents, ' ');
    HashHasNoSpace(hash);
    JoinEndsWithLast(parents, ' ');
    HashHasNoSpace(parents[|parents| - 1]);
    assert line[|line| - 1] == joined[|joined| - 1];
    assert line[0] == hash[0];
  }

  /** Splitting that line on single spaces gives the hash, then its parents. */
  lemma RevListLineSplit(hash: string, parents: seq<string>, line: string)
    requires IsHash(hash) && parents != []
    requires forall k :: 0 <= k < |parents| ==> IsHash(parents[k])
    requires line == hash + " " + Join(parents, ' ')
    ensures Split(line, ' ') == [hash] + parents
  {
    HashHasNoSpace(hash);
    forall k | 0 <= k < |parents| ensures ' ' !in parents[k] {
      HashHasNoSpace(parents[k]);
    }
    SplitJoin(parents, ' ');
    SplitAfterPrefix(hash, ' ', Join(parents, ' '));
  }
}
