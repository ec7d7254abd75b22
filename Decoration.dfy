/**
 * The two lookup tables of `src/decoration/utils.ts`: the theme colour id and the tooltip of
 * a file's Git status. Both tables have the same six keys; `C` (copied) is not among them.
 */
module Decoration {
  import opened Wrappers
  import opened GitTypes

  /** The statuses both tables know. */
  predicate InTable(status: string) {
    status in {Modified, Deleted, Added, Renamed, Untracked, Ignored}
  }

  /** `gitStatusColorMap[status]`: `None` where JavaScript reads `undefined`. */
  function ColorName(status: string): (r: Option<string>)
    ensures r.Some? <==> InTable(status)
  {
    if status == Modified then Some("modifiedResourceForeground")
    else if status == Deleted then Some("deletedResourceForeground")
    else if status == Added then Some("addedResourceForeground")
    else if status == Renamed then Some("renamedResourceForeground")
    else if status == Untracked then Some("untrackedResourceForeground")
    else if status == Ignored then Some("ignoredResourceForeground")
    else None
  }

  /** `gitStatusTooltipMap[status]`. */
  function TooltipName(status: string): (r: Option<string>)
    ensures r.Some? <==> InTable(status)
  {
    if status == Modified then Some("Modified")
    else if status == Deleted then Some("Deleted")
    else if status == Added then Some("Added")
    else if status == Renamed then Some("Renamed")
    else if status == Untracked then Some("Untracked")
    else if status == Ignored then Some("Ignored")
    else None
  }

  const ColorPrefix: string := "gitDecoration."

  /**
   * `getColor`: the id of the `ThemeColor`. A status outside the table is interpolated as
   * `undefined`, giving `gitDecoration.undefined`.
   */
  function ColorId(status: string): (r: string)
    ensures |r| > |ColorPrefix| && r[..|ColorPrefix|] == ColorPrefix
    ensures InTable(status) ==> r[|ColorPrefix|..] == ColorName(status).value
    ensures !InTable(status) ==> r == ColorPrefix + "undefined"
  {
    ColorPrefix + ColorName(status).GetOr("undefined")
  }

  /**
   * `getTooltipForStatus`: the table's word, or the status itself when the table has no
   * entry (every word in the table is non-empty, so `||` only falls back on a miss).
   */
  function Tooltip(status: string): (r: string)
    ensures InTable(status) ==> r == TooltipName(status).value
    ensures r != status <==> InTable(status)
    ensures r != ""  <==> status != ""
  {
    TooltipName(status).GetOr(status)
  }

  /** Different known statuses get different colours. */
  lemma ColorIdInjective(s1: string, s2: string)
    requires InTable(s1) && InTable(s2) && ColorId(s1) == ColorId(s2)
    ensures s1 == s2
  {
    assert ColorId(s1)[|ColorPrefix|..] == ColorId(s2)[|ColorPrefix|..];
  }

  /** `C` is a `GIT_STATUS` letter the tables miss. */
  lemma CopiedHasNoEntry()
    ensures ColorId(Copied) == "gitDecoration.undefined"
    ensures Tooltip(Copied) == "C"
  {
  }
}
