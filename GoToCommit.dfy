/**
 * The "go to commit" command (`src/commands/goToCommit.ts`): the input box's validator and
 * what the command does with the text it gets back.
 */
module GoToCommit {
  import opened Wrappers
  import opened JsStrings

  const MinHashLength: nat := 7
  const TooShort: string := "Commit hash must be at least 7 characters"
  const NotHex: string := "Commit hash must contain only hexadecimal characters"

  /** `/^[a-f0-9]+$/i`. */
  predicate AllHex(s: string) {
    |s| > 0 && forall i :: 0 <= i < |s| ==> IsHexDigit(s[i])
  }

  /**
   * `validateInput`: `None` (JavaScript `undefined`) accepts the text; otherwise the message
   * shown. The length rule is tried before the character rule.
   */
  function ValidateInput(value: string): (r: Option<string>)
    ensures r == None <==> |value| >= MinHashLength && AllHex(value)
    ensures |value| < MinHashLength ==> r == Some(TooShort)
    ensures |value| >= MinHashLength && !AllHex(value) ==> r == Some(NotHex)
  {
    if value == "" || |value| < MinHashLength then Some(TooShort)
    else if !AllHex(value) then Some(NotHex)
    else None
  }

  /** What the command asks of the history view: `refreshHistory(forceRefresh, { search })`. */
  datatype Refresh = Refresh(forceRefresh: bool, search: string)

  /**
   * The text the input box resolved with (`None` when the user dismissed it) leads to a
   * forced refresh that searches for it, unless it is empty.
   */
  function AfterInput(hash: Option<string>): (r: Option<Refresh>)
    ensures r.Some? <==> hash.Some? && hash.value != ""
    ensures r.Some? ==> r.value.forceRefresh && r.value.search == hash.value
  {
    match hash
    case None => None
    case Some(h) => if h == "" then None else Some(Refresh(true, h))
  }

  /** A text the validator accepts, once submitted, is searched for as typed. */
  lemma AcceptedInputIsSearched(value: string)
    requires ValidateInput(value) == None
    ensures AfterInput(Some(value)) == Some(Refresh(true, value))
  {
  }
}
