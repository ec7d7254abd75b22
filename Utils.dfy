/**
 * The helpers of `src/utils.ts`: the status-code parser, the short hash, the file name of a
 * path, and the per-branch colour cache with its string hash.
 */
module Utils {
  import opened Wrappers
  import opened JsStrings

  // ---------------------------------------------------------------- parseGitStatus

  /** `{ type, similarity? }`. */
  datatype ParsedStatus = ParsedStatus(kind: string, similarity: Option<nat>)

  /** The status matches `^([A-Z])(\d+)?$`. */
  predicate IsStatusCode(status: string) {
    |status| >= 1 && IsUpper(status[0]) && AllDigits(status[1..])
  }

  /**
   * `parseGitStatus`: one upper-case letter, then an optional similarity score; anything
   * else is passed through whole as the type.
   */
  function ParseGitStatus(status: string): (r: ParsedStatus)
    ensures IsStatusCode(status) ==> r.kind == [status[0]]
    ensures !IsStatusCode(status) ==> r == ParsedStatus(status, None)
    ensures r.similarity.Some? <==> IsStatusCode(status) && |status| > 1
    ensures IsStatusCode(status) && |status| > 1 ==> r.similarity == Some(DigitsValue(status[1..]))
  {
    if IsStatusCode(status) then
      ParsedStatus([status[0]], if |status| > 1 then Some(DigitsValue(status[1..])) else None)
    else
      ParsedStatus(status, None)
  }

  /** A bare letter parses to itself with no similarity. */
  lemma ParseLetter(letter: char)
    requires IsUpper(letter)
    ensures ParseGitStatus([letter]) == ParsedStatus([letter], None)
  {
  }

  /** A letter followed by a run of digits parses to the letter and the digits' value. */
  lemma ParseLetterWithScore(letter: char, ds: string)
    requires IsUpper(letter) && ds != [] && AllDigits(ds)
    ensures ParseGitStatus([letter] + ds) == ParsedStatus([letter], Some(DigitsValue(ds)))
  {
    var s := [letter] + ds;
    assert s[1..] == ds;
  }

  /**
   * A letter followed by a score as git prints it, zero-padded to `width` digits (`R086` for
   * `%c%03d`), parses to the letter and the score.
   */
  lemma ParsePaddedScore(letter: char, score: nat, width: nat)
    requires IsUpper(letter)
    ensures ParseGitStatus([letter] + ZeroPadded(score, width)) == ParsedStatus([letter], Some(score))
  {
    ZeroPaddedRoundTrip(score, width);
    ParseLetterWithScore(letter, ZeroPadded(score, width));
  }

  // ---------------------------------------------------------------- shortHash, getFileNameByPath

  /** `hash.substring(0, 7)`. */
  function ShortHash(hash: string): (r: string)
    ensures |r| == if |hash| < 7 then |hash| else 7
    ensures r == hash[..|r|]
  {
    Take(hash, 7)
  }

  /** Shortening twice is shortening once. */
  lemma ShortHashIdempotent(hash: string)
    ensures ShortHash(ShortHash(hash)) == ShortHash(hash)
  {
  }

  /** `path.split('/').pop() || ''`. */
  function FileNameByPath(path: string): (name: string)
    ensures '/' !in name
    ensures |name| <= |path| && path[|path| - |name|..] == name
    ensures |name| < |path| ==> path[|path| - |name| - 1] == '/'
  {
    LastPartIsSuffix(path, '/');
    var last := LastPart(path, '/');
    if last == "" then "" else last
  }

  /** A path that ends in `/` has the empty file name. */
  lemma FileNameOfDirectoryPath(path: string)
    requires |path| > 0 && path[|path| - 1] == '/'
    ensures FileNameByPath(path) == ""
  {
    LastPartOfTrailingSep(path, '/');
  }

  /** A path without `/` is its own file name. */
  lemma FileNameOfBareName(path: string)
    requires '/' !in path
    ensures FileNameByPath(path) == path
  {
    SplitWithoutSep(path, '/');
  }

  // ---------------------------------------------------------------- getBranchColor: the hash

  const TwoTo31: int := 0x8000_0000
  const TwoTo32: int := 0x1_0000_0000

  /** ECMAScript ToInt32 on an integral number. */
  function ToInt32(x: int): (r: int)
    ensures -TwoTo31 <= r < TwoTo31
  {
    x - TwoTo32 * ((x + TwoTo31) / TwoTo32)
  }

  /**
   * One step of the loop: `hash = charCode + ((hash << 5) - hash)`. Only `hash << 5` is
   * reduced to 32 bits; the sum itself is kept as an exact number.
   */
  function HashStep(hash: int, c: char): int
  {
    c as int + (ToInt32(ToInt32(hash) * 32) - hash)
  }

  /** The value the loop leaves in `hash` after reading all of `s`. */
  function StringHash(s: string): int
    decreases |s|
  {
    if s == [] then 0 else HashStep(StringHash(s[..|s| - 1]), s[|s| - 1])
  }

  /** The classic 32-bit `h * 31 + c` fold, as an unsigned value. */
  function Fold32(s: string): (r: nat)
    ensures r < TwoTo32
    decreases |s|
  {
    if s == [] then 0 else (31 * Fold32(s[..|s| - 1]) + s[|s| - 1] as int) % TwoTo32
  }

  /** `Math.abs(hash) % 360`. */
  function BaseHue(name: string): (hue: nat)
    ensures hue < 360
  {
    var h := StringHash(name);
    (if h < 0 then -h else h) % 360
  }

  lemma ModOfShift(a: int, k: int)
    ensures (a + TwoTo32 * k) % TwoTo32 == a % TwoTo32
  {
  }

  /** The hash agrees with the 32-bit `h * 31 + c` fold modulo 2^32. */
  lemma {:induction false} StringHashIsFold32(s: string)
    ensures StringHash(s) % TwoTo32 == Fold32(s)
    decreases |s|
  {
    if s != [] {
      var p := s[..|s| - 1];
      var c := s[|s| - 1] as int;
      StringHashIsFold32(p);
      var h := StringHash(p);
      var k0 := (h + TwoTo31) / TwoTo32;
      var t := ToInt32(h) * 32;
      var k1 := (t + TwoTo31) / TwoTo32;
      assert ToInt32(t) == t - TwoTo32 * k1;
      assert t == 32 * h - TwoTo32 * (32 * k0);
      assert StringHash(s) == c + 31 * h + TwoTo32 * (-(32 * k0) - k1);
      ModOfShift(c + 31 * h, -(32 * k0) - k1);
      var q := h / TwoTo32;
      assert h == TwoTo32 * q + Fold32(p);
      assert c + 31 * h == c + 31 * Fold32(p) + TwoTo32 * (31 * q);
      ModOfShift(c + 31 * Fold32(p), 31 * q);
    }
  }

  /**
   * Each character moves the hash by at most 2^31 plus its code point, so for names shorter
   * than 2^21 characters the value stays an exactly representable double.
   */
  lemma {:induction false} StringHashBound(s: string)
    ensures -|s| * (TwoTo31 + 0x11_0000) <= StringHash(s) <= |s| * (TwoTo31 + 0x11_0000)
    decreases |s|
  {
    if s != [] {
      StringHashBound(s[..|s| - 1]);
    }
  }

  // ---------------------------------------------------------------- getBranchColor: the cache

  /**
   * The module-level `branchColorCache` and `colorCounter`. The floating-point hue and the
   * `hsl(...)` text are left abstract: `colorOf(baseHue, counter)` stands for them.
   */
  class BranchColors {
    var cache: map<string, string>
    var counter: nat
    const colorOf: (nat, nat) -> string

    constructor (colorOf: (nat, nat) -> string)
      ensures cache == map[] && counter == 0 && this.colorOf == colorOf
    {
      cache := map[];
      counter := 0;
      this.colorOf := colorOf;
    }

    /** The hash loop of `getBranchColor`. */
    static method HashOf(name: string) returns (hash: int)
      ensures hash == StringHash(name)
    {
      hash := 0;
      var i := 0;
      while i < |name|
        invariant 0 <= i <= |name|
        invariant hash == StringHash(name[..i])
      {
        assert name[..i + 1][..i] == name[..i];
        hash := name[i] as int + (ToInt32(ToInt32(hash) * 32) - hash);
        i := i + 1;
      }
      assert name[..i] == name;
    }

    /**
     * `getBranchColor`: a cached name gets its colour back and nothing changes; a new name
     * gets the colour of its base hue and the current counter, which then goes up by one.
     */
    method GetBranchColor(name: string) returns (color: string)
      modifies this
      ensures name in old(cache) ==> color == old(cache)[name] && cache == old(cache) && counter == old(counter)
      ensures name !in old(cache) ==>
        && color == colorOf(BaseHue(name), old(counter))
        && cache == old(cache)[name := color]
        && counter == old(counter) + 1
      ensures name in cache && cache[name] == color
    {
      if name in cache {
        return cache[name];
      }
      var hash := HashOf(name);
      var baseHue := (if hash < 0 then -hash else hash) % 360;
      color := colorOf(baseHue, counter);
      counter := counter + 1;
      cache := cache[name := color];
    }
  }

  /** Asking twice for the same branch gives the same colour and moves the counter once. */
  method SameBranchTwice(colors: BranchColors, name: string) returns (first: string, second: string)
    modifies colors
    ensures first == second
    ensures colors.counter == old(colors.counter) + (if name in old(colors.cache) then 0 else 1)
  {
    first := colors.GetBranchColor(name);
    second := colors.GetBranchColor(name);
  }
}
