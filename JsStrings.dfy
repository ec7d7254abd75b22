/**
 * The JavaScript string built-ins the source relies on, stated over `seq<char>`:
 * `split` on one character, `join`, `trim`, global `replace` of one character,
 * `slice(0, n)`, `includes`, and the digit/number conversions used with `parseInt`.
 */
module JsStrings {

  // ---------------------------------------------------------------- characters

  /** ASCII `\d`. */
  predicate IsDigit(c: char) { '0' <= c <= '9' }

  /** ASCII `[A-Z]`. */
  predicate IsUpper(c: char) { 'A' <= c <= 'Z' }

  /** `[a-f0-9]` under the `i` flag. */
  predicate IsHexDigit(c: char) { '0' <= c <= '9' || 'a' <= c <= 'f' || 'A' <= c <= 'F' }

  /** The characters `String.prototype.trim` removes: WhiteSpace and LineTerminator. */
  predicate IsJsWhitespace(c: char) {
    c == ' ' || c == '\t' || c == '\n' || c == '\r' || c == '\U{B}' || c == '\U{C}'
    || c == '\U{A0}' || c == '\U{1680}' || ('\U{2000}' <= c <= '\U{200A}')
    || c == '\U{2028}' || c == '\U{2029}' || c == '\U{202F}' || c == '\U{205F}'
    || c == '\U{3000}' || c == '\U{FEFF}'
  }

  predicate AllDigits(s: string) { forall i :: 0 <= i < |s| ==> IsDigit(s[i]) }

  // ---------------------------------------------------------------- split / join

  /** `s.split(sep)`: always at least one part; `"".split(sep)` is `[""]`. */
  function Split(s: string, sep: char): (parts: seq<string>)
    ensures |parts| >= 1
    decreases |s|
  {
    if s == [] then [""]
    else
      var rest := Split(s[1..], sep);
      if s[0] == sep then [""] + rest
      else [[s[0]] + rest[0]] + rest[1..]
  }

  /** `parts.join(sep)`. */
  function Join(parts: seq<string>, sep: char): string
  {
    if |parts| == 0 then ""
    else if |parts| == 1 then parts[0]
    else parts[0] + [sep] + Join(parts[1..], sep)
  }

  /** A join ends with the last character of its last part. */
  lemma {:induction false} JoinEndsWithLast(parts: seq<string>, sep: char)
    requires |parts| >= 1 && parts[|parts| - 1] != []
    ensures var j := Join(parts, sep); j != [] && j[|j| - 1] == parts[|parts| - 1][|parts[|parts| - 1]| - 1]
    decreases |parts|
  {
    if |parts| > 1 {
      JoinEndsWithLast(parts[1..], sep);
    }
  }

  /** No part of a split contains the separator. */
  lemma {:induction false} SplitPartsFree(s: string, sep: char)
    ensures forall k :: 0 <= k < |Split(s, sep)| ==> sep !in Split(s, sep)[k]
    decreases |s|
  {
    if s != [] {
      SplitPartsFree(s[1..], sep);
      var rest := Split(s[1..], sep);
      if s[0] != sep {
        var parts := Split(s, sep);
        forall k | 0 <= k < |parts| ensures sep !in parts[k] {
          if k == 0 {
            assert parts[0] == [s[0]] + rest[0];
          } else {
            assert parts[k] == rest[k];
          }
        }
      }
    }
  }

  /** Joining the parts of a split gives back the string. */
  lemma {:induction false} JoinSplit(s: string, sep: char)
    ensures Join(Split(s, sep), sep) == s
    decreases |s|
  {
    if s != [] {
      JoinSplit(s[1..], sep);
      var rest := Split(s[1..], sep);
      if s[0] == sep {
        assert ([""] + rest)[1..] == rest;
      } else {
        var parts := [[s[0]] + rest[0]] + rest[1..];
        if |rest| == 1 {
          assert Join(rest, sep) == rest[0];
        } else {
          assert parts[1..] == rest[1..];
          assert Join(rest, sep) == rest[0] + [sep] + Join(rest[1..], sep);
        }
      }
    }
  }

  /** A string without the separator splits into itself alone. */
  lemma {:induction false} SplitWithoutSep(s: string, sep: char)
    requires sep !in s
    ensures Split(s, sep) == [s]
    decreases |s|
  {
    if s != [] {
      assert sep !in s[1..];
      SplitWithoutSep(s[1..], sep);
      assert s == [s[0]] + s[1..];
    }
  }

  /** Splitting at the first separator: the first part is what precedes it. */
  lemma {:induction false} SplitAtFirst(s: string, sep: char, i: nat)
    requires i < |s| && s[i] == sep && sep !in s[..i]
    ensures Split(s, sep) == [s[..i]] + Split(s[i + 1..], sep)
    decreases i
  {
    if i > 0 {
      assert s[..i][0] == s[0];
      assert s[1..][..i - 1] == s[..i][1..];
      SplitAtFirst(s[1..], sep, i - 1);
      assert s[1..][i..] == s[i + 1..];
      var rest := Split(s[1..], sep);
      assert rest[0] == s[1..i];
      assert [s[0]] + s[1..i] == s[..i];
    }
  }

  /** Splitting a string built by `prefix + [sep] + suffix`; the prefix holds no separator. */
  lemma SplitAfterPrefix(prefix: string, sep: char, suffix: string)
    requires sep !in prefix
    ensures Split(prefix + [sep] + suffix, sep) == [prefix] + Split(suffix, sep)
  {
    var s := prefix + [sep] + suffix;
    assert s[..|prefix|] == prefix;
    assert s[|prefix| + 1..] == suffix;
    SplitAtFirst(s, sep, |prefix|);
  }

  /** `parts.join(sep).split(sep)` is `parts` when no part holds the separator. */
  lemma {:induction false} SplitJoin(parts: seq<string>, sep: char)
    requires |parts| >= 1
    requires forall k :: 0 <= k < |parts| ==> sep !in parts[k]
    ensures Split(Join(parts, sep), sep) == parts
    decreases |parts|
  {
    if |parts| == 1 {
      SplitWithoutSep(parts[0], sep);
    } else {
      SplitJoin(parts[1..], sep);
      SplitAfterPrefix(parts[0], sep, Join(parts[1..], sep));
    }
  }

  /** The text after the first occurrence of `sep`, or `""` when there is none. */
  function AfterFirst(s: string, sep: char): (r: string)
    ensures |r| <= |s|
    decreases |s|
  {
    if s == [] then "" else if s[0] == sep then s[1..] else AfterFirst(s[1..], sep)
  }

  /** The text before the first occurrence of `sep`, or all of `s`. */
  function BeforeFirst(s: string, sep: char): (r: string)
    ensures |r| <= |s|
    decreases |s|
  {
    if s == [] then "" else if s[0] == sep then "" else [s[0]] + BeforeFirst(s[1..], sep)
  }

  /**
   * `const [head, ...rest] = s.split(sep)`: `head` is the text before the first separator
   * and `rest.join(sep)` is the text after it, separators included.
   */
  lemma {:induction false} SplitHeadAndTail(s: string, sep: char)
    ensures Split(s, sep)[0] == BeforeFirst(s, sep)
    ensures Join(Split(s, sep)[1..], sep) == AfterFirst(s, sep)
    ensures BeforeFirst(s, sep) + (if sep in s then [sep] + AfterFirst(s, sep) else "") == s
    decreases |s|
  {
    if s != [] {
      SplitHeadAndTail(s[1..], sep);
      var rest := Split(s[1..], sep);
      if s[0] == sep {
        assert ([""] + rest)[1..] == rest;
        JoinSplit(s[1..], sep);
      } else {
        assert ([[s[0]] + rest[0]] + rest[1..])[1..] == rest[1..];
        assert (sep in s) == (sep in s[1..]);
      }
    }
  }

  // ---------------------------------------------------------------- last segment

  /** `s.split(sep).pop()`: the last part. */
  function LastPart(s: string, sep: char): string
  {
    var parts := Split(s, sep);
    parts[|parts| - 1]
  }

  /**
   * The last part is the longest suffix of `s` free of `sep`: what follows the last
   * separator, `""` when `s` ends with one, and all of `s` when it has none.
   */
  lemma {:induction false} LastPartIsSuffix(s: string, sep: char)
    ensures var r := LastPart(s, sep);
      && |r| <= |s| && s[|s| - |r|..] == r && sep !in r
      && (|r| < |s| ==> s[|s| - |r| - 1] == sep)
    decreases |s|
  {
    SplitPartsFree(s, sep);
    if s != [] {
      LastPartIsSuffix(s[1..], sep);
      var rest := Split(s[1..], sep);
      if s[0] == sep {
        assert Split(s, sep) == [""] + rest;
      } else if |rest| > 1 {
        SplitSingle(s[1..], sep);
        var r := rest[|rest| - 1];
        assert Split(s, sep)[|Split(s, sep)| - 1] == r;
        assert s[1..][|s| - 1 - |r|..] == r;
      } else {
        SplitSingle(s[1..], sep);
        SplitWithoutSep(s[1..], sep);
        assert Split(s, sep) == [[s[0]] + s[1..]];
        assert s == [s[0]] + s[1..];
      }
    }
  }

  /** A split has a single part exactly when the separator does not occur. */
  lemma {:induction false} SplitSingle(s: string, sep: char)
    ensures |Split(s, sep)| == 1 <==> sep !in s
    decreases |s|
  {
    if s != [] {
      SplitSingle(s[1..], sep);
      assert (sep in s) == (s[0] == sep || sep in s[1..]);
    }
  }

  /** A string ending in the separator has an empty last part. */
  lemma LastPartOfTrailingSep(s: string, sep: char)
    requires |s| > 0 && s[|s| - 1] == sep
    ensures LastPart(s, sep) == ""
  {
    LastPartIsSuffix(s, sep);
  }

  // ---------------------------------------------------------------- trim

  function TrimStart(s: string): (r: string)
    ensures |r| <= |s| && r == s[|s| - |r|..]
    ensures r == [] || !IsJsWhitespace(r[0])
    decreases |s|
  {
    if s != [] && IsJsWhitespace(s[0]) then TrimStart(s[1..]) else s
  }

  function TrimEnd(s: string): (r: string)
    ensures |r| <= |s| && r == s[..|r|]
    ensures r == [] || !IsJsWhitespace(r[|r| - 1])
    decreases |s|
  {
    if s != [] && IsJsWhitespace(s[|s| - 1]) then TrimEnd(s[..|s| - 1]) else s
  }

  /** `s.trim()`. */
  function Trim(s: string): (r: string)
  {
    TrimEnd(TrimStart(s))
  }

  /**
   * What `trim` returns: the piece of `s` that starts at `TrimOffset(s)`, with no whitespace
   * at either end, such that everything cut off on either side is whitespace.
   */
  lemma {:induction false} TrimSpec(s: string)
    ensures var r, a := Trim(s), TrimOffset(s);
      && (r == [] || (!IsJsWhitespace(r[0]) && !IsJsWhitespace(r[|r| - 1])))
      && a + |r| <= |s| && s[a..a + |r|] == r
      && (forall k :: 0 <= k < a ==> IsJsWhitespace(s[k]))
      && (forall k :: a + |r| <= k < |s| ==> IsJsWhitespace(s[k]))
  {
    var t := TrimStart(s);
    var r := TrimEnd(t);
    var a := TrimOffset(s);
    TrimStartCut(s);
    TrimEndCut(t);
    TrimPieces(s, t, r, a);
  }

  /** A piece `r` at the front of the suffix `t` of `s` that starts at `a`, and what lies after it. */
  lemma TrimPieces(s: string, t: string, r: string, a: nat)
    requires a <= |s| && t == s[a..] && |r| <= |t| && r == t[..|r|]
    requires forall k :: |r| <= k < |t| ==> IsJsWhitespace(t[k])
    requires t == [] || !IsJsWhitespace(t[0])
    ensures r == [] || !IsJsWhitespace(r[0])
    ensures a + |r| <= |s| && s[a..a + |r|] == r
    ensures forall k :: a + |r| <= k < |s| ==> IsJsWhitespace(s[k])
  {
    forall k | a + |r| <= k < |s| ensures IsJsWhitespace(s[k]) {
      assert s[k] == t[k - a];
    }
  }

  /** Where the trimmed text starts in `s`. */
  function TrimOffset(s: string): nat
  {
    |s| - |TrimStart(s)|
  }

  lemma {:induction false} TrimStartCut(s: string)
    ensures forall k :: 0 <= k < TrimOffset(s) ==> IsJsWhitespace(s[k])
    decreases |s|
  {
    if s != [] && IsJsWhitespace(s[0]) {
      TrimStartCut(s[1..]);
    }
  }

  lemma {:induction false} TrimEndCut(s: string)
    ensures forall k :: |TrimEnd(s)| <= k < |s| ==> IsJsWhitespace(s[k])
    decreases |s|
  {
    if s != [] && IsJsWhitespace(s[|s| - 1]) {
      TrimEndCut(s[..|s| - 1]);
    }
  }

  /** `trim` leaves alone a string with no whitespace at its ends. */
  lemma TrimUntouched(s: string)
    requires s == [] || (!IsJsWhitespace(s[0]) && !IsJsWhitespace(s[|s| - 1]))
    ensures Trim(s) == s
  {
  }

  // ---------------------------------------------------------------- replace, slice, includes

  /** `s.replace(/c/g, '')`: every `c` removed. */
  function RemoveAll(s: string, c: char): (r: string)
    ensures c !in r
    ensures forall x :: x != c ==> (x in r <==> x in s)
    ensures c !in s ==> r == s
  {
    if s == [] then ""
    else (if s[0] == c then "" else [s[0]]) + RemoveAll(s[1..], c)
  }

  /** `.filter(line => line.length > 0)`. */
  function NonEmpty(lines: seq<string>): (r: seq<string>)
    ensures |r| <= |lines|
    ensures forall k :: 0 <= k < |r| ==> r[k] != "" && r[k] in lines
    ensures (forall k :: 0 <= k < |lines| ==> lines[k] != "") ==> r == lines
  {
    if lines == [] then []
    else if lines[0] == "" then NonEmpty(lines[1..])
    else [lines[0]] + NonEmpty(lines[1..])
  }

  /** The lines of a command's output: `output.trim().split('\n').filter(Boolean)`. */
  function OutputLines(output: string): seq<string>
  {
    NonEmpty(Split(Trim(output), '\n'))
  }

  /**
   * Lines that are non-empty, free of newlines and with no whitespace at the two ends of the
   * whole output all survive the pipeline, in order.
   */
  lemma OutputOfLines(lines: seq<string>)
    requires |lines| >= 1
    requires forall k :: 0 <= k < |lines| ==> lines[k] != "" && '\n' !in lines[k]
    requires !IsJsWhitespace(lines[0][0])
    requires !IsJsWhitespace(lines[|lines| - 1][|lines[|lines| - 1]| - 1])
    ensures OutputLines(Join(lines, '\n')) == lines
  {
    var out := Join(lines, '\n');
    JoinEndsWithLast(lines, '\n');
    assert out[0] == lines[0][0];
    TrimUntouched(out);
    SplitJoin(lines, '\n');
  }

  /** Filtering commutes with appending one more element. */
  lemma {:induction false} NonEmptyAppend(lines: seq<string>, d: string)
    ensures NonEmpty(lines + [d]) == NonEmpty(lines) + (if d == "" then [] else [d])
  {
    if lines != [] {
      assert (lines + [d])[1..] == lines[1..] + [d];
      NonEmptyAppend(lines[1..], d);
    }
  }

  /** Joining one more part appends the separator and the part. */
  lemma {:induction false} JoinAppend(parts: seq<string>, sep: char, d: string)
    requires |parts| >= 1
    ensures Join(parts + [d], sep) == Join(parts, sep) + [sep] + d
  {
    if |parts| > 1 {
      assert (parts + [d])[1..] == parts[1..] + [d];
      JoinAppend(parts[1..], sep, d);
    }
  }

  /** No element twice, as in the key order of a `Map`. */
  predicate Distinct<T(==)>(s: seq<T>) {
    forall i, j :: 0 <= i < j < |s| ==> s[i] != s[j]
  }

  /** `a.slice(0, n)` / `s.substring(0, n)` for `n >= 0`. */
  function Take<T>(s: seq<T>, n: nat): (r: seq<T>)
    ensures |r| == if n <= |s| then n else |s|
    ensures r == s[..|r|]
  {
    if n <= |s| then s[..n] else s
  }

  predicate StartsWith(s: string, prefix: string) {
    |prefix| <= |s| && s[..|prefix|] == prefix
  }

  /** `s.includes(t)`. */
  predicate Contains(s: string, t: string)
    decreases |s|
  {
    StartsWith(s, t) || (s != [] && Contains(s[1..], t))
  }

  /** `t` occurs in `s` at position `i`. */
  predicate OccursAt(s: string, t: string, i: int) {
    0 <= i <= |s| - |t| && s[i..i + |t|] == t
  }

  /** `includes` holds exactly when `t` occurs at some position of `s`. */
  lemma {:induction false} ContainsAt(s: string, t: string)
    ensures Contains(s, t) <==> exists i :: OccursAt(s, t, i)
    decreases |s|
  {
    if StartsWith(s, t) {
      assert OccursAt(s, t, 0);
    }
    if s != [] {
      ContainsAt(s[1..], t);
      if exists i :: OccursAt(s, t, i) {
        var i :| OccursAt(s, t, i);
        if i > 0 {
          assert s[1..][i - 1..i - 1 + |t|] == t;
          assert OccursAt(s[1..], t, i - 1);
        }
      }
      if Contains(s[1..], t) {
        var i :| OccursAt(s[1..], t, i);
        assert s[i + 1..i + 1 + |t|] == t;
        assert OccursAt(s, t, i + 1);
      }
    }
  }

  /** `t` is found wherever it is placed. */
  lemma {:induction false} ContainsMiddle(a: string, t: string, b: string)
    ensures Contains(a + t + b, t)
    decreases |a|
  {
    if a == [] {
      assert (a + t + b)[..|t|] == t;
    } else {
      ContainsMiddle(a[1..], t, b);
      assert (a + t + b)[1..] == a[1..] + t + b;
    }
  }

  /** `trim` on a line with a trailing newline and no other outer whitespace. */
  lemma TrimTrailingNewline(x: string)
    requires x != [] && !IsJsWhitespace(x[0]) && !IsJsWhitespace(x[|x| - 1])
    ensures Trim(x + "\n") == x
  {
    var s := x + "\n";
    assert s[0] == x[0];
    assert TrimStart(s) == s;
    assert s[..|s| - 1] == x;
    assert TrimEnd(s) == TrimEnd(x);
  }

  /** `trim` of a text whose start is not whitespace and which ends in a newline. */
  lemma TrimKeepsStart(x: string)
    requires x != [] && !IsJsWhitespace(x[0]) && !IsJsWhitespace(x[|x| - 1])
    ensures TrimStart(x) == x && TrimEnd(x) == x
  {
  }

  /** The last part of `front + [sep] + line` is `line` when `line` holds no separator. */
  lemma LastPartAfterSep(front: string, sep: char, line: string)
    requires sep !in line
    ensures LastPart(front + [sep] + line, sep) == line
  {
    var s := front + [sep] + line;
    LastPartIsSuffix(s, sep);
    var r := LastPart(s, sep);
    assert s[|s| - |line|..] == line;
    assert s[|s| - |line| - 1] == sep;
  }

  /** Whitespace in front of a text with a visible character is what `trimStart` removes. */
  lemma {:induction false} TrimStartConcat(a: string, b: string)
    requires exists i :: 0 <= i < |a| && !IsJsWhitespace(a[i])
    ensures TrimStart(a + b) == TrimStart(a) + b
    decreases |a|
  {
    if IsJsWhitespace(a[0]) {
      var i :| 0 <= i < |a| && !IsJsWhitespace(a[i]);
      assert !IsJsWhitespace(a[1..][i - 1]);
      assert (a + b)[1..] == a[1..] + b;
      TrimStartConcat(a[1..], b);
    } else {
      assert (a + b)[0] == a[0];
    }
  }

  /** A trailing newline after a visible last character is all `trimEnd` removes. */
  lemma TrimEndNewline(t: string)
    requires t != [] && !IsJsWhitespace(t[|t| - 1])
    ensures TrimEnd(t + "\n") == t
  {
    assert (t + "\n")[..|t|] == t;
  }

  lemma Regroup(a: string, b: string)
    ensures a + "\n" + b + "\n" == a + ("\n" + b + "\n")
  {
    var x, y := a + "\n" + b + "\n", a + ("\n" + b + "\n");
    assert |x| == |y|;
    forall k | 0 <= k < |x| ensures x[k] == y[k] {
      if k < |a| { } else if k == |a| { } else if k < |a| + 1 + |b| { } else { }
    }
  }

  lemma TrimStartOfOutput(front: string, line: string)
    requires exists i :: 0 <= i < |front| && !IsJsWhitespace(front[i])
    ensures TrimStart(front + "\n" + line + "\n") == TrimStart(front) + "\n" + line + "\n"
  {
    Regroup(front, line);
    TrimStartConcat(front, "\n" + line + "\n");
    Regroup(TrimStart(front), line);
  }

  lemma LastOfConcat(a: string, b: string)
    requires b != []
    ensures (a + b)[|a + b| - 1] == b[|b| - 1]
  {
  }

  /** `trim` of an output made of some text, a line and a final newline. */
  lemma TrimOfOutput(front: string, line: string)
    requires exists i :: 0 <= i < |front| && !IsJsWhitespace(front[i])
    requires line != [] && !IsJsWhitespace(line[|line| - 1])
    ensures Trim(front + "\n" + line + "\n") == TrimStart(front) + "\n" + line
  {
    var x := front + "\n" + line + "\n";
    var t := TrimStart(front) + "\n" + line;
    TrimStartOfOutput(front, line);
    assert TrimStart(x) == t + "\n";
    LastOfConcat(TrimStart(front) + "\n", line);
    TrimEndNewline(t);
  }

  /**
   * The last line of a trimmed output that ends with `line` and a newline, after some text
   * with a visible character, is `line`.
   */
  lemma LastLineOfOutput(front: string, line: string)
    requires exists i :: 0 <= i < |front| && !IsJsWhitespace(front[i])
    requires line != [] && '\n' !in line && !IsJsWhitespace(line[|line| - 1])
    ensures LastPart(Trim(front + "\n" + line + "\n"), '\n') == line
  {
    TrimOfOutput(front, line);
    LastPartAfterSep(TrimStart(front), '\n', line);
  }

  // ---------------------------------------------------------------- numbers

  function DigitValue(c: char): nat
    requires IsDigit(c)
  {
    (c as int - '0' as int) as nat
  }

  function DigitChar(d: nat): (c: char)
    requires d < 10
    ensures IsDigit(c) && DigitValue(c) == d
  {
    ('0' as int + d) as char
  }

  /** The value of a run of decimal digits: `Number.parseInt(ds, 10)`. */
  function DigitsValue(ds: string): nat
    requires AllDigits(ds)
  {
    if ds == [] then 0 else DigitsValue(ds[..|ds| - 1]) * 10 + DigitValue(ds[|ds| - 1])
  }

  /** The decimal rendering of `n`, as `String(n)`. */
  function NatToString(n: nat): (s: string)
    decreases n
  {
    if n < 10 then [DigitChar(n)] else NatToString(n / 10) + [DigitChar(n % 10)]
  }

  /** Reading back a rendered number gives the number. */
  lemma {:induction false} NatToStringRoundTrip(n: nat)
    ensures |NatToString(n)| >= 1 && AllDigits(NatToString(n))
    ensures DigitsValue(NatToString(n)) == n
    decreases n
  {
    if n >= 10 {
      NatToStringRoundTrip(n / 10);
      var s := NatToString(n);
      assert s[..|s| - 1] == NatToString(n / 10);
    }
  }

  /** `k` zero digits. */
  function Zeros(k: nat): (z: string)
    ensures |z| == k && AllDigits(z)
  {
    if k == 0 then [] else Zeros(k - 1) + ['0']
  }

  /** The decimal rendering of `n` padded with zeros to at least `width` digits, as `%0<width>d` prints it. */
  function ZeroPadded(n: nat, width: nat): string
  {
    var ds := NatToString(n);
    if |ds| < width then Zeros(width - |ds|) + ds else ds
  }

  /** A leading zero does not change the value of a digit run. */
  lemma {:induction false} LeadingZero(ds: string)
    requires AllDigits(ds)
    ensures AllDigits(['0'] + ds) && DigitsValue(['0'] + ds) == DigitsValue(ds)
    decreases |ds|
  {
    if ds != [] {
      var init := ds[..|ds| - 1];
      LeadingZero(init);
      assert (['0'] + ds)[..|ds|] == ['0'] + init;
    }
  }

  /** Leading zeros do not change the value of a digit run. */
  lemma {:induction false} LeadingZeros(k: nat, ds: string)
    requires AllDigits(ds)
    ensures AllDigits(Zeros(k) + ds) && DigitsValue(Zeros(k) + ds) == DigitsValue(ds)
    decreases k
  {
    if k > 0 {
      LeadingZero(ds);
      LeadingZeros(k - 1, ['0'] + ds);
      assert Zeros(k) == Zeros(k - 1) + ['0'];
      assert Zeros(k) + ds == Zeros(k - 1) + (['0'] + ds);
    } else {
      assert Zeros(k) + ds == ds;
    }
  }

  /** A zero-padded rendering is a non-empty digit run, at least `width` long, that reads back to the number. */
  lemma ZeroPaddedRoundTrip(n: nat, width: nat)
    ensures var ds := ZeroPadded(n, width);
      |ds| >= 1 && |ds| >= width && AllDigits(ds) && DigitsValue(ds) == n
  {
    NatToStringRoundTrip(n);
    var ds := NatToString(n);
    if |ds| < width {
      LeadingZeros(width - |ds|, ds);
    }
  }
}
