/**
 * `normalizeGitUrl` of `src/storage-new.ts`: the remote URL of a repository turned into the
 * file-name-safe key under which the multi-tier store keeps the project. Each regular
 * expression replacement is one function here, applied in the source's order.
 */
module GitUrls {
  import opened Wrappers
  import opened JsStrings

  /** The index of the first `c` in `s`. */
  function IndexOf(s: string, c: char): (r: Option<nat>)
    ensures r.Some? ==> r.value < |s| && s[r.value] == c && c !in s[..r.value]
    ensures r.None? <==> c !in s
  {
    if s == [] then None
    else if s[0] == c then Some(0)
    else match IndexOf(s[1..], c)
      case None => None
      case Some(i) =>
        assert s[..i + 1] == [s[0]] + s[1..][..i];
        Some(i + 1)
  }

  /** `s.startsWith(p)` spelled out on indices. */
  predicate HasPrefix(s: string, p: string) { |p| <= |s| && s[..|p|] == p }

  /** `s.replace(/^https?:\/\/[^@]+@/, 'https://')`: credentials before the host are dropped. */
  function StripCredentials(s: string): string
  {
    var scheme := if HasPrefix(s, "https://") then 8 else if HasPrefix(s, "http://") then 7 else 0;
    if scheme == 0 then s
    else
      var rest := s[scheme..];
      match IndexOf(rest, '@')
      case Some(i) => if i >= 1 then "https://" + rest[i + 1..] else s
      case None => s
  }

  /** `s.replace(/^git@([^:]+):/, 'https://$1/')`: the scp-like SSH form becomes a URL. */
  function SshToHttps(s: string): string
  {
    if !HasPrefix(s, "git@") then s
    else
      var rest := s[4..];
      match IndexOf(rest, ':')
      case Some(j) => if j >= 1 then "https://" + rest[..j] + "/" + rest[j + 1..] else s
      case None => s
  }

  /** `s.replace(/\.git$/, '')`. */
  function DropGitSuffix(s: string): string
  {
    if |s| >= 4 && s[|s| - 4..] == ".git" then s[..|s| - 4] else s
  }

  /** `toLowerCase()` on the ASCII letters. */
  function LowerAscii(s: string): (r: string)
    ensures |r| == |s|
    ensures forall k :: 0 <= k < |s| ==> r[k] == LowerChar(s[k])
  {
    if s == [] then [] else [LowerChar(s[0])] + LowerAscii(s[1..])
  }

  function LowerChar(c: char): char {
    if 'A' <= c <= 'Z' then (c as int + 32) as char else c
  }

  predicate SafeChar(c: char) { 'a' <= c <= 'z' || '0' <= c <= '9' || c == '-' }

  /** `replace(/[^a-z0-9]/g, '-')`. */
  function Sanitize(s: string): (r: string)
    ensures |r| == |s|
    ensures forall k :: 0 <= k < |s| ==> r[k] == (if 'a' <= s[k] <= 'z' || '0' <= s[k] <= '9' then s[k] else '-')
  {
    if s == [] then []
    else [if 'a' <= s[0] <= 'z' || '0' <= s[0] <= '9' then s[0] else '-'] + Sanitize(s[1..])
  }

  /** The three rewriting steps, before the characters are mapped. */
  function Rewritten(url: string): string
  {
    DropGitSuffix(SshToHttps(StripCredentials(url)))
  }

  /** `normalizeGitUrl`: every character of the key is a lower-case letter, a digit or `-`. */
  function NormalizeGitUrl(url: string): (key: string)
    ensures forall k :: 0 <= k < |key| ==> SafeChar(key[k])
    ensures |key| == |Rewritten(url)|
  {
    Sanitize(LowerAscii(Rewritten(url)))
  }

  predicate AllSafe(s: string) { forall k :: 0 <= k < |s| ==> SafeChar(s[k]) }

  lemma SafeHasNoScheme(s: string)
    requires AllSafe(s)
    ensures !HasPrefix(s, "https://") && !HasPrefix(s, "http://") && !HasPrefix(s, "git@")
  {
    if |s| >= 8 { assert SafeChar(s[5]) && s[..8][5] == s[5]; }
    if |s| >= 7 { assert SafeChar(s[4]) && s[..7][4] == s[4]; }
    if |s| >= 4 { assert SafeChar(s[3]) && s[..4][3] == s[3]; }
  }

  lemma SafeHasNoSuffix(s: string)
    requires AllSafe(s)
    ensures DropGitSuffix(s) == s
  {
    if |s| >= 4 { assert SafeChar(s[|s| - 4]) && s[|s| - 4..][0] == s[|s| - 4]; }
  }

  lemma SafeMapsToItself(s: string)
    requires AllSafe(s)
    ensures Sanitize(LowerAscii(s)) == s
  {
    assert LowerAscii(s) == s;
  }

  /** A key already made of safe characters passes through every step unchanged. */
  lemma SafeIsFixed(s: string)
    requires AllSafe(s)
    ensures NormalizeGitUrl(s) == s
  {
    SafeHasNoScheme(s);
    assert StripCredentials(s) == s;
    assert SshToHttps(s) == s;
    SafeHasNoSuffix(s);
    SafeMapsToItself(s);
  }

  /** Normalising a key again gives the same key. */
  lemma NormalizeIdempotent(url: string)
    ensures NormalizeGitUrl(NormalizeGitUrl(url)) == NormalizeGitUrl(url)
  {
    SafeIsFixed(NormalizeGitUrl(url));
  }

  /**
   * The SSH form, the HTTPS form and the HTTPS form with a user name all name the same
   * project, for a host without `:` or `@` and a path that does not itself end in `.git`.
   */
  lemma RemoteFormsAgree(user: string, host: string, path: string)
    requires user != "" && '@' !in user
    requires host != "" && ':' !in host && '@' !in host
    requires '@' !in path && !(|path| >= 4 && path[|path| - 4..] == ".git")
    ensures NormalizeGitUrl("git@" + host + ":" + path + ".git") == NormalizeGitUrl("https://" + host + "/" + path)
    ensures NormalizeGitUrl("https://" + host + "/" + path + ".git") == NormalizeGitUrl("https://" + host + "/" + path)
    ensures NormalizeGitUrl("https://" + user + "@" + host + "/" + path) == NormalizeGitUrl("https://" + host + "/" + path)
  {
    PlainRewritten(host, path);
    SshRewritten(host, path);
    GitSuffixRewritten(host, path);
    UserRewritten(user, host, path);
  }

  lemma PlainRewritten(host: string, path: string)
    requires '@' !in host && '@' !in path && !(|path| >= 4 && path[|path| - 4..] == ".git")
    ensures Rewritten("https://" + host + "/" + path) == "https://" + host + "/" + path
  {
    var plain := "https://" + host + "/" + path;
    EndsInGit(host, path);
    HttpsUntouched(host + "/" + path);
    assert plain == "https://" + (host + "/" + path);
  }

  lemma SshRewritten(host: string, path: string)
    requires host != "" && ':' !in host
    ensures Rewritten("git@" + host + ":" + path + ".git") == "https://" + host + "/" + path
  {
    SshForm(host, path);
    DropAppended("https://" + host + "/" + path);
  }

  lemma GitSuffixRewritten(host: string, path: string)
    requires '@' !in host && '@' !in path
    ensures Rewritten("https://" + host + "/" + path + ".git") == "https://" + host + "/" + path
  {
    HttpsForm(host, path);
    DropAppended("https://" + host + "/" + path);
  }

  lemma UserRewritten(user: string, host: string, path: string)
    requires user != "" && '@' !in user
    requires '@' !in host && '@' !in path && !(|path| >= 4 && path[|path| - 4..] == ".git")
    ensures Rewritten("https://" + user + "@" + host + "/" + path) == "https://" + host + "/" + path
  {
    UserForm(user, host, path);
    EndsInGit(host, path);
  }

  lemma DropAppended(x: string)
    ensures DropGitSuffix(x + ".git") == x
  {
    var y := x + ".git";
    assert y[|y| - 4..] == ".git";
    assert y[..|y| - 4] == x;
  }

  lemma EndsInGit(host: string, path: string)
    requires !(|path| >= 4 && path[|path| - 4..] == ".git")
    ensures var plain := "https://" + host + "/" + path; !(|plain| >= 4 && plain[|plain| - 4..] == ".git")
  {
    var plain := "https://" + host + "/" + path;
    if |path| >= 4 {
      assert plain[|plain| - 4..] == path[|path| - 4..];
    } else {
      assert plain[|plain| - |path| - 1] == '/';
    }
  }

  lemma SshForm(host: string, path: string)
    requires host != "" && ':' !in host
    ensures SshToHttps(StripCredentials("git@" + host + ":" + path + ".git")) == ("https://" + host + "/" + path) + ".git"
  {
    var s := "git@" + host + ":" + path + ".git";
    var rest := host + ":" + (path + ".git");
    assert s == "git@" + rest;
    NoSchemeKept(s);
    ColonAfterHost(host, path + ".git", rest);
    SshOfGitAt(rest, |host|);
    assert "https://" + host + "/" + (path + ".git") == ("https://" + host + "/" + path) + ".git";
  }

  /** Text starting with `g` has no `http` scheme, so no credentials are stripped. */
  lemma NoSchemeKept(s: string)
    requires s != [] && s[0] == 'g'
    ensures StripCredentials(s) == s
  {
    assert !HasPrefix(s, "https://") && !HasPrefix(s, "http://") by { assert s[..1][0] == s[0]; }
  }

  /** The first `:` after a host without one is the one right after the host. */
  lemma ColonAfterHost(host: string, tail: string, rest: string)
    requires ':' !in host && rest == host + ":" + tail
    ensures IndexOf(rest, ':') == Some(|host|) && rest[..|host|] == host && rest[|host| + 1..] == tail
  {
    assert rest[|host|] == ':';
    assert rest[..|host|] == host;
    assert rest[|host| + 1..] == tail;
  }

  /** The `git@host:` rewrite, once the first `:` is known. */
  lemma SshOfGitAt(rest: string, j: nat)
    requires IndexOf(rest, ':') == Some(j) && j >= 1
    ensures SshToHttps("git@" + rest) == "https://" + rest[..j] + "/" + rest[j + 1..]
  {
    var s := "git@" + rest;
    assert HasPrefix(s, "git@");
    assert s[4..] == rest;
  }

  /** A URL with no `@` after the scheme has no credentials to strip and is not SSH. */
  lemma HttpsUntouched(x: string)
    requires '@' !in x
    ensures SshToHttps(StripCredentials("https://" + x)) == "https://" + x
  {
    var s := "https://" + x;
    assert HasPrefix(s, "https://");
    assert s[8..] == x;
    assert StripCredentials(s) == s;
    NoSshKept(s);
  }

  lemma HttpsForm(host: string, path: string)
    requires '@' !in host && '@' !in path
    ensures SshToHttps(StripCredentials("https://" + host + "/" + path + ".git")) == ("https://" + host + "/" + path) + ".git"
  {
    var x := host + "/" + path + ".git";
    assert "https://" + host + "/" + path + ".git" == "https://" + x;
    HttpsUntouched(x);
  }

  lemma UserStripped(user: string, x: string)
    requires user != "" && '@' !in user
    ensures StripCredentials("https://" + user + "@" + x) == "https://" + x
  {
    var s := "https://" + user + "@" + x;
    assert HasPrefix(s, "https://");
    var rest := s[8..];
    assert rest == user + "@" + x;
    assert rest[|user|] == '@' && rest[..|user|] == user;
    assert IndexOf(rest, '@') == Some(|user|);
    assert rest[|user| + 1..] == x;
  }

  lemma UserForm(user: string, host: string, path: string)
    requires user != "" && '@' !in user
    ensures SshToHttps(StripCredentials("https://" + user + "@" + host + "/" + path)) == "https://" + host + "/" + path
  {
    var x := host + "/" + path;
    assert "https://" + user + "@" + host + "/" + path == "https://" + user + "@" + x;
    UserStripped(user, x);
    NoSshKept("https://" + x);
    assert "https://" + x == "https://" + host + "/" + path;
  }

  /** Text starting with `h` is not in the SSH form, so it is not rewritten. */
  lemma NoSshKept(s: string)
    requires s != [] && s[0] == 'h'
    ensures SshToHttps(s) == s
  {
    assert !HasPrefix(s, "git@") by { assert s[..1][0] == s[0]; }
  }
}
