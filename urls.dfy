/** The part of `urllib.parse.urlparse` the converters read: the scheme (section 3.1 of
    RFC 3986, as CPython's `urlsplit` recognises it) and the network location. */
module Urls {
  import opened Strings

  datatype Parts = Parts(scheme: string, netloc: string)

  /** `urlsplit` first strips leading C0 control characters and spaces. */
  function LStripControl(s: string): (r: string)
    ensures r == [] || r[0] > ' '
    ensures |r| <= |s|
  {
    if s != [] && s[0] <= ' ' then LStripControl(s[1..]) else s
  }

  /** It then deletes every tab, carriage return and line feed. */
  function RemoveUnsafe(s: string): (r: string)
    ensures forall k :: 0 <= k < |r| ==> r[k] != '\t' && r[k] != '\r' && r[k] != '\n'
  {
    if s == [] then []
    else (if s[0] in "\t\r\n" then [] else [s[0]]) + RemoveUnsafe(s[1..])
  }

  /** The text `urlsplit` actually parses. */
  function Clean(url: string): string {
    RemoveUnsafe(LStripControl(url))
  }

  predicate IsSchemeChar(c: char) {
    IsAsciiAlpha(c) || IsAsciiDigit(c) || c == '+' || c == '-' || c == '.'
  }

  predicate AllSchemeChars(s: string) {
    forall k :: 0 <= k < |s| ==> IsSchemeChar(s[k])
  }

  /** Where the network location ends: the first `/`, `?` or `#` from position 2 on. */
  function NetlocEnd(s: string, k: nat): (r: nat)
    requires k <= |s|
    ensures k <= r <= |s|
    decreases |s| - k
  {
    if k == |s| || s[k] in "/?#" then k else NetlocEnd(s, k + 1)
  }

  /** `urlsplit(url)`, keeping the scheme and the network location: a scheme is the text
      before the first `:` when it is non-empty, starts with an ASCII letter and holds
      only letters, digits, `+`, `-` and `.`; it is lower-cased. The network location
      follows a `//` up to the next `/`, `?` or `#`. */
  function Split(url: string): (r: Parts)
    ensures r.scheme != [] ==> url != []
  {
    var u := Clean(url);
    var i := IndexOf(u, ':');
    var hasScheme := 0 < i < |u| && IsAsciiAlpha(u[0]) && AllSchemeChars(u[..i]);
    var scheme := if hasScheme then Lower(u[..i]) else "";
    var rest := if hasScheme then u[i + 1..] else u;
    var netloc := if StartsWith(rest, "//") then rest[2..NetlocEnd(rest, 2)] else "";
    Parts(scheme, netloc)
  }

  predicate IsWebScheme(scheme: string) {
    scheme == "http" || scheme == "https"
  }

  lemma LowerPrefix(s: string, k: nat)
    requires k <= |s|
    ensures Lower(s)[..k] == Lower(s[..k])
  {
  }

  /** The scheme is `http` or `https` exactly when the parsed text starts, ignoring ASCII
      case, with `http:` or `https:`. */
  lemma WebSchemeIffPrefix(url: string)
    ensures IsWebScheme(Split(url).scheme) <==>
      (StartsWith(Lower(Clean(url)), "http:") || StartsWith(Lower(Clean(url)), "https:"))
  {
    if StartsWith(Lower(Clean(url)), "http:") || StartsWith(Lower(Clean(url)), "https:") {
      PrefixGivesWebScheme(url);
    }
    if IsWebScheme(Split(url).scheme) {
      WebSchemeGivesPrefix(url);
    }
  }

  lemma PrefixGivesWebScheme(url: string)
    requires StartsWith(Lower(Clean(url)), "http:") || StartsWith(Lower(Clean(url)), "https:")
    ensures IsWebScheme(Split(url).scheme)
  {
    var u := Clean(url);
    var i := IndexOf(u, ':');
    var lu := Lower(u);
    var n := if StartsWith(lu, "http:") then 4 else 5;
    assert lu[n] == ':' && LowerChar(u[n]) == ':';
    forall k | 0 <= k < n
      ensures u[k] != ':' && IsAsciiAlpha(u[k])
    {
      assert lu[k] == lu[..n + 1][k];
    }
    assert i == n;
    assert AllSchemeChars(u[..i]);
    LowerPrefix(u, n);
    assert lu[..n] == lu[..n + 1][..n];
  }

  lemma WebSchemeGivesPrefix(url: string)
    requires IsWebScheme(Split(url).scheme)
    ensures StartsWith(Lower(Clean(url)), "http:") || StartsWith(Lower(Clean(url)), "https:")
  {
    var u := Clean(url);
    var i := IndexOf(u, ':');
    var lu := Lower(u);
    assert 0 < i < |u| && IsAsciiAlpha(u[0]) && AllSchemeChars(u[..i]);
    LowerPrefix(u, i);
    LowerPrefix(u, i + 1);
    assert lu[..i + 1] == lu[..i] + [lu[i]];
    assert lu[i] == ':';
  }

  /** Cleaning only removes characters. */
  lemma {:induction false} CleanKeepsOut(s: string, c: char)
    requires c !in s
    ensures c !in LStripControl(s) && c !in RemoveUnsafe(LStripControl(s))
  {
    LStripKeepsOut(s, c);
    RemoveUnsafeKeepsOut(LStripControl(s), c);
  }

  lemma {:induction false} LStripKeepsOut(s: string, c: char)
    requires c !in s
    ensures c !in LStripControl(s)
  {
    if s != [] && s[0] <= ' ' {
      assert forall k :: 0 <= k < |s[1..]| ==> s[1..][k] == s[k + 1];
      LStripKeepsOut(s[1..], c);
    }
  }

  lemma {:induction false} RemoveUnsafeKeepsOut(s: string, c: char)
    requires c !in s
    ensures c !in RemoveUnsafe(s)
  {
    if s != [] {
      assert forall k :: 0 <= k < |s[1..]| ==> s[1..][k] == s[k + 1];
      RemoveUnsafeKeepsOut(s[1..], c);
    }
  }

  /** A link without any `/`, such as `http:example.org`, has no network location. */
  lemma NoSlashNoNetloc(url: string)
    requires '/' !in url
    ensures Split(url).netloc == []
  {
    CleanKeepsOut(url, '/');
    var u := Clean(url);
    var i := IndexOf(u, ':');
    if 0 < i < |u| && IsAsciiAlpha(u[0]) && AllSchemeChars(u[..i]) {
      SuffixKeepsOut(u, i + 1, '/');
      NoSlashNoDoubleSlash(u[i + 1..]);
    } else {
      NoSlashNoDoubleSlash(u);
    }
  }

  lemma SuffixKeepsOut(u: string, j: nat, c: char)
    requires j <= |u| && c !in u
    ensures c !in u[j..]
  {
    assert forall k :: 0 <= k < |u[j..]| ==> u[j..][k] == u[j + k];
  }

  lemma NoSlashNoDoubleSlash(rest: string)
    requires '/' !in rest
    ensures !StartsWith(rest, "//")
  {
    if |rest| >= 2 {
      assert rest[0] in rest;
    }
  }
}
