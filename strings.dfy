/** Character classes and string rewriting with the meaning they have in Python:
    the `str` methods the converters call (`replace`, `startswith`, `lower`, `''.join`)
    and the character classes of the `re` module on `str` patterns (`\s`, `\w`). */
module Strings {

  datatype Option<T> = None | Some(value: T)

  /** `\s` on a `str` pattern: the code points Python's `str.isspace` accepts. */
  predicate IsSpace(c: char) {
    ('\t' <= c <= '\r') || ('\U{1c}' <= c <= '\U{1f}') || c == ' ' || c == '\U{85}' ||
    c == '\U{a0}' || c == '\U{1680}' || ('\U{2000}' <= c <= '\U{200a}') ||
    c == '\U{2028}' || c == '\U{2029}' || c == '\U{202f}' || c == '\U{205f}' || c == '\U{3000}'
  }

  predicate IsAsciiAlpha(c: char) {
    ('a' <= c <= 'z') || ('A' <= c <= 'Z')
  }

  predicate IsAsciiDigit(c: char) {
    '0' <= c <= '9'
  }

  /** `\w`, restricted to ASCII: letters, digits and the underscore. */
  predicate IsWordChar(c: char) {
    IsAsciiAlpha(c) || IsAsciiDigit(c) || c == '_'
  }

  function LowerChar(c: char): char {
    if 'A' <= c <= 'Z' then (c as int + 32) as char else c
  }

  /** `str.lower` on ASCII letters; every other code point is kept. */
  function Lower(s: string): (r: string)
    ensures |r| == |s|
  {
    seq(|s|, k requires 0 <= k < |s| => LowerChar(s[k]))
  }

  predicate StartsWith(s: string, prefix: string) {
    |prefix| <= |s| && s[..|prefix|] == prefix
  }

  /** `s.find(c)`, with `|s|` standing for Python's -1. */
  function IndexOf(s: string, c: char): (r: nat)
    ensures r <= |s|
    ensures forall k :: 0 <= k < r ==> s[k] != c
    ensures r < |s| ==> s[r] == c
  {
    if s == [] || s[0] == c then 0 else 1 + IndexOf(s[1..], c)
  }

  /** `s.find(word)` for a non-empty word, with `|s|` standing for -1. */
  function Find(s: string, word: string): (r: nat)
    requires word != []
    ensures r <= |s|
    ensures r < |s| ==> StartsWith(s[r..], word)
    ensures forall k :: 0 <= k < r ==> !StartsWith(s[k..], word)
    decreases |s|
  {
    if |s| < |word| then |s|
    else if StartsWith(s, word) then 0
    else
      var r := Find(s[1..], word);
      assert forall k :: 1 <= k <= |s| ==> s[k..] == s[1..][k - 1..];
      1 + r
  }

  /** `word in s`. */
  predicate Contains(s: string, word: string)
    requires word != []
  {
    Find(s, word) < |s|
  }

  /** `''.join(parts)`. */
  function Concat(parts: seq<string>): string {
    if parts == [] then [] else parts[0] + Concat(parts[1..])
  }

  /** `str.replace(pat, rep)`: every occurrence of `pat`, found left to right without
      overlap, is replaced by `rep`. */
  function Replace(s: string, pat: string, rep: string): string
    requires pat != []
    decreases |s|
  {
    if |s| < |pat| then s
    else if s[..|pat|] == pat then rep + Replace(s[|pat|..], pat, rep)
    else [s[0]] + Replace(s[1..], pat, rep)
  }

  /** The text kept when every character failing `IsWordChar` is deleted: the
      substitution of `\W+` by the empty string. */
  function KeepWordChars(s: string): (r: string)
    ensures forall k :: 0 <= k < |r| ==> IsWordChar(r[k])
    ensures |r| <= |s|
  {
    if s == [] then []
    else (if IsWordChar(s[0]) then [s[0]] else []) + KeepWordChars(s[1..])
  }

  lemma WordsNoSlash(s: string)
    requires forall k :: 0 <= k < |s| ==> IsWordChar(s[k])
    ensures s == [] || s[0] != '/'
  {
    if s != [] {
      assert IsWordChar(s[0]);
    }
  }

  /** Text made of word characters only is kept as it is. */
  lemma {:induction false} KeepWordCharsOfWords(s: string)
    requires forall k :: 0 <= k < |s| ==> IsWordChar(s[k])
    ensures KeepWordChars(s) == s
  {
    if s != [] {
      KeepWordCharsOfWords(s[1..]);
      assert [s[0]] + s[1..] == s;
    }
  }

  /** Text without word characters is deleted whole. */
  lemma {:induction false} KeepWordCharsOfSymbols(s: string)
    requires forall k :: 0 <= k < |s| ==> !IsWordChar(s[k])
    ensures KeepWordChars(s) == []
  {
    if s != [] {
      assert forall k :: 0 <= k < |s[1..]| ==> s[1..][k] == s[k + 1];
      KeepWordCharsOfSymbols(s[1..]);
    }
  }

  /** The substitution of `^_+` by the empty string: every leading underscore is removed. */
  function StripLeadingUnderscores(s: string): (r: string)
    ensures r == [] || r[0] != '_'
    ensures |r| <= |s| && r == s[|s| - |r|..]
  {
    if s != [] && s[0] == '_' then StripLeadingUnderscores(s[1..]) else s
  }

  /** Occurrences of `c` in `s`. */
  function Count(s: string, c: char): nat {
    if s == [] then 0 else (if s[0] == c then 1 else 0) + Count(s[1..], c)
  }

  /** The escaping the text exporters apply to the name and the description: a backslash
      before every double quote. */
  function Escape(s: string): string {
    Replace(s, "\"", "\\\"")
  }

  /** The inverse of `Escape`: every backslash-quote pair read back as a quote. */
  function Unescape(s: string): string {
    Replace(s, "\\\"", "\"")
  }

  lemma ReplaceStep(s: string, pat: string, rep: string)
    requires pat != [] && s != [] && !StartsWith(s, pat)
    ensures Replace(s, pat, rep) == [s[0]] + Replace(s[1..], pat, rep)
  {
    if |s| < |pat| {
      assert |s[1..]| < |pat|;
      assert [s[0]] + s[1..] == s;
    }
  }

  /** Replacing a single character is a character-by-character map. */
  lemma {:induction false} ReplaceCharAt(s: string, a: char, rep: char)
    ensures |Replace(s, [a], [rep])| == |s|
    ensures forall k :: 0 <= k < |s| ==> Replace(s, [a], [rep])[k] == if s[k] == a then rep else s[k]
  {
    if s != [] {
      ReplaceCharAt(s[1..], a, rep);
      if s[0] == a {
        assert s[..1] == [a];
      } else {
        assert s[..1] != [a];
      }
    }
  }

  /** Replacing a character that does not occur changes nothing. */
  lemma ReplaceAbsentChar(s: string, a: char, rep: string)
    requires a !in s
    ensures Replace(s, [a], rep) == s
  {
    if s != [] {
      assert s[0] != a && s[..1] != [a];
      assert a !in s[1..];
      ReplaceAbsentChar(s[1..], a, rep);
    }
  }

  /** Replacing a word by itself changes nothing. */
  lemma {:induction false} ReplaceSelf(s: string, pat: string)
    requires pat != []
    ensures Replace(s, pat, pat) == s
  {
    if |s| >= |pat| {
      if s[..|pat|] == pat {
        ReplaceSelf(s[|pat|..], pat);
        assert pat + s[|pat|..] == s;
      } else {
        ReplaceSelf(s[1..], pat);
        assert [s[0]] + s[1..] == s;
      }
    }
  }

  lemma ReplaceCharConcat(x: string, y: string, a: char, rep: char)
    ensures Replace(x + y, [a], [rep]) == Replace(x, [a], [rep]) + Replace(y, [a], [rep])
  {
    ReplaceCharAt(x + y, a, rep);
    ReplaceCharAt(x, a, rep);
    ReplaceCharAt(y, a, rep);
  }

  /** Replacing a single character, one character at a time. */
  lemma ReplaceCharCons(s: string, a: char, rep: string)
    requires s != []
    ensures Replace(s, [a], rep) == (if s[0] == a then rep else [s[0]]) + Replace(s[1..], [a], rep)
  {
    if s[0] != a {
      assert s[..1] != [a];
    } else {
      assert s[..1] == [a];
    }
  }

  lemma EscapeCons(s: string)
    requires s != []
    ensures Escape(s) == (if s[0] == '"' then "\\\"" else [s[0]]) + Escape(s[1..])
  {
    ReplaceCharCons(s, '"', "\\\"");
  }

  /** An escaped text never starts with a bare quote. */
  lemma EscapeHead(s: string)
    ensures Escape(s) == [] || Escape(s)[0] != '"'
  {
    if s != [] {
      EscapeCons(s);
    }
  }

  /** Escaping is undone by `Unescape`: the backslashes it inserts are the only change. */
  lemma {:induction false} EscapeRoundTrip(s: string)
    ensures Unescape(Escape(s)) == s
  {
    if s != [] {
      EscapeCons(s);
      EscapeRoundTrip(s[1..]);
      var rest := Escape(s[1..]);
      if s[0] == '"' {
        assert Escape(s) == "\\\"" + rest;
        assert (("\\\"" + rest)[..2]) == "\\\"";
        assert ("\\\"" + rest)[2..] == rest;
        assert Unescape(Escape(s)) == "\"" + Unescape(rest);
        assert [s[0]] + s[1..] == s;
      } else {
        EscapeHead(s[1..]);
        var e := [s[0]] + rest;
        assert Escape(s) == e;
        if |e| >= 2 {
          assert e[..2][1] == rest[0] != '"';
        }
        ReplaceStep(e, "\\\"", "\"");
        assert e[1..] == rest;
        assert [s[0]] + s[1..] == s;
      }
    }
  }

  /** Escaping adds exactly one character per double quote, and every double quote of the
      escaped text has a backslash right before it. */
  lemma {:induction false} EscapeShape(s: string)
    ensures |Escape(s)| == |s| + Count(s, '"')
    ensures forall k :: 0 <= k < |Escape(s)| && Escape(s)[k] == '"' ==> 0 < k && Escape(s)[k - 1] == '\\'
  {
    if s != [] {
      EscapeCons(s);
      EscapeShape(s[1..]);
      var b := if s[0] == '"' then "\\\"" else [s[0]];
      var e := Escape(s);
      var rest := Escape(s[1..]);
      assert e == b + rest;
      forall k | 0 <= k < |e| && e[k] == '"'
        ensures 0 < k && e[k - 1] == '\\'
      {
        if k < |b| {
          assert s[0] == '"' && k == 1;
        } else {
          assert rest[k - |b|] == '"';
        }
      }
    }
  }

  lemma ConcatAssoc<T>(a: seq<T>, b: seq<T>, c: seq<T>)
    ensures a + b + c == a + (b + c)
  {
  }
}
