/** The fields `process_url` of bookmark_converter_v2.py derives for a record: the icon file
    name taken from the host of the link, the `img` path built from it, and the
    description shortened to 30 characters and given uniform line breaks. The platform
    line separator `os.linesep` is fixed to `"\n"`. */
module FieldsV2 {
  import opened Strings
  import Urls

  const IMAGES_DIR := "/images/logos"
  const MAX_DESCRIPTION := 30

  /** Lines 117-121: the network location, dots turned into underscores, leading
      underscores removed, then every character outside `\w` deleted. */
  function HostFileName(url: string): (r: string)
    ensures forall k :: 0 <= k < |r| ==> IsWordChar(r[k])
  {
    FileNameOfHost(Urls.Split(url).netloc)
  }

  function FileNameOfHost(host: string): (r: string)
    ensures forall k :: 0 <= k < |r| ==> IsWordChar(r[k])
  {
    KeepWordChars(StripLeadingUnderscores(Replace(host, ".", "_")))
  }

  /** The `img` field, in the record and in the error record alike. */
  function ImagePath(fileName: string): string {
    IMAGES_DIR + "/" + fileName + ".png"
  }

  /** Turning the dots of such a host into underscores leaves word characters only, as
      many as the host has, and the same first character. */
  lemma DotsToUnderscores(h: string)
    requires h != [] && h[0] != '.'
    requires forall k :: 0 <= k < |h| ==> IsWordChar(h[k]) || h[k] == '.'
    ensures var d := Replace(h, ".", "_");
      |d| == |h| && d[0] == h[0] && forall k :: 0 <= k < |d| ==> IsWordChar(d[k])
  {
    ReplaceCharAt(h, '.', '_');
  }

  /** The path lies under `/images/logos` and names the PNG file of the name. */
  lemma ImagePathText(fileName: string)
    ensures ImagePath(fileName) == "/images/logos/" + fileName + ".png"
    ensures |ImagePath(fileName)| == |fileName| + 18
  {
  }

  /** The name can be read back from the `img` path: it sits between `/images/logos/` and
      `.png`. */
  lemma ImagePathNames(fileName: string)
    ensures var p := ImagePath(fileName);
      |p| == |fileName| + 18 && StartsWith(p, "/images/logos/") &&
      p[14..|p| - 4] == fileName && p[|p| - 4..] == ".png"
  {
    ImagePathText(fileName);
  }

  /** Distinct names give distinct `img` paths. */
  lemma ImagePathInjective(a: string, b: string)
    requires ImagePath(a) == ImagePath(b)
    ensures a == b
  {
    ImagePathNames(a);
    ImagePathNames(b);
  }

  /** A host made of letters, digits, `_` and dots, starting with neither a dot nor an
      underscore, gives the host with every dot replaced by `_`, which is as long as the
      host (`DotsToUnderscores`). */
  lemma FileNameOfPlainHost(h: string)
    requires h != [] && h[0] != '.' && h[0] != '_'
    requires forall k :: 0 <= k < |h| ==> IsWordChar(h[k]) || h[k] == '.'
    ensures FileNameOfHost(h) == Replace(h, ".", "_")
  {
    var d := Replace(h, ".", "_");
    DotsToUnderscores(h);
    var s := StripLeadingUnderscores(d);
    assert s == d;
    KeepWordCharsOfWords(d);
    assert KeepWordChars(s) == d;
  }

  /** The underscores are stripped before the other characters are deleted, so a name can
      still start with one: the host `-_a.b` gives `_a_b`. */
  lemma FileNameCanStartWithUnderscore()
    ensures FileNameOfHost("-_a.b") == "_a_b"
  {
    var d := Replace("-_a.b", ".", "_");
    ReplaceCharAt("-_a.b", '.', '_');
    assert d == "-_a_b";
    assert StripLeadingUnderscores(d) == d;
    assert d[1..] == "_a_b";
    KeepWordCharsOfWords("_a_b");
  }

  /** Lines 179-180: a description longer than 30 characters keeps its first 30, followed
      by `...`. */
  function Truncate(s: string): string {
    if |s| > MAX_DESCRIPTION then s[..MAX_DESCRIPTION] + "..." else s
  }

  lemma TruncateSpec(s: string)
    ensures |s| <= 30 ==> Truncate(s) == s
    ensures |s| > 30 ==> |Truncate(s)| == 33 && Truncate(s)[..30] == s[..30] && Truncate(s)[30..] == "..."
    ensures |Truncate(s)| <= 33
    ensures Truncate(Truncate(s)) == Truncate(s)
  {
    if |s| > 30 {
      var t := Truncate(s);
      assert t[..30] == s[..30];
    }
  }

  /** Lines 181-182 with the separator fixed to `"\n"`: `\r\n`, then `\n`, then `\r`
      replaced by a line feed. */
  function NormaliseNewlines(s: string): string {
    Replace(Replace(Replace(s, "\r\n", "\n"), "\n", "\n"), "\r", "\n")
  }

  /** A reference reading of the same rewriting, in one left-to-right pass: a carriage
      return, with the line feed that may follow it, becomes one line feed. */
  function UnifyBreaks(s: string): (r: string)
    ensures |r| <= |s|
    decreases |s|
  {
    if s == [] then []
    else if s[0] == '\r' then "\n" + UnifyBreaks(if |s| >= 2 && s[1] == '\n' then s[2..] else s[1..])
    else [s[0]] + UnifyBreaks(s[1..])
  }

  lemma {:induction false} UnifyBreaksNoReturn(s: string)
    ensures '\r' !in UnifyBreaks(s)
    decreases |s|
  {
    if s != [] {
      if s[0] == '\r' {
        UnifyBreaksNoReturn(if |s| >= 2 && s[1] == '\n' then s[2..] else s[1..]);
      } else {
        UnifyBreaksNoReturn(s[1..]);
      }
    }
  }

  lemma {:induction false} UnifyBreaksWithoutReturn(s: string)
    requires '\r' !in s
    ensures UnifyBreaks(s) == s
  {
    if s != [] {
      assert '\r' !in s[1..];
      UnifyBreaksWithoutReturn(s[1..]);
      assert [s[0]] + s[1..] == s;
    }
  }

  /** The three chained replacements do what the one-pass reading does. */
  lemma {:induction false} NormaliseIsUnify(s: string)
    ensures Replace(Replace(s, "\r\n", "\n"), "\r", "\n") == UnifyBreaks(s)
    decreases |s|
  {
    if s != [] {
      var a := Replace(s, "\r\n", "\n");
      if |s| >= 2 && s[..2] == "\r\n" {
        NormaliseIsUnify(s[2..]);
        assert s[0] == '\r' && s[1] == '\n';
        assert a == "\n" + Replace(s[2..], "\r\n", "\n");
        ReplaceCharCons(a, '\r', "\n");
        assert a[1..] == Replace(s[2..], "\r\n", "\n");
      } else {
        NormaliseIsUnify(s[1..]);
        ReplaceStep(s, "\r\n", "\n");
        assert a == [s[0]] + Replace(s[1..], "\r\n", "\n");
        ReplaceCharCons(a, '\r', "\n");
        assert a[1..] == Replace(s[1..], "\r\n", "\n");
        if s[0] == '\r' {
          assert !(|s| >= 2 && s[1] == '\n');
        }
      }
    }
  }

  /** The normalised text has no carriage return, is no longer than the original, and
      normalising it again changes nothing. */
  lemma NormaliseNewlinesSpec(s: string)
    ensures NormaliseNewlines(s) == UnifyBreaks(s)
    ensures '\r' !in NormaliseNewlines(s)
    ensures |NormaliseNewlines(s)| <= |s|
    ensures NormaliseNewlines(NormaliseNewlines(s)) == NormaliseNewlines(s)
  {
    ReplaceSelf(Replace(s, "\r\n", "\n"), "\n");
    NormaliseIsUnify(s);
    var n := UnifyBreaks(s);
    UnifyBreaksNoReturn(s);
    ReplaceSelf(Replace(n, "\r\n", "\n"), "\n");
    NormaliseIsUnify(n);
    UnifyBreaksWithoutReturn(n);
  }

  /** The description written for the `content` of the first description tag. */
  function Describe(content: string): string {
    NormaliseNewlines(Truncate(content))
  }

  /** It has at most 33 characters and no carriage return, and a short one-line content is
      kept as it is. */
  lemma DescribeSpec(content: string)
    ensures |Describe(content)| <= 33
    ensures '\r' !in Describe(content)
    ensures |content| <= 30 && '\r' !in content ==> Describe(content) == content
  {
    TruncateSpec(content);
    NormaliseNewlinesSpec(Truncate(content));
    if |content| <= 30 && '\r' !in content {
      UnifyBreaksWithoutReturn(content);
    }
  }
}
