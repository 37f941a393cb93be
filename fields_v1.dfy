/** The icon file name bookmark_converter.py derives from a title (lines 54-64 of
    `process_url`). The title is taken after transliteration by `unidecode`. */
module FieldsV1 {
  import opened Strings

  /** `'_'.ljust(n, '_')`: `n` underscores, and at least one. */
  function Underscores(n: nat): (r: string)
    ensures |r| == (if n <= 1 then 1 else n)
    ensures forall k :: 0 <= k < |r| ==> r[k] == '_'
  {
    if n <= 1 then "_" else "_" + Underscores(n - 1)
  }

  /** `re.sub(r'_+', rep, s)`: every maximal run of underscores replaced by `rep`. */
  function CollapseRuns(s: string, rep: string): string
    decreases |s|
  {
    if s == [] then []
    else if s[0] == '_' then rep + CollapseRuns(StripLeadingUnderscores(s[1..]), rep)
    else [s[0]] + CollapseRuns(s[1..], rep)
  }

  /** The name before underscores are stripped: spaces become `_`, then every character
      outside `\w` is deleted. */
  function Cleaned(title: string): string {
    KeepWordChars(Replace(title, " ", "_"))
  }

  /** `file_name` at the end of line 64. */
  function TitleFileName(title: string): string {
    var cleaned := Cleaned(title);
    var n := if |cleaned| < 2 then |cleaned| else 2;
    CollapseRuns(StripLeadingUnderscores(cleaned), Underscores(n))
  }

  /** The characters other than underscores, in order. */
  function Letters(s: string): string {
    if s == [] then [] else (if s[0] == '_' then [] else [s[0]]) + Letters(s[1..])
  }

  ghost predicate AllUnderscores(s: string) {
    forall k :: 0 <= k < |s| ==> s[k] == '_'
  }

  /** Every run of underscores in `s` is exactly `m` long. */
  ghost predicate RunsOfLength(s: string, m: nat) {
    forall k :: 0 <= k < |s| && s[k] == '_' && (k == 0 || s[k - 1] != '_') ==>
      k + m <= |s| && AllUnderscores(s[k..k + m]) && (k + m == |s| || s[k + m] != '_')
  }

  lemma RunAt(s: string, m: nat, k: nat)
    requires RunsOfLength(s, m)
    requires k < |s| && s[k] == '_' && (k == 0 || s[k - 1] != '_')
    ensures k + m <= |s| && AllUnderscores(s[k..k + m]) && (k + m == |s| || s[k + m] != '_')
  {
  }

  lemma {:induction false} LettersOfUnderscores(s: string)
    requires AllUnderscores(s)
    ensures Letters(s) == []
  {
    if s != [] {
      LettersOfUnderscores(s[1..]);
    }
  }

  lemma {:induction false} LettersOfConcat(a: string, b: string)
    ensures Letters(a + b) == Letters(a) + Letters(b)
  {
    if a == [] {
      assert a + b == b;
    } else {
      var h := if a[0] == '_' then [] else [a[0]];
      LettersOfConcat(a[1..], b);
      assert (a + b)[0] == a[0];
      assert (a + b)[1..] == a[1..] + b;
      assert Letters(a + b) == h + Letters(a[1..] + b);
      assert Letters(a) == h + Letters(a[1..]);
    }
  }

  lemma {:induction false} LettersOfStripped(s: string)
    ensures Letters(StripLeadingUnderscores(s)) == Letters(s)
  {
    if s != [] && s[0] == '_' {
      LettersOfStripped(s[1..]);
    }
  }

  /** Collapsing the runs keeps every other character, in order. */
  lemma {:induction false} CollapseKeepsLetters(s: string, rep: string)
    requires AllUnderscores(rep)
    ensures Letters(CollapseRuns(s, rep)) == Letters(s)
    decreases |s|
  {
    if s != [] {
      if s[0] == '_' {
        var t := StripLeadingUnderscores(s[1..]);
        CollapseKeepsLetters(t, rep);
        LettersOfConcat(rep, CollapseRuns(t, rep));
        LettersOfUnderscores(rep);
        LettersOfStripped(s[1..]);
      } else {
        CollapseKeepsLetters(s[1..], rep);
        LettersOfConcat([s[0]], CollapseRuns(s[1..], rep));
      }
    }
  }

  /** Collapsing keeps the first character when it is not an underscore, and yields only
      characters of `s` or of `rep`. */
  lemma {:induction false} CollapseHead(s: string, rep: string)
    requires rep != []
    ensures s == [] <==> CollapseRuns(s, rep) == []
    ensures s != [] && s[0] != '_' ==> CollapseRuns(s, rep)[0] == s[0]
  {
  }

  lemma {:induction false} CollapseChars(s: string, rep: string, P: char -> bool)
    requires forall k :: 0 <= k < |s| ==> P(s[k])
    requires forall k :: 0 <= k < |rep| ==> P(rep[k])
    ensures forall k :: 0 <= k < |CollapseRuns(s, rep)| ==> P(CollapseRuns(s, rep)[k])
    decreases |s|
  {
    if s != [] {
      if s[0] == '_' {
        var t := StripLeadingUnderscores(s[1..]);
        assert forall k :: 0 <= k < |t| ==> t[k] == s[1..][|s[1..]| - |t| + k];
        CollapseChars(t, rep, P);
      } else {
        CollapseChars(s[1..], rep, P);
      }
    }
  }

  /** A block of `m` underscores in front of a text whose runs are `m` long and which
      does not start with an underscore. */
  lemma RunsAfterBlock(rep: string, c: string)
    requires rep != [] && AllUnderscores(rep)
    requires RunsOfLength(c, |rep|) && (c == [] || c[0] != '_')
    ensures RunsOfLength(rep + c, |rep|)
  {
    var r := rep + c;
    forall k | 0 <= k < |r| && r[k] == '_' && (k == 0 || r[k - 1] != '_')
      ensures k + |rep| <= |r| && AllUnderscores(r[k..k + |rep|]) && (k + |rep| == |r| || r[k + |rep|] != '_')
    {
      if k < |rep| {
        assert k == 0;
        assert r[..|rep|] == rep;
      } else {
        var j := k - |rep|;
        assert r[k] == c[j];
        assert r[|rep| - 1] == rep[|rep| - 1] == '_';
        assert j > 0;
        assert r[k - 1] == c[j - 1];
        assert r[k..k + |rep|] == c[j..j + |rep|];
      }
    }
  }

  /** A character other than an underscore in front of such a text. */
  lemma RunsAfterChar(x: char, c: string, m: nat)
    requires x != '_' && RunsOfLength(c, m)
    ensures RunsOfLength([x] + c, m)
  {
    var r := [x] + c;
    forall k | 0 <= k < |r| && r[k] == '_' && (k == 0 || r[k - 1] != '_')
      ensures k + m <= |r| && AllUnderscores(r[k..k + m]) && (k + m == |r| || r[k + m] != '_')
    {
      assert k > 0;
      var j := k - 1;
      assert c[j] == '_' && (j == 0 || c[j - 1] != '_');
      RunAt(c, m, j);
      var w := r[k..k + m];
      forall i | 0 <= i < m
        ensures w[i] == '_'
      {
        assert w[i] == r[k + i] == c[j + i] == c[j..j + m][i];
      }
      if k + m < |r| {
        assert r[k + m] == c[j + m];
      }
    }
  }

  /** Every run of underscores in the result is a copy of `rep`. */
  lemma {:induction false} CollapseRunLength(s: string, rep: string)
    requires rep != [] && AllUnderscores(rep)
    ensures RunsOfLength(CollapseRuns(s, rep), |rep|)
    decreases |s|
  {
    if s != [] {
      if s[0] == '_' {
        var t := StripLeadingUnderscores(s[1..]);
        CollapseRunLength(t, rep);
        CollapseHead(t, rep);
        RunsAfterBlock(rep, CollapseRuns(t, rep));
      } else {
        CollapseRunLength(s[1..], rep);
        RunsAfterChar(s[0], CollapseRuns(s[1..], rep), |rep|);
      }
    }
  }

  /** What the name is made of: word characters only, never an underscore first, the
      characters of the cleaned title other than underscores in order, and every run of
      underscores exactly two long when the cleaned title had at least two characters,
      one long otherwise. */
  lemma TitleFileNameSpec(title: string)
    ensures var r := TitleFileName(title);
      (forall k :: 0 <= k < |r| ==> IsWordChar(r[k])) &&
      (r == [] || r[0] != '_') &&
      Letters(r) == Letters(Cleaned(title)) &&
      RunsOfLength(r, if |Cleaned(title)| >= 2 then 2 else 1)
  {
    var cleaned := Cleaned(title);
    var rep := Underscores(if |cleaned| < 2 then |cleaned| else 2);
    var stripped := StripLeadingUnderscores(cleaned);
    TitleFileNameWords(title);
    TitleFileNameHead(title);
    CollapseKeepsLetters(stripped, rep);
    LettersOfStripped(cleaned);
    CollapseRunLength(stripped, rep);
  }

  /** Every underscore that another underscore follows is dropped, so that each run of
      underscores is left as one. */
  function Squeeze(s: string): string {
    if |s| <= 1 then s
    else if s[0] == '_' && s[1] == '_' then Squeeze(s[1..])
    else [s[0]] + Squeeze(s[1..])
  }

  lemma {:induction false} SqueezeHead(s: string)
    requires s != []
    ensures Squeeze(s) != [] && Squeeze(s)[0] == s[0]
    decreases |s|
  {
    if |s| > 1 && s[0] == '_' && s[1] == '_' {
      SqueezeHead(s[1..]);
    }
  }

  /** No two underscores are left side by side. */
  lemma {:induction false} SqueezeNoDoubles(s: string)
    ensures var r := Squeeze(s);
      forall k :: 0 <= k < |r| - 1 ==> !(r[k] == '_' && r[k + 1] == '_')
    decreases |s|
  {
    if |s| > 1 {
      SqueezeNoDoubles(s[1..]);
      if !(s[0] == '_' && s[1] == '_') {
        SqueezeHead(s[1..]);
        var r := Squeeze(s);
        assert r == [s[0]] + Squeeze(s[1..]);
        assert forall k :: 1 <= k < |r| ==> r[k] == Squeeze(s[1..])[k - 1];
      } else {
        assert Squeeze(s) == Squeeze(s[1..]);
      }
    }
  }

  /** A run at the front squeezes to one underscore. */
  lemma {:induction false} SqueezeRun(s: string)
    requires s != [] && s[0] == '_'
    ensures Squeeze(s) == ['_'] + Squeeze(StripLeadingUnderscores(s[1..]))
    decreases |s|
  {
    if |s| > 1 && s[1] == '_' {
      SqueezeRun(s[1..]);
      assert s[1..][1..] == s[2..];
    }
  }

  /** The collapse in two independent steps: runs squeezed to one underscore, then each
      underscore replaced by `rep`. */
  lemma {:induction false} CollapseIsSqueezed(s: string, rep: string)
    ensures CollapseRuns(s, rep) == Replace(Squeeze(s), "_", rep)
    decreases |s|
  {
    if s != [] {
      if s[0] == '_' {
        var t := StripLeadingUnderscores(s[1..]);
        CollapseIsSqueezed(t, rep);
        SqueezeRun(s);
        ReplaceCharCons(Squeeze(s), '_', rep);
        assert Squeeze(s)[1..] == Squeeze(t);
      } else {
        CollapseIsSqueezed(s[1..], rep);
        assert Squeeze(s) == [s[0]] + Squeeze(s[1..]);
        ReplaceCharCons(Squeeze(s), '_', rep);
        assert Squeeze(s)[1..] == Squeeze(s[1..]);
      }
    }
  }

  /** The name exactly: the cleaned title without its leading underscores, every run of
      underscores squeezed to one and then written as `__` (just `_` when the cleaned title
      has fewer than two characters). */
  lemma TitleFileNameSqueezed(title: string)
    ensures TitleFileName(title) ==
      Replace(Squeeze(StripLeadingUnderscores(Cleaned(title))), "_", if |Cleaned(title)| >= 2 then "__" else "_")
  {
    var cleaned := Cleaned(title);
    var n := if |cleaned| < 2 then |cleaned| else 2;
    assert Underscores(n) == if |cleaned| >= 2 then "__" else "_";
    CollapseIsSqueezed(StripLeadingUnderscores(cleaned), Underscores(n));
  }

  lemma TitleFileNameWords(title: string)
    ensures forall k :: 0 <= k < |TitleFileName(title)| ==> IsWordChar(TitleFileName(title)[k])
  {
    var cleaned := Cleaned(title);
    var rep := Underscores(if |cleaned| < 2 then |cleaned| else 2);
    var stripped := StripLeadingUnderscores(cleaned);
    assert forall k :: 0 <= k < |stripped| ==> stripped[k] == cleaned[|cleaned| - |stripped| + k];
    CollapseChars(stripped, rep, IsWordChar);
  }

  lemma TitleFileNameHead(title: string)
    ensures TitleFileName(title) == [] || TitleFileName(title)[0] != '_'
  {
    var cleaned := Cleaned(title);
    var rep := Underscores(if |cleaned| < 2 then |cleaned| else 2);
    CollapseHead(StripLeadingUnderscores(cleaned), rep);
  }

  /** The name never starts with `/`, so `os.path.join` appends it to a directory. */
  lemma TitleFileNameNoSlash(title: string)
    ensures TitleFileName(title) == [] || TitleFileName(title)[0] != '/'
  {
    TitleFileNameWords(title);
    WordsNoSlash(TitleFileName(title));
  }

  lemma {:induction false} CollapseWithoutUnderscores(s: string, rep: string)
    requires '_' !in s
    ensures CollapseRuns(s, rep) == s
  {
    if s != [] {
      assert '_' !in s[1..];
      CollapseWithoutUnderscores(s[1..], rep);
      assert [s[0]] + s[1..] == s;
    }
  }

  /** A title with no letter, digit, underscore or space, such as `?!`, gives the empty
      name. */
  lemma SymbolTitleHasNoName(title: string)
    requires forall k :: 0 <= k < |title| ==> !IsWordChar(title[k]) && title[k] != ' '
    ensures TitleFileName(title) == []
  {
    ReplaceAbsentChar(title, ' ', "_");
    KeepWordCharsOfSymbols(title);
  }

  /** A title of letters and digits only is its own file name. */
  lemma PlainTitleIsItsName(title: string)
    requires forall k :: 0 <= k < |title| ==> IsAsciiAlpha(title[k]) || IsAsciiDigit(title[k])
    ensures TitleFileName(title) == title
  {
    ReplaceAbsentChar(title, ' ', "_");
    KeepWordCharsOfWords(title);
    assert Cleaned(title) == title;
    CollapseWithoutUnderscores(title, Underscores(if |title| < 2 then |title| else 2));
  }

  /** Collapsing leaves a prefix without underscores in place. */
  lemma {:induction false} CollapseAfterPlain(a: string, t: string, rep: string)
    requires '_' !in a
    ensures CollapseRuns(a + t, rep) == a + CollapseRuns(t, rep)
  {
    if a == [] {
      assert a + t == t;
    } else {
      var s := a + t;
      assert s[0] == a[0] && s[1..] == a[1..] + t;
      assert '_' !in a[1..];
      CollapseAfterPlain(a[1..], t, rep);
      assert CollapseRuns(s, rep) == [a[0]] + CollapseRuns(a[1..] + t, rep);
      ConcatAssoc([a[0]], a[1..], CollapseRuns(t, rep));
      assert [a[0]] + a[1..] == a;
    }
  }

  ghost predicate Alnum(s: string) {
    forall k :: 0 <= k < |s| ==> IsAsciiAlpha(s[k]) || IsAsciiDigit(s[k])
  }

  /** The space between two such words becomes an underscore. */
  lemma ReplaceSpaced(a: string, b: string)
    requires Alnum(a) && Alnum(b)
    ensures Replace(a + " " + b, " ", "_") == a + "_" + b
  {
    ReplaceAbsentChar(a, ' ', "_");
    ReplaceAbsentChar(b, ' ', "_");
    ReplaceCharConcat(a, " ", ' ', '_');
    ReplaceCharConcat(a + " ", b, ' ', '_');
    assert Replace(" ", " ", "_") == "_";
  }

  /** Two such words around an underscore are word characters only. */
  lemma JoinedWords(a: string, b: string)
    requires Alnum(a) && Alnum(b)
    ensures forall k :: 0 <= k < |a + "_" + b| ==> IsWordChar((a + "_" + b)[k])
  {
    var u := a + "_" + b;
    forall k | 0 <= k < |u|
      ensures IsWordChar(u[k])
    {
      if k < |a| {
        assert u[k] == a[k];
      } else if k > |a| {
        assert u[k] == b[k - |a| - 1];
      }
    }
  }

  /** Cleaning turns the space into an underscore and deletes nothing. */
  lemma CleanedSpaced(a: string, b: string)
    requires Alnum(a) && Alnum(b)
    ensures Cleaned(a + " " + b) == a + "_" + b
  {
    ReplaceSpaced(a, b);
    JoinedWords(a, b);
    KeepWordCharsOfWords(a + "_" + b);
  }

  /** The one underscore between two such words becomes `rep`. */
  lemma CollapseSpaced(a: string, b: string, rep: string)
    requires b != [] && Alnum(a) && Alnum(b)
    ensures CollapseRuns(a + "_" + b, rep) == a + rep + b
  {
    assert '_' !in a && '_' !in b;
    assert a + "_" + b == a + (['_'] + b);
    CollapseAfterPlain(a, ['_'] + b, rep);
    CollapseCons('_', b, rep);
    assert StripLeadingUnderscores(b) == b;
    CollapseWithoutUnderscores(b, rep);
    ConcatAssoc(a, rep, b);
  }

  /** Two words of letters and digits with one space between them give the two words
      joined by two underscores (`Hello World` gives `Hello__World`): every run of
      underscores is replaced by `'_'.ljust(2, '_')`. */
  lemma SpaceBecomesTwoUnderscores(a: string, b: string)
    requires a != [] && b != [] && Alnum(a) && Alnum(b)
    ensures TitleFileName(a + " " + b) == a + "__" + b
  {
    var u := a + "_" + b;
    CleanedSpaced(a, b);
    assert u[0] == a[0];
    StripWithoutLeading(u);
    TwoUnderscores();
    assert TitleFileName(a + " " + b) == CollapseRuns(u, "__");
    CollapseSpaced(a, b, "__");
  }

  lemma StripWithoutLeading(s: string)
    requires s != [] && s[0] != '_'
    ensures StripLeadingUnderscores(s) == s
  {
  }

  lemma TwoUnderscores()
    ensures Underscores(2) == "__"
  {
    assert Underscores(1) == "_";
  }

  /** One step of the collapse. */
  lemma CollapseCons(c: char, t: string, rep: string)
    ensures CollapseRuns([c] + t, rep) ==
      if c == '_' then rep + CollapseRuns(StripLeadingUnderscores(t), rep) else [c] + CollapseRuns(t, rep)
  {
    assert ([c] + t)[1..] == t;
  }
}
