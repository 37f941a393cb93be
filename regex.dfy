/** The regular expressions the two converters hand to `re.findall`, each as a dedicated
    matcher. `At(p, t, i)` is the match Python's backtracking engine reports when it tries
    pattern `p` at position `i` of `t`; `FindAll` is the leftmost, non-overlapping scan of
    `re.findall`. For every pattern a lemma states the set of strings the pattern matches,
    independently of the matcher, and proves that the matcher returns the match the engine
    prefers (the shortest for a lazy `.*?`, the only one otherwise) or reports that none
    exists. `.` does not match a newline; the negated classes `[^"]`, `[^>]` and `[^<]` do. */
module Regex {
  import opened Strings

  datatype Pattern =
    | Item     // <A.*?<\/A>, the anchor fragments of bookmark_converter_v2.py
    | HrefV2   // <A\s+HREF="(.*?)"
    | HrefV1   // <A HREF="(.*?)"
    | Icon     // ICON="data:image\/png;base64,([^"]+)"
    | TitleV2  // <A[^>]+>([^<]+)</A>
    | TitleV1  // <DT><A[^>]+>([^<]+)</A>

  /** The end of a match and the bounds of its group (for `Item`, which has no group, the
      bounds of the whole match, which is what `findall` returns). */
  datatype Hit = Hit(end: nat, groupStart: nat, groupEnd: nat)

  /** One match reported by the scan: where it starts, its bounds, and the text it yields. */
  datatype Found = Found(start: nat, hit: Hit, group: string)

  const ICON_PREFIX := "ICON=\"data:image/png;base64,"
  const CLOSE_A := "</A>"

  predicate HasAt(t: string, k: nat, w: string) {
    k + |w| <= |t| && t[k..k + |w|] == w
  }

  /** The first position at or after `k` holding `a` or `b`, or `|t|` when there is none. */
  function FirstOf(t: string, k: nat, a: char, b: char): (r: nat)
    requires k <= |t|
    ensures k <= r <= |t|
    ensures forall x :: k <= x < r ==> t[x] != a && t[x] != b
    ensures r < |t| ==> t[r] == a || t[r] == b
    decreases |t| - k
  {
    if k == |t| || t[k] == a || t[k] == b then k else FirstOf(t, k + 1, a, b)
  }

  /** The end of the run of `\s` characters starting at `k`. */
  function SpaceRunEnd(t: string, k: nat): (r: nat)
    requires k <= |t|
    ensures k <= r <= |t|
    ensures forall x :: k <= x < r ==> IsSpace(t[x])
    ensures r < |t| ==> !IsSpace(t[r])
    decreases |t| - k
  {
    if k == |t| || !IsSpace(t[k]) then k else SpaceRunEnd(t, k + 1)
  }

  /** The first position at or after `k` where `</A>` starts or a newline stands. */
  function CloseOrNewline(t: string, k: nat): (r: nat)
    requires k <= |t|
    ensures k <= r <= |t|
    ensures forall x :: k <= x < r ==> !HasAt(t, x, CLOSE_A) && t[x] != '\n'
    ensures r < |t| ==> HasAt(t, r, CLOSE_A) || t[r] == '\n'
    decreases |t| - k
  {
    if k == |t| || HasAt(t, k, CLOSE_A) || t[k] == '\n' then k else CloseOrNewline(t, k + 1)
  }

  function ItemAt(t: string, i: nat): (r: Option<Hit>)
    requires i <= |t|
    ensures r.Some? ==> i + 6 <= r.value.end <= |t| && r.value.groupStart == i && r.value.groupEnd == r.value.end
  {
    if !HasAt(t, i, "<A") then None
    else
      var q := CloseOrNewline(t, i + 2);
      if HasAt(t, q, CLOSE_A) then Some(Hit(q + 4, i, q + 4)) else None
  }

  function HrefV2At(t: string, i: nat): (r: Option<Hit>)
    requires i <= |t|
    ensures r.Some? ==> i < r.value.groupStart <= r.value.groupEnd && r.value.end == r.value.groupEnd + 1 <= |t|
  {
    if !HasAt(t, i, "<A") then None
    else
      var w := SpaceRunEnd(t, i + 2);
      if w == i + 2 || !HasAt(t, w, "HREF=\"") then None
      else
        var q := FirstOf(t, w + 6, '"', '\n');
        if q < |t| && t[q] == '"' then Some(Hit(q + 1, w + 6, q)) else None
  }

  function HrefV1At(t: string, i: nat): (r: Option<Hit>)
    requires i <= |t|
    ensures r.Some? ==> r.value.groupStart == i + 9 <= r.value.groupEnd && r.value.end == r.value.groupEnd + 1 <= |t|
  {
    if !HasAt(t, i, "<A HREF=\"") then None
    else
      var q := FirstOf(t, i + 9, '"', '\n');
      if q < |t| && t[q] == '"' then Some(Hit(q + 1, i + 9, q)) else None
  }

  function IconAt(t: string, i: nat): (r: Option<Hit>)
    requires i <= |t|
    ensures r.Some? ==> r.value.groupStart == i + |ICON_PREFIX| < r.value.groupEnd && r.value.end == r.value.groupEnd + 1 <= |t|
  {
    if !HasAt(t, i, ICON_PREFIX) then None
    else
      var k := i + |ICON_PREFIX|;
      var q := FirstOf(t, k, '"', '"');
      if k < q < |t| then Some(Hit(q + 1, k, q)) else None
  }

  function TitleAt(t: string, prefix: string, i: nat): (r: Option<Hit>)
    requires i <= |t|
    ensures r.Some? ==> i + |prefix| < r.value.groupStart < r.value.groupEnd && r.value.end == r.value.groupEnd + 4 <= |t|
  {
    if !HasAt(t, i, prefix) then None
    else
      var k := i + |prefix|;
      var g := FirstOf(t, k, '>', '>');
      if g == k || g == |t| then None
      else
        var m := FirstOf(t, g + 1, '<', '<');
        if m == g + 1 || !HasAt(t, m, CLOSE_A) then None else Some(Hit(m + 4, g + 1, m))
  }

  function TitlePrefix(p: Pattern): string
    requires p.TitleV2? || p.TitleV1?
  {
    if p.TitleV2? then "<A" else "<DT><A"
  }

  /** The match the engine reports for `p` tried at position `i`, if any. */
  function At(p: Pattern, t: string, i: nat): (r: Option<Hit>)
    requires i <= |t|
    ensures r.Some? ==> i < r.value.end <= |t| && i <= r.value.groupStart <= r.value.groupEnd <= r.value.end
  {
    match p
    case Item => ItemAt(t, i)
    case HrefV2 => HrefV2At(t, i)
    case HrefV1 => HrefV1At(t, i)
    case Icon => IconAt(t, i)
    case TitleV2 => TitleAt(t, "<A", i)
    case TitleV1 => TitleAt(t, "<DT><A", i)
  }

  /** `re.findall` from position `i`: try the pattern at `i`; on a match record it and go on
      after its end, otherwise go on at `i + 1`. */
  function FindAll(p: Pattern, t: string, i: nat): seq<Found>
    requires i <= |t|
    decreases |t| - i
  {
    if i == |t| then []
    else match At(p, t, i)
      case None => FindAll(p, t, i + 1)
      case Some(h) => [Found(i, h, t[h.groupStart..h.groupEnd])] + FindAll(p, t, h.end)
  }

  /** What `re.findall(p, t)` returns: the group of every match, in order. */
  function Findall(p: Pattern, t: string): seq<string> {
    var found := FindAll(p, t, 0);
    seq(|found|, n requires 0 <= n < |found| => found[n].group)
  }

  /** Position `k` lies inside one of the matches reported. */
  ghost predicate Covered(found: seq<Found>, k: nat) {
    exists n :: 0 <= n < |found| && found[n].start <= k < found[n].hit.end
  }

  /** Every reported match is the pattern's match at its start, with its group's text. */
  ghost predicate AllMatch(p: Pattern, t: string, i: nat, r: seq<Found>) {
    forall n :: 0 <= n < |r| ==>
      i <= r[n].start < |t| && At(p, t, r[n].start) == Some(r[n].hit) &&
      r[n].group == t[r[n].hit.groupStart..r[n].hit.groupEnd]
  }

  /** The matches start at or after `i` and follow each other without overlapping. */
  ghost predicate Ordered(i: nat, r: seq<Found>) {
    (forall n :: 0 <= n < |r| ==> i <= r[n].start) &&
    forall n :: 0 <= n < |r| - 1 ==> r[n].hit.end <= r[n + 1].start
  }

  /** Every position from `i` on at which the pattern could match lies inside a match of `r`. */
  ghost predicate NoneMissed(p: Pattern, t: string, i: nat, r: seq<Found>) {
    forall k :: i <= k < |t| && At(p, t, k).Some? ==> Covered(r, k)
  }

  lemma MatchesAfterMiss(p: Pattern, t: string, i: nat)
    requires i < |t| && At(p, t, i).None?
    requires AllMatch(p, t, i + 1, FindAll(p, t, i + 1))
    ensures AllMatch(p, t, i, FindAll(p, t, i))
  {
    assert FindAll(p, t, i) == FindAll(p, t, i + 1);
  }

  lemma MatchesAfterHit(p: Pattern, t: string, i: nat, h: Hit)
    requires i < |t| && At(p, t, i) == Some(h)
    requires AllMatch(p, t, h.end, FindAll(p, t, h.end))
    ensures AllMatch(p, t, i, FindAll(p, t, i))
  {
    var rest := FindAll(p, t, h.end);
    var r := [Found(i, h, t[h.groupStart..h.groupEnd])] + rest;
    assert FindAll(p, t, i) == r;
    forall n | 0 < n < |r|
      ensures r[n] == rest[n - 1]
    {
    }
  }

  lemma {:induction false} FindAllMatches(p: Pattern, t: string, i: nat)
    requires i <= |t|
    ensures AllMatch(p, t, i, FindAll(p, t, i))
    decreases |t| - i
  {
    if i < |t| {
      match At(p, t, i)
      case None =>
        FindAllMatches(p, t, i + 1);
        MatchesAfterMiss(p, t, i);
      case Some(h) =>
        FindAllMatches(p, t, h.end);
        MatchesAfterHit(p, t, i, h);
    }
  }

  lemma OrderedAfterMiss(p: Pattern, t: string, i: nat)
    requires i < |t| && At(p, t, i).None?
    requires Ordered(i + 1, FindAll(p, t, i + 1))
    ensures Ordered(i, FindAll(p, t, i))
  {
    assert FindAll(p, t, i) == FindAll(p, t, i + 1);
  }

  lemma OrderedAfterHit(p: Pattern, t: string, i: nat, h: Hit)
    requires i < |t| && At(p, t, i) == Some(h)
    requires Ordered(h.end, FindAll(p, t, h.end))
    ensures Ordered(i, FindAll(p, t, i))
  {
    var rest := FindAll(p, t, h.end);
    var r := [Found(i, h, t[h.groupStart..h.groupEnd])] + rest;
    assert FindAll(p, t, i) == r;
    forall n | 0 < n < |r|
      ensures r[n] == rest[n - 1]
    {
    }
  }

  lemma {:induction false} FindAllOrdered(p: Pattern, t: string, i: nat)
    requires i <= |t|
    ensures Ordered(i, FindAll(p, t, i))
    decreases |t| - i
  {
    if i < |t| {
      match At(p, t, i)
      case None =>
        FindAllOrdered(p, t, i + 1);
        OrderedAfterMiss(p, t, i);
      case Some(h) =>
        FindAllOrdered(p, t, h.end);
        OrderedAfterHit(p, t, i, h);
    }
  }

  lemma CoveredCons(f: Found, rest: seq<Found>, k: nat)
    requires (f.start <= k < f.hit.end) || Covered(rest, k)
    ensures Covered([f] + rest, k)
  {
    var r := [f] + rest;
    if f.start <= k < f.hit.end {
      assert r[0] == f;
    } else {
      var n :| 0 <= n < |rest| && rest[n].start <= k < rest[n].hit.end;
      assert r[n + 1] == rest[n];
    }
  }

  lemma CoversAfterMiss(p: Pattern, t: string, i: nat)
    requires i < |t| && At(p, t, i).None?
    requires NoneMissed(p, t, i + 1, FindAll(p, t, i + 1))
    ensures NoneMissed(p, t, i, FindAll(p, t, i))
  {
    var r := FindAll(p, t, i + 1);
    assert FindAll(p, t, i) == r;
    forall k | i <= k < |t| && At(p, t, k).Some?
      ensures Covered(r, k)
    {
      assert k != i;
    }
  }

  lemma CoversAfterHit(p: Pattern, t: string, i: nat, h: Hit)
    requires i < |t| && At(p, t, i) == Some(h)
    requires NoneMissed(p, t, h.end, FindAll(p, t, h.end))
    ensures NoneMissed(p, t, i, FindAll(p, t, i))
  {
    var f := Found(i, h, t[h.groupStart..h.groupEnd]);
    var rest := FindAll(p, t, h.end);
    assert FindAll(p, t, i) == [f] + rest;
    forall k | i <= k < |t| && At(p, t, k).Some?
      ensures Covered([f] + rest, k)
    {
      CoveredCons(f, rest, k);
    }
  }

  lemma {:induction false} FindAllCovers(p: Pattern, t: string, i: nat)
    requires i <= |t|
    ensures NoneMissed(p, t, i, FindAll(p, t, i))
    decreases |t| - i
  {
    if i < |t| {
      match At(p, t, i)
      case None =>
        FindAllCovers(p, t, i + 1);
        CoversAfterMiss(p, t, i);
      case Some(h) =>
        FindAllCovers(p, t, h.end);
        CoversAfterHit(p, t, i, h);
    }
  }

  /** The scan is leftmost and non-overlapping: every reported match is the pattern's match
      at its start, matches follow each other without overlap, and every position at which
      the pattern could match lies inside a reported match. Together these facts determine
      the result. */
  lemma FindAllLeftmost(p: Pattern, t: string)
    ensures AllMatch(p, t, 0, FindAll(p, t, 0))
    ensures Ordered(0, FindAll(p, t, 0))
    ensures NoneMissed(p, t, 0, FindAll(p, t, 0))
  {
    FindAllMatches(p, t, 0);
    FindAllOrdered(p, t, 0);
    FindAllCovers(p, t, 0);
  }

  // ---------------------------------------------------------------------------------
  // What each pattern matches, stated without the matcher.

  /** `<A.*?<\/A>` matches `t[i..j]`. */
  ghost predicate IsItem(t: string, i: nat, j: nat) {
    i + 6 <= j <= |t| && HasAt(t, i, "<A") && HasAt(t, j - 4, CLOSE_A) &&
    forall x :: i + 2 <= x < j - 4 ==> t[x] != '\n'
  }

  /** The lazy `.*?` makes the engine choose the shortest match at `i`. */
  lemma ItemAtIsShortestMatch(t: string, i: nat)
    requires i <= |t|
    ensures ItemAt(t, i).Some? ==>
      IsItem(t, i, ItemAt(t, i).value.end) && forall j :: IsItem(t, i, j) ==> ItemAt(t, i).value.end <= j
    ensures ItemAt(t, i).None? ==> forall j :: !IsItem(t, i, j)
  {
    forall j: nat | IsItem(t, i, j)
      ensures ItemAt(t, i).Some? && ItemAt(t, i).value.end <= j
    {
      var q := CloseOrNewline(t, i + 2);
      assert q <= j - 4;
      assert HasAt(t, q, CLOSE_A);
    }
  }

  /** `<A\s+HREF="(.*?)"` matches `t[i..j]` with the whitespace run ending at `w`; the group
      is `t[w + 6..j - 1]`. */
  ghost predicate IsHrefV2(t: string, i: nat, w: nat, j: nat) {
    i + 2 < w && w + 7 <= j <= |t| && HasAt(t, i, "<A") &&
    (forall x :: i + 2 <= x < w ==> IsSpace(t[x])) &&
    HasAt(t, w, "HREF=\"") && t[j - 1] == '"' &&
    forall x :: w + 6 <= x < j - 1 ==> t[x] != '\n'
  }

  /** The greedy `\s+` can end only where `HREF` starts, and the lazy group is the shortest. */
  lemma HrefV2AtIsPreferredMatch(t: string, i: nat)
    requires i <= |t|
    ensures HrefV2At(t, i).Some? ==>
      IsHrefV2(t, i, HrefV2At(t, i).value.groupStart - 6, HrefV2At(t, i).value.end) &&
      forall w: nat, j: nat :: IsHrefV2(t, i, w, j) ==>
        w == HrefV2At(t, i).value.groupStart - 6 && HrefV2At(t, i).value.end <= j
    ensures HrefV2At(t, i).None? ==> forall w: nat, j: nat :: !IsHrefV2(t, i, w, j)
  {
    if HrefV2At(t, i).Some? {
      HrefV2AtMatches(t, i);
    }
    forall w: nat, j: nat | IsHrefV2(t, i, w, j)
      ensures HrefV2At(t, i).Some? && HrefV2At(t, i).value.groupStart == w + 6 && HrefV2At(t, i).value.end <= j
    {
      HrefV2AtIsFirst(t, i, w, j);
    }
  }

  lemma HrefV2AtMatches(t: string, i: nat)
    requires i <= |t| && HrefV2At(t, i).Some?
    ensures IsHrefV2(t, i, HrefV2At(t, i).value.groupStart - 6, HrefV2At(t, i).value.end)
  {
  }

  lemma HrefV2AtIsFirst(t: string, i: nat, w: nat, j: nat)
    requires IsHrefV2(t, i, w, j)
    ensures HrefV2At(t, i).Some? && HrefV2At(t, i).value.groupStart == w + 6 && HrefV2At(t, i).value.end <= j
  {
    var w0 := SpaceRunEnd(t, i + 2);
    assert t[w] == 'H' && !IsSpace(t[w]) by {
      assert t[w..w + 6][0] == 'H';
    }
    assert w0 == w;
    var q := FirstOf(t, w + 6, '"', '\n');
    assert q <= j - 1;
    assert t[q] == '"';
  }

  /** `<A HREF="(.*?)"` matches `t[i..j]`; the group is `t[i + 9..j - 1]`. */
  ghost predicate IsHrefV1(t: string, i: nat, j: nat) {
    i + 10 <= j <= |t| && HasAt(t, i, "<A HREF=\"") && t[j - 1] == '"' &&
    forall x :: i + 9 <= x < j - 1 ==> t[x] != '\n'
  }

  lemma HrefV1AtIsShortestMatch(t: string, i: nat)
    requires i <= |t|
    ensures HrefV1At(t, i).Some? ==>
      IsHrefV1(t, i, HrefV1At(t, i).value.end) && forall j :: IsHrefV1(t, i, j) ==> HrefV1At(t, i).value.end <= j
    ensures HrefV1At(t, i).None? ==> forall j :: !IsHrefV1(t, i, j)
  {
    forall j: nat | IsHrefV1(t, i, j)
      ensures HrefV1At(t, i).Some? && HrefV1At(t, i).value.end <= j
    {
      var q := FirstOf(t, i + 9, '"', '\n');
      assert q <= j - 1;
      assert t[q] == '"';
    }
  }

  /** `ICON="data:image\/png;base64,([^"]+)"` matches `t[i..q + 1]`; the group is
      `t[i + |ICON_PREFIX|..q]`. */
  ghost predicate IsIcon(t: string, i: nat, q: nat) {
    i + |ICON_PREFIX| < q < |t| && HasAt(t, i, ICON_PREFIX) && t[q] == '"' &&
    forall x :: i + |ICON_PREFIX| <= x < q ==> t[x] != '"'
  }

  /** The payload runs to the first quote; that match is the only one at `i`. */
  lemma IconAtIsOnlyMatch(t: string, i: nat)
    requires i <= |t|
    ensures IconAt(t, i).Some? ==>
      IsIcon(t, i, IconAt(t, i).value.groupEnd) && forall q :: IsIcon(t, i, q) ==> q == IconAt(t, i).value.groupEnd
    ensures IconAt(t, i).None? ==> forall q :: !IsIcon(t, i, q)
  {
    forall q: nat | IsIcon(t, i, q)
      ensures IconAt(t, i).Some? && IconAt(t, i).value.groupEnd == q
    {
      var q0 := FirstOf(t, i + |ICON_PREFIX|, '"', '"');
      assert q0 <= q;
    }
  }

  /** `<prefix>[^>]+>([^<]+)</A>` matches `t[i..m + 4]`, the `>` at `g`; the group is
      `t[g + 1..m]`. */
  ghost predicate IsTitle(t: string, prefix: string, i: nat, g: nat, m: nat) {
    i + |prefix| < g && g + 1 < m && m + 4 <= |t| && HasAt(t, i, prefix) && t[g] == '>' &&
    (forall x :: i + |prefix| <= x < g ==> t[x] != '>') &&
    (forall x :: g + 1 <= x < m ==> t[x] != '<') &&
    HasAt(t, m, CLOSE_A)
  }

  /** Both classes run to the first character they exclude, so there is at most one match. */
  lemma TitleAtIsOnlyMatch(t: string, prefix: string, i: nat)
    requires i <= |t|
    ensures TitleAt(t, prefix, i).Some? ==>
      IsTitle(t, prefix, i, TitleAt(t, prefix, i).value.groupStart - 1, TitleAt(t, prefix, i).value.groupEnd) &&
      forall g: nat, m: nat :: IsTitle(t, prefix, i, g, m) ==>
        g == TitleAt(t, prefix, i).value.groupStart - 1 && m == TitleAt(t, prefix, i).value.groupEnd
    ensures TitleAt(t, prefix, i).None? ==> forall g: nat, m: nat :: !IsTitle(t, prefix, i, g, m)
  {
    forall g: nat, m: nat | IsTitle(t, prefix, i, g, m)
      ensures TitleAt(t, prefix, i).Some? && TitleAt(t, prefix, i).value == Hit(m + 4, g + 1, m)
    {
      var g0 := FirstOf(t, i + |prefix|, '>', '>');
      assert g0 == g;
      var m0 := FirstOf(t, g + 1, '<', '<');
      assert t[m] == t[m..m + 4][0] == '<';
      assert m0 == m;
    }
  }
}
