/** Choosing the description of a page from its `<meta>` tags. A parsed page is the list of
    the attribute maps of its `<meta>` tags, in document order. Both converters scan that
    list and stop at the first tag whose `name`, lower-cased, is `description`, then read
    that tag's `content`. */
module Meta {
  import opened Strings

  type Tag = map<string, string>

  /** `'name' in tag.attrs and tag.attrs['name'].lower() == 'description'`. Lower-casing
      ASCII letters only decides this comparison exactly: no other code point lower-cases
      to a letter of `description`. */
  predicate IsDescriptionTag(tag: Tag) {
    "name" in tag && Lower(tag["name"]) == "description"
  }

  /** What the scan yields: no matching tag (the description stays `''`), the `content` of
      the first matching tag, or a first matching tag without `content`, where
      `tag.attrs['content']` raises `KeyError('content')`. */
  datatype Selection = NoMatch | Content(text: string) | MissingContent

  function Outcome(tag: Tag): Selection {
    if "content" in tag then Content(tag["content"]) else MissingContent
  }

  /** The specification of the scan: the first matching tag decides. */
  function FirstDescription(tags: seq<Tag>): Selection {
    if tags == [] then NoMatch
    else if IsDescriptionTag(tags[0]) then Outcome(tags[0])
    else FirstDescription(tags[1..])
  }

  ghost predicate IsFirstMatch(tags: seq<Tag>, k: int) {
    0 <= k < |tags| && IsDescriptionTag(tags[k]) &&
    forall j :: 0 <= j < k ==> !IsDescriptionTag(tags[j])
  }

  /** No match is reported exactly when no tag matches; otherwise the outcome is decided by
      the first matching tag, and the tags after it are never looked at. */
  lemma {:induction false} FirstDescriptionIsFirstMatch(tags: seq<Tag>)
    ensures FirstDescription(tags) == NoMatch <==> forall k :: 0 <= k < |tags| ==> !IsDescriptionTag(tags[k])
    ensures forall k :: IsFirstMatch(tags, k) ==> FirstDescription(tags) == Outcome(tags[k])
  {
    if tags != [] {
      FirstDescriptionIsFirstMatch(tags[1..]);
      if !IsDescriptionTag(tags[0]) {
        forall k | IsFirstMatch(tags, k)
          ensures FirstDescription(tags) == Outcome(tags[k])
        {
          assert k != 0;
          assert IsFirstMatch(tags[1..], k - 1);
        }
        if forall k :: 0 <= k < |tags[1..]| ==> !IsDescriptionTag(tags[1..][k]) {
          forall k | 0 <= k < |tags|
            ensures !IsDescriptionTag(tags[k])
          {
            if k > 0 {
              assert tags[k] == tags[1..][k - 1];
            }
          }
        }
      } else {
        forall k | IsFirstMatch(tags, k)
          ensures k == 0
        {
        }
        assert Outcome(tags[0]) != NoMatch;
      }
    }
  }

  /** Tags after a matching one do not change the outcome. */
  lemma {:induction false} FirstDescriptionIgnoresLater(tags: seq<Tag>, later: seq<Tag>)
    requires FirstDescription(tags) != NoMatch
    ensures FirstDescription(tags + later) == FirstDescription(tags)
  {
    assert tags != [];
    assert (tags + later)[0] == tags[0];
    if !IsDescriptionTag(tags[0]) {
      assert (tags + later)[1..] == tags[1..] + later;
      FirstDescriptionIgnoresLater(tags[1..], later);
    }
  }

  /** The `for tag in meta_tags` loop with its `break`. */
  method SelectDescription(tags: seq<Tag>) returns (d: Selection)
    ensures d == FirstDescription(tags)
  {
    d := NoMatch;
    var i := 0;
    while i < |tags|
      invariant 0 <= i <= |tags|
      invariant FirstDescription(tags) == FirstDescription(tags[i..])
    {
      if IsDescriptionTag(tags[i]) {
        d := Outcome(tags[i]);
        break;
      }
      assert tags[i..][1..] == tags[i + 1..];
      i := i + 1;
    }
  }
}
