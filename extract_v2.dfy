/** Record extraction in bookmark_converter_v2.py: the anchor fragments of a bookmark file,
    the fragments whose link is a web address, and for each of them its link, icon and
    title. The dictionary `extract_data` builds keeps insertion order; it is modelled as the
    sequence of its (key, value) pairs in that order. */
module ExtractV2 {
  import opened Strings
  import opened Regex
  import Urls

  datatype Record = Record(url: string, icon: string, title: string)

  /** One entry of the dictionary: the fragment's position in the fragment list, and its
      record. */
  datatype Entry = Entry(index: nat, record: Record)

  /** `re.findall(ITEM_PATTERN, text)`. */
  function Items(text: string): seq<string> {
    Findall(Item, text)
  }

  /** `''.join(re.findall(URL_PATTERN, item))`. */
  function HrefOf(item: string): string {
    Concat(Findall(HrefV2, item))
  }

  /** `is_valid_protocol`: the scheme `urlparse` finds in the joined links is `http` or
      `https`. */
  predicate IsValidProtocol(item: string) {
    Urls.IsWebScheme(Urls.Split(HrefOf(item)).scheme)
  }

  /** The joined icon payloads, or the default icon when there are none (`or` falls back on
      the empty string). */
  function IconOf(item: string, defaultIcon: string): (r: string)
    ensures Concat(Findall(Icon, item)) != [] ==> r == Concat(Findall(Icon, item))
    ensures Concat(Findall(Icon, item)) == [] ==> r == defaultIcon
  {
    var joined := Concat(Findall(Icon, item));
    if joined == [] then defaultIcon else joined
  }

  function TitleOf(item: string): string {
    Concat(Findall(TitleV2, item))
  }

  function RecordOf(item: string, defaultIcon: string): Record {
    Record(HrefOf(item), IconOf(item, defaultIcon), TitleOf(item))
  }

  /** The comprehension over `enumerate(item_text)`, from position `k` on. */
  function Select(items: seq<string>, defaultIcon: string, keep: string -> bool, k: nat): seq<Entry>
    requires k <= |items|
    decreases |items| - k
  {
    if k == |items| then []
    else
      (if keep(items[k]) then [Entry(k, RecordOf(items[k], defaultIcon))] else []) +
      Select(items, defaultIcon, keep, k + 1)
  }

  /** `extract_data(text)`; the default icon (the payload `get_default_icon` reads) is a
      parameter. */
  function ExtractData(text: string, defaultIcon: string): seq<Entry> {
    Select(Items(text), defaultIcon, IsValidProtocol, 0)
  }

  function Keys(r: seq<Entry>): set<nat> {
    set e | e in r :: e.index
  }

  ghost predicate StrictlyIncreasing(r: seq<Entry>) {
    forall a, b :: 0 <= a < b < |r| ==> r[a].index < r[b].index
  }

  /** The positions at or after `k` of the fragments that pass the filter. */
  function ValidFrom(items: seq<string>, keep: string -> bool, k: nat): set<nat>
    requires k <= |items|
    decreases |items| - k
  {
    if k == |items| then {}
    else (if keep(items[k]) then {k} else {}) + ValidFrom(items, keep, k + 1)
  }

  /** A position is in `ValidFrom(items, keep, k)` exactly when it lies at or after `k` and
      its fragment passes the filter. */
  lemma {:induction false} ValidFromMembers(items: seq<string>, keep: string -> bool, k: nat, j: nat)
    requires k <= |items|
    ensures j in ValidFrom(items, keep, k) <==> k <= j < |items| && keep(items[j])
    decreases |items| - k
  {
    if k < |items| {
      ValidFromMembers(items, keep, k + 1, j);
    }
  }

  /** Every entry is the record of a fragment that passes the filter, stored under that
      fragment's position. */
  lemma {:induction false} SelectEntries(items: seq<string>, defaultIcon: string, keep: string -> bool, k: nat)
    requires k <= |items|
    ensures forall e :: 0 <= e < |Select(items, defaultIcon, keep, k)| ==>
      k <= Select(items, defaultIcon, keep, k)[e].index < |items| &&
      keep(items[Select(items, defaultIcon, keep, k)[e].index]) &&
      Select(items, defaultIcon, keep, k)[e].record == RecordOf(items[Select(items, defaultIcon, keep, k)[e].index], defaultIcon)
    decreases |items| - k
  {
    if k < |items| {
      SelectEntries(items, defaultIcon, keep, k + 1);
    }
  }

  /** The positions of the entries increase. */
  lemma {:induction false} SelectIncreasing(items: seq<string>, defaultIcon: string, keep: string -> bool, k: nat)
    requires k <= |items|
    ensures StrictlyIncreasing(Select(items, defaultIcon, keep, k))
    decreases |items| - k
  {
    if k < |items| {
      SelectIncreasing(items, defaultIcon, keep, k + 1);
      SelectEntries(items, defaultIcon, keep, k + 1);
    }
  }

  lemma KeysConcat(a: seq<Entry>, b: seq<Entry>)
    ensures Keys(a + b) == Keys(a) + Keys(b)
  {
    forall x | x in Keys(a + b)
      ensures x in Keys(a) + Keys(b)
    {
      var e :| e in a + b && e.index == x;
    }
    forall x | x in Keys(a) + Keys(b)
      ensures x in Keys(a + b)
    {
      if x in Keys(a) {
        var e :| e in a && e.index == x;
        assert e in a + b;
      } else {
        var e :| e in b && e.index == x;
        assert e in a + b;
      }
    }
  }

  lemma KeysSingle(e: Entry)
    ensures Keys([e]) == {e.index}
  {
  }

  /** The keys of a selection are the first position, when its fragment passes the
      filter, and the keys of the rest. */
  lemma SelectHeadKeys(items: seq<string>, defaultIcon: string, keep: string -> bool, k: nat)
    requires k < |items|
    ensures Keys(Select(items, defaultIcon, keep, k)) ==
      (if keep(items[k]) then {k} else {}) + Keys(Select(items, defaultIcon, keep, k + 1))
  {
    var rest := Select(items, defaultIcon, keep, k + 1);
    if keep(items[k]) {
      var e := Entry(k, RecordOf(items[k], defaultIcon));
      assert Select(items, defaultIcon, keep, k) == [e] + rest;
      KeysConcat([e], rest);
      KeysSingle(e);
    } else {
      assert Select(items, defaultIcon, keep, k) == rest;
    }
  }

  /** Every fragment that passes the filter has an entry, and no other has. */
  lemma {:induction false} SelectKeys(items: seq<string>, defaultIcon: string, keep: string -> bool, k: nat)
    requires k <= |items|
    ensures Keys(Select(items, defaultIcon, keep, k)) == ValidFrom(items, keep, k)
    decreases |items| - k
  {
    if k < |items| {
      SelectKeys(items, defaultIcon, keep, k + 1);
      SelectHeadKeys(items, defaultIcon, keep, k);
    }
  }

  /** The entries after the first still increase, and their positions all exceed the
      first one's. */
  lemma IncreasingTail(r: seq<Entry>)
    requires r != [] && StrictlyIncreasing(r)
    ensures StrictlyIncreasing(r[1..])
    ensures r[0].index !in Keys(r[1..])
  {
    var t := r[1..];
    forall a, b | 0 <= a < b < |t|
      ensures t[a].index < t[b].index
    {
      assert t[a] == r[a + 1] && t[b] == r[b + 1];
    }
    forall e | e in t
      ensures e.index != r[0].index
    {
      var b :| 0 <= b < |t| && t[b] == e;
      assert r[b + 1] == e;
    }
  }

  lemma KeysCons(r: seq<Entry>)
    requires r != []
    ensures Keys(r) == {r[0].index} + Keys(r[1..])
  {
    assert r == [r[0]] + r[1..];
    KeysConcat([r[0]], r[1..]);
    KeysSingle(r[0]);
  }

  /** Entries whose positions strictly increase have pairwise distinct keys, so there are
      as many entries as keys. */
  lemma {:induction false} IncreasingKeysCount(r: seq<Entry>)
    requires StrictlyIncreasing(r)
    ensures |Keys(r)| == |r|
  {
    if r != [] {
      IncreasingTail(r);
      IncreasingKeysCount(r[1..]);
      KeysCons(r);
    }
  }

  /** What `extract_data` returns: the keys are exactly the positions of the fragments whose
      link is a web address, in increasing order, so there is one entry per such fragment;
      each entry holds that fragment's record. */
  lemma ExtractDataSpec(text: string, defaultIcon: string)
    ensures StrictlyIncreasing(ExtractData(text, defaultIcon))
    ensures Keys(ExtractData(text, defaultIcon)) == ValidFrom(Items(text), IsValidProtocol, 0)
    ensures |ExtractData(text, defaultIcon)| == |ValidFrom(Items(text), IsValidProtocol, 0)|
    ensures forall j: nat :: j in Keys(ExtractData(text, defaultIcon)) <==> j < |Items(text)| && IsValidProtocol(Items(text)[j])
    ensures forall e :: 0 <= e < |ExtractData(text, defaultIcon)| ==>
      ExtractData(text, defaultIcon)[e].index < |Items(text)| &&
      IsValidProtocol(Items(text)[ExtractData(text, defaultIcon)[e].index]) &&
      ExtractData(text, defaultIcon)[e].record == RecordOf(Items(text)[ExtractData(text, defaultIcon)[e].index], defaultIcon)
  {
    SelectEntries(Items(text), defaultIcon, IsValidProtocol, 0);
    SelectIncreasing(Items(text), defaultIcon, IsValidProtocol, 0);
    SelectKeys(Items(text), defaultIcon, IsValidProtocol, 0);
    IncreasingKeysCount(ExtractData(text, defaultIcon));
    forall j: nat
      ensures j in ValidFrom(Items(text), IsValidProtocol, 0) <==> j < |Items(text)| && IsValidProtocol(Items(text)[j])
    {
      ValidFromMembers(Items(text), IsValidProtocol, 0, j);
    }
  }

  /** A fragment passes the filter exactly when its joined links, once `urlsplit` has
      cleaned them, start with `http:` or `https:` in any letter case. */
  lemma ValidProtocolIffPrefix(item: string)
    ensures IsValidProtocol(item) <==>
      (StartsWith(Lower(Urls.Clean(HrefOf(item))), "http:") || StartsWith(Lower(Urls.Clean(HrefOf(item))), "https:"))
  {
    Urls.WebSchemeIffPrefix(HrefOf(item));
  }

  /** Every kept record has a non-empty link: a fragment with no `HREF` has no scheme. */
  lemma KeptUrlsNonEmpty(text: string, defaultIcon: string)
    ensures forall e :: e in ExtractData(text, defaultIcon) ==> e.record.url != []
  {
    ExtractDataSpec(text, defaultIcon);
    forall e | e in ExtractData(text, defaultIcon)
      ensures e.record.url != []
    {
      var a :| 0 <= a < |ExtractData(text, defaultIcon)| && ExtractData(text, defaultIcon)[a] == e;
      var item := Items(text)[e.index];
      assert Urls.Split(HrefOf(item)).scheme != [];
    }
  }
}
