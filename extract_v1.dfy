/** The scanning of bookmark_converter.py: the links of the bookmark file and those of them
    that are web addresses (`bookmark_lines`, `filtered_urls`), the icon payloads and the
    titles (`extract_data`), and the jobs built by pairing the three lists position by
    position (`zip`). The three lists are scanned independently, so the pairing is by
    position only. */
module ExtractV1 {
  import opened Strings
  import opened Regex

  /** `re.findall(r'<A HREF="(.*?)"', content)`. */
  function BookmarkLines(content: string): seq<string> {
    Findall(HrefV1, content)
  }

  /** `url.startswith(("http://", "https://"))`, which is case-sensitive. */
  predicate IsWebUrl(url: string) {
    StartsWith(url, "http://") || StartsWith(url, "https://")
  }

  /** The comprehension `[url for url in urls if url.startswith(...)]`. */
  function FilterWeb(urls: seq<string>): seq<string> {
    if urls == [] then []
    else (if IsWebUrl(urls[0]) then [urls[0]] else []) + FilterWeb(urls[1..])
  }

  function FilteredUrls(content: string): seq<string> {
    FilterWeb(BookmarkLines(content))
  }

  /** The filter keeps exactly the web addresses, each as often as it occurs, in input
      order: it keeps a single address exactly when it is a web address, and filtering a
      concatenation concatenates the filtered parts. */
  lemma {:induction false} FilterWebSpec(urls: seq<string>, more: seq<string>)
    ensures FilterWeb(urls + more) == FilterWeb(urls) + FilterWeb(more)
    ensures forall u :: u in FilterWeb(urls) <==> u in urls && IsWebUrl(u)
    ensures |FilterWeb(urls)| <= |urls|
  {
    if urls != [] {
      FilterWebSpec(urls[1..], more);
      assert (urls + more)[1..] == urls[1..] + more;
      assert urls == [urls[0]] + urls[1..];
    } else {
      assert urls + more == more;
    }
  }

  lemma FilterWebSingle(url: string)
    ensures FilterWeb([url]) == if IsWebUrl(url) then [url] else []
  {
    assert [url][1..] == [];
  }

  /** The test is on the exact characters: an upper-case scheme is dropped. */
  lemma FilterIsCaseSensitive()
    ensures FilterWeb(["HTTP://a", "http://a"]) == ["http://a"]
  {
    assert !IsWebUrl("HTTP://a") by {
      assert "HTTP://a"[0] != "http://"[0];
      assert "HTTP://a"[0] != "https://"[0];
    }
    assert IsWebUrl("http://a") by {
      assert "http://a"[..7] == "http://";
    }
    assert ["HTTP://a", "http://a"][1..] == ["http://a"];
    assert ["http://a"][1..] == [];
  }

  /** `extract_data(text)`: every icon payload and every title, in document order. */
  function ExtractData(text: string): (seq<string>, seq<string>) {
    (Findall(Icon, text), Findall(TitleV1, text))
  }

  /** Every icon payload is a non-empty run of characters other than `"`, and every title a
      non-empty run of characters other than `<`. */
  lemma ExtractDataShapes(text: string)
    ensures forall k :: 0 <= k < |ExtractData(text).0| ==>
      ExtractData(text).0[k] != [] && '"' !in ExtractData(text).0[k]
    ensures forall k :: 0 <= k < |ExtractData(text).1| ==>
      ExtractData(text).1[k] != [] && '<' !in ExtractData(text).1[k]
  {
    FindAllMatches(Icon, text, 0);
    FindAllMatches(TitleV1, text, 0);
    var icons := FindAll(Icon, text, 0);
    var titles := FindAll(TitleV1, text, 0);
    forall k | 0 <= k < |icons|
      ensures icons[k].group != [] && '"' !in icons[k].group
    {
      IconAtIsOnlyMatch(text, icons[k].start);
    }
    forall k | 0 <= k < |titles|
      ensures titles[k].group != [] && '<' !in titles[k].group
    {
      TitleAtIsOnlyMatch(text, "<DT><A", titles[k].start);
    }
  }

  datatype Task = Task(url: string, title: string, code: string)

  function Min(a: nat, b: nat): nat {
    if a <= b then a else b
  }

  /** `zip(urls, titles, codes)`: it stops at the end of the shortest list. */
  function Zip3(urls: seq<string>, titles: seq<string>, codes: seq<string>): (r: seq<Task>)
    ensures |r| == Min(Min(|urls|, |titles|), |codes|)
    ensures forall k :: 0 <= k < |r| ==> r[k] == Task(urls[k], titles[k], codes[k])
  {
    if urls == [] || titles == [] || codes == [] then []
    else [Task(urls[0], titles[0], codes[0])] + Zip3(urls[1..], titles[1..], codes[1..])
  }

  /** The jobs of one run: the i-th web address with the i-th title and the i-th icon. */
  function Tasks(content: string): seq<Task> {
    var (codes, titles) := ExtractData(content);
    Zip3(FilteredUrls(content), titles, codes)
  }
}
