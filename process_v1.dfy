/** `process_url` of bookmark_converter.py and the loop that runs it over the jobs built by
    `zip`, one job at a time in the order they are submitted. `ascii` stands for
    `unidecode`, and `decode` and `fetch` for the icon and page steps of `Oracles`. Every
    exception raised inside `process_url` ends in an error record. */
module ProcessV1 {
  import opened Strings
  import opened Files
  import Meta
  import FieldsV1
  import ExtractV1
  import opened Oracles

  const RESULT_PATH := "output/result.txt"
  const ERROR_PATH := "output/error.txt"
  /** The directory the icons are saved to, handed to every job. */
  const OUTPUT_DIR := "output/images"
  /** The configurable proxy: empty, so `requests` is given no proxy. */
  const SOCKS5_PROXY := ""

  /** The description found on the page, or the text of the exception that stopped the job. */
  datatype Result = Ok(description: string) | Err(msg: string)

  /** The `img` line shared by the result and the error record. */
  function ImageLine(fileName: string): string {
    "  img: " + "/images/logos/" + fileName + ".png" + "\n"
  }

  /** The four writes of a successful job. */
  function ResultBlock(title: string, url: string, fileName: string, description: string): seq<string> {
    ["- name: " + title + "\n", "  url: " + url + "\n", ImageLine(fileName), "  description: " + description + "\n"]
  }

  /** The four writes of the `except` branch. */
  function ErrorBlock(title: string, url: string, fileName: string, msg: string): seq<string> {
    ["- name: " + title + "\n", "  url: " + url + "\n", ImageLine(fileName), "  error: " + msg + "\n"]
  }

  /** Both records are four lines, and they differ only in the last one. */
  lemma BlocksShareHead(title: string, url: string, fileName: string, description: string, msg: string)
    ensures |ResultBlock(title, url, fileName, description)| == |ErrorBlock(title, url, fileName, msg)| == 4
    ensures ResultBlock(title, url, fileName, description)[..3] == ErrorBlock(title, url, fileName, msg)[..3]
    ensures ResultBlock(title, url, fileName, description)[3] != ErrorBlock(title, url, fileName, msg)[3]
  {
    var a := ResultBlock(title, url, fileName, description)[3];
    var b := ErrorBlock(title, url, fileName, msg)[3];
    assert a[2] == 'd' && b[2] == 'e';
  }

  /** The request of every job: both proxy entries set to `SOCKS5_PROXY`, no credentials. */
  function RequestFor(url: string): (r: Request)
    ensures r.url == url && r.username.None? && r.password.None?
    ensures r.proxies.Keys == {"http", "https"} && r.proxies["http"] == r.proxies["https"] == SOCKS5_PROXY
  {
    Request(url, map["http" := SOCKS5_PROXY, "https" := SOCKS5_PROXY], None, None)
  }

  /** The file name of a job: from the transliterated title. */
  function FileNameOf(title: string, ascii: string -> string): string {
    FieldsV1.TitleFileName(ascii(title))
  }

  /** `os.path.join(output_dir, f"{file_name}.png")`, after line 59 has turned the
      backslashes of `output_dir` into slashes. */
  function SavePath(outputDir: string, fileName: string): string {
    PathJoin(Replace(outputDir, "\\", "/"), fileName + ".png")
  }

  lemma OutputDirHasSlashes()
    ensures Replace(OUTPUT_DIR, "\\", "/") == OUTPUT_DIR
  {
    ReplaceAbsentChar(OUTPUT_DIR, '\\', "/");
  }

  /** An icon is saved as `output/images/<name>.png`, with the name derived from the
      title. */
  lemma IconSavePath(title: string, ascii: string -> string)
    ensures SavePath(OUTPUT_DIR, FileNameOf(title, ascii)) == OUTPUT_DIR + "/" + FileNameOf(title, ascii) + ".png"
  {
    OutputDirHasSlashes();
    var f := FileNameOf(title, ascii);
    FieldsV1.TitleFileNameNoSlash(ascii(title));
    JoinUnder(OUTPUT_DIR, f);
  }

  /** The error of saving the icon named `fileName` under `outputDir`, if any. */
  function IconSaveError(outputDir: string, fileName: string): Option<string> {
    SaveError(SavePath(outputDir, fileName))
  }

  /** Saved under the output directory, an icon fails to save exactly when the title gives
      no file name, with `ValueError('unknown file extension: ')`. */
  lemma IconSaveFailsOnEmptyName(title: string, ascii: string -> string)
    ensures var f := FileNameOf(title, ascii);
      IconSaveError(OUTPUT_DIR, f) == if f == [] then Some(UnknownExtension("")) else None
  {
    IconSavePath(title, ascii);
    FieldsV1.TitleFileNameWords(ascii(title));
    SaveUnder(OUTPUT_DIR, FileNameOf(title, ascii));
  }

  /** The specification of `process_url` up to the writing of the record: the icon step,
      the save of the icon, then the request and the description. */
  function Enrich(url: string, code: string, outputDir: string, fileName: string,
                  decode: string -> Step, fetch: Request -> Fetch): Result
  {
    if decode(code).Raised? then Err(decode(code).msg)
    else SaveThenFetch(url, outputDir, fileName, fetch)
  }

  /** The rest of the `try` body once the icon is decoded: the save, then the page. */
  function SaveThenFetch(url: string, outputDir: string, fileName: string, fetch: Request -> Fetch): Result {
    if IconSaveError(outputDir, fileName).Some? then Err(IconSaveError(outputDir, fileName).value)
    else PageResult(url, fetch)
  }

  /** The rest of the `try` body once the icon is saved: the request, then the description
      of the first description tag. */
  function PageResult(url: string, fetch: Request -> Fetch): Result {
    match fetch(RequestFor(url))
    case FetchRaised(m) => Err(m)
    case Page(tags) => FromSelection(Meta.FirstDescription(tags))
  }

  function FromSelection(selection: Meta.Selection): Result {
    match selection
    case MissingContent => Err("'content'")
    case NoMatch => Ok("")
    case Content(t) => Ok(t)
  }

  /** A description is found exactly when the icon step, the save and the request succeed and the
      first description tag, if any, has a `content`; it is that `content` in full, and
      empty when the page has no description tag. The error is the text of the first
      exception raised. */
  lemma EnrichSpec(url: string, code: string, outputDir: string, fileName: string,
                   decode: string -> Step, fetch: Request -> Fetch)
    ensures var r := Enrich(url, code, outputDir, fileName, decode, fetch);
      var page := fetch(RequestFor(url));
      var saved := decode(code).Done? && IconSaveError(outputDir, fileName).None?;
      (r.Ok? <==> saved && page.Page? && Meta.FirstDescription(page.tags) != Meta.MissingContent) &&
      (decode(code).Raised? ==> r == Err(decode(code).msg)) &&
      (decode(code).Done? && IconSaveError(outputDir, fileName).Some? ==> r == Err(IconSaveError(outputDir, fileName).value)) &&
      (saved && page.FetchRaised? ==> r == Err(page.msg)) &&
      (saved && page.Page? ==>
        match Meta.FirstDescription(page.tags)
        case NoMatch => r == Ok("")
        case Content(t) => r == Ok(t)
        case MissingContent => r == Err("'content'"))
  {
  }

  /** The two files a job can write to. */
  datatype Sink = ResultFile | ErrorFile

  function PathOf(sink: Sink): string {
    match sink
    case ResultFile => RESULT_PATH
    case ErrorFile => ERROR_PATH
  }

  /** The file a job writes to and the four lines it writes there, from its outcome. */
  function RecordOf(title: string, url: string, fileName: string, r: Result): (Sink, seq<string>) {
    match r
    case Ok(d) => (ResultFile, ResultBlock(title, url, fileName, d))
    case Err(m) => (ErrorFile, ErrorBlock(title, url, fileName, m))
  }

  function Record(t: ExtractV1.Task, outputDir: string, ascii: string -> string,
                  decode: string -> Step, fetch: Request -> Fetch): (Sink, seq<string>)
  {
    var fileName := FileNameOf(t.title, ascii);
    RecordOf(t.title, t.url, fileName, Enrich(t.url, t.code, outputDir, fileName, decode, fetch))
  }

  /** Whether a job saves its icon: the icon step completes and the save succeeds. */
  predicate SavesIcon(t: ExtractV1.Task, outputDir: string, ascii: string -> string, decode: string -> Step) {
    decode(t.code).Done? && IconSaveError(outputDir, FileNameOf(t.title, ascii)).None?
  }

  /** The icon a job saves, if any. */
  function Saved(t: ExtractV1.Task, outputDir: string, ascii: string -> string, decode: string -> Step): seq<string> {
    if SavesIcon(t, outputDir, ascii, decode) then [SavePath(outputDir, FileNameOf(t.title, ascii))] else []
  }

  /** A job whose transliterated title has no letter, digit, underscore or space saves no
      icon and writes the error record of the failed save, whatever the page holds. */
  lemma SymbolTitleFails(t: ExtractV1.Task, ascii: string -> string, decode: string -> Step, fetch: Request -> Fetch)
    requires decode(t.code).Done?
    requires forall k :: 0 <= k < |ascii(t.title)| ==> !IsWordChar(ascii(t.title)[k]) && ascii(t.title)[k] != ' '
    ensures Record(t, OUTPUT_DIR, ascii, decode, fetch) == (ErrorFile, ErrorBlock(t.title, t.url, "", UnknownExtension("")))
    ensures Saved(t, OUTPUT_DIR, ascii, decode) == []
  {
    FieldsV1.SymbolTitleHasNoName(ascii(t.title));
    IconSaveFailsOnEmptyName(t.title, ascii);
  }

  /** `image.save(save_path)`: the directory with its backslashes turned into slashes,
      joined with the PNG file of the name; the image is written unless the save raises. */
  method SaveIcon(dir: OutputDir, outputDir: string, fileName: string) returns (err: Option<string>)
    modifies dir
    ensures err == IconSaveError(outputDir, fileName)
    ensures err.None? ==> dir.images == old(dir.images) + [SavePath(outputDir, fileName)]
    ensures err.Some? ==> dir.images == old(dir.images)
    ensures dir.files == old(dir.files)
  {
    var slashed := Replace(outputDir, "\\", "/");
    var path := PathJoin(slashed, fileName + ".png");
    err := SaveError(path);
    if err.None? {
      dir.SaveImage(path);
    }
  }

  /** The body of the `try` up to the writing of the record: the icon is decoded and saved,
      the page fetched and its description looked up. */
  method Attempt(dir: OutputDir, url: string, code: string, outputDir: string, fileName: string,
                 decode: string -> Step, fetch: Request -> Fetch) returns (r: Result)
    modifies dir
    ensures r == Enrich(url, code, outputDir, fileName, decode, fetch)
    ensures decode(code).Done? && IconSaveError(outputDir, fileName).None? ==>
      dir.images == old(dir.images) + [SavePath(outputDir, fileName)]
    ensures !(decode(code).Done? && IconSaveError(outputDir, fileName).None?) ==> dir.images == old(dir.images)
    ensures dir.files == old(dir.files)
  {
    var step := decode(code);
    if step.Raised? {
      return Err(step.msg);
    }
    r := SaveAndFetch(dir, url, outputDir, fileName, fetch);
  }

  /** The icon is saved, then the page fetched and its description looked up. */
  method SaveAndFetch(dir: OutputDir, url: string, outputDir: string, fileName: string,
                      fetch: Request -> Fetch) returns (r: Result)
    modifies dir
    ensures r == SaveThenFetch(url, outputDir, fileName, fetch)
    ensures IconSaveError(outputDir, fileName).None? ==> dir.images == old(dir.images) + [SavePath(outputDir, fileName)]
    ensures IconSaveError(outputDir, fileName).Some? ==> dir.images == old(dir.images)
    ensures dir.files == old(dir.files)
  {
    var err := SaveIcon(dir, outputDir, fileName);
    if err.Some? {
      return Err(err.value);
    }
    r := FetchPage(url, fetch);
  }

  /** The request and the description lookup. */
  method FetchPage(url: string, fetch: Request -> Fetch) returns (r: Result)
    ensures r == PageResult(url, fetch)
  {
    var page := fetch(RequestFor(url));
    if page.FetchRaised? {
      return Err(page.msg);
    }
    var selection := Meta.SelectDescription(page.tags);
    if selection.MissingContent? {
      return Err("'content'");
    }
    r := Ok(if selection.Content? then selection.text else "");
  }

  /** `process_url(url, title, base64_code, output_dir)`: the record of the job is
      appended to the result file or, when a step raised, to the error file. */
  method ProcessUrl(dir: OutputDir, t: ExtractV1.Task, outputDir: string, ascii: string -> string,
                    decode: string -> Step, fetch: Request -> Fetch)
    modifies dir
    ensures dir.files == Appended(old(dir.files), PathOf(Record(t, outputDir, ascii, decode, fetch).0), Record(t, outputDir, ascii, decode, fetch).1)
    ensures dir.images == old(dir.images) + Saved(t, outputDir, ascii, decode)
  {
    var fileName := FieldsV1.TitleFileName(ascii(t.title));
    ghost var before := dir.images;
    var r := Attempt(dir, t.url, t.code, outputDir, fileName, decode, fetch);
    SavedEffect(t, outputDir, ascii, decode, before, dir.images);
    WriteRecord(dir, t.title, t.url, fileName, r);
  }

  /** The images after a job, in terms of `Saved`. */
  lemma SavedEffect(t: ExtractV1.Task, outputDir: string, ascii: string -> string, decode: string -> Step,
                    before: seq<string>, after: seq<string>)
    requires SavesIcon(t, outputDir, ascii, decode) ==> after == before + [SavePath(outputDir, FileNameOf(t.title, ascii))]
    requires !SavesIcon(t, outputDir, ascii, decode) ==> after == before
    ensures after == before + Saved(t, outputDir, ascii, decode)
  {
    if !SavesIcon(t, outputDir, ascii, decode) {
      assert before + [] == before;
    }
  }

  /** The `try` branch writes the record to the result file, the `except` branch the
      error record to the error file. */
  method WriteRecord(dir: OutputDir, title: string, url: string, fileName: string, r: Result)
    modifies dir
    ensures dir.files == Appended(old(dir.files), PathOf(RecordOf(title, url, fileName, r).0), RecordOf(title, url, fileName, r).1)
    ensures dir.images == old(dir.images)
  {
    match r
    case Ok(description) =>
      dir.Append(RESULT_PATH, ResultBlock(title, url, fileName, description));
    case Err(msg) =>
      dir.Append(ERROR_PATH, ErrorBlock(title, url, fileName, msg));
  }

  /** What each job writes, in job order: the path and the four lines. */
  function Plan(ts: seq<ExtractV1.Task>, outputDir: string, ascii: string -> string, decode: string -> Step,
                fetch: Request -> Fetch): (r: seq<(Sink, seq<string>)>)
    ensures |r| == |ts|
  {
    seq(|ts|, k requires 0 <= k < |ts| => Record(ts[k], outputDir, ascii, decode, fetch))
  }

  /** The icons each job saves, in job order. */
  function IconPlan(ts: seq<ExtractV1.Task>, outputDir: string, ascii: string -> string, decode: string -> Step): (r: seq<seq<string>>)
    ensures |r| == |ts|
  {
    seq(|ts|, k requires 0 <= k < |ts| => Saved(ts[k], outputDir, ascii, decode))
  }

  /** The plans list each job's own record and icons, in job order. */
  lemma {:induction false} PlanAt(ts: seq<ExtractV1.Task>, outputDir: string, ascii: string -> string, decode: string -> Step,
                                  fetch: Request -> Fetch, k: nat)
    requires k < |ts|
    ensures Plan(ts, outputDir, ascii, decode, fetch)[k] == Record(ts[k], outputDir, ascii, decode, fetch)
  {
  }

  lemma {:induction false} IconPlanAt(ts: seq<ExtractV1.Task>, outputDir: string, ascii: string -> string,
                                      decode: string -> Step, k: nat)
    requires k < |ts|
    ensures IconPlan(ts, outputDir, ascii, decode)[k] == Saved(ts[k], outputDir, ascii, decode)
  {
  }

  /** Everything the first `n` records write to `path`, in order. */
  function WrittenTo(recs: seq<(Sink, seq<string>)>, n: nat, path: string): seq<string>
    requires n <= |recs|
  {
    if n == 0 then [] else WrittenTo(recs, n - 1, path) + (if PathOf(recs[n - 1].0) == path then recs[n - 1].1 else [])
  }

  /** The records among the first `n` that go to the result file. */
  function Successes(recs: seq<(Sink, seq<string>)>, n: nat): nat
    requires n <= |recs|
  {
    if n == 0 then 0 else Successes(recs, n - 1) + (if recs[n - 1].0 == ResultFile then 1 else 0)
  }

  /** The first `n` parts, one after the other. */
  function Flatten(parts: seq<seq<string>>, n: nat): seq<string>
    requires n <= |parts|
  {
    if n == 0 then [] else Flatten(parts, n - 1) + parts[n - 1]
  }

  /** A job goes to the result file exactly when it finds a description, and to the error
      file otherwise, with four lines either way. */
  lemma RecordSpec(t: ExtractV1.Task, outputDir: string, ascii: string -> string, decode: string -> Step, fetch: Request -> Fetch)
    ensures var r := Record(t, outputDir, ascii, decode, fetch);
      (r.0 == ResultFile <==> Enrich(t.url, t.code, outputDir, FileNameOf(t.title, ascii), decode, fetch).Ok?) &&
      |r.1| == 4 && r.1[0] == "- name: " + t.title + "\n"
  {
  }

  /** Four lines go to the result file per record that goes there, four to the error file
      per other record, and nothing anywhere else. */
  lemma {:induction false} WrittenCounts(recs: seq<(Sink, seq<string>)>, n: nat)
    requires n <= |recs|
    requires forall k :: 0 <= k < |recs| ==> |recs[k].1| == 4
    ensures Successes(recs, n) <= n
    ensures |WrittenTo(recs, n, RESULT_PATH)| == 4 * Successes(recs, n)
    ensures |WrittenTo(recs, n, ERROR_PATH)| == 4 * (n - Successes(recs, n))
    ensures forall q :: q != RESULT_PATH && q != ERROR_PATH ==> WrittenTo(recs, n, q) == []
  {
    WrittenToResult(recs, n);
    WrittenToError(recs, n);
    forall q | q != RESULT_PATH && q != ERROR_PATH
      ensures WrittenTo(recs, n, q) == []
    {
      WrittenNowhereElse(recs, n, q);
    }
  }

  lemma {:induction false} WrittenToResult(recs: seq<(Sink, seq<string>)>, n: nat)
    requires n <= |recs|
    requires forall k :: 0 <= k < |recs| ==> |recs[k].1| == 4
    ensures Successes(recs, n) <= n
    ensures |WrittenTo(recs, n, RESULT_PATH)| == 4 * Successes(recs, n)
  {
    if n > 0 {
      WrittenToResult(recs, n - 1);
      assert |recs[n - 1].1| == 4;
    }
  }

  lemma {:induction false} WrittenToError(recs: seq<(Sink, seq<string>)>, n: nat)
    requires n <= |recs|
    requires forall k :: 0 <= k < |recs| ==> |recs[k].1| == 4
    ensures Successes(recs, n) <= n
    ensures |WrittenTo(recs, n, ERROR_PATH)| == 4 * (n - Successes(recs, n))
  {
    if n > 0 {
      WrittenToError(recs, n - 1);
      assert |recs[n - 1].1| == 4;
    }
  }

  lemma {:induction false} WrittenNowhereElse(recs: seq<(Sink, seq<string>)>, n: nat, q: string)
    requires n <= |recs|
    requires q != RESULT_PATH && q != ERROR_PATH
    ensures WrittenTo(recs, n, q) == []
  {
    if n > 0 {
      WrittenNowhereElse(recs, n - 1, q);
    }
  }

  /** The same counts for the plan of a run of jobs. */
  lemma PlanCounts(ts: seq<ExtractV1.Task>, outputDir: string, ascii: string -> string, decode: string -> Step, fetch: Request -> Fetch)
    ensures var p := Plan(ts, outputDir, ascii, decode, fetch);
      |WrittenTo(p, |ts|, RESULT_PATH)| == 4 * Successes(p, |ts|) &&
      |WrittenTo(p, |ts|, ERROR_PATH)| == 4 * (|ts| - Successes(p, |ts|)) &&
      (forall q :: q != RESULT_PATH && q != ERROR_PATH ==> WrittenTo(p, |ts|, q) == [])
  {
    var p := Plan(ts, outputDir, ascii, decode, fetch);
    forall k | 0 <= k < |p|
      ensures |p[k].1| == 4
    {
      PlanAt(ts, outputDir, ascii, decode, fetch, k);
      RecordSpec(ts[k], outputDir, ascii, decode, fetch);
    }
    WrittenCounts(p, |ts|);
  }

  /** Flattening parts of at most one element each keeps every element and nothing else. */
  lemma {:induction false} FlattenSingles(parts: seq<seq<string>>, n: nat)
    requires n <= |parts|
    requires forall k :: 0 <= k < |parts| ==> |parts[k]| <= 1
    ensures |Flatten(parts, n)| <= n
    ensures forall k :: 0 <= k < n && |parts[k]| == 1 ==> parts[k][0] in Flatten(parts, n)
    ensures forall x :: x in Flatten(parts, n) ==> exists k :: 0 <= k < n && parts[k] == [x]
  {
    if n > 0 {
      FlattenSingles(parts, n - 1);
      var last := parts[n - 1];
      assert Flatten(parts, n) == Flatten(parts, n - 1) + last;
      forall x | x in Flatten(parts, n)
        ensures exists k :: 0 <= k < n && parts[k] == [x]
      {
        if x !in Flatten(parts, n - 1) {
          assert x in last;
          assert last == [x];
        }
      }
    }
  }

  /** Applied to the icon plan: every job that saves its icon leaves its save path among the
      images, and every image saved is the save path of a job that saves its icon. */
  lemma IconsSaved(ts: seq<ExtractV1.Task>, outputDir: string, ascii: string -> string, decode: string -> Step)
    ensures forall k :: 0 <= k < |ts| && SavesIcon(ts[k], outputDir, ascii, decode) ==>
      SavePath(outputDir, FileNameOf(ts[k].title, ascii)) in Flatten(IconPlan(ts, outputDir, ascii, decode), |ts|)
    ensures forall x :: x in Flatten(IconPlan(ts, outputDir, ascii, decode), |ts|) ==>
      exists k :: 0 <= k < |ts| && SavesIcon(ts[k], outputDir, ascii, decode) && x == SavePath(outputDir, FileNameOf(ts[k].title, ascii))
  {
    var plan := IconPlan(ts, outputDir, ascii, decode);
    forall k | 0 <= k < |plan|
      ensures |plan[k]| <= 1
    {
      IconPlanAt(ts, outputDir, ascii, decode, k);
    }
    FlattenSingles(plan, |ts|);
    forall k | 0 <= k < |ts| && SavesIcon(ts[k], outputDir, ascii, decode)
      ensures SavePath(outputDir, FileNameOf(ts[k].title, ascii)) in Flatten(plan, |ts|)
    {
      IconPlanAt(ts, outputDir, ascii, decode, k);
    }
    forall x | x in Flatten(plan, |ts|)
      ensures exists k :: 0 <= k < |ts| && SavesIcon(ts[k], outputDir, ascii, decode) && x == SavePath(outputDir, FileNameOf(ts[k].title, ascii))
    {
      var k :| 0 <= k < |ts| && plan[k] == [x];
      IconPlanAt(ts, outputDir, ascii, decode, k);
    }
  }

  /** The files after the first `n` records are appended, one after the other. */
  function AppendAll(files: map<string, seq<string>>, recs: seq<(Sink, seq<string>)>, n: nat): map<string, seq<string>>
    requires n <= |recs|
  {
    if n == 0 then files else Appended(AppendAll(files, recs, n - 1), PathOf(recs[n - 1].0), recs[n - 1].1)
  }

  /** The images after the first `n` parts are saved, one after the other. */
  function SaveAll(images: seq<string>, parts: seq<seq<string>>, n: nat): seq<string>
    requires n <= |parts|
  {
    if n == 0 then images else SaveAll(images, parts, n - 1) + parts[n - 1]
  }

  lemma AppendAllNext(base: map<string, seq<string>>, recs: seq<(Sink, seq<string>)>, n: nat,
                      files: map<string, seq<string>>, rec: (Sink, seq<string>))
    requires n < |recs| && recs[n] == rec && files == AppendAll(base, recs, n)
    ensures Appended(files, PathOf(rec.0), rec.1) == AppendAll(base, recs, n + 1)
  {
  }

  lemma SaveAllNext(base: seq<string>, parts: seq<seq<string>>, n: nat, images: seq<string>, part: seq<string>)
    requires n < |parts| && parts[n] == part && images == SaveAll(base, parts, n)
    ensures images + part == SaveAll(base, parts, n + 1)
  {
  }

  /** Each file ends up with what it held before, followed by what the records write to it. */
  lemma {:induction false} AppendAllChunks(files: map<string, seq<string>>, recs: seq<(Sink, seq<string>)>, n: nat, q: string)
    requires n <= |recs|
    ensures ChunksOf(AppendAll(files, recs, n), q) == ChunksOf(files, q) + WrittenTo(recs, n, q)
  {
    if n == 0 {
      assert ChunksOf(files, q) + [] == ChunksOf(files, q);
    } else {
      var prev := AppendAll(files, recs, n - 1);
      var path, chunks := PathOf(recs[n - 1].0), recs[n - 1].1;
      var w := WrittenTo(recs, n - 1, q);
      var e := if path == q then chunks else [];
      AppendAllChunks(files, recs, n - 1, q);
      assert AppendAll(files, recs, n) == Appended(prev, path, chunks);
      assert WrittenTo(recs, n, q) == w + e;
      ChunksAfterAppend(prev, path, chunks, q);
      ChunksStep(ChunksOf(files, q), w, e, ChunksOf(prev, q), ChunksOf(AppendAll(files, recs, n), q));
    }
  }

  lemma ChunksStep(a: seq<string>, w: seq<string>, e: seq<string>, mid: seq<string>, cur: seq<string>)
    requires mid == a + w && cur == mid + e
    ensures cur == a + (w + e)
  {
    ConcatAssoc(a, w, e);
  }

  lemma {:induction false} SaveAllIsFlatten(images: seq<string>, parts: seq<seq<string>>, n: nat)
    requires n <= |parts|
    ensures SaveAll(images, parts, n) == images + Flatten(parts, n)
  {
    if n > 0 {
      SaveAllIsFlatten(images, parts, n - 1);
      assert (images + Flatten(parts, n - 1)) + parts[n - 1] == images + (Flatten(parts, n - 1) + parts[n - 1]);
    }
  }

  /** The executor loop over the jobs, one job at a time in the order of `zip`: every
      file ends up with its old chunks followed by the records of the jobs that wrote to it,
      in job order, and the images in the order the jobs saved them. */
  method ProcessTasks(dir: OutputDir, tasks: seq<ExtractV1.Task>, outputDir: string, ascii: string -> string,
                      decode: string -> Step, fetch: Request -> Fetch)
    modifies dir
    ensures dir.files == AppendAll(old(dir.files), Plan(tasks, outputDir, ascii, decode, fetch), |tasks|)
    ensures dir.images == SaveAll(old(dir.images), IconPlan(tasks, outputDir, ascii, decode), |tasks|)
  {
    var i := 0;
    while i < |tasks|
      invariant 0 <= i <= |tasks|
      invariant dir.files == AppendAll(old(dir.files), Plan(tasks, outputDir, ascii, decode, fetch), i)
      invariant dir.images == SaveAll(old(dir.images), IconPlan(tasks, outputDir, ascii, decode), i)
    {
      RunJob(dir, tasks, i, old(dir.files), old(dir.images), outputDir, ascii, decode, fetch);
      i := i + 1;
    }
  }

  /** One turn of the loop: job `i` appends its record and saves its icon after those of
      the jobs before it. */
  method RunJob(dir: OutputDir, tasks: seq<ExtractV1.Task>, i: nat,
                ghost files: map<string, seq<string>>, ghost images: seq<string>,
                outputDir: string, ascii: string -> string, decode: string -> Step, fetch: Request -> Fetch)
    requires i < |tasks|
    requires dir.files == AppendAll(files, Plan(tasks, outputDir, ascii, decode, fetch), i)
    requires dir.images == SaveAll(images, IconPlan(tasks, outputDir, ascii, decode), i)
    modifies dir
    ensures dir.files == AppendAll(files, Plan(tasks, outputDir, ascii, decode, fetch), i + 1)
    ensures dir.images == SaveAll(images, IconPlan(tasks, outputDir, ascii, decode), i + 1)
  {
    PlanAt(tasks, outputDir, ascii, decode, fetch, i);
    IconPlanAt(tasks, outputDir, ascii, decode, i);
    AppendAllNext(files, Plan(tasks, outputDir, ascii, decode, fetch), i, dir.files, Record(tasks[i], outputDir, ascii, decode, fetch));
    SaveAllNext(images, IconPlan(tasks, outputDir, ascii, decode), i, dir.images, Saved(tasks[i], outputDir, ascii, decode));
    ProcessUrl(dir, tasks[i], outputDir, ascii, decode, fetch);
  }

  /** The run's effect on each file and on the images, in terms of the records. */
  lemma RunEffect(files: map<string, seq<string>>, images: seq<string>, ts: seq<ExtractV1.Task>,
                  outputDir: string, ascii: string -> string, decode: string -> Step, fetch: Request -> Fetch)
    ensures forall q :: (ChunksOf(AppendAll(files, Plan(ts, outputDir, ascii, decode, fetch), |ts|), q) ==
      ChunksOf(files, q) + WrittenTo(Plan(ts, outputDir, ascii, decode, fetch), |ts|, q))
    ensures SaveAll(images, IconPlan(ts, outputDir, ascii, decode), |ts|) == images + Flatten(IconPlan(ts, outputDir, ascii, decode), |ts|)
  {
    var p := Plan(ts, outputDir, ascii, decode, fetch);
    forall q
      ensures ChunksOf(AppendAll(files, p, |ts|), q) == ChunksOf(files, q) + WrittenTo(p, |ts|, q)
    {
      AppendAllChunks(files, p, |ts|, q);
    }
    SaveAllIsFlatten(images, IconPlan(ts, outputDir, ascii, decode), |ts|);
  }

  /** The whole run on the text of a bookmark file. */
  method Convert(dir: OutputDir, content: string, ascii: string -> string,
                 decode: string -> Step, fetch: Request -> Fetch)
    modifies dir
    ensures var tasks := ExtractV1.Tasks(content);
      dir.files == AppendAll(old(dir.files), Plan(tasks, OUTPUT_DIR, ascii, decode, fetch), |tasks|) &&
      dir.images == SaveAll(old(dir.images), IconPlan(tasks, OUTPUT_DIR, ascii, decode), |tasks|)
  {
    ProcessTasks(dir, ExtractV1.Tasks(content), OUTPUT_DIR, ascii, decode, fetch);
  }
}
