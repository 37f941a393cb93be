/** `process_url` and `process_data` of bookmark_converter_v2.py, run one record at a time.
    `decode` and `fetch` are the icon and page steps of `Oracles`; here `fetch` also covers
    the temporary file the page is written to before parsing. Every exception raised inside
    `process_url` ends in an error record; `sys.exit` in the export dispatch is not an
    `Exception` and ends the job without any record. */
module ProcessV2 {
  import opened Strings
  import opened Files
  import Meta
  import FieldsV2
  import ExportV2
  import ProxyV2
  import ExtractV2
  import Urls
  import opened Oracles

  const ERROR_PATH := "output/error.txt"
  /** `OUTPUT_DIR + IMAGES_DIR`, the directory the icons are saved to. */
  const ICON_DIR := "output/images/logos"

  /** The record `process_url` builds, or the text of the exception that stopped it. */
  datatype Result = Ok(data: ExportV2.Data) | Err(msg: string)

  datatype Outcome = Succeeded | Failed(msg: string) | Exited

  /** The four writes of the `except` branch. */
  function ErrorBlock(title: string, url: string, fileName: string, msg: string): seq<string> {
    [ "- name: \"" + title + "\"\n",
      "  url: " + url + "\n",
      "  img: " + FieldsV2.ImagePath(fileName) + "\n",
      "  error: \"" + msg + "\"\n" ]
  }

  /** `os.path.join(output_dir, f"{file_name}.png")`, after line 124 has turned the
      backslashes of `output_dir` into slashes. */
  function SavePath(outputDir: string, fileName: string): string {
    PathJoin(Replace(outputDir, "\\", "/"), fileName + ".png")
  }

  lemma IconDirHasSlashes()
    ensures Replace(ICON_DIR, "\\", "/") == ICON_DIR
  {
    ReplaceAbsentChar(ICON_DIR, '\\', "/");
  }

  /** The icon of a record is saved as `output/images/logos/<name>.png`, with the name
      derived from the host of its link. */
  lemma IconSavePath(url: string)
    ensures SavePath(ICON_DIR, FieldsV2.HostFileName(url)) == ICON_DIR + "/" + FieldsV2.HostFileName(url) + ".png"
  {
    IconDirHasSlashes();
    var f := FieldsV2.HostFileName(url);
    WordsNoSlash(f);
    JoinUnder(ICON_DIR, f);
  }

  /** The error of saving the icon of `url` under `outputDir`, if any. */
  function IconSaveError(url: string, outputDir: string): Option<string> {
    SaveError(SavePath(outputDir, FieldsV2.HostFileName(url)))
  }

  /** Whether the job saves its icon: the icon step completes and the save succeeds. */
  predicate SavesIcon(url: string, icon: string, outputDir: string, decode: string -> Step) {
    decode(icon).Done? && IconSaveError(url, outputDir).None?
  }

  /** The specification of `process_url` up to the export: the icon step, the save of the
      icon, then the request, then the description of the first description tag. */
  function Enrich(url: string, icon: string, title: string, outputDir: string, proxy: string,
                  username: Option<string>, password: Option<string>,
                  decode: string -> Step, fetch: Request -> Fetch): Result
  {
    if decode(icon).Raised? then Err(decode(icon).msg)
    else SaveThenFetch(url, title, outputDir, proxy, username, password, fetch)
  }

  /** The rest of the `try` body once the icon is decoded: the save, then the page. */
  function SaveThenFetch(url: string, title: string, outputDir: string, proxy: string,
                         username: Option<string>, password: Option<string>,
                         fetch: Request -> Fetch): Result
  {
    if IconSaveError(url, outputDir).Some? then Err(IconSaveError(url, outputDir).value)
    else PageResult(url, title, proxy, username, password, fetch)
  }

  /** Saved under the icon directory, the icon of a link fails to save exactly when no
      file name comes out of its host, with `ValueError('unknown file extension: ')`. */
  lemma IconSaveFailsOnEmptyName(url: string)
    ensures IconSaveError(url, ICON_DIR) == if FieldsV2.HostFileName(url) == [] then Some(UnknownExtension("")) else None
  {
    IconSavePath(url);
    SaveUnder(ICON_DIR, FieldsV2.HostFileName(url));
  }

  /** A link without any `/`, such as `http:example.org`, has no network location and so
      the empty file name: its icon is never saved and the job ends in an error record
      whatever the page holds. */
  lemma HostlessLinkFails(url: string, icon: string, title: string, proxy: string,
                          username: Option<string>, password: Option<string>,
                          decode: string -> Step, fetch: Request -> Fetch)
    requires decode(icon).Done?
    requires '/' !in url
    ensures FieldsV2.HostFileName(url) == []
    ensures Enrich(url, icon, title, ICON_DIR, proxy, username, password, decode, fetch) == Err(UnknownExtension(""))
    ensures !SavesIcon(url, icon, ICON_DIR, decode)
  {
    Urls.NoSlashNoNetloc(url);
    IconSaveFailsOnEmptyName(url);
  }

  /** The rest of the `try` body once the icon is saved: the request, then the description
      of the first description tag. */
  function PageResult(url: string, title: string, proxy: string,
                      username: Option<string>, password: Option<string>,
                      fetch: Request -> Fetch): Result
  {
    match fetch(Request(url, ProxyV2.Proxies(proxy), username, password))
    case FetchRaised(m) => Err(m)
    case Page(tags) => FromSelection(Meta.FirstDescription(tags), title, url)
  }

  /** The record built from the outcome of the description scan. */
  function FromSelection(selection: Meta.Selection, title: string, url: string): Result {
    match selection
    case MissingContent => Err("'content'")
    case NoMatch => Ok(ExportV2.Data(title, url, FieldsV2.ImagePath(FieldsV2.HostFileName(url)), ""))
    case Content(t) => Ok(ExportV2.Data(title, url, FieldsV2.ImagePath(FieldsV2.HostFileName(url)), FieldsV2.Describe(t)))
  }

  /** A record is built exactly when the icon step and the request succeed and the first
      description tag, if any, has a `content`; otherwise the error is the text of the first
      exception raised. */
  lemma EnrichSpec(url: string, icon: string, title: string, outputDir: string, proxy: string,
                   username: Option<string>, password: Option<string>,
                   decode: string -> Step, fetch: Request -> Fetch)
    ensures var r := Enrich(url, icon, title, outputDir, proxy, username, password, decode, fetch);
      var page := fetch(Request(url, ProxyV2.Proxies(proxy), username, password));
      var saved := SavesIcon(url, icon, outputDir, decode);
      (r.Ok? <==> saved && page.Page? && Meta.FirstDescription(page.tags) != Meta.MissingContent) &&
      (decode(icon).Raised? ==> r == Err(decode(icon).msg)) &&
      (decode(icon).Done? && IconSaveError(url, outputDir).Some? ==> r == Err(IconSaveError(url, outputDir).value)) &&
      (saved && page.FetchRaised? ==> r == Err(page.msg)) &&
      (saved && page.Page? && Meta.FirstDescription(page.tags).MissingContent? ==> r == Err("'content'"))
  {
  }

  /** The record carries the title and the link it was given, the `img` path of the
      host-derived file name, and a description of at most 33 characters without carriage
      returns, empty when the page has no description tag. */
  lemma EnrichRecord(url: string, icon: string, title: string, outputDir: string, proxy: string,
                     username: Option<string>, password: Option<string>,
                     decode: string -> Step, fetch: Request -> Fetch)
    requires Enrich(url, icon, title, outputDir, proxy, username, password, decode, fetch).Ok?
    ensures var d := Enrich(url, icon, title, outputDir, proxy, username, password, decode, fetch).data;
      var page := fetch(Request(url, ProxyV2.Proxies(proxy), username, password));
      d.name == title && d.url == url && d.img == FieldsV2.ImagePath(FieldsV2.HostFileName(url)) &&
      |d.description| <= 33 && '\r' !in d.description &&
      (Meta.FirstDescription(page.tags) == Meta.NoMatch ==> d.description == [])
  {
    var page := fetch(Request(url, ProxyV2.Proxies(proxy), username, password));
    if Meta.FirstDescription(page.tags).Content? {
      FieldsV2.DescribeSpec(Meta.FirstDescription(page.tags).text);
    }
  }

  /** A missing `content` on the first description tag is reported with the text of the
      `KeyError`, and later tags are not consulted. */
  lemma MissingContentIsError(url: string, icon: string, title: string, outputDir: string, proxy: string,
                              username: Option<string>, password: Option<string>,
                              decode: string -> Step, fetch: Request -> Fetch, k: nat)
    requires SavesIcon(url, icon, outputDir, decode)
    requires fetch(Request(url, ProxyV2.Proxies(proxy), username, password)).Page?
    requires var tags := fetch(Request(url, ProxyV2.Proxies(proxy), username, password)).tags;
      Meta.IsFirstMatch(tags, k) && "content" !in tags[k]
    ensures Enrich(url, icon, title, outputDir, proxy, username, password, decode, fetch) == Err("'content'")
  {
    Meta.FirstDescriptionIsFirstMatch(fetch(Request(url, ProxyV2.Proxies(proxy), username, password)).tags);
  }

  /** The `except` branch: appends the error record. */
  method WriteError(dir: OutputDir, title: string, url: string, fileName: string, msg: string)
    modifies dir
    ensures dir.files == Appended(old(dir.files), ERROR_PATH, ErrorBlock(title, url, fileName, msg))
    ensures dir.images == old(dir.images)
  {
    dir.Append(ERROR_PATH, ErrorBlock(title, url, fileName, msg));
  }

  /** `resized_image.save(save_path)`: the directory with its backslashes turned into
      slashes, joined with the PNG file of the name; the image is written unless the save
      raises. */
  method SaveIcon(dir: OutputDir, outputDir: string, fileName: string) returns (err: Option<string>)
    modifies dir
    ensures err == SaveError(SavePath(outputDir, fileName))
    ensures err.None? ==> dir.images == old(dir.images) + [SavePath(outputDir, fileName)]
    ensures err.Some? ==> dir.images == old(dir.images)
    ensures dir.files == old(dir.files)
  {
    var slashed := Replace(outputDir, "\\", "/");
    var path := PathJoin(slashed, fileName + ".png");
    err := SaveError(path);
    if err.None? {
      dir.SaveImage(path);
    }
  }

  /** The body of the `try` up to the export: the icon is decoded and saved, the page
      fetched and its description looked up. */
  method Attempt(dir: OutputDir, url: string, icon: string, title: string, outputDir: string, fileName: string,
                 proxy: string, username: Option<string>, password: Option<string>,
                 decode: string -> Step, fetch: Request -> Fetch) returns (r: Result)
    requires fileName == FieldsV2.HostFileName(url)
    modifies dir
    ensures r == Enrich(url, icon, title, outputDir, proxy, username, password, decode, fetch)
    ensures SavesIcon(url, icon, outputDir, decode) ==> dir.images == old(dir.images) + [SavePath(outputDir, FieldsV2.HostFileName(url))]
    ensures !SavesIcon(url, icon, outputDir, decode) ==> dir.images == old(dir.images)
    ensures dir.files == old(dir.files)
  {
    var step := decode(icon);
    if step.Raised? {
      return Err(step.msg);
    }
    r := SaveAndFetch(dir, url, title, outputDir, fileName, proxy, username, password, fetch);
  }

  /** The icon is saved, then the page fetched and its description looked up. */
  method SaveAndFetch(dir: OutputDir, url: string, title: string, outputDir: string, fileName: string,
                      proxy: string, username: Option<string>, password: Option<string>,
                      fetch: Request -> Fetch) returns (r: Result)
    requires fileName == FieldsV2.HostFileName(url)
    modifies dir
    ensures r == SaveThenFetch(url, title, outputDir, proxy, username, password, fetch)
    ensures IconSaveError(url, outputDir).None? ==> dir.images == old(dir.images) + [SavePath(outputDir, fileName)]
    ensures IconSaveError(url, outputDir).Some? ==> dir.images == old(dir.images)
    ensures dir.files == old(dir.files)
  {
    var err := SaveIcon(dir, outputDir, fileName);
    if err.Some? {
      return Err(err.value);
    }
    r := FetchPage(url, title, fileName, proxy, username, password, fetch);
  }

  /** The request and the description lookup. */
  method FetchPage(url: string, title: string, fileName: string, proxy: string,
                   username: Option<string>, password: Option<string>,
                   fetch: Request -> Fetch) returns (r: Result)
    requires fileName == FieldsV2.HostFileName(url)
    ensures r == PageResult(url, title, proxy, username, password, fetch)
  {
    var page := fetch(Request(url, ProxyV2.Proxies(proxy), username, password));
    if page.FetchRaised? {
      return Err(page.msg);
    }
    var selection := Meta.SelectDescription(page.tags);
    r := Build(selection, title, url, fileName);
  }

  /** The rest of the `try` body: the description (empty when no tag matches) and the
      record, or the `KeyError` of a first description tag without `content`. */
  method Build(selection: Meta.Selection, title: string, url: string, fileName: string) returns (r: Result)
    requires fileName == FieldsV2.HostFileName(url)
    ensures r == FromSelection(selection, title, url)
  {
    var description := "";
    if selection.MissingContent? {
      return Err("'content'");
    } else if selection.Content? {
      description := FieldsV2.Describe(selection.text);
    }
    r := Ok(ExportV2.Data(title, url, FieldsV2.ImagePath(fileName), description));
  }

  /** `process_url` for one record, with the rewrite of `socks` proxies and the template
      export done as intended. */
  method ProcessUrl(dir: OutputDir, url: string, icon: string, title: string, outputDir: string, mode: int,
                    proxy: string, username: Option<string>, password: Option<string>,
                    decode: string -> Step, fetch: Request -> Fetch) returns (o: Outcome)
    modifies dir
    ensures SavesIcon(url, icon, outputDir, decode) ==> dir.images == old(dir.images) + [SavePath(outputDir, FieldsV2.HostFileName(url))]
    ensures !SavesIcon(url, icon, outputDir, decode) ==> dir.images == old(dir.images)
    ensures var r := Enrich(url, icon, title, outputDir, proxy, username, password, decode, fetch);
      (r.Err? ==>
        (o == Failed(r.msg) &&
         dir.files == Appended(old(dir.files), ERROR_PATH, ErrorBlock(title, url, FieldsV2.HostFileName(url), r.msg)))) &&
      (r.Ok? ==>
        ((o == Exited <==> !(0 <= mode <= 3)) && (o != Exited ==> o == Succeeded) &&
         dir.files == ExportV2.Export(old(dir.files), mode, r.data).1))
  {
    var fileName := FieldsV2.HostFileName(url);
    var r := Attempt(dir, url, icon, title, outputDir, fileName, proxy, username, password, decode, fetch);
    if r.Err? {
      WriteError(dir, title, url, fileName, r.msg);
      return Failed(r.msg);
    }
    var exported := ExportV2.ExportToOutput(dir, mode, r.data);
    ExportV2.ExportDispatch(old(dir.files), mode, r.data);
    if exported.Exited? {
      return Exited;
    }
    o := Succeeded;
  }

  /** Starting from the same files, the result file after `n` exports holds as many more
      chunks as those exports write: four per record, and for CSV one row per record plus
      the header when the file was missing or empty. */
  function ResultGrowth(mode: int, wasEmpty: bool, n: nat): nat {
    if mode == 1 then n + (if n > 0 && wasEmpty then 1 else 0) else 4 * n
  }

  /** A record of the bookmark file fails: `process_url` writes its error record. */
  predicate RecordFails(record: ExtractV2.Record, outputDir: string, settings: ProxyV2.Settings,
                        decode: string -> Step, fetch: Request -> Fetch) {
    Enrich(record.url, record.icon, record.title, outputDir, settings.address,
           settings.username, settings.password, decode, fetch).Err?
  }

  /** Which records of the bookmark file fail, under the given proxy settings and oracles. */
  function Fails(settings: ProxyV2.Settings, decode: string -> Step, fetch: Request -> Fetch): ExtractV2.Record -> bool {
    record => RecordFails(record, ICON_DIR, settings, decode, fetch)
  }

  /** `fails` tells exactly which records fail. */
  ghost predicate Tracks(fails: ExtractV2.Record -> bool, settings: ProxyV2.Settings, decode: string -> Step, fetch: Request -> Fetch) {
    forall r {:trigger RecordFails(r, ICON_DIR, settings, decode, fetch)} ::
      fails(r) == RecordFails(r, ICON_DIR, settings, decode, fetch)
  }

  /** The number of the first `n` entries whose record satisfies `fails`. */
  function Failures(entries: seq<ExtractV2.Entry>, fails: ExtractV2.Record -> bool, n: nat): nat
    requires n <= |entries|
  {
    if n == 0 then 0
    else Failures(entries, fails, n - 1) + (if fails(entries[n - 1].record) then 1 else 0)
  }

  /** No failure is counted exactly when no record fails, and `n` exactly when every one does. */
  lemma {:induction false} FailuresBounds(entries: seq<ExtractV2.Entry>, fails: ExtractV2.Record -> bool, n: nat)
    requires n <= |entries|
    ensures Failures(entries, fails, n) <= n
    ensures Failures(entries, fails, n) == 0 <==> forall k :: 0 <= k < n ==> !fails(entries[k].record)
    ensures Failures(entries, fails, n) == n <==> forall k :: 0 <= k < n ==> fails(entries[k].record)
  {
    if n > 0 {
      FailuresBounds(entries, fails, n - 1);
    }
  }

  /** One entry more: the count grows by one exactly when that entry's record fails. */
  lemma CountStep(entries: seq<ExtractV2.Entry>, fails: ExtractV2.Record -> bool, prev: nat, n: int,
                  failedNow: bool, before: nat, after: nat)
    requires n == prev + 1 && n <= |entries|
    requires before == Failures(entries, fails, prev)
    requires failedNow == fails(entries[prev].record)
    requires after == before + (if failedNow then 1 else 0)
    ensures after == Failures(entries, fails, n)
  {
  }

  /** One record of the loop of `process_data`: the error file grows by one error record,
      or the file of the mode by one export, or nothing is written when the program exits;
      no other file changes. */
  method RunRecord(dir: OutputDir, record: ExtractV2.Record, mode: int, settings: ProxyV2.Settings,
                   decode: string -> Step, fetch: Request -> Fetch) returns (o: Outcome)
    requires 0 <= mode <= 3 ==> ExportV2.ExportPath(mode).value != ERROR_PATH
    modifies dir
    ensures o.Failed? ==>
      |dir.Chunks(ERROR_PATH)| == |old(dir.Chunks(ERROR_PATH))| + 4 &&
      (forall q :: q != ERROR_PATH ==> dir.Chunks(q) == old(dir.Chunks(q)))
    ensures o.Succeeded? ==> (0 <= mode <= 3 &&
      var p := ExportV2.ExportPath(mode).value;
      |dir.Chunks(p)| == |old(dir.Chunks(p))| + (if mode == 1 then (if old(dir.IsEmpty(p)) then 2 else 1) else 4) &&
      (mode == 1 ==> !dir.IsEmpty(p)) &&
      (forall q :: q != p ==> dir.Chunks(q) == old(dir.Chunks(q))))
    ensures o.Exited? ==> !(0 <= mode <= 3) && dir.files == old(dir.files)
    ensures o.Failed? == RecordFails(record, ICON_DIR, settings, decode, fetch)
    ensures |dir.images| <= |old(dir.images)| + 1
  {
    ghost var before := dir.files;
    ghost var r := Enrich(record.url, record.icon, record.title, ICON_DIR, settings.address,
                          settings.username, settings.password, decode, fetch);
    o := ProcessUrl(dir, record.url, record.icon, record.title, ICON_DIR, mode,
                    settings.address, settings.username, settings.password, decode, fetch);
    OutcomeEffect(before, dir.files, o, r, mode,
                  ErrorBlock(record.title, record.url, FieldsV2.HostFileName(record.url), if r.Err? then r.msg else ""));
  }

  /** What an outcome of `process_url` does to the files, given the record it reached. */
  lemma OutcomeEffect(before: map<string, seq<string>>, after: map<string, seq<string>>, o: Outcome, r: Result,
                      mode: int, block: seq<string>)
    requires 0 <= mode <= 3 ==> ExportV2.ExportPath(mode).value != ERROR_PATH
    requires |block| == 4
    requires r.Err? ==> o == Failed(r.msg) && after == Appended(before, ERROR_PATH, block)
    requires r.Ok? ==>
      (o == Exited <==> !(0 <= mode <= 3)) && (o != Exited ==> o == Succeeded) &&
      after == ExportV2.Export(before, mode, r.data).1
    ensures o.Failed? ==>
      |ChunksOf(after, ERROR_PATH)| == |ChunksOf(before, ERROR_PATH)| + 4 &&
      (forall q :: q != ERROR_PATH ==> ChunksOf(after, q) == ChunksOf(before, q))
    ensures o.Succeeded? ==> (0 <= mode <= 3 &&
      var p := ExportV2.ExportPath(mode).value;
      |ChunksOf(after, p)| == |ChunksOf(before, p)| + (if mode == 1 then (if IsEmptyFile(before, p) then 2 else 1) else 4) &&
      (mode == 1 ==> !IsEmptyFile(after, p)) &&
      (forall q :: q != p ==> ChunksOf(after, q) == ChunksOf(before, q)))
    ensures o.Exited? ==> !(0 <= mode <= 3) && after == before
  {
    if r.Ok? && 0 <= mode <= 3 {
      ExportV2.ExportGrowth(before, mode, r.data);
    }
  }

  /** `process_data` after extraction, one record at a time in key order. The ghost
      `fails` names which records fail; `failed` counts the entries whose record it names. */
  method ProcessData(dir: OutputDir, entries: seq<ExtractV2.Entry>, mode: int, settings: ProxyV2.Settings,
                     decode: string -> Step, fetch: Request -> Fetch, ghost fails: ExtractV2.Record -> bool)
    returns (succeeded: nat, failed: nat, exited: nat)
    requires 0 <= mode <= 3 ==> ExportV2.ExportPath(mode).value != ERROR_PATH
    requires Tracks(fails, settings, decode, fetch)
    modifies dir
    ensures succeeded + failed + exited == |entries|
    ensures exited > 0 <==> (!(0 <= mode <= 3) && |entries| > failed)
    ensures !(0 <= mode <= 3) ==> succeeded == 0
    ensures |dir.Chunks(ERROR_PATH)| == |old(dir.Chunks(ERROR_PATH))| + 4 * failed
    ensures 0 <= mode <= 3 ==>
      |dir.Chunks(ExportV2.ExportPath(mode).value)| ==
      |old(dir.Chunks(ExportV2.ExportPath(mode).value))| + ResultGrowth(mode, old(dir.IsEmpty(ExportV2.ExportPath(mode).value)), succeeded)
    ensures forall q :: q != ERROR_PATH && (0 <= mode <= 3 ==> q != ExportV2.ExportPath(mode).value) ==>
      dir.Chunks(q) == old(dir.Chunks(q))
    ensures |dir.images| <= |old(dir.images)| + |entries|
    ensures failed == Failures(entries, fails, |entries|)
  {
    succeeded, failed, exited := 0, 0, 0;
    var i := 0;
    while i < |entries|
      invariant 0 <= i <= |entries|
      invariant succeeded + failed + exited == i
      invariant exited > 0 <==> (!(0 <= mode <= 3) && i > failed)
      invariant !(0 <= mode <= 3) ==> succeeded == 0
      invariant |dir.Chunks(ERROR_PATH)| == |old(dir.Chunks(ERROR_PATH))| + 4 * failed
      invariant 0 <= mode <= 3 ==>
        |dir.Chunks(ExportV2.ExportPath(mode).value)| ==
        |old(dir.Chunks(ExportV2.ExportPath(mode).value))| + ResultGrowth(mode, old(dir.IsEmpty(ExportV2.ExportPath(mode).value)), succeeded)
      invariant mode == 1 && succeeded == 0 ==>
        dir.Chunks(ExportV2.ExportPath(mode).value) == old(dir.Chunks(ExportV2.ExportPath(mode).value))
      invariant mode == 1 && succeeded > 0 ==> !dir.IsEmpty(ExportV2.ExportPath(mode).value)
      invariant forall q :: q != ERROR_PATH && (0 <= mode <= 3 ==> q != ExportV2.ExportPath(mode).value) ==>
        dir.Chunks(q) == old(dir.Chunks(q))
      invariant |dir.images| <= |old(dir.images)| + i
      invariant failed == Failures(entries, fails, i)
    {
      var o := RunRecord(dir, entries[i].record, mode, settings, decode, fetch);
      ghost var before := failed;
      ghost var prev := i;
      match o {
        case Succeeded => succeeded := succeeded + 1;
        case Failed(_) => failed := failed + 1;
        case Exited => exited := exited + 1;
      }
      i := i + 1;
      CountStep(entries, fails, prev, i, o.Failed?, before, failed);
    }
  }

  /** `process_data` on the text of the bookmark file: every fragment whose link is a web
      address yields one record, and each record ends in exactly one outcome. */
  method Convert(dir: OutputDir, text: string, defaultIcon: string, mode: int, settings: ProxyV2.Settings,
                 decode: string -> Step, fetch: Request -> Fetch)
    returns (succeeded: nat, failed: nat, exited: nat)
    requires 0 <= mode <= 3 ==> ExportV2.ExportPath(mode).value != ERROR_PATH
    modifies dir
    ensures succeeded + failed + exited == |ExtractV2.ValidFrom(ExtractV2.Items(text), ExtractV2.IsValidProtocol, 0)|
    ensures failed == Failures(ExtractV2.ExtractData(text, defaultIcon), Fails(settings, decode, fetch), |ExtractV2.ExtractData(text, defaultIcon)|)
    ensures 0 <= mode <= 3 ==> exited == 0
    ensures !(0 <= mode <= 3) ==> succeeded == 0
    ensures |dir.Chunks(ERROR_PATH)| == |old(dir.Chunks(ERROR_PATH))| + 4 * failed
    ensures forall q :: q != ERROR_PATH && (0 <= mode <= 3 ==> q != ExportV2.ExportPath(mode).value) ==>
      dir.Chunks(q) == old(dir.Chunks(q))
  {
    var entries := ExtractV2.ExtractData(text, defaultIcon);
    ExtractV2.ExtractDataSpec(text, defaultIcon);
    succeeded, failed, exited := ProcessData(dir, entries, mode, settings, decode, fetch, Fails(settings, decode, fetch));
  }
}
