# Bookmark converter: the string-processing layer

This project models the sequential core of the two bookmark converters,
`bookmark_converter_v2.py` and its predecessor `bookmark_converter.py`, and proves
properties of that model. Both scripts read a browser bookmark export and do four things:

- they scan it with regular expressions for links, icons and titles;
- they keep the web addresses;
- they derive an icon file name and a page description for each bookmark;
- they append one record per bookmark to a result file, or to an error file when a step fails.

The network request, the icon decoding and the HTML parsing are foreign code. They appear
as oracle parameters: each one either yields its result or raises.

Modules, one file each:

- `Strings` (strings.dfy): Python's `str.replace`, `startswith`, `lower` and `''.join`, the
  `\s` and `\w` classes, and the quote escaping of the exporters with its inverse.
- `Regex` (regex.dfy): one matcher per pattern with the match Python's engine reports at a
  position, and the leftmost, non-overlapping scan of `re.findall`.
- `Urls` (urls.dfy): the scheme and network location `urlparse` returns (section 3.1 of
  RFC 3986, as CPython recognises a scheme).
- `Files` (files.dfy): the output directory, a class whose map from path to appended chunks
  grows with every write, plus the list of saved icons.
- `Csv` (csv.dfy): `csv.writer` rows in the `excel` dialect, and a reader to read them back.
- `Meta` (meta.dfy): the scan of the page's `<meta>` tags for the description.
- `Oracles` (oracles.dfy): the icon step and the page step.
- `ExtractV2`, `FieldsV2`, `ExportV2`, `ProxyV2`, `ProcessV2`: the parts of
  bookmark_converter_v2.py.
- `ExtractV1`, `FieldsV1`, `ProcessV1`: the parts of bookmark_converter.py.

The jobs run one at a time, in the order they are submitted.

Points of the code's behaviour the model keeps:

- A first description tag without a `content` attribute raises `KeyError('content')`. The
  record then goes to the error file with the message `'content'`
  (`ProcessV2.MissingContentIsError`).
- Only the text and YAML exporters escape, and only double quotes. The CSV exporter relies
  on the writer's quoting. The error records escape nothing.
- Each file is the sequence of chunks appended to it, in job order.
- An icon is saved with PIL, which picks the image format from the file extension. The
  model knows `.png` only. A file name that comes out empty makes the save path end in
  `/.png`, a hidden file with no extension, so the save raises
  `unknown file extension: ` and the record goes to the error file
  (`Files.SaveUnder`, `ProcessV1.SymbolTitleFails`, `ProcessV2.HostlessLinkFails`).

## Model

| member | source | states |
|---|---|---|
| Regex.FindAllLeftmost | bookmark_converter_v2.py:76 | `re.findall` reports only true matches of the pattern, in order and without overlap, and misses no position where the pattern matches |
| Regex.FindAllMatches | bookmark_converter_v2.py:76 | every match reported from a position on is the pattern's match at its start, and it yields its group's text |
| Regex.FindAllOrdered | bookmark_converter_v2.py:76 | the reported matches start at or after the starting position and do not overlap |
| Regex.FindAllCovers | bookmark_converter_v2.py:76 | every position at which the pattern matches lies inside a reported match |
| Regex.ItemAtIsShortestMatch | bookmark_converter_v2.py:27 | the fragment matcher returns the shortest `<A … </A>` without a newline (lazy `.*?`), and reports no match exactly when none exists |
| Regex.HrefV2AtIsPreferredMatch | bookmark_converter_v2.py:28 | the `<A\s+HREF="(.*?)"` matcher takes the whole whitespace run and the shortest quoted link, and reports no match exactly when none exists |
| Regex.HrefV1AtIsShortestMatch | bookmark_converter.py:37 | the `<A HREF="(.*?)"` matcher returns the shortest quoted link on the line, and no match exactly when there is none |
| Regex.IconAtIsOnlyMatch | bookmark_converter_v2.py:29 | the icon payload is the non-empty text up to the first quote, the only match at that position |
| Regex.TitleAtIsOnlyMatch | bookmark_converter_v2.py:30 | the title pattern (with the `<A` or the `<DT><A` prefix) has at most one match at a position, and the matcher finds it |
| Urls.WebSchemeIffPrefix | bookmark_converter_v2.py:70-71 | the scheme is `http` or `https` exactly when the text `urlparse` parses starts with `http:` or `https:`, ignoring ASCII case |
| Urls.NoSlashNoNetloc | bookmark_converter_v2.py:117-118 | a link without `/` has an empty network location |
| ExtractV2.ValidProtocolIffPrefix | bookmark_converter_v2.py:68-72 | `is_valid_protocol` holds exactly when the joined links of the fragment begin with `http:` or `https:`, ignoring case |
| ExtractV2.ExtractDataSpec | bookmark_converter_v2.py:75-88 | the keys are exactly the positions of the fragments that pass the filter, in strictly increasing order; there is one entry per such fragment; each entry holds that fragment's link, icon and title |
| ExtractV2.SelectKeys | bookmark_converter_v2.py:78-86 | the comprehension from position k on is keyed by exactly the positions at or after k whose fragment passes the filter |
| ExtractV2.SelectEntries | bookmark_converter_v2.py:78-86 | every entry is stored under the position of a fragment that passes the filter, and holds that fragment's record |
| ExtractV2.SelectIncreasing | bookmark_converter_v2.py:78-86 | the keys of the comprehension strictly increase |
| ExtractV2.ValidFromMembers | bookmark_converter_v2.py:84-85 | a position is among the kept positions from k on exactly when it lies at or after k and its fragment passes the filter |
| ExtractV2.IncreasingKeysCount | bookmark_converter_v2.py:78-86 | entries with strictly increasing keys have as many distinct keys as entries, so nothing is deduplicated |
| ExtractV2.KeptUrlsNonEmpty | bookmark_converter_v2.py:68-88 | every kept record has a non-empty link |
| FieldsV2.HostFileName | bookmark_converter_v2.py:117-121 | the file name derived from the host holds only word characters |
| FieldsV2.FileNameOfPlainHost | bookmark_converter_v2.py:117-121 | for a host made of word characters and dots, not starting with a dot or `_`, the name is the host with every dot replaced by `_` |
| FieldsV2.DotsToUnderscores | bookmark_converter_v2.py:119 | replacing the dots of such a host leaves only word characters, as many as the host has, with the same first character |
| FieldsV2.FileNameCanStartWithUnderscore | bookmark_converter_v2.py:119-121 | underscores are stripped before other characters are deleted, so the host `-_a.b` gives `_a_b` |
| FieldsV2.ImagePathNames | bookmark_converter_v2.py:188 | the `img` field starts with `/images/logos/`, ends with `.png`, and holds exactly the file name in between |
| FieldsV2.ImagePathInjective | bookmark_converter_v2.py:188 | two records with the same `img` field have the same file name |
| FieldsV2.TruncateSpec | bookmark_converter_v2.py:179-180 | a description of at most 30 characters is unchanged; a longer one becomes its first 30 characters plus `...`, 33 in all; truncation is idempotent |
| FieldsV2.NormaliseNewlinesSpec | bookmark_converter_v2.py:181-182 | the three replacements agree with a one-pass reading that turns every `\r\n`, `\r` or `\n` into one line feed; the result has no `\r`, is no longer than the input, and normalising again changes nothing |
| FieldsV2.NormaliseIsUnify | bookmark_converter_v2.py:181-182 | replacing `\r\n` and then `\r` by a line feed is the one-pass reading |
| FieldsV2.DescribeSpec | bookmark_converter_v2.py:179-182 | the description has at most 33 characters and no carriage return; a content of at most 30 characters without `\r` is kept as it is |
| Meta.FirstDescriptionIsFirstMatch | bookmark_converter_v2.py:174-183 | no description is found exactly when no tag's `name` lower-cases to `description`; otherwise the first such tag decides |
| Meta.FirstDescriptionIgnoresLater | bookmark_converter_v2.py:176-183 | tags after the first matching one do not change the outcome |
| Meta.SelectDescription | bookmark_converter_v2.py:174-183 | the loop with its `break` returns the outcome of the first matching tag |
| Strings.EscapeRoundTrip | bookmark_converter_v2.py:272 | the backslash-quote escaping of the text exporters is undone by reading every `\"` back as `"` |
| Strings.EscapeShape | bookmark_converter_v2.py:272 | escaping adds exactly one character per double quote, and every double quote of the result has a backslash before it |
| Csv.LineRoundTrip | bookmark_converter_v2.py:253-262 | every row `csv.writer` produces is read back as the fields it was written from |
| Csv.JoinRoundTrip | bookmark_converter_v2.py:262 | the fields joined by commas, each quoted when needed, are read back as those fields |
| Csv.ReadQuotedDoubled | bookmark_converter_v2.py:262 | a quoted field whose quotes are doubled is read back as the field, up to its closing quote |
| Csv.Row | bookmark_converter_v2.py:262 | every row ends with `\r\n` |
| ExportV2.CsvRowFields | bookmark_converter_v2.py:260-262 | the row is name, url, img and description, and a CSV reader reads those four values back |
| ExportV2.CsvHeaderRow | bookmark_converter_v2.py:257 | the header row is `name,url,img,description` followed by `\r\n` |
| ExportV2.CsvHeaderReadBack | bookmark_converter_v2.py:257 | a CSV reader reads the header row back as the four column names |
| ExportV2.CsvExportSpec | bookmark_converter_v2.py:242-262 | the CSV exporter writes the header exactly when the file is missing or empty, then exactly one row, the record's |
| ExportV2.CsvHeaderOnce | bookmark_converter_v2.py:244-257 | after one CSV export the file is not empty, so the next export writes no second header |
| ExportV2.ExportToCsv | bookmark_converter_v2.py:242-262 | the file grows by the header (when it was missing or empty) and the row; nothing else changes |
| ExportV2.TextBlockRoundTrip | bookmark_converter_v2.py:265-276 | read chunk by chunk, the four text lines give back the name, url, img and description, whatever quotes the name and description hold |
| ExportV2.ExportToText | bookmark_converter_v2.py:265-276 | the file grows by the four text lines; nothing else changes |
| ExportV2.YamlIsIndentedText | bookmark_converter_v2.py:279-290 | the YAML block is the text block with every line indented by two more spaces |
| ExportV2.ExportToYaml | bookmark_converter_v2.py:279-290 | the file grows by the four YAML lines; nothing else changes |
| ExportV2.ExportToTemplate | bookmark_converter_v2.py:298-307 | the file grows by the four YAML lines; nothing else changes |
| ExportV2.ExportDispatch | bookmark_converter_v2.py:91-111 | the dispatch exits exactly for a mode outside 0..3 and then writes nothing; in a valid mode it writes to that mode's file only |
| ExportV2.ExportGrowth | bookmark_converter_v2.py:91-111 | an export adds four chunks to its mode's file, or for CSV the row plus the header when the file was empty; a CSV file is not empty afterwards; no other file changes |
| ExportV2.ExportToOutput | bookmark_converter_v2.py:91-111 | the method's outcome and files are those of the dispatch, with the template exporter called as intended |
| ExportV2.TemplateModeAlwaysRaises | bookmark_converter_v2.py:102-105 | as written, mode 3 raises the arity `TypeError` and writes nothing; the intended export appends the YAML block to `output/webstack.yaml` |
| ExportV2.ExportAgreesOutsideTemplate | bookmark_converter_v2.py:99-108 | outside mode 3 the code as written and the intended dispatch agree |
| ProxyV2.WithDefaultSchemeSpec | bookmark_converter_v2.py:385-387 | after the default scheme is applied, a non-empty proxy contains `://`, still ends with the argument, and applying the default again changes nothing |
| ProxyV2.ParseProxySpec | bookmark_converter_v2.py:385-403 | the address is a prefix of the argument (with its default scheme) and holds no space; user name and password are set together, exactly when `split(" ")` gives three or more pieces, and joined with the other pieces they rebuild the argument; a scheme-less argument gives a `socks5://` address |
| ProxyV2.SplitJoin | bookmark_converter_v2.py:396 | joining the pieces of `split(" ")` gives the text back |
| ProxyV2.JoinSplit | bookmark_converter_v2.py:396 | splitting pieces free of spaces, once joined, gives the pieces back |
| ProxyV2.BareProxyGoesThroughSocks5h | bookmark_converter_v2.py:141-148 | a bare `host:port` given to `-p` gives no credentials and reaches `requests` as `socks5h://host:port` under both the `http` and `https` keys, as written and as intended alike |
| ProxyV2.ProxyForSpec | bookmark_converter_v2.py:146-148 | a proxy not starting with `socks` is unchanged; a `socks` proxy becomes `socks5h://` plus its host part |
| ProxyV2.ProxyAgreesForSocks5 | bookmark_converter_v2.py:146-148 | for the `socks5://` proxies the argument handling builds, the code as written and the intended rewrite agree |
| ProxyV2.ProxyAsWrittenKeepsSlash | bookmark_converter_v2.py:146-148 | as written, a seven-letter `socks` scheme keeps a slash: `socks5h://h` becomes `socks5h:///h` |
| ProxyV2.ProxyAsWrittenCutsSocks | bookmark_converter_v2.py:146-148 | as written, a `socks://` proxy loses the first character of its host |
| ProcessV2.EnrichSpec | bookmark_converter_v2.py:115-183 | (as intended for the proxy) a record is built exactly when the icon decodes, the save path has a known extension, the request succeeds and the first description tag, if any, has a `content`; otherwise the error is the first exception's text: the decoding error, `unknown file extension: …`, the request's error, or `'content'` |
| ProcessV2.IconSaveFailsOnEmptyName | bookmark_converter_v2.py:117-138 | saved under `output/images/logos`, the icon fails to save exactly when the host-derived name is empty, with `unknown file extension: ` |
| ProcessV2.HostlessLinkFails | bookmark_converter_v2.py:117-138 | a link without `/` has no network location, so its name is empty: even with an icon that decodes, its record is the error `unknown file extension: ` and no icon is saved |
| ProcessV2.EnrichRecord | bookmark_converter_v2.py:185-190 | the record has the given title and link, the `img` path of the host-derived name, and a description of at most 33 characters without `\r`, empty when no tag matches |
| ProcessV2.MissingContentIsError | bookmark_converter_v2.py:177-178 | a first description tag without `content` gives the error `'content'` |
| ProcessV2.WriteError | bookmark_converter_v2.py:201-207 | the error file grows by the four error lines; nothing else changes |
| ProcessV2.IconSavePath | bookmark_converter_v2.py:124-137 | the icon of a record, saved under the directory `output/images/logos` that line 224 passes, lands in that directory as the host-derived name followed by `.png` |
| ProcessV2.SaveIcon | bookmark_converter_v2.py:124-138 | the save yields the error for the save path's extension, if any; on success the icon is saved at that path, after the icons saved earlier; no file changes |
| ProcessV2.FetchPage | bookmark_converter_v2.py:141-183 | the request and the lookup give the error the request raised, or the outcome of the first description tag |
| ProcessV2.Attempt | bookmark_converter_v2.py:117-183 | (as intended for the proxy) the `try` body up to the export yields the specified record or error, and saves the icon exactly when it decodes and its save path has a known extension |
| ProcessV2.SaveAndFetch | bookmark_converter_v2.py:137-183 | the save and the request yield the save error, or else the outcome of the page; the icon is saved exactly when the save path has a known extension |
| ProcessV2.ProcessUrl | bookmark_converter_v2.py:114-207 | (as intended for the proxy and the template export) on an error the error record is appended and nothing else; otherwise the export of the record is done, or the program exits for an invalid mode; the icon is saved exactly when it decodes and saves |
| ProcessV2.RunRecord | bookmark_converter_v2.py:222-237 | the outcome is a failure exactly when the record fails (`RecordFails`: its `Enrich` is an error); one record adds four error lines, or one export to its mode's file, or nothing when the program exits; no other file changes; at most one icon is saved |
| ProcessV2.ProcessData | bookmark_converter_v2.py:210-239 | over all records, the failures are exactly the records whose `process_url` ends in its `except` branch (counted by `Failures` for any `fails` that `Tracks` them), the error file gains four lines per failure, the result file grows by the exports of the successes, no other file changes, and an exit happens only for an invalid mode |
| ProcessV2.FailuresBounds | bookmark_converter_v2.py:222-237 | the failure count is at most the number of records; it is zero exactly when no record fails and the number of records exactly when every one fails |
| ProcessV2.Convert | bookmark_converter_v2.py:208-239 | on the text of a bookmark file, one outcome per fragment whose link is a web address, the failures are the extracted records whose `Enrich` is an error (`RecordFails`), four error lines per failure, no success for an invalid mode, and no file other than the error file and the mode's file changes |
| ExtractV1.FilterWebSpec | bookmark_converter.py:40 | the filter keeps exactly the links starting with `http://` or `https://`, in input order, and filtering a concatenation concatenates the results |
| ExtractV1.FilterWebSingle | bookmark_converter.py:40 | a single link is kept exactly when it is a web address |
| ExtractV1.FilterIsCaseSensitive | bookmark_converter.py:40 | the test is case-sensitive: `HTTP://a` is dropped |
| ExtractV1.ExtractDataShapes | bookmark_converter.py:17-28 | every icon payload is non-empty and free of `"`, every title non-empty and free of `<` |
| ExtractV1.Zip3 | bookmark_converter.py:114 | the jobs pair the k-th link, title and icon, and there are as many as the shortest list has entries |
| FieldsV1.Underscores | bookmark_converter.py:64 | `'_'.ljust(n, '_')` is n underscores, and at least one |
| FieldsV1.TitleFileNameSpec | bookmark_converter.py:54-64 | the name holds only word characters, never starts with `_`, keeps the other characters of the cleaned title in order, and every underscore run in it is two long when the cleaned title had at least two characters, one long otherwise |
| FieldsV1.TitleFileNameSqueezed | bookmark_converter.py:54-64 | the name is the cleaned title without its leading underscores, with every underscore run squeezed to one underscore and that underscore then written as the replacement, so no underscore run is dropped |
| FieldsV1.CollapseIsSqueezed | bookmark_converter.py:64 | collapsing underscore runs is the same as squeezing each run to one underscore and replacing each underscore by the replacement |
| FieldsV1.SqueezeNoDoubles | bookmark_converter.py:64 | after squeezing, no two adjacent characters are both underscores |
| FieldsV1.SymbolTitleHasNoName | bookmark_converter.py:54-56 | a title with no word character and no space gives the empty file name |
| FieldsV1.CollapseKeepsLetters | bookmark_converter.py:64 | collapsing underscore runs keeps every other character, in order |
| FieldsV1.CollapseRunLength | bookmark_converter.py:64 | every underscore run left after the collapse is a copy of the replacement |
| FieldsV1.PlainTitleIsItsName | bookmark_converter.py:54-64 | a title of ASCII letters and digits is its own file name |
| FieldsV1.SpaceBecomesTwoUnderscores | bookmark_converter.py:55-64 | two words of ASCII letters and digits with one space between them give the two words joined by two underscores, so `Hello World` gives `Hello__World` |
| ProcessV1.EnrichSpec | bookmark_converter.py:66-94 | a description is found exactly when the icon decodes, the save path has a known extension, the request succeeds and the first description tag, if any, has a `content`; it is that content in full, empty when no tag matches; otherwise the error is the first exception's text: the decoding error, `unknown file extension: …`, the request's error, or `'content'` |
| ProcessV1.IconSaveFailsOnEmptyName | bookmark_converter.py:54-73 | saved under `output/images`, the icon fails to save exactly when the title-derived name is empty, with `unknown file extension: ` |
| ProcessV1.SymbolTitleFails | bookmark_converter.py:54-109 | a title whose ASCII form has no word character and no space writes the error record with the message `unknown file extension: ` and saves no icon, even when the icon decodes |
| ProcessV1.BlocksShareHead | bookmark_converter.py:97-109 | the result and error records are four lines each and differ only in the last |
| ProcessV1.RecordSpec | bookmark_converter.py:96-109 | a job writes to the result file exactly when a description was found, four lines either way, starting with its name |
| ProcessV1.Attempt | bookmark_converter.py:66-94 | the `try` body up to the writing yields the specified description or error, and saves the icon exactly when it decodes and its save path has a known extension |
| ProcessV1.SaveAndFetch | bookmark_converter.py:72-94 | the save and the request yield the save error, or else the outcome of the page; the icon is saved exactly when the save path has a known extension |
| ProcessV1.IconSavePath | bookmark_converter.py:59-72 | the icon of a job, saved under `output/images`, lands in that directory as the title-derived name followed by `.png` |
| ProcessV1.SaveIcon | bookmark_converter.py:59-73 | the save yields the error for the save path's extension, if any; on success the icon is saved at that path, after the icons saved earlier; no file changes |
| ProcessV1.FetchPage | bookmark_converter.py:76-94 | the request and the lookup give the error the request raised, or the outcome of the first description tag |
| ProcessV1.WriteRecord | bookmark_converter.py:96-109 | a found description appends the result record to the result file, an error appends the error record to the error file; no icon is saved |
| ProcessV1.ProcessUrl | bookmark_converter.py:51-109 | the job's record is appended to the result or the error file, and its icon is saved exactly when it decodes and saves |
| ProcessV1.ProcessTasks | bookmark_converter.py:112-121 | after the loop every file holds the records of the jobs, appended in job order, and the icons in the order they were saved |
| ProcessV1.RunJob | bookmark_converter.py:114-121 | one job appends its record and saves its icon after those of the jobs before it |
| ProcessV1.RunEffect | bookmark_converter.py:112-121 | each file ends with its old chunks followed by what the jobs wrote to it, and the icons are the old ones followed by each job's own |
| ProcessV1.AppendAllChunks | bookmark_converter.py:97-109 | appending the records one after the other leaves each file with its old chunks followed by the records written to it |
| ProcessV1.WrittenCounts | bookmark_converter.py:97-109 | four lines go to the result file per successful record, four to the error file per other record, and nothing anywhere else |
| ProcessV1.WrittenToResult | bookmark_converter.py:97-109 | the result file receives four lines per successful record |
| ProcessV1.WrittenToError | bookmark_converter.py:97-109 | the error file receives four lines per other record |
| ProcessV1.WrittenNowhereElse | bookmark_converter.py:97-109 | no file besides the result and error files receives anything |
| ProcessV1.PlanCounts | bookmark_converter.py:112-121 | the same counts for a run of jobs |
| ProcessV1.FlattenSingles | bookmark_converter.py:70-72 | laying end to end parts of at most one path each keeps every path of a part and adds none; each job's part is its single save path or nothing |
| ProcessV1.IconsSaved | bookmark_converter.py:70-72 | over the jobs built by `zip` (lines 111-113), every job that saves its icon leaves its own save path among the images, and every image saved is the save path of a job that saves its icon |
| ProcessV1.Convert | bookmark_converter.py:33-121 | the whole run on a bookmark file processes the jobs built by `zip` |
| Files.Appended | bookmark_converter.py:97 | appending to a file adds the chunks after its old ones, creating it when missing, and changes no other file |
| Files.JoinUnder | bookmark_converter.py:72 | a name that does not start with `/`, joined to a directory that does not end with one, follows the directory after a single `/` |
| Files.RFindIs | bookmark_converter.py:72 | the last occurrence of a character is found at the position after which it does not occur |
| Files.SaveUnder | bookmark_converter.py:72-73 | a name of word characters saved as `<dir>/<name>.png` is accepted as PNG when it is non-empty; the empty name fails with `unknown file extension: ` |
| Files.AppendedNotEmpty | bookmark_converter_v2.py:244-245 | a file that received a non-empty chunk is not empty |
| Files.OutputDir.Append | bookmark_converter_v2.py:266 | opening in append mode and writing adds the chunks to that file only |
| Files.OutputDir.SaveImage | bookmark_converter.py:72-73 | saving an icon records its path after the earlier ones |

## Left out

- The HTTP request, `chardet`, the temporary file and BeautifulSoup are left out. Together
  they form the page oracle `fetch`, which yields the attribute maps of the `<meta>` tags or
  an exception's text. The 10-second timeout is not modelled.
- base64 decoding, PIL opening, resizing and saving are left out. They form the icon oracle
  `decode`. `get_default_icon` is a parameter: the payload it would read.
- `unidecode` is the parameter `ascii` of the first converter.
- `ThreadPoolExecutor`, `as_completed`, its 600-second timeout, the SIGINT handler and the
  `running` flag are left out. The records are processed one at a time, in submission
  order, so write interleavings between workers are not modelled.
- ProcessV2.ProcessData: after a worker exits through `sys.exit`, `future.result()` re-raises
  `SystemExit` in the main thread and the run ends. The model goes on with the later
  records, which a concurrent pool may already have run. The model counts chunks per file
  rather than stating their contents.
- ProcessV2.RunRecord: states the number of chunks each file gains, not their text. The
  text is stated by `ProcessV2.ProcessUrl` and `ExportV2.ExportGrowth`.
- Argument parsing, the banner, `remove_existing_files`, `makedirs`, the logging set-up and
  `generate_templates` are left out. The `-p` proxy handling of lines 385-403 is modelled.
- Printing to the terminal (silent mode included) and the log messages are left out.
- `os.linesep` is fixed to `"\n"`.
- `\w` is modelled on ASCII: letters, digits and `_`. Python's Unicode word characters are
  not.
- ProcessV2.ProcessUrl: the request uses the intended `socks5h` rewrite (`ProxyV2.ProxyFor`),
  and mode 3 uses the intended template export. The code as written is modelled by
  `ProxyV2.ProxyAsWritten` and `ExportV2.TemplateModeAlwaysRaises`, and agrees with the
  intended versions for the proxies the argument handling builds and outside mode 3
  (`ProxyV2.ProxyAgreesForSocks5`, `ExportV2.ExportAgreesOutsideTemplate`). The same holds for
  `ProcessV2.EnrichSpec`, `ProcessV2.Attempt`, `ProcessV2.RunRecord`, `ProcessV2.ProcessData`
  and `ProcessV2.Convert`.
- Image saving knows the `.png` extension only. PIL accepts other extensions, but the save
  paths always end in `.png`, so only the empty name reaches the error.
- ExportV2.TextBlockRoundTrip reads the four lines chunk by chunk. In the file the chunk
  boundaries are gone, and a name or description may hold a line feed, so the file as a whole
  is not always read back.
- Urls.Split: a link for which `urlparse` raises `ValueError` (a malformed bracketed host,
  or a non-ASCII netloc that NFKC normalisation turns into one containing `/`, `?`, `#`, `@`
  or `:`) makes `is_valid_protocol` (bookmark_converter_v2.py:68-72) raise. `extract_data`
  calls it at line 85 outside any `try`, so the run ends there. The model keeps or drops
  such a fragment by its scheme instead. Such a link never reaches `process_url`.
- The description of the first converter is re-encoded with `errors='ignore'`. That is the
  identity on the model's characters, which exclude lone surrogates.
- test/compress_text_file.py is not part of this model (gzip file I/O).

## Findings

| source | as written | input that shows it | evidently intended | confidence | as-written member | corrected member |
|---|---|---|---|---|---|---|
| bookmark_converter_v2.py:146-148 | every proxy starting with `socks` loses its first nine characters, the length of `socks5://`, before `socks5h://` is put in front | `socks5h://h:1` becomes `socks5h:///h:1`; `socks://h:1` becomes `socks5h://:1` | keep everything after the proxy's own `://` | not executed; the default `socks5://` prefix is handled correctly | ProxyV2.ProxyAsWrittenKeepsSlash | ProxyV2.ProxyForSpec |
| bookmark_converter_v2.py:102-105 | mode 3 calls `export_to_template` with three arguments though it takes two (line 298), so the call raises `TypeError` and the record goes to the error file | any record exported in mode 3, a mode the argument handling of lines 366-383 never selects | append the YAML block to `output/webstack.yaml` | not executed | ExportV2.TemplateModeAlwaysRaises | ExportV2.ExportToOutput |
