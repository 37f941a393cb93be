/** The exporters of bookmark_converter_v2.py: a record rendered as a four-line text block
    (`export_to_text`), the same block indented for YAML (`export_to_yaml`,
    `export_to_template`), or a CSV row under a header written once (`export_to_csv`), and
    the dispatch on the export mode (`export_to_output`). */
module ExportV2 {
  import opened Strings
  import opened Files
  import Csv

  const OUTPUT_DIR := "output"
  const IMAGES_DIR := "/images/logos"
  const CSV_HEADER: seq<string> := ["name", "url", "img", "description"]

  /** The dictionary `process_url` hands to the exporters. */
  datatype Data = Data(name: string, url: string, img: string, description: string)

  /** `item.get(key, '')`. */
  function Get(d: Data, key: string): string {
    match key
    case "name" => d.name
    case "url" => d.url
    case "img" => d.img
    case "description" => d.description
    case _ => ""
  }

  /** The four writes of `export_to_text`. */
  function TextBlock(d: Data): seq<string> {
    [ "-  name: \"" + Escape(d.name) + "\"\n",
      "  url: " + d.url + "\n",
      "  img: " + d.img + "\n",
      "  description: \"" + Escape(d.description) + "\"\n" ]
  }

  /** The four writes of `export_to_yaml` and `export_to_template`. */
  function YamlBlock(d: Data): seq<string> {
    [ "  -  name: \"" + Escape(d.name) + "\"\n",
      "    url: " + d.url + "\n",
      "    img: " + d.img + "\n",
      "    description: \"" + Escape(d.description) + "\"\n" ]
  }

  /** The row `export_to_csv` builds: the record's value for every header column, `''`
      for a column the record lacks. */
  function CsvFields(d: Data, header: seq<string>): (r: seq<string>)
    ensures |r| == |header|
    ensures forall k :: 0 <= k < |header| ==> r[k] == Get(d, header[k])
  {
    seq(|header|, k requires 0 <= k < |header| => Get(d, header[k]))
  }

  /** The writes of `export_to_csv` to a file in state `files`: the header row when the
      file is missing or empty, then the record's row. */
  function CsvChunks(files: map<string, seq<string>>, path: string, d: Data): seq<string> {
    (if IsEmptyFile(files, path) then [Csv.Row(CSV_HEADER)] else []) + [Csv.Row(CsvFields(d, CSV_HEADER))]
  }

  /** The file the export mode writes to; `None` where `export_to_output` exits. */
  function ExportPath(mode: int): Option<string> {
    if mode == 0 then Some(OUTPUT_DIR + "/result.txt")
    else if mode == 1 then Some(OUTPUT_DIR + "/result.csv")
    else if mode == 2 then Some(OUTPUT_DIR + "/result.yaml")
    else if mode == 3 then Some(OUTPUT_DIR + "/webstack.yaml")
    else None
  }

  /** What the exporter for `mode` appends to the file in state `files`. */
  function ExportChunks(files: map<string, seq<string>>, mode: int, d: Data): seq<string>
    requires ExportPath(mode).Some?
  {
    if mode == 0 then TextBlock(d)
    else if mode == 1 then CsvChunks(files, ExportPath(mode).value, d)
    else YamlBlock(d)
  }

  /** How a call of `export_to_output` ends: the record was written, an exception was
      raised (and is caught by `process_url`), or `sys.exit(1)` ended the program. */
  datatype Outcome = Exported | ExportRaised(msg: string) | Exited

  /** The error `export_to_template(data, file_name, template_name)` raises. */
  const TEMPLATE_ARITY_ERROR := "export_to_template() takes 2 positional arguments but 3 were given"

  /** `export_to_output` as written: mode 3 calls `export_to_template` with three
      arguments although it takes two, so it raises a `TypeError` before opening any
      file. */
  function ExportAsWritten(files: map<string, seq<string>>, mode: int, d: Data): (Outcome, map<string, seq<string>>) {
    if ExportPath(mode).None? then (Exited, files)
    else if mode == 3 then (ExportRaised(TEMPLATE_ARITY_ERROR), files)
    else (Exported, Appended(files, ExportPath(mode).value, ExportChunks(files, mode, d)))
  }

  /** `export_to_output` as intended: mode 3 writes the YAML block to the template output
      file. */
  function Export(files: map<string, seq<string>>, mode: int, d: Data): (Outcome, map<string, seq<string>>) {
    if ExportPath(mode).None? then (Exited, files)
    else (Exported, Appended(files, ExportPath(mode).value, ExportChunks(files, mode, d)))
  }

  /** As written, the template mode never writes anything: every record of that mode ends
      in the arity error, where the intended exporter appends the YAML block. */
  lemma TemplateModeAlwaysRaises(files: map<string, seq<string>>, d: Data)
    ensures ExportAsWritten(files, 3, d) == (ExportRaised(TEMPLATE_ARITY_ERROR), files)
    ensures Export(files, 3, d).0 == Exported
    ensures ChunksOf(Export(files, 3, d).1, "output/webstack.yaml") == ChunksOf(files, "output/webstack.yaml") + YamlBlock(d)
  {
    assert ExportPath(3).value == "output/webstack.yaml";
  }

  /** Outside the template mode the code as written and the intended exporter agree. */
  lemma ExportAgreesOutsideTemplate(files: map<string, seq<string>>, mode: int, d: Data)
    requires mode != 3
    ensures ExportAsWritten(files, mode, d) == Export(files, mode, d)
  {
  }

  /** `export_to_output` rejects every mode outside 0..3 and leaves the files as they
      were; in a valid mode it writes to one file and leaves every other file alone. */
  lemma ExportDispatch(files: map<string, seq<string>>, mode: int, d: Data)
    ensures Export(files, mode, d).0 == Exited <==> !(0 <= mode <= 3)
    ensures Export(files, mode, d).0 == Exited ==> Export(files, mode, d).1 == files
    ensures 0 <= mode <= 3 ==> forall q :: q != ExportPath(mode).value ==>
      ChunksOf(Export(files, mode, d).1, q) == ChunksOf(files, q)
  {
  }

  /** An export adds four chunks to the file of its mode, or for CSV the row and, when the
      file was missing or empty, the header before it; a CSV file is not empty afterwards;
      no other file changes. */
  lemma ExportGrowth(files: map<string, seq<string>>, mode: int, d: Data)
    requires 0 <= mode <= 3
    ensures var p := ExportPath(mode).value;
      var after := Export(files, mode, d).1;
      |ChunksOf(after, p)| == |ChunksOf(files, p)| + (if mode == 1 then (if IsEmptyFile(files, p) then 2 else 1) else 4) &&
      (mode == 1 ==> !IsEmptyFile(after, p)) &&
      (forall q :: q != p ==> ChunksOf(after, q) == ChunksOf(files, q))
  {
    var p := ExportPath(mode).value;
    var c := ExportChunks(files, mode, d);
    if mode == 1 {
      CsvExportSpec(files, p, d);
      AppendedNotEmpty(files, p, c, |c| - 1);
    }
  }

  lemma LettersNeedNoQuotes(f: string)
    requires forall k :: 0 <= k < |f| ==> IsAsciiAlpha(f[k])
    ensures Csv.Field(f) == f
  {
  }

  /** The header row is the four column names, none of which needs quoting. */
  lemma CsvHeaderJoin()
    ensures Csv.Join(CSV_HEADER) == "name" + "," + ("url" + "," + ("img" + "," + "description"))
  {
    var d := ["description"];
    var i := ["img"] + d;
    var u := ["url"] + i;
    assert CSV_HEADER == ["name"] + u;
    LettersNeedNoQuotes("description");
    Csv.JoinPlainCons("description", []);
    LettersNeedNoQuotes("img");
    Csv.JoinPlainCons("img", d);
    LettersNeedNoQuotes("url");
    Csv.JoinPlainCons("url", i);
    LettersNeedNoQuotes("name");
    Csv.JoinPlainCons("name", u);
  }

  lemma HeaderText()
    ensures "name" + "," + ("url" + "," + ("img" + "," + "description")) + "\r\n" == "name,url,img,description\r\n"
  {
  }

  lemma CsvHeaderRow()
    ensures Csv.Row(CSV_HEADER) == "name,url,img,description\r\n"
  {
    CsvHeaderJoin();
    HeaderText();
    assert |CSV_HEADER| == 4;
  }

  /** A CSV reader reads the header row back as the column names. */
  lemma CsvHeaderReadBack()
    ensures Csv.ReadFields(Csv.Line(CSV_HEADER)) == CSV_HEADER
  {
    Csv.LineRoundTrip(CSV_HEADER);
  }

  /** The record's row holds its fields in header order, and a CSV reader reads them back
      whatever commas, quotes or line breaks they hold. */
  lemma CsvRowFields(d: Data)
    ensures CsvFields(d, CSV_HEADER) == [d.name, d.url, d.img, d.description]
    ensures Csv.ReadFields(Csv.Line(CsvFields(d, CSV_HEADER))) == [d.name, d.url, d.img, d.description]
  {
    var fields := CsvFields(d, CSV_HEADER);
    assert fields == [d.name, d.url, d.img, d.description];
    Csv.LineRoundTrip(fields);
  }

  /** The CSV exporter writes the header exactly when the file is missing or empty, and
      then exactly one row, the record's. */
  lemma CsvExportSpec(files: map<string, seq<string>>, path: string, d: Data)
    ensures |CsvChunks(files, path, d)| == (if IsEmptyFile(files, path) then 2 else 1)
    ensures IsEmptyFile(files, path) ==> CsvChunks(files, path, d)[0] == "name,url,img,description\r\n"
    ensures CsvChunks(files, path, d)[|CsvChunks(files, path, d)| - 1] == Csv.Row([d.name, d.url, d.img, d.description])
  {
    CsvHeaderRow();
    CsvRowFields(d);
  }

  /** After a header-writing export the file is no longer empty, so the next export to it
      writes no second header. */
  lemma CsvHeaderOnce(files: map<string, seq<string>>, d: Data, d': Data)
    ensures |CsvChunks(Export(files, 1, d).1, "output/result.csv", d')| == 1
  {
    assert ExportPath(1).value == "output/result.csv";
    var c := CsvChunks(files, "output/result.csv", d);
    assert c[|c| - 1] != [];
    AppendedNotEmpty(files, "output/result.csv", c, |c| - 1);
  }

  /** The YAML block is the text block with every line indented by two more spaces. */
  lemma YamlIsIndentedText(d: Data)
    ensures |YamlBlock(d)| == |TextBlock(d)| == 4
    ensures forall k :: 0 <= k < 4 ==> YamlBlock(d)[k] == "  " + TextBlock(d)[k]
  {
    LabelsIndented();
    Indented("  -  name: \"", "-  name: \"", Escape(d.name), "\"\n");
    Indented("    url: ", "  url: ", d.url, "\n");
    Indented("    img: ", "  img: ", d.img, "\n");
    Indented("    description: \"", "  description: \"", Escape(d.description), "\"\n");
  }

  /** Each YAML label is the text label indented by two spaces. */
  lemma LabelsIndented()
    ensures "  -  name: \"" == "  " + "-  name: \""
    ensures "    url: " == "  " + "  url: "
    ensures "    img: " == "  " + "  img: "
    ensures "    description: \"" == "  " + "  description: \""
  {
  }

  lemma Indented(a: string, b: string, x: string, y: string)
    requires a == "  " + b
    ensures a + x + y == "  " + (b + x + y)
  {
  }

  function DropEnds(s: string, prefix: string, suffix: string): Option<string> {
    if |prefix| + |suffix| <= |s| && s[..|prefix|] == prefix && s[|s| - |suffix|..] == suffix
    then Some(s[|prefix|..|s| - |suffix|]) else None
  }

  /** Reading a text block back: each line is stripped of its label and terminator, and
      the name and description are unescaped. */
  function ReadTextBlock(lines: seq<string>): Option<Data> {
    if |lines| != 4 then None
    else
      var name := DropEnds(lines[0], "-  name: \"", "\"\n");
      var url := DropEnds(lines[1], "  url: ", "\n");
      var img := DropEnds(lines[2], "  img: ", "\n");
      var desc := DropEnds(lines[3], "  description: \"", "\"\n");
      if name.None? || url.None? || img.None? || desc.None? then None
      else Some(Data(Unescape(name.value), url.value, img.value, Unescape(desc.value)))
  }

  lemma DropEndsOf(prefix: string, mid: string, suffix: string)
    ensures DropEnds(prefix + mid + suffix, prefix, suffix) == Some(mid)
  {
    var s := prefix + mid + suffix;
    assert s[..|prefix|] == prefix;
    assert s[|s| - |suffix|..] == suffix;
    assert s[|prefix|..|s| - |suffix|] == mid;
  }

  /** The text block determines the record: reading it back gives the record it was
      written from, whatever quotes and line breaks the fields hold. */
  lemma TextBlockRoundTrip(d: Data)
    ensures ReadTextBlock(TextBlock(d)) == Some(d)
  {
    DropEndsOf("-  name: \"", Escape(d.name), "\"\n");
    DropEndsOf("  url: ", d.url, "\n");
    DropEndsOf("  img: ", d.img, "\n");
    DropEndsOf("  description: \"", Escape(d.description), "\"\n");
    EscapeRoundTrip(d.name);
    EscapeRoundTrip(d.description);
  }

  /** `export_to_text`: appends the text block. */
  method ExportToText(dir: OutputDir, d: Data, path: string)
    modifies dir
    ensures dir.files == Appended(old(dir.files), path, TextBlock(d))
    ensures dir.images == old(dir.images)
  {
    dir.Append(path, TextBlock(d));
  }

  /** `export_to_yaml`. */
  method ExportToYaml(dir: OutputDir, d: Data, path: string)
    modifies dir
    ensures dir.files == Appended(old(dir.files), path, YamlBlock(d))
    ensures dir.images == old(dir.images)
  {
    dir.Append(path, YamlBlock(d));
  }

  /** `export_to_template`, with the always-true test on a string literal dropped. */
  method ExportToTemplate(dir: OutputDir, d: Data, path: string)
    modifies dir
    ensures dir.files == Appended(old(dir.files), path, YamlBlock(d))
    ensures dir.images == old(dir.images)
  {
    dir.Append(path, YamlBlock(d));
  }

  /** `export_to_csv`: checks whether the file is empty before opening it, then writes the
      header row if it was and the record's row. */
  method ExportToCsv(dir: OutputDir, d: Data, path: string)
    modifies dir
    ensures dir.files == Appended(old(dir.files), path, CsvChunks(old(dir.files), path, d))
    ensures dir.images == old(dir.images)
  {
    var isFileEmpty := dir.IsEmpty(path);
    ghost var before := dir.files;
    if isFileEmpty {
      dir.Append(path, [Csv.Row(CSV_HEADER)]);
    }
    dir.Append(path, [Csv.Row(CsvFields(d, CSV_HEADER))]);
    if isFileEmpty {
      AppendedTwice(before, path, [Csv.Row(CSV_HEADER)], [Csv.Row(CsvFields(d, CSV_HEADER))]);
      assert CsvChunks(before, path, d) == [Csv.Row(CSV_HEADER), Csv.Row(CsvFields(d, CSV_HEADER))];
    } else {
      assert CsvChunks(before, path, d) == [Csv.Row(CsvFields(d, CSV_HEADER))];
    }
  }

  /** `export_to_output`, with the template exporter called as intended. */
  method ExportToOutput(dir: OutputDir, mode: int, d: Data) returns (r: Outcome)
    modifies dir
    ensures (r, dir.files) == Export(old(dir.files), mode, d)
    ensures dir.images == old(dir.images)
  {
    if mode == 0 {
      ExportToText(dir, d, OUTPUT_DIR + "/result.txt");
    } else if mode == 1 {
      ExportToCsv(dir, d, OUTPUT_DIR + "/result.csv");
    } else if mode == 2 {
      ExportToYaml(dir, d, OUTPUT_DIR + "/result.yaml");
    } else if mode == 3 {
      ExportToTemplate(dir, d, OUTPUT_DIR + "/webstack.yaml");
    } else {
      return Exited;
    }
    r := Exported;
  }
}
