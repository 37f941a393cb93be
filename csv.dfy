/** The rows `csv.writer` produces with its default dialect (`excel`): fields separated by
    `,`, a field quoted only when it holds the delimiter, the quote character or a line
    break (`QUOTE_MINIMAL`), a quote inside a quoted field doubled, and every row ended by
    `\r\n`. A reader of that dialect is defined beside the writer, and a lemma proves that it
    reads every row back into the fields it was written from. */
module Csv {
  import opened Strings

  const TERMINATOR := "\r\n"

  predicate NeedsQuotes(f: string) {
    ',' in f || '"' in f || '\r' in f || '\n' in f
  }

  /** One field as the writer renders it. */
  function Field(f: string): string {
    if NeedsQuotes(f) then "\"" + Replace(f, "\"", "\"\"") + "\"" else f
  }

  function Join(fields: seq<string>): string
    requires fields != []
  {
    if |fields| == 1 then Field(fields[0]) else Field(fields[0]) + "," + Join(fields[1..])
  }

  /** The text of a row without its terminator. A row made of one empty field is written as
      `""`, so that it is not read back as a row with no fields. */
  function Line(fields: seq<string>): string {
    if fields == [] then "" else if fields == [""] then "\"\"" else Join(fields)
  }

  /** The chunk one `writerow(fields)` call writes. */
  function Row(fields: seq<string>): (r: string)
    ensures |r| >= 2 && r[|r| - 2..] == TERMINATOR
  {
    Line(fields) + TERMINATOR
  }

  /** Reading the inside of a quoted field: the text up to the closing quote, a doubled
      quote standing for one quote, and what follows the closing quote. */
  function ReadQuoted(s: string): (r: (string, string))
    ensures |r.1| <= |s|
    decreases |s|
  {
    if s == [] then ("", [])
    else if s[0] == '"' then
      if |s| >= 2 && s[1] == '"' then
        var (c, rest) := ReadQuoted(s[2..]);
        ("\"" + c, rest)
      else ("", s[1..])
    else
      var (c, rest) := ReadQuoted(s[1..]);
      ([s[0]] + c, rest)
  }

  /** The fields of a line, as the `excel` dialect reads them. */
  function ReadFields(s: string): (r: seq<string>)
    ensures r != []
    decreases |s|
  {
    if s != [] && s[0] == '"' then
      var (c, rest) := ReadQuoted(s[1..]);
      if rest != [] && rest[0] == ',' then [c] + ReadFields(rest[1..]) else [c]
    else
      var k := IndexOf(s, ',');
      if k == |s| then [s] else [s[..k]] + ReadFields(s[k + 1..])
  }

  /** The doubled quotes of a quoted field are read back as the field, and the closing quote
      is found where the writer put it. */
  lemma {:induction false} ReadQuotedDoubled(f: string, rest: string)
    requires rest == [] || rest[0] != '"'
    ensures ReadQuoted(Replace(f, "\"", "\"\"") + "\"" + rest) == (f, rest)
  {
    if f == [] {
      assert Replace(f, "\"", "\"\"") + "\"" + rest == "\"" + rest;
    } else {
      ReadQuotedDoubled(f[1..], rest);
      ReadQuotedDoubledStep(f, rest);
    }
  }

  /** One character of the field: a quote was written doubled, any other as it is. */
  lemma ReadQuotedDoubledStep(f: string, rest: string)
    requires f != []
    requires ReadQuoted(Replace(f[1..], "\"", "\"\"") + "\"" + rest) == (f[1..], rest)
    ensures ReadQuoted(Replace(f, "\"", "\"\"") + "\"" + rest) == (f, rest)
  {
    ReplaceCharCons(f, '"', "\"\"");
    var e1 := Replace(f[1..], "\"", "\"\"");
    var head := if f[0] == '"' then "\"\"" else [f[0]];
    ConcatAssoc(Replace(f, "\"", "\"\""), "\"", rest);
    ConcatAssoc(head, e1, "\"" + rest);
    var tail := e1 + ("\"" + rest);
    assert e1 + "\"" + rest == tail;
    if f[0] == '"' {
      ReadQuotedDoubledQuote(tail);
    } else {
      ReadQuotedPlainChar(f[0], tail);
    }
    assert [f[0]] + f[1..] == f;
  }

  lemma ReadQuotedDoubledQuote(tail: string)
    ensures ReadQuoted("\"\"" + tail) == ("\"" + ReadQuoted(tail).0, ReadQuoted(tail).1)
  {
    assert ("\"\"" + tail)[2..] == tail;
  }

  lemma ReadQuotedPlainChar(c: char, tail: string)
    requires c != '"'
    ensures ReadQuoted([c] + tail) == ([c] + ReadQuoted(tail).0, ReadQuoted(tail).1)
  {
    assert ([c] + tail)[1..] == tail;
  }

  lemma QuotedFieldThenComma(f: string, rest: string)
    requires NeedsQuotes(f)
    ensures ReadFields(Field(f) + "," + rest) == [f] + ReadFields(rest)
  {
    var e := Replace(f, "\"", "\"\"");
    var tail := "," + rest;
    assert Field(f) == "\"" + e + "\"";
    assert tail[0] == ',';
    assert Field(f) + "," + rest == "\"" + (e + "\"" + tail);
    ReadQuotedDoubled(f, tail);
    ReadFieldsAfterQuote(e + "\"" + tail, f, rest);
  }

  /** A quoted field followed by a comma: reading goes on after the comma. */
  lemma ReadFieldsAfterQuote(body: string, c: string, rest: string)
    requires ReadQuoted(body) == (c, "," + rest)
    ensures ReadFields("\"" + body) == [c] + ReadFields(rest)
  {
    var s := "\"" + body;
    assert s[0] == '"' && s[1..] == body;
    assert ("," + rest)[1..] == rest;
  }

  lemma PlainFieldThenComma(f: string, rest: string)
    requires !NeedsQuotes(f)
    ensures ReadFields(Field(f) + "," + rest) == [f] + ReadFields(rest)
  {
    var s := f + "," + rest;
    assert s[..|f|] == f;
    assert s[|f|] == ',';
    assert s[|f| + 1..] == rest;
    assert IndexOf(s, ',') == |f|;
    if f != [] {
      assert s[0] == f[0];
    }
  }

  /** One field followed by a comma is read as that field, and reading goes on after it. */
  lemma FieldThenComma(f: string, rest: string)
    ensures ReadFields(Field(f) + "," + rest) == [f] + ReadFields(rest)
  {
    if NeedsQuotes(f) {
      QuotedFieldThenComma(f, rest);
    } else {
      PlainFieldThenComma(f, rest);
    }
  }

  /** A field that needs no quoting is written as it is, followed by a comma when more
      fields follow. */
  lemma JoinPlainCons(f: string, rest: seq<string>)
    requires !NeedsQuotes(f)
    ensures Join([f]) == f
    ensures rest != [] ==> Join([f] + rest) == f + "," + Join(rest)
  {
    assert ([f] + rest)[1..] == rest;
  }

  lemma QuotedFieldLast(f: string)
    requires NeedsQuotes(f)
    ensures ReadFields(Field(f)) == [f]
  {
    var s := Field(f);
    ReadQuotedDoubled(f, "");
    assert s[0] == '"';
    assert s[1..] == Replace(f, "\"", "\"\"") + "\"" + "";
    assert ReadQuoted(s[1..]) == (f, "");
  }

  lemma PlainFieldLast(f: string)
    requires !NeedsQuotes(f)
    ensures ReadFields(Field(f)) == [f]
  {
    assert Field(f) == f;
    if f != [] {
      assert f[0] != '"';
    }
  }

  /** A last field is read as that field. */
  lemma FieldLast(f: string)
    ensures ReadFields(Field(f)) == [f]
  {
    if NeedsQuotes(f) {
      QuotedFieldLast(f);
    } else {
      PlainFieldLast(f);
    }
  }

  lemma {:induction false} JoinRoundTrip(fields: seq<string>)
    requires fields != []
    ensures ReadFields(Join(fields)) == fields
  {
    if |fields| == 1 {
      FieldLast(fields[0]);
    } else {
      JoinRoundTrip(fields[1..]);
      FieldThenComma(fields[0], Join(fields[1..]));
      assert [fields[0]] + fields[1..] == fields;
    }
  }

  /** Every row the writer produces is read back as the fields it was written from. */
  lemma LineRoundTrip(fields: seq<string>)
    requires fields != []
    ensures ReadFields(Line(fields)) == fields
  {
    if fields == [""] {
      assert ReadQuoted("\"") == ("", []);
    } else {
      JoinRoundTrip(fields);
    }
  }
}
