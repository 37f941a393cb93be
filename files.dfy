/** The output directory the converters append to. A file is the sequence of chunks the
    write calls appended to it, each chunk exactly the text passed to one `write` or
    `writerow`, line terminator included; a path absent from the map is a file that does
    not exist. Opening a file in append mode creates it. */
module Files {
  import opened Strings

  function ChunksOf(files: map<string, seq<string>>, path: string): seq<string> {
    if path in files then files[path] else []
  }

  /** The directory after `chunks` are appended to `path` (creating it if absent). */
  function Appended(files: map<string, seq<string>>, path: string, chunks: seq<string>): (r: map<string, seq<string>>)
    ensures ChunksOf(r, path) == ChunksOf(files, path) + chunks
    ensures forall q :: q != path ==> ChunksOf(r, q) == ChunksOf(files, q)
    ensures r.Keys == files.Keys + {path}
  {
    files[path := ChunksOf(files, path) + chunks]
  }

  /** The size of a file, in characters. */
  function Size(chunks: seq<string>): nat {
    if chunks == [] then 0 else |chunks[0]| + Size(chunks[1..])
  }

  /** `not os.path.exists(path) or os.path.getsize(path) == 0`. */
  predicate IsEmptyFile(files: map<string, seq<string>>, path: string) {
    Size(ChunksOf(files, path)) == 0
  }

  lemma SizeAppend(a: seq<string>, b: seq<string>)
    ensures Size(a + b) == Size(a) + Size(b)
  {
    if a == [] {
      assert a + b == b;
    } else {
      assert (a + b)[1..] == a[1..] + b;
      SizeAppend(a[1..], b);
    }
  }

  /** A file some non-empty chunk has been appended to is not empty. */
  lemma {:induction false} AppendedNotEmpty(files: map<string, seq<string>>, path: string, chunks: seq<string>, k: nat)
    requires k < |chunks| && chunks[k] != []
    ensures !IsEmptyFile(Appended(files, path, chunks), path)
  {
    var all := ChunksOf(files, path) + chunks;
    SizeAppend(ChunksOf(files, path), chunks);
    SizeAppend(chunks[..k], chunks[k..]);
    assert chunks[..k] + chunks[k..] == chunks;
    assert Size(chunks[k..]) >= |chunks[k]|;
  }

  /** Appending to one file adds the chunks to that file and to no other. */
  lemma ChunksAfterAppend(files: map<string, seq<string>>, path: string, chunks: seq<string>, q: string)
    ensures ChunksOf(Appended(files, path, chunks), q) == ChunksOf(files, q) + (if path == q then chunks else [])
  {
  }

  /** Two appends to the same file are one append of both. */
  lemma AppendedTwice(files: map<string, seq<string>>, path: string, a: seq<string>, b: seq<string>)
    ensures Appended(Appended(files, path, a), path, b) == Appended(files, path, a + b)
  {
    assert ChunksOf(files, path) + a + b == ChunksOf(files, path) + (a + b);
  }

  /** `os.path.join(dir, name)`: `name` itself when it is absolute, otherwise `dir` and
      `name` with one `/` between them unless `dir` is empty or already ends with one. */
  function PathJoin(dir: string, name: string): string {
    if name != [] && name[0] == '/' then name
    else if dir == [] || dir[|dir| - 1] == '/' then dir + name
    else dir + "/" + name
  }

  /** A file name that does not start with `/`, joined to a directory that does not end
      with one, goes under that directory after one `/`. */
  lemma JoinUnder(dir: string, name: string)
    requires dir != [] && dir[|dir| - 1] != '/'
    requires name == [] || name[0] != '/'
    ensures PathJoin(dir, name + ".png") == dir + "/" + name + ".png"
  {
    if name != [] {
      assert (name + ".png")[0] == name[0];
    }
  }

  /** `str.rfind(c)`: the index of the last `c` in `s`, or -1 when there is none. */
  function RFind(s: string, c: char): (r: int)
    ensures -1 <= r < |s|
  {
    if s == [] then -1 else if s[|s| - 1] == c then |s| - 1 else RFind(s[..|s| - 1], c)
  }

  /** The index found is that of the `c` no later `c` follows. */
  lemma {:induction false} RFindIs(s: string, c: char, i: nat)
    requires i < |s| && s[i] == c
    requires forall k :: i < k < |s| ==> s[k] != c
    ensures RFind(s, c) == i
  {
    if i < |s| - 1 {
      var t := s[..|s| - 1];
      assert forall k :: i < k < |t| ==> t[k] == s[k];
      RFindIs(t, c, i);
    }
  }

  predicate AllDots(s: string) {
    s == [] || (s[0] == '.' && AllDots(s[1..]))
  }

  /** `os.path.splitext(path)[1]` on POSIX: the path from its last dot on, when that dot
      lies in the last component and something other than a dot comes before it there;
      otherwise empty (a leading dot starts a hidden name, not an extension). */
  function Extension(path: string): string {
    var sep := RFind(path, '/');
    var dot := RFind(path, '.');
    if sep < dot && !AllDots(path[sep + 1..dot]) then path[dot..] else ""
  }

  /** The message of the `ValueError` that `Image.save(path)` raises before writing
      anything when no format is given and the extension of `path` names none. */
  function UnknownExtension(ext: string): string {
    "unknown file extension: " + ext
  }

  /** The error of `Image.save(path)`, if any: PIL takes the format from the extension of
      `path`. Of the extensions it knows only `.png` is modelled, the one every path saved
      here ends in. */
  function SaveError(path: string): Option<string> {
    var ext := Extension(path);
    if ext == ".png" then None else Some(UnknownExtension(ext))
  }

  /** A name of word characters saved as `<dir>/<name>.png` fails exactly when the name is
      empty: the dot then directly follows the last slash, and `.png` reads as a hidden
      file's name with no extension. */
  lemma {:induction false} SaveUnder(dir: string, name: string)
    requires forall k :: 0 <= k < |name| ==> IsWordChar(name[k])
    ensures SaveError(dir + "/" + name + ".png") == if name == [] then Some(UnknownExtension("")) else None
  {
    var p := dir + "/" + name + ".png";
    var n, d := |dir|, |dir| + 1 + |name|;
    assert p[n] == '/' && p[d] == '.';
    assert forall k :: n < k < d ==> p[k] == name[k - n - 1];
    assert forall k :: d < k < |p| ==> p[k] == "png"[k - d - 1];
    RFindIs(p, '/', n);
    RFindIs(p, '.', d);
    assert p[n + 1..d] == name;
    assert p[d..] == ".png";
  }

  class OutputDir {
    var files: map<string, seq<string>>
    /** The paths of the images saved, in the order they were saved. */
    var images: seq<string>

    constructor ()
      ensures files == map[] && images == []
    {
      files := map[];
      images := [];
    }

    function Chunks(path: string): seq<string>
      reads this
    {
      ChunksOf(files, path)
    }

    predicate IsEmpty(path: string)
      reads this
    {
      IsEmptyFile(files, path)
    }

    /** Opens `path` in append mode and writes `chunks` to it. */
    method Append(path: string, chunks: seq<string>)
      modifies this
      ensures files == Appended(old(files), path, chunks)
      ensures images == old(images)
    {
      files := Appended(files, path, chunks);
    }

    method SaveImage(path: string)
      modifies this
      ensures images == old(images) + [path]
      ensures files == old(files)
    {
      images := images + [path];
    }
  }
}
