/**
 * utils/file_loader.py: the FileLoader class. The document readers, the
 * text splitter and the directory walk are the FileSystem oracle; the model
 * keeps the suffix dispatch, the metadata stamping, the error-to-[] fallback
 * and the whitelist filter of the walk.
 */
module Loader {
  import opened Text
  import opened Values
  import opened Errors
  import opened Settings

  // ---------------------------------------------------------------------------
  // Paths (pathlib and os.path on POSIX)
  // ---------------------------------------------------------------------------

  /** Index of the last occurrence of c in s. */
  function RFind(s: string, c: char): (r: Option<nat>)
    ensures r.Some? ==> r.value < |s| && s[r.value] == c && forall k | r.value < k < |s| :: s[k] != c
    ensures r.None? ==> forall k | 0 <= k < |s| :: s[k] != c
  {
    if s == [] then None
    else if s[|s| - 1] == c then Some(|s| - 1)
    else RFind(s[..|s| - 1], c)
  }

  /** RFind finds the occurrence that no later one follows. */
  lemma {:induction false} RFindAt(s: string, c: char, k: nat)
    requires k < |s| && s[k] == c && forall m | k < m < |s| :: s[m] != c
    ensures RFind(s, c) == Some(k)
  {
    if k < |s| - 1 {
      RFindAt(s[..|s| - 1], c, k);
    }
  }

  /** str.split("/"): the pieces between slashes, empty ones included. */
  function SplitSlash(s: string): (pieces: seq<string>)
    ensures |pieces| >= 1
    ensures forall k | 0 <= k < |pieces| :: forall m | 0 <= m < |pieces[k]| :: pieces[k][m] != '/'
  {
    match RFind(s, '/')
    case None => [s]
    case Some(i) => SplitSlash(s[..i]) + [s[i + 1..]]
  }

  /** The components pathlib keeps: empty pieces and "." are dropped. */
  function Components(pieces: seq<string>): (parts: seq<string>)
    ensures forall k | 0 <= k < |parts| :: parts[k] != [] && parts[k] != "." && parts[k] in pieces
  {
    if pieces == [] then []
    else
      var last := pieces[|pieces| - 1];
      Components(pieces[..|pieces| - 1]) + (if last == [] || last == "." then [] else [last])
  }

  /** PurePosixPath(path).name: the last component, or "" for a root or an empty path. */
  function PathName(path: string): (name: string)
    ensures forall m | 0 <= m < |name| :: name[m] != '/'
  {
    var parts := Components(SplitSlash(path));
    if parts == [] then "" else
      var name := parts[|parts| - 1];
      assert name in SplitSlash(path);
      name
  }

  /** PurePath.suffix: from the last dot of the name, if that dot is neither first nor last. */
  function Suffix(path: string): (ext: string)
  {
    var name := PathName(path);
    match RFind(name, '.')
    case None => ""
    case Some(i) => if 0 < i < |name| - 1 then name[i..] else ""
  }

  /** A suffix is empty, or a dot, at least one more character, no other dot and no slash, ending the name. */
  lemma SuffixShape(path: string)
    ensures var ext := Suffix(path); var name := PathName(path);
      ext == [] ||
      (&& |ext| >= 2 && ext[0] == '.' && |ext| < |name| && EndsWith(name, ext)
       && (forall m | 1 <= m < |ext| :: ext[m] != '.' && ext[m] != '/'))
  {
    var name := PathName(path);
    match RFind(name, '.')
    case None =>
    case Some(i) =>
      if 0 < i < |name| - 1 {
        var ext := name[i..];
        forall m | 1 <= m < |ext| ensures ext[m] != '.' && ext[m] != '/' {
          assert ext[m] == name[i + m];
        }
      }
  }

  /** A path without a slash, other than "" and ".", is its own name. */
  lemma PlainPathName(path: string)
    requires path != [] && path != "."
    requires forall m | 0 <= m < |path| :: path[m] != '/'
    ensures PathName(path) == path
  {
    assert RFind(path, '/') == None;
    assert SplitSlash(path) == [path];
    assert Components([path]) == Components([]) + [path];
  }

  /** The suffix of a name stem + ext is ext when ext is a dot and at least one more character, none a dot. */
  lemma SuffixOfName(stem: string, ext: string)
    requires stem != [] && forall m | 0 <= m < |stem| :: stem[m] != '/'
    requires |ext| >= 2 && ext[0] == '.'
    requires forall m | 1 <= m < |ext| :: ext[m] != '/' && ext[m] != '.'
    ensures Suffix(stem + ext) == ext
  {
    var path := stem + ext;
    var i := |stem|;
    forall m | 0 <= m < |path| ensures path[m] != '/' {
      if m >= i {
        assert path[m] == ext[m - i];
      }
    }
    PlainPathName(path);
    forall m | i < m < |path| ensures path[m] != '.' {
      assert path[m] == ext[m - i];
    }
    RFindAt(path, '.', i);
    assert path[i..] == ext;
  }

  /** A hidden file such as ".txt" has no suffix: the name's only dot comes first. */
  lemma DotFileHasNoSuffix(ext: string)
    requires ext != []
    requires forall m | 0 <= m < |ext| :: ext[m] != '/' && ext[m] != '.'
    ensures Suffix("." + ext) == ""
  {
    var path := "." + ext;
    forall m | 0 <= m < |path| ensures path[m] != '/' {
      if m > 0 {
        assert path[m] == ext[m - 1];
      }
    }
    PlainPathName(path);
    forall m | 0 < m < |path| ensures path[m] != '.' {
      assert path[m] == ext[m - 1];
    }
    RFindAt(path, '.', 0);
  }

  /** os.path.basename: everything after the last slash. */
  function Basename(path: string): (base: string)
    ensures |base| <= |path| && EndsWith(path, base)
    ensures forall m | 0 <= m < |base| :: base[m] != '/'
    ensures |base| < |path| ==> path[|path| - |base| - 1] == '/'
  {
    match RFind(path, '/')
    case None => path
    case Some(i) => path[i + 1..]
  }

  /** os.path.join(a, b) for one further component. */
  function PathJoin(a: string, b: string): (p: string)
    ensures EndsWith(p, b)
    ensures !StartsWith(b, "/") ==> StartsWith(p, a)
  {
    if StartsWith(b, "/") then b
    else if a == [] || EndsWith(a, "/") then a + b
    else a + "/" + b
  }

  /** A file name joined onto a directory keeps that name as its basename. */
  lemma JoinedBasename(root: string, file: string)
    requires file != [] && forall m | 0 <= m < |file| :: file[m] != '/'
    ensures Basename(PathJoin(root, file)) == file
  {
    var p := PathJoin(root, file);
    assert file[0] != '/';
    assert !StartsWith(file, "/");
    if root == [] {
      assert p == file;
    } else {
      var k := |p| - |file| - 1;
      if EndsWith(root, "/") {
        assert p == root + file;
        assert p[k] == root[|root| - 1];
      } else {
        assert p == root + "/" + file;
        assert p[k] == '/';
      }
      forall m | k < m < |p| ensures p[m] != '/' {
        assert p[m] == file[m - k - 1];
      }
      RFindAt(p, '/', k);
      assert p[k + 1..] == file;
    }
  }

  // ---------------------------------------------------------------------------
  // Dispatch, reading and stamping
  // ---------------------------------------------------------------------------

  /** The LangChain loader chosen for a file; TextLoader is always asked for utf-8. */
  datatype Reader = PdfReader | WordReader | HtmlReader | Utf8TextReader

  /** The dispatch of load_file on the lower-cased suffix. */
  function ReaderFor(ext: string): (r: Option<Reader>)
    ensures r == Some(PdfReader) <==> ext == ".pdf"
    ensures r == Some(WordReader) <==> ext == ".docx" || ext == ".doc"
    ensures r == Some(HtmlReader) <==> ext == ".html" || ext == ".htm"
    ensures r == Some(Utf8TextReader) <==> ext == ".txt"
  {
    if ext == ".pdf" then Some(PdfReader)
    else if ext in [".docx", ".doc"] then Some(WordReader)
    else if ext in [".html", ".htm"] then Some(HtmlReader)
    else if ext == ".txt" then Some(Utf8TextReader)
    else None
  }

  /** What os.walk yields per directory: its path and its file names (subdirectories are walked by the oracle). */
  datatype WalkEntry = WalkEntry(root: string, files: seq<string>)

  /**
   * The file system and the libraries behind it: os.path.exists, os.walk,
   * loader.load() per reader, and split_documents for a chunk size and overlap.
   * read and split raise by returning Raised.
   */
  datatype FileSystem = FileSystem(
    pathExists: string -> bool,
    walk: string -> seq<WalkEntry>,
    read: (Reader, string) -> Outcome<seq<Document>>,
    split: (int, int, seq<Document>) -> Outcome<seq<Document>>)

  /** The two keys load_file writes into one chunk's metadata. */
  function StampOne(chunk: Document, path: string): Document
  {
    chunk.(metadata := chunk.metadata["source_file" := Str(Basename(path))]["file_path" := Str(path)])
  }

  /** Every chunk stamped with source_file and file_path. */
  function Stamp(chunks: seq<Document>, path: string): (r: seq<Document>)
    ensures |r| == |chunks|
    ensures forall i | 0 <= i < |r| :: r[i] == StampOne(chunks[i], path)
  {
    seq(|chunks|, i requires 0 <= i < |chunks| => StampOne(chunks[i], path))
  }

  /**
   * Stamping overwrites: source_file is the basename and file_path the path,
   * whatever the chunk carried before; contents and all other keys are kept.
   */
  lemma StampOverwrites(chunks: seq<Document>, path: string, i: nat)
    requires i < |chunks|
    ensures var r := Stamp(chunks, path)[i];
      && r.content == chunks[i].content
      && r.metadata.Keys == chunks[i].metadata.Keys + {"source_file", "file_path"}
      && r.metadata["source_file"] == Str(Basename(path))
      && r.metadata["file_path"] == Str(path)
      && (forall key | key in chunks[i].metadata && key != "source_file" && key != "file_path" ::
            r.metadata[key] == chunks[i].metadata[key])
  {
  }

  /**
   * load_file: the chunks of a supported file, stamped; [] for an unsupported
   * suffix and whenever reading or splitting raised.
   */
  function LoadFileResult(fs: FileSystem, chunkSize: int, chunkOverlap: int, path: string): seq<Document>
  {
    match ReaderFor(AsciiLower(Suffix(path)))
    case None => []
    case Some(reader) =>
      match fs.read(reader, path)
      case Raised(_) => []
      case Returned(docs) =>
        match fs.split(chunkSize, chunkOverlap, docs)
        case Raised(_) => []
        case Returned(chunks) => Stamp(chunks, path)
  }

  /**
   * load_file never raises. A supported suffix whose file reads and splits
   * gives the split chunks, stamped; every other path gives [].
   */
  lemma LoadFileOutcomes(fs: FileSystem, chunkSize: int, chunkOverlap: int, path: string)
    ensures var r := LoadFileResult(fs, chunkSize, chunkOverlap, path);
      var reader := ReaderFor(AsciiLower(Suffix(path)));
      if && reader.Some?
         && fs.read(reader.value, path).Returned?
         && fs.split(chunkSize, chunkOverlap, fs.read(reader.value, path).value).Returned?
      then r == Stamp(fs.split(chunkSize, chunkOverlap, fs.read(reader.value, path).value).value, path)
      else r == []
  {
  }

  /** A file that reads and splits into chunks contributes exactly those chunks, stamped; none is lost. */
  lemma LoadFileKeepsChunks(fs: FileSystem, chunkSize: int, chunkOverlap: int, path: string,
                            reader: Reader, docs: seq<Document>, chunks: seq<Document>)
    requires ReaderFor(AsciiLower(Suffix(path))) == Some(reader)
    requires fs.read(reader, path) == Returned(docs)
    requires fs.split(chunkSize, chunkOverlap, docs) == Returned(chunks)
    ensures var r := LoadFileResult(fs, chunkSize, chunkOverlap, path);
      && |r| == |chunks|
      && (forall i | 0 <= i < |r| ::
            && r[i].content == chunks[i].content
            && r[i].metadata["source_file"] == Str(Basename(path))
            && r[i].metadata["file_path"] == Str(path))
      && (chunks != [] ==> r != [])
  {
    forall i | 0 <= i < |chunks| ensures Stamp(chunks, path)[i].metadata["source_file"] == Str(Basename(path)) {
      StampOverwrites(chunks, path, i);
    }
  }

  /** An unsupported suffix such as ".xyz" gives [] rather than an exception, whatever the file system holds. */
  lemma UnsupportedGivesNothing(fs: FileSystem, chunkSize: int, chunkOverlap: int, stem: string)
    requires stem != [] && forall m | 0 <= m < |stem| :: stem[m] != '/'
    ensures LoadFileResult(fs, chunkSize, chunkOverlap, stem + ".xyz") == []
  {
    SuffixOfName(stem, ".xyz");
    var lower := AsciiLower(".xyz");
    assert lower[1] == 'x';
    assert ReaderFor(lower) == None;
  }

  /** The suffix is compared case-insensitively: "REPORT.PDF" is read as a PDF. */
  lemma UpperCaseSuffixDispatches(stem: string)
    requires stem != [] && forall m | 0 <= m < |stem| :: stem[m] != '/'
    ensures ReaderFor(AsciiLower(Suffix(stem + ".PDF"))) == Some(PdfReader)
  {
    SuffixOfName(stem, ".PDF");
    LowerPdf();
  }

  lemma LowerPdf()
    ensures AsciiLower(".PDF") == ".pdf"
  {
    var lower := AsciiLower(".PDF");
    assert lower[0] == '.' && lower[1] == 'p' && lower[2] == 'd' && lower[3] == 'f';
  }

  // ---------------------------------------------------------------------------
  // The directory walk
  // ---------------------------------------------------------------------------

  /** file.lower() ends with one of the six supported extensions .pdf .docx .doc .html .htm .txt. */
  predicate Whitelisted(file: string)
  {
    var lower := AsciiLower(file);
    || EndsWith(lower, ".pdf") || EndsWith(lower, ".docx") || EndsWith(lower, ".doc")
    || EndsWith(lower, ".html") || EndsWith(lower, ".htm") || EndsWith(lower, ".txt")
  }

  /** load_file with the loader's splitter settings, as a function of the path. */
  function FileLoadOf(fs: FileSystem, chunkSize: int, chunkOverlap: int): string -> seq<Document>
  {
    path => LoadFileResult(fs, chunkSize, chunkOverlap, path)
  }

  /**
   * What one file of a walk entry adds: its load result when `keep` admits the
   * name, else nothing. load_directory passes Whitelisted and load_file.
   */
  function FileContribution(keep: string -> bool, load: string -> seq<Document>, root: string, file: string): seq<Document>
  {
    if keep(file) then load(PathJoin(root, file)) else []
  }

  /** The chunks of the files of one walk entry that `keep` admits, in order. */
  function EntryChunks(keep: string -> bool, load: string -> seq<Document>, root: string, files: seq<string>): seq<Document>
  {
    if files == [] then []
    else EntryChunks(keep, load, root, files[..|files| - 1]) + FileContribution(keep, load, root, files[|files| - 1])
  }

  /** The chunks of all entries of the walk, in walk order. */
  function WalkChunks(keep: string -> bool, load: string -> seq<Document>, entries: seq<WalkEntry>): seq<Document>
  {
    if entries == [] then []
    else
      var e := entries[|entries| - 1];
      WalkChunks(keep, load, entries[..|entries| - 1]) + EntryChunks(keep, load, e.root, e.files)
  }

  /** Files are visited in order and their results concatenated: the file list splits at any point. */
  lemma {:induction false} EntryChunksAppend(keep: string -> bool, load: string -> seq<Document>, root: string, a: seq<string>, b: seq<string>)
    ensures EntryChunks(keep, load, root, a + b) == EntryChunks(keep, load, root, a) + EntryChunks(keep, load, root, b)
  {
    if b == [] {
      assert a + b == a;
    } else {
      var n := |b|;
      DropLastOfAppend(a, b);
      EntryChunksAppend(keep, load, root, a, b[..n - 1]);
      var part := FileContribution(keep, load, root, b[n - 1]);
      AppendAssociates(EntryChunks(keep, load, root, a), EntryChunks(keep, load, root, b[..n - 1]), part);
    }
  }

  /** The walk's entries are visited in order and their results concatenated. */
  lemma {:induction false} WalkChunksAppend(keep: string -> bool, load: string -> seq<Document>, a: seq<WalkEntry>, b: seq<WalkEntry>)
    ensures WalkChunks(keep, load, a + b) == WalkChunks(keep, load, a) + WalkChunks(keep, load, b)
  {
    if b == [] {
      assert a + b == a;
    } else {
      var n := |b|;
      DropLastOfAppend(a, b);
      WalkChunksAppend(keep, load, a, b[..n - 1]);
      var part := EntryChunks(keep, load, b[n - 1].root, b[n - 1].files);
      AppendAssociates(WalkChunks(keep, load, a), WalkChunks(keep, load, b[..n - 1]), part);
    }
  }

  /** Files `keep` refuses contribute nothing: a directory of such files loads no chunk. */
  lemma {:induction false} OnlyAdmittedContribute(keep: string -> bool, load: string -> seq<Document>, root: string, files: seq<string>)
    requires forall k | 0 <= k < |files| :: !keep(files[k])
    ensures EntryChunks(keep, load, root, files) == []
  {
    if files != [] {
      OnlyAdmittedContribute(keep, load, root, files[..|files| - 1]);
    }
  }

  /**
   * A file that loads nothing (unsupported, unreadable or unsplittable) does
   * not stop the walk: removing it changes nothing.
   */
  lemma SilentFileSkipped(keep: string -> bool, load: string -> seq<Document>, root: string, a: seq<string>, file: string, b: seq<string>)
    requires FileContribution(keep, load, root, file) == []
    ensures EntryChunks(keep, load, root, a + [file] + b) == EntryChunks(keep, load, root, a + b)
  {
    var withFile := a + [file];
    assert withFile[..|withFile| - 1] == a && withFile[|withFile| - 1] == file;
    assert EntryChunks(keep, load, root, withFile) == EntryChunks(keep, load, root, a) + [];
    assert EntryChunks(keep, load, root, a) + [] == EntryChunks(keep, load, root, a);
    EntryChunksAppend(keep, load, root, withFile, b);
    EntryChunksAppend(keep, load, root, a, b);
  }

  /** The FileLoader object; `fs` stands for the readers, the splitter and the operating system. */
  class FileLoader {
    const chunkSize: int
    const chunkOverlap: int
    const fs: FileSystem

    /** FileLoader.__init__: a None or 0 argument falls back to the configured value. */
    constructor (chunkSize: Option<int>, chunkOverlap: Option<int>, config: Config, fs: FileSystem)
      ensures this.chunkSize == OrDefault(chunkSize, config.chunkSize)
      ensures this.chunkOverlap == OrDefault(chunkOverlap, config.chunkOverlap)
      ensures this.fs == fs
    {
      this.chunkSize := OrDefault(chunkSize, config.chunkSize);
      this.chunkOverlap := OrDefault(chunkOverlap, config.chunkOverlap);
      this.fs := fs;
    }

    /** FileLoader.load_file: dispatch, read, split, then stamp chunk by chunk. */
    method LoadFile(path: string) returns (chunks: seq<Document>)
      ensures chunks == LoadFileResult(fs, chunkSize, chunkOverlap, path)
    {
      var reader := ReaderFor(AsciiLower(Suffix(path)));
      if reader.None? {
        return [];
      }
      var docs := fs.read(reader.value, path);
      if docs.Raised? {
        return [];
      }
      var split := fs.split(chunkSize, chunkOverlap, docs.value);
      if split.Raised? {
        return [];
      }
      chunks := StampChunks(split.value, path);
    }

    /** The stamping loop of load_file. */
    static method StampChunks(split: seq<Document>, path: string) returns (chunks: seq<Document>)
      ensures chunks == Stamp(split, path)
    {
      chunks := split;
      var i := 0;
      while i < |chunks|
        invariant 0 <= i <= |chunks| && |chunks| == |split|
        invariant forall k | 0 <= k < i :: chunks[k] == StampOne(split[k], path)
        invariant forall k | i <= k < |chunks| :: chunks[k] == split[k]
      {
        var chunk := chunks[i];
        var md := chunk.metadata["source_file" := Str(Basename(path))];
        md := md["file_path" := Str(path)];
        chunks := chunks[i := chunk.(metadata := md)];
        i := i + 1;
      }
    }

    /** FileLoader.load_directory: every whitelisted file of every walked directory, results concatenated. */
    method LoadDirectory(directory: string) returns (all: seq<Document>)
      ensures all == WalkChunks(Whitelisted, FileLoadOf(fs, chunkSize, chunkOverlap), fs.walk(directory))
    {
      ghost var load := FileLoadOf(fs, chunkSize, chunkOverlap);
      all := [];
      var entries := fs.walk(directory);
      var e := 0;
      while e < |entries|
        invariant 0 <= e <= |entries|
        invariant all == WalkChunks(Whitelisted, load, entries[..e])
      {
        var chunks := LoadEntry(entries[e].root, entries[e].files);
        all := all + chunks;
        assert entries[..e + 1][..e] == entries[..e];
        e := e + 1;
      }
      assert entries[..e] == entries;
    }

    /** One file of a walked directory: load_file on the joined path if the name is whitelisted. */
    method LoadListed(root: string, file: string) returns (loaded: seq<Document>)
      ensures loaded == FileContribution(Whitelisted, FileLoadOf(fs, chunkSize, chunkOverlap), root, file)
    {
      loaded := [];
      if Whitelisted(file) {
        loaded := LoadFile(PathJoin(root, file));
      }
    }

    /** The inner loop of load_directory: the files of one walked directory. */
    method LoadEntry(root: string, files: seq<string>) returns (chunks: seq<Document>)
      ensures chunks == EntryChunks(Whitelisted, FileLoadOf(fs, chunkSize, chunkOverlap), root, files)
    {
      ghost var load := FileLoadOf(fs, chunkSize, chunkOverlap);
      chunks := [];
      var f := 0;
      while f < |files|
        invariant 0 <= f <= |files|
        invariant chunks == EntryChunks(Whitelisted, load, root, files[..f])
      {
        var loaded := LoadListed(root, files[f]);
        chunks := chunks + loaded;
        assert files[..f + 1][..f] == files[..f];
        f := f + 1;
      }
      assert files[..f] == files;
    }
  }
}
