/**
 * utils/web_crawler.py: the WebCrawler class. HTTP, HTML parsing, urljoin and
 * urlparse are the Network oracle; what the crawler itself decides is
 * modelled: the text normalisation of crawl_page, the link filter
 * is_valid_url, the None / [] fallbacks, and the FIFO frontier loop of
 * crawl_site over the visited_urls field.
 */
module Crawler {
  import opened Text
  import opened Values

  // ---------------------------------------------------------------------------
  // Text normalisation in crawl_page
  // ---------------------------------------------------------------------------

  /** The line boundaries of Python's str.splitlines(). */
  predicate IsLineBreak(c: char)
  {
    c == '\n' || c == '\r' || c == '\U{b}' || c == '\U{c}' || ('\U{1c}' <= c <= '\U{1e}')
    || c == '\U{85}' || c == '\U{2028}' || c == '\U{2029}'
  }

  predicate NoLineBreak(s: string)
  {
    forall i | 0 <= i < |s| :: !IsLineBreak(s[i])
  }

  /** No two consecutive blanks (U+0020). */
  predicate NoDoubleBlank(s: string)
  {
    forall i | 0 <= i < |s| - 1 :: !(s[i] == ' ' && s[i + 1] == ' ')
  }

  /** Index of the first line boundary, or |s|. */
  function FirstBreak(s: string): (i: nat)
    ensures i <= |s|
    ensures forall k | 0 <= k < i :: !IsLineBreak(s[k])
    ensures i < |s| ==> IsLineBreak(s[i])
  {
    if s == [] || IsLineBreak(s[0]) then 0 else 1 + FirstBreak(s[1..])
  }

  /** str.splitlines(): "\r\n" is one boundary; a final boundary opens no empty line. */
  function SplitLines(s: string): (lines: seq<string>)
    ensures forall k | 0 <= k < |lines| :: NoLineBreak(lines[k])
    ensures s == [] <==> lines == []
    decreases |s|
  {
    if s == [] then []
    else
      var i := FirstBreak(s);
      if i == |s| then [s]
      else
        var width := if s[i] == '\r' && i + 1 < |s| && s[i + 1] == '\n' then 2 else 1;
        [s[..i]] + SplitLines(s[i + width..])
  }

  /** Index of the first "  ", or |s|. */
  function FirstDoubleBlank(s: string): (i: nat)
    ensures i <= |s|
    ensures i < |s| ==> i + 1 < |s| && s[i] == ' ' && s[i + 1] == ' '
    ensures forall k | 0 <= k < i && k + 1 < |s| :: !(s[k] == ' ' && s[k + 1] == ' ')
  {
    if |s| < 2 then |s|
    else if s[0] == ' ' && s[1] == ' ' then 0
    else 1 + FirstDoubleBlank(s[1..])
  }

  /** str.split("  "): the pieces between non-overlapping, leftmost double blanks. */
  function SplitDoubleBlank(s: string): (pieces: seq<string>)
    ensures |pieces| >= 1
    ensures forall k | 0 <= k < |pieces| :: NoDoubleBlank(pieces[k])
    ensures NoLineBreak(s) ==> forall k | 0 <= k < |pieces| :: NoLineBreak(pieces[k])
    decreases |s|
  {
    var i := FirstDoubleBlank(s);
    if i == |s| then [s] else [s[..i]] + SplitDoubleBlank(s[i + 2..])
  }

  /** A piece the final " ".join receives: non-empty, trimmed, one line, no double blank. */
  predicate GoodChunk(c: string)
  {
    c != [] && !IsSpace(c[0]) && !IsSpace(c[|c| - 1]) && NoDoubleBlank(c) && NoLineBreak(c)
  }

  /** The stripped pieces, empty ones dropped. */
  function NonEmptyStripped(pieces: seq<string>): (chunks: seq<string>)
    requires forall k | 0 <= k < |pieces| :: NoDoubleBlank(pieces[k]) && NoLineBreak(pieces[k])
    ensures |chunks| <= |pieces|
    ensures forall k | 0 <= k < |chunks| :: GoodChunk(chunks[k])
  {
    if pieces == [] then []
    else
      var c := Strip(pieces[0]);
      StripKeepsLine(pieces[0]);
      (if c == [] then [] else [c]) + NonEmptyStripped(pieces[1..])
  }

  /** A stripped piece is a slice of the piece, so it keeps both properties. */
  lemma StripKeepsLine(s: string)
    requires NoDoubleBlank(s) && NoLineBreak(s)
    ensures NoDoubleBlank(Strip(s)) && NoLineBreak(Strip(s))
  {
    var a := LeadCount(s);
    var r := Strip(s);
    forall i | 0 <= i < |r| ensures r[i] == s[a + i] {
    }
  }

  /** The chunks one text line contributes. */
  function LineChunks(line: string): (chunks: seq<string>)
    requires NoLineBreak(line)
    ensures forall k | 0 <= k < |chunks| :: GoodChunk(chunks[k])
  {
    var t := Strip(line);
    StripKeepsLineBreakFree(line);
    NonEmptyStripped(SplitDoubleBlank(t))
  }

  lemma StripKeepsLineBreakFree(s: string)
    requires NoLineBreak(s)
    ensures NoLineBreak(Strip(s))
  {
    var a := LeadCount(s);
    var r := Strip(s);
    forall i | 0 <= i < |r| ensures r[i] == s[a + i] {
    }
  }

  /** The chunks of all lines, in order. */
  function PageChunks(lines: seq<string>): (chunks: seq<string>)
    requires forall k | 0 <= k < |lines| :: NoLineBreak(lines[k])
    ensures forall k | 0 <= k < |chunks| :: GoodChunk(chunks[k])
  {
    if lines == [] then [] else LineChunks(lines[0]) + PageChunks(lines[1..])
  }

  /** The text crawl_page keeps from soup.get_text(). */
  function NormalizeText(text: string): string
  {
    Join(" ", PageChunks(SplitLines(text)))
  }

  /** Trimmed, one line, and no two consecutive blanks. */
  predicate Tidy(s: string)
  {
    (s != [] ==> !IsSpace(s[0]) && !IsSpace(s[|s| - 1])) && NoDoubleBlank(s) && NoLineBreak(s)
  }

  lemma JoinWithBlankTidy(a: string, b: string)
    requires a != [] && b != [] && Tidy(a) && Tidy(b)
    ensures Tidy(a + " " + b)
  {
    var s := a + " " + b;
    assert s[0] == a[0];
    assert s[|s| - 1] == b[|b| - 1];
    forall i | 0 <= i < |s| - 1 ensures !(s[i] == ' ' && s[i + 1] == ' ') {
      if i < |a| - 1 {
        assert s[i] == a[i] && s[i + 1] == a[i + 1];
      } else if i == |a| - 1 {
        assert s[i] == a[|a| - 1];
      } else if i == |a| {
        assert s[i + 1] == b[0];
      } else {
        assert s[i] == b[i - |a| - 1] && s[i + 1] == b[i - |a|];
      }
    }
    forall i | 0 <= i < |s| ensures !IsLineBreak(s[i]) {
      if i < |a| {
        assert s[i] == a[i];
      } else if i > |a| {
        assert s[i] == b[i - |a| - 1];
      }
    }
  }

  lemma {:induction false} JoinChunksTidy(chunks: seq<string>)
    requires forall k | 0 <= k < |chunks| :: GoodChunk(chunks[k])
    ensures Tidy(Join(" ", chunks))
    ensures chunks != [] ==> Join(" ", chunks) != []
  {
    if |chunks| > 1 {
      JoinChunksTidy(chunks[1..]);
      JoinWithBlankTidy(chunks[0], Join(" ", chunks[1..]));
    }
  }

  /**
   * The normalised page text has no leading or trailing whitespace, no line
   * boundary and no two consecutive blanks.
   */
  lemma NormalizeTextTidy(text: string)
    ensures Tidy(NormalizeText(text))
  {
    JoinChunksTidy(PageChunks(SplitLines(text)));
  }

  /** A string without a double blank is one piece. */
  lemma SplitWithoutDoubleBlank(s: string)
    requires NoDoubleBlank(s)
    ensures SplitDoubleBlank(s) == [s]
  {
  }

  /** The first double blank after a trimmed piece without one splits the string there. */
  lemma SplitAfterPiece(a: string, b: string)
    requires a != [] && !IsSpace(a[|a| - 1]) && NoDoubleBlank(a)
    ensures SplitDoubleBlank(a + "  " + b) == [a] + SplitDoubleBlank(b)
  {
    var s := a + "  " + b;
    var n := |a|;
    assert s[n] == ' ' && s[n + 1] == ' ';
    var i := FirstDoubleBlank(s);
    assert i == n;
    assert s[..n] == a;
    assert s[n + 2..] == b;
  }

  /** Two good chunks joined by "  " form one trimmed line. */
  lemma TwoPieceLine(a: string, b: string)
    requires GoodChunk(a) && GoodChunk(b)
    ensures NoLineBreak(a + "  " + b) && Strip(a + "  " + b) == a + "  " + b
  {
    var s := a + "  " + b;
    assert s[0] == a[0] && s[|s| - 1] == b[|b| - 1];
    forall i | 0 <= i < |s| ensures !IsLineBreak(s[i]) {
      if i < |a| {
        assert s[i] == a[i];
      } else if i >= |a| + 2 {
        assert s[i] == b[i - |a| - 2];
      }
    }
    StripTrimmed(s);
  }

  /** Splitting two good chunks joined by "  " gives them back. */
  lemma SplitTwoPieces(a: string, b: string)
    requires GoodChunk(a) && GoodChunk(b)
    ensures SplitDoubleBlank(a + "  " + b) == [a, b]
  {
    SplitAfterPiece(a, b);
    SplitWithoutDoubleBlank(b);
    assert [a] + [b] == [a, b];
  }

  /** Good chunks survive stripping and the empty-piece filter unchanged. */
  lemma KeepTwoChunks(a: string, b: string)
    requires GoodChunk(a) && GoodChunk(b)
    ensures NonEmptyStripped([a, b]) == [a, b]
  {
    StripTrimmed(a);
    StripTrimmed(b);
    assert [a, b][1..] == [b];
    assert [b][1..] == [];
  }

  /**
   * A double blank inside a line separates two chunks: two trimmed, one-line
   * pieces without double blanks, joined by "  ", come back as those two
   * pieces.
   */
  lemma DoubleBlankSeparates(a: string, b: string)
    requires GoodChunk(a) && GoodChunk(b)
    ensures LineChunks(a + "  " + b) == [a, b]
  {
    TwoPieceLine(a, b);
    SplitTwoPieces(a, b);
    KeepTwoChunks(a, b);
  }

  /** A non-empty text without a line boundary is one line. */
  lemma SplitOneLine(s: string)
    requires s != [] && NoLineBreak(s)
    ensures SplitLines(s) == [s]
  {
  }

  /** A good chunk is one line that comes through stripping and splitting unchanged. */
  lemma GoodChunkIsOneChunk(a: string)
    requires GoodChunk(a)
    ensures LineChunks(a) == [a]
  {
    StripTrimmed(a);
    SplitWithoutDoubleBlank(a);
    assert [a][1..] == [];
  }

  /** Text that is already normalised stays as it is. */
  lemma NormalizeChunk(a: string)
    requires GoodChunk(a)
    ensures NormalizeText(a) == a
  {
    SplitOneLine(a);
    GoodChunkIsOneChunk(a);
    assert [a][1..] == [];
    assert PageChunks([a]) == LineChunks(a) + PageChunks([]);
    assert PageChunks([a]) == [a];
  }

  /** Two good chunks separated by one line boundary (any of them, "\r" included) are two lines. */
  lemma SplitTwoLines(a: string, c: char, b: string)
    requires GoodChunk(a) && GoodChunk(b) && IsLineBreak(c)
    ensures SplitLines(a + [c] + b) == [a, b]
  {
    var s := a + [c] + b;
    var n := |a|;
    assert s[n] == c;
    forall k | 0 <= k < n ensures !IsLineBreak(s[k]) {
      assert s[k] == a[k];
    }
    var i := FirstBreak(s);
    assert i == n;
    assert n + 1 < |s| && s[n + 1] == b[0];
    assert s[..n] == a;
    assert s[n + 1..] == b;
    SplitOneLine(b);
  }

  /**
   * A line boundary between two chunks becomes exactly one blank, whichever
   * boundary character it was.
   */
  lemma NormalizeTwoLines(a: string, c: char, b: string)
    requires GoodChunk(a) && GoodChunk(b) && IsLineBreak(c)
    ensures NormalizeText(a + [c] + b) == a + " " + b
  {
    SplitTwoLines(a, c, b);
    GoodChunkIsOneChunk(a);
    GoodChunkIsOneChunk(b);
    var lines := [a, b];
    assert lines[1..] == [b] && [b][1..] == [];
    assert PageChunks([b]) == LineChunks(b) + PageChunks([]);
    assert PageChunks(lines) == LineChunks(a) + PageChunks([b]);
    assert PageChunks(lines) == [a, b];
    assert [a, b][1..] == [b];
    assert Join(" ", [b]) == b;
  }

  // ---------------------------------------------------------------------------
  // What the normalisation keeps
  // ---------------------------------------------------------------------------

  /** s without its line boundaries. */
  function DropBreaks(s: string): string
  {
    if s == [] then [] else (if IsLineBreak(s[0]) then [] else [s[0]]) + DropBreaks(s[1..])
  }

  lemma {:induction false} DropBreaksAppend(a: string, b: string)
    ensures DropBreaks(a + b) == DropBreaks(a) + DropBreaks(b)
  {
    if a == [] {
      assert a + b == b;
    } else {
      assert (a + b)[1..] == a[1..] + b;
      DropBreaksAppend(a[1..], b);
    }
  }

  lemma {:induction false} DropBreaksOfLine(s: string)
    requires NoLineBreak(s)
    ensures DropBreaks(s) == s
  {
    if s != [] {
      DropBreaksOfLine(s[1..]);
      assert s == [s[0]] + s[1..];
    }
  }

  lemma {:induction false} DropBreaksOfBoundary(s: string)
    requires forall i | 0 <= i < |s| :: IsLineBreak(s[i])
    ensures DropBreaks(s) == []
  {
    if s != [] {
      DropBreaksOfBoundary(s[1..]);
    }
  }

  /** A line, its boundary, then the rest: only the line survives of the first two. */
  lemma DropLineBoundary(line: string, boundary: string, rest: string)
    requires NoLineBreak(line)
    requires forall i | 0 <= i < |boundary| :: IsLineBreak(boundary[i])
    ensures DropBreaks(line + boundary + rest) == line + DropBreaks(rest)
  {
    DropBreaksOfLine(line);
    DropBreaksOfBoundary(boundary);
    DropBreaksAppend(line, boundary);
    assert DropBreaks(line + boundary) == line + [] == line;
    DropBreaksAppend(line + boundary, rest);
  }

  /**
   * str.splitlines() loses only the boundaries: its lines, written one after
   * another, are the text with every line boundary removed.
   */
  lemma {:induction false} SplitLinesJoined(s: string)
    ensures Concat(SplitLines(s)) == DropBreaks(s)
    decreases |s|
  {
    if s != [] {
      var i := FirstBreak(s);
      var line := s[..i];
      assert NoLineBreak(line) by {
        forall k | 0 <= k < |line| ensures !IsLineBreak(line[k]) {
          assert line[k] == s[k];
        }
      }
      if i == |s| {
        assert line == s;
        DropBreaksOfLine(s);
        ConcatOne(s);
      } else {
        var width := if s[i] == '\r' && i + 1 < |s| && s[i + 1] == '\n' then 2 else 1;
        var boundary, rest := s[i..i + width], s[i + width..];
        assert s == line + boundary + rest;
        DropLineBoundary(line, boundary, rest);
        SplitLinesJoined(rest);
        var lines := SplitLines(s);
        assert lines == [line] + SplitLines(rest);
        assert lines[1..] == SplitLines(rest);
      }
    }
  }

  /** Every line boundary is whitespace, so removing boundaries keeps the visible text. */
  lemma {:induction false} DropBreaksKeepsNonSpace(s: string)
    ensures NonSpace(DropBreaks(s)) == NonSpace(s)
  {
    if s != [] {
      DropBreaksKeepsNonSpace(s[1..]);
      var head := if IsLineBreak(s[0]) then [] else [s[0]];
      NonSpaceAppend(head, DropBreaks(s[1..]));
    }
  }

  lemma DropDoubleBlank(piece: string, rest: string)
    ensures NonSpace(piece + "  " + rest) == NonSpace(piece) + NonSpace(rest)
  {
    NonSpaceAppend(piece + "  ", rest);
    NonSpaceAppend(piece, "  ");
  }

  /** str.split("  ") removes only blanks. */
  lemma {:induction false} SplitDoubleBlankKeeps(s: string)
    ensures NonSpace(Concat(SplitDoubleBlank(s))) == NonSpace(s)
    decreases |s|
  {
    var i := FirstDoubleBlank(s);
    if i == |s| {
      ConcatOne(s);
    } else {
      var piece, rest := s[..i], s[i + 2..];
      assert s == piece + "  " + rest;
      DropDoubleBlank(piece, rest);
      SplitDoubleBlankKeeps(rest);
      var pieces := SplitDoubleBlank(s);
      assert pieces[0] == piece && pieces[1..] == SplitDoubleBlank(rest);
      NonSpaceAppend(piece, Concat(SplitDoubleBlank(rest)));
    }
  }

  /** Stripping the pieces and dropping empty ones removes only whitespace. */
  lemma {:induction false} NonEmptyStrippedKeeps(pieces: seq<string>)
    requires forall k | 0 <= k < |pieces| :: NoDoubleBlank(pieces[k]) && NoLineBreak(pieces[k])
    ensures NonSpace(Concat(NonEmptyStripped(pieces))) == NonSpace(Concat(pieces))
  {
    if pieces != [] {
      var c := Strip(pieces[0]);
      var head := if c == [] then [] else [c];
      var tail := NonEmptyStripped(pieces[1..]);
      StripKeepsNonSpace(pieces[0]);
      NonEmptyStrippedKeeps(pieces[1..]);
      ConcatAppend(head, tail);
      assert Concat(head) == c by {
        if c != [] {
          ConcatOne(c);
        }
      }
      NonSpaceAppend(c, Concat(tail));
      NonSpaceAppend(pieces[0], Concat(pieces[1..]));
    }
  }

  lemma LineChunksKeep(line: string)
    requires NoLineBreak(line)
    ensures NonSpace(Concat(LineChunks(line))) == NonSpace(line)
  {
    var t := Strip(line);
    StripKeepsLineBreakFree(line);
    StripKeepsNonSpace(line);
    SplitDoubleBlankKeeps(t);
    NonEmptyStrippedKeeps(SplitDoubleBlank(t));
  }

  lemma {:induction false} PageChunksKeep(lines: seq<string>)
    requires forall k | 0 <= k < |lines| :: NoLineBreak(lines[k])
    ensures NonSpace(Concat(PageChunks(lines))) == NonSpace(Concat(lines))
  {
    if lines != [] {
      var first, rest := LineChunks(lines[0]), PageChunks(lines[1..]);
      LineChunksKeep(lines[0]);
      PageChunksKeep(lines[1..]);
      ConcatAppend(first, rest);
      NonSpaceAppend(Concat(first), Concat(rest));
      NonSpaceAppend(lines[0], Concat(lines[1..]));
    }
  }

  /** " ".join adds only blanks. */
  lemma {:induction false} JoinBlankKeeps(parts: seq<string>)
    ensures NonSpace(Join(" ", parts)) == NonSpace(Concat(parts))
  {
    if |parts| == 1 {
      assert parts == [parts[0]];
      ConcatOne(parts[0]);
    } else if |parts| > 1 {
      var rest := Join(" ", parts[1..]);
      JoinBlankKeeps(parts[1..]);
      NonSpaceAppend(parts[0] + " ", rest);
      NonSpaceAppend(parts[0], " ");
      NonSpaceAppend(parts[0], Concat(parts[1..]));
    }
  }

  /**
   * The normalisation only moves whitespace: the page's non-whitespace
   * characters all survive, in order, and the text comes out empty exactly
   * when the page held nothing but whitespace.
   */
  lemma NormalizeTextKeepsText(text: string)
    ensures NonSpace(NormalizeText(text)) == NonSpace(text)
    ensures NormalizeText(text) == [] <==> AllSpace(text)
  {
    var lines := SplitLines(text);
    JoinBlankKeeps(PageChunks(lines));
    PageChunksKeep(lines);
    SplitLinesJoined(text);
    DropBreaksKeepsNonSpace(text);
    NonSpaceEmpty(text);
    NonSpaceEmpty(NormalizeText(text));
    NormalizeTextTidy(text);
  }

  // ---------------------------------------------------------------------------
  // crawl_page, get_links and is_valid_url
  // ---------------------------------------------------------------------------

  /** What the HTML parser yields for a fetched page: the <title> text, if any, and get_text() without scripts and styles. */
  datatype RawPage = RawPage(title: Option<string>, text: string)

  /**
   * The outside world the crawler sees. fetchPage and fetchLinks are None
   * when the request or the parse raises; fetchLinks yields the hrefs already
   * resolved by urljoin, in document order; netloc is urlparse(u).netloc.
   */
  datatype Network = Network(
    fetchPage: string -> Option<RawPage>,
    fetchLinks: string -> Option<seq<string>>,
    netloc: string -> string)

  /** The dictionary crawl_page returns. */
  datatype PageRecord = PageRecord(url: string, title: string, content: string, metadata: Metadata)

  function PageMetadata(url: string, title: string): Metadata
  {
    map["source" := Str("web"), "url" := Str(url), "title" := Str(title)]
  }

  /**
   * What crawl_page promises of the record it builds from a parsed page: the
   * requested url; the stripped <title> text, or "" without one; content that
   * is tidy and holds exactly the page text's non-whitespace characters, in
   * order; and metadata {"source": "web", "url", "title"}.
   */
  predicate RecordOf(url: string, raw: RawPage, page: PageRecord)
  {
    && page.url == url
    && page.title == StrippedTitle(raw.title)
    && page.metadata == PageMetadata(url, page.title)
    && Tidy(page.content)
    && NonSpace(page.content) == NonSpace(raw.text)
  }

  /** WebCrawler.crawl_page: the record of a fetched page, or None when anything raised. */
  function CrawlPage(net: Network, url: string): (page: Option<PageRecord>)
    ensures page.None? <==> net.fetchPage(url).None?
    ensures page.Some? ==> RecordOf(url, net.fetchPage(url).value, page.value)
  {
    if net.fetchPage(url).None? then None else Some(PageFrom(url, net.fetchPage(url).value))
  }

  /** `title.get_text().strip() if title else ""`. */
  function StrippedTitle(title: Option<string>): (r: string)
    ensures title.None? ==> r == []
    ensures r != [] ==> !IsSpace(r[0]) && !IsSpace(r[|r| - 1])
    ensures title.Some? ==> NonSpace(r) == NonSpace(title.value) && (r == [] <==> AllSpace(title.value))
  {
    if title.Some? then
      StripKeepsNonSpace(title.value);
      Strip(title.value)
    else ""
  }

  /** The record crawl_page builds from a parsed page. */
  function PageFrom(url: string, raw: RawPage): (page: PageRecord)
    ensures RecordOf(url, raw, page)
  {
    var title := StrippedTitle(raw.title);
    var content := NormalizeText(raw.text);
    NormalizeTextTidy(raw.text);
    NormalizeTextKeepsText(raw.text);
    PageRecord(url, title, content, PageMetadata(url, title))
  }

  const ExcludedExtensions := [".pdf", ".jpg", ".png", ".gif", ".css", ".js"]

  /** One of the excluded extensions occurs anywhere in url.lower(). */
  predicate HasExcludedExtension(url: string)
  {
    exists ext | ext in ExcludedExtensions :: Contains(AsciiLower(url), ext)
  }

  /** WebCrawler.is_valid_url against the base URL and the visited set. */
  function IsValidUrl(net: Network, baseUrl: string, visited: set<string>, url: string): (ok: bool)
    ensures ok <==>
      && net.netloc(url) == net.netloc(baseUrl)
      && url !in visited
      && !Contains(AsciiLower(url), ".pdf") && !Contains(AsciiLower(url), ".jpg")
      && !Contains(AsciiLower(url), ".png") && !Contains(AsciiLower(url), ".gif")
      && !Contains(AsciiLower(url), ".css") && !Contains(AsciiLower(url), ".js")
  {
    net.netloc(url) == net.netloc(baseUrl) && url !in visited && !HasExcludedExtension(url)
  }

  /** The extension test is a substring test: a JSON or JSP address is refused too. */
  lemma ExtensionMatchesAnywhere()
    ensures HasExcludedExtension("https://eora.ru/api/data.json")
    ensures HasExcludedExtension("https://eora.ru/IMG/Photo.JPG?size=2")
  {
    var u := "https://eora.ru/api/data.json";
    assert AsciiLower(u)[24..27] == ".js";
    assert OccursAt(AsciiLower(u), ".js", 24);
    assert Contains(AsciiLower(u), ".js");
    assert ".js" in ExcludedExtensions;
    var v := "https://eora.ru/IMG/Photo.JPG?size=2";
    assert AsciiLower(v)[26] == 'j' && AsciiLower(v)[27] == 'p' && AsciiLower(v)[28] == 'g';
    assert AsciiLower(v)[25..29] == ".jpg";
    assert OccursAt(AsciiLower(v), ".jpg", 25);
    assert Contains(AsciiLower(v), ".jpg");
    assert ".jpg" in ExcludedExtensions;
  }

  /** The valid links of `links`, in their order. */
  function FilterLinks(net: Network, baseUrl: string, visited: set<string>, links: seq<string>): (r: seq<string>)
    ensures |r| <= |links|
    ensures forall i | 0 <= i < |r| :: r[i] in links && IsValidUrl(net, baseUrl, visited, r[i])
    ensures forall i | 0 <= i < |links| && IsValidUrl(net, baseUrl, visited, links[i]) :: links[i] in r
    ensures (forall i | 0 <= i < |links| :: IsValidUrl(net, baseUrl, visited, links[i])) ==> r == links
  {
    if links == [] then []
    else
      (if IsValidUrl(net, baseUrl, visited, links[0]) then [links[0]] else [])
      + FilterLinks(net, baseUrl, visited, links[1..])
  }

  /**
   * The filter keeps document order and duplicates: filtering a concatenation
   * filters each part, and a single link is kept exactly when it is valid.
   */
  lemma {:induction false} FilterLinksAppend(net: Network, baseUrl: string, visited: set<string>, a: seq<string>, b: seq<string>)
    ensures FilterLinks(net, baseUrl, visited, a + b)
         == FilterLinks(net, baseUrl, visited, a) + FilterLinks(net, baseUrl, visited, b)
    ensures forall u :: FilterLinks(net, baseUrl, visited, [u]) == if IsValidUrl(net, baseUrl, visited, u) then [u] else []
  {
    forall u ensures FilterLinks(net, baseUrl, visited, [u]) == if IsValidUrl(net, baseUrl, visited, u) then [u] else [] {
      assert [u][1..] == [];
    }
    if a == [] {
      assert a + b == b;
    } else {
      assert (a + b)[0] == a[0] && (a + b)[1..] == a[1..] + b;
      FilterLinksAppend(net, baseUrl, visited, a[1..], b);
    }
  }

  /** WebCrawler.get_links: the valid links of the page, or [] when anything raised. */
  function GetLinks(net: Network, baseUrl: string, visited: set<string>, url: string): (links: seq<string>)
    ensures net.fetchLinks(url).None? ==> links == []
    ensures forall i | 0 <= i < |links| :: IsValidUrl(net, baseUrl, visited, links[i])
    ensures net.fetchLinks(url).Some? ==> forall i | 0 <= i < |links| :: links[i] in net.fetchLinks(url).value
  {
    match net.fetchLinks(url)
    case None => []
    case Some(hrefs) => FilterLinks(net, baseUrl, visited, hrefs)
  }

  // ---------------------------------------------------------------------------
  // The crawl_site loop as a state machine
  // ---------------------------------------------------------------------------

  /**
   * The loop's state: urls_to_visit, visited_urls and pages_data, plus the
   * log of URLs handed to crawl_page (bookkeeping for the lemmas only).
   */
  datatype CrawlState = CrawlState(frontier: seq<string>, visited: set<string>, pages: seq<PageRecord>, fetched: seq<string>)

  /** One iteration of the while loop, which runs while the frontier is non-empty. */
  function Step(net: Network, baseUrl: string, s: CrawlState): (r: CrawlState)
    requires s.frontier != []
    ensures r.pages == s.pages ==> |r.frontier| < |s.frontier|
    ensures r.pages != s.pages ==> |r.pages| == |s.pages| + 1 && r.pages[..|s.pages|] == s.pages
  {
    var url := s.frontier[0];
    var rest := s.frontier[1..];
    if url in s.visited then s.(frontier := rest)
    else
      var visited := s.visited + {url};
      match CrawlPage(net, url)
      case None => CrawlState(rest, visited, s.pages, s.fetched + [url])
      case Some(page) =>
        CrawlState(rest + GetLinks(net, baseUrl, visited, url), visited, s.pages + [page], s.fetched + [url])
  }

  /**
   * The frontier is a FIFO queue: the front URL is popped, marked visited, and
   * only a successful crawl_page records a page and appends that page's valid
   * links at the back.
   */
  lemma StepIsFifo(net: Network, baseUrl: string, s: CrawlState)
    requires s.frontier != []
    ensures var r := Step(net, baseUrl, s); var url := s.frontier[0];
      && (r.pages != s.pages <==> url !in s.visited && CrawlPage(net, url).Some?)
      && (r.pages != s.pages ==> r.pages == s.pages + [CrawlPage(net, url).value])
      && r.visited == s.visited + {url}
      && r.frontier == s.frontier[1..] + (if r.pages != s.pages then GetLinks(net, baseUrl, s.visited + {url}, url) else [])
  {
  }

  /** The state in which crawl_site's loop stops. */
  function Crawl(net: Network, baseUrl: string, maxPages: int, s: CrawlState): CrawlState
    decreases maxPages - |s.pages|, |s.frontier|
  {
    if s.frontier == [] || |s.pages| >= maxPages then s
    else Crawl(net, baseUrl, maxPages, Step(net, baseUrl, s))
  }

  /** The state crawl_site starts from, given the crawler's visited set. */
  function Start(baseUrl: string, visited: set<string>): CrawlState
  {
    CrawlState([baseUrl], visited, [], [])
  }

  /** The page budget: never more than max_pages records, and none when max_pages <= 0. */
  lemma {:induction false} CrawlBudget(net: Network, baseUrl: string, maxPages: int, s: CrawlState)
    requires |s.pages| <= maxPages || s.pages == []
    ensures var r := Crawl(net, baseUrl, maxPages, s);
      (|r.pages| <= maxPages || r.pages == []) && (maxPages <= |s.pages| ==> r == s)
    decreases maxPages - |s.pages|, |s.frontier|
  {
    if s.frontier != [] && |s.pages| < maxPages {
      CrawlBudget(net, baseUrl, maxPages, Step(net, baseUrl, s));
    }
  }

  /** What a crawl keeps of the state it starts from. */
  predicate Extends(s: CrawlState, r: CrawlState)
  {
    && s.visited <= r.visited
    && |s.pages| <= |r.pages| && r.pages[..|s.pages|] == s.pages
    && |s.fetched| <= |r.fetched| && r.fetched[..|s.fetched|] == s.fetched
  }

  /**
   * The bookkeeping invariant relative to the visited set v0 the crawl began
   * with: each URL was fetched once, never one already in v0, and the visited
   * set is v0 plus what was fetched.
   */
  predicate FetchLog(v0: set<string>, s: CrawlState)
  {
    && (forall i, j | 0 <= i < j < |s.fetched| :: s.fetched[i] != s.fetched[j])
    && (forall i | 0 <= i < |s.fetched| :: s.fetched[i] !in v0)
    && s.visited == v0 + set u | u in s.fetched
  }

  /** Fetching one URL that was not visited yet keeps the log, whatever else changed. */
  lemma FetchLogAppend(v0: set<string>, s: CrawlState, url: string, t: CrawlState)
    requires FetchLog(v0, s) && url !in s.visited
    requires t.fetched == s.fetched + [url] && t.visited == s.visited + {url}
    ensures FetchLog(v0, t)
  {
    assert (set u | u in t.fetched) == (set u | u in s.fetched) + {url};
    forall i | 0 <= i < |s.fetched| ensures s.fetched[i] != url {
      assert s.fetched[i] in s.visited;
    }
  }

  lemma StepKeepsFetchLog(net: Network, baseUrl: string, v0: set<string>, s: CrawlState)
    requires s.frontier != [] && FetchLog(v0, s)
    ensures FetchLog(v0, Step(net, baseUrl, s)) && Extends(s, Step(net, baseUrl, s))
  {
    var r := Step(net, baseUrl, s);
    var url := s.frontier[0];
    if url !in s.visited {
      assert r.fetched == s.fetched + [url] && r.visited == s.visited + {url};
      FetchLogAppend(v0, s, url, r);
      assert r.fetched[..|s.fetched|] == s.fetched;
    } else {
      assert r == s.(frontier := s.frontier[1..]);
    }
  }

  lemma {:induction false} CrawlKeepsFetchLog(net: Network, baseUrl: string, maxPages: int, v0: set<string>, s: CrawlState)
    requires FetchLog(v0, s)
    ensures FetchLog(v0, Crawl(net, baseUrl, maxPages, s)) && Extends(s, Crawl(net, baseUrl, maxPages, s))
    decreases maxPages - |s.pages|, |s.frontier|
  {
    if s.frontier != [] && |s.pages| < maxPages {
      var t := Step(net, baseUrl, s);
      StepKeepsFetchLog(net, baseUrl, v0, s);
      CrawlKeepsFetchLog(net, baseUrl, maxPages, v0, t);
    }
  }

  /**
   * Each URL is fetched at most once per crawler: within one crawl_site the
   * fetched URLs are distinct, none was visited before the call, and the
   * visited set afterwards is the old one plus exactly the fetched URLs.
   */
  lemma CrawlFetchesOnce(net: Network, baseUrl: string, maxPages: int, visited: set<string>)
    ensures var r := Crawl(net, baseUrl, maxPages, Start(baseUrl, visited));
      && visited <= r.visited
      && (forall i, j | 0 <= i < j < |r.fetched| :: r.fetched[i] != r.fetched[j])
      && (forall i | 0 <= i < |r.fetched| :: r.fetched[i] !in visited)
      && r.visited == visited + set u | u in r.fetched
  {
    CrawlKeepsFetchLog(net, baseUrl, maxPages, visited, Start(baseUrl, visited));
  }

  /** The visited set persists: a second crawl_site whose base URL was already visited fetches nothing. */
  lemma RepeatCrawlFetchesNothing(net: Network, baseUrl: string, maxPages: int, visited: set<string>)
    requires baseUrl in visited
    ensures var r := Crawl(net, baseUrl, maxPages, Start(baseUrl, visited));
      r.pages == [] && r.fetched == [] && r.visited == visited
  {
    var s := Start(baseUrl, visited);
    if maxPages > 0 {
      assert Step(net, baseUrl, s) == CrawlState([], visited, [], []);
    }
  }

  /**
   * Records appear in the order of successful fetches: the pages are the
   * crawl_page records of exactly those fetched URLs whose fetch succeeded.
   */
  function Successes(net: Network, fetched: seq<string>): (pages: seq<PageRecord>)
    ensures |pages| <= |fetched|
  {
    if fetched == [] then []
    else
      var last := fetched[|fetched| - 1];
      Successes(net, fetched[..|fetched| - 1])
      + match CrawlPage(net, last) case None => [] case Some(p) => [p]
  }

  lemma StepRecordsSuccesses(net: Network, baseUrl: string, s: CrawlState)
    requires s.frontier != [] && s.pages == Successes(net, s.fetched)
    ensures Step(net, baseUrl, s).pages == Successes(net, Step(net, baseUrl, s).fetched)
  {
    var r := Step(net, baseUrl, s);
    if s.frontier[0] !in s.visited {
      assert r.fetched[..|r.fetched| - 1] == s.fetched;
    }
  }

  lemma {:induction false} CrawlRecordsSuccesses(net: Network, baseUrl: string, maxPages: int, s: CrawlState)
    requires s.pages == Successes(net, s.fetched)
    ensures var r := Crawl(net, baseUrl, maxPages, s); r.pages == Successes(net, r.fetched)
    decreases maxPages - |s.pages|, |s.frontier|
  {
    if s.frontier != [] && |s.pages| < maxPages {
      StepRecordsSuccesses(net, baseUrl, s);
      CrawlRecordsSuccesses(net, baseUrl, maxPages, Step(net, baseUrl, s));
    }
  }

  /** Every record describes the URL it was fetched from, with metadata source "web". */
  lemma {:induction false} SuccessesAreRecords(net: Network, fetched: seq<string>)
    ensures forall i | 0 <= i < |Successes(net, fetched)| ::
      var p := Successes(net, fetched)[i];
      && p.url in fetched
      && net.fetchPage(p.url).Some?
      && CrawlPage(net, p.url) == Some(p)
      && p.metadata == PageMetadata(p.url, p.title)
  {
    if fetched != [] {
      SuccessesAreRecords(net, fetched[..|fetched| - 1]);
      var pre := Successes(net, fetched[..|fetched| - 1]);
      forall i | 0 <= i < |pre| ensures pre[i].url in fetched {
        assert pre[i].url in fetched[..|fetched| - 1];
      }
    }
  }

  /** A URL the crawl may fetch: the seed itself, or a link that passed is_valid_url. */
  predicate Admissible(net: Network, baseUrl: string, url: string)
  {
    url == baseUrl || (net.netloc(url) == net.netloc(baseUrl) && !HasExcludedExtension(url))
  }

  lemma StepStaysOnSite(net: Network, baseUrl: string, s: CrawlState)
    requires s.frontier != []
    requires forall i | 0 <= i < |s.frontier| :: Admissible(net, baseUrl, s.frontier[i])
    requires forall i | 0 <= i < |s.fetched| :: Admissible(net, baseUrl, s.fetched[i])
    ensures var r := Step(net, baseUrl, s);
      && (forall i | 0 <= i < |r.frontier| :: Admissible(net, baseUrl, r.frontier[i]))
      && (forall i | 0 <= i < |r.fetched| :: Admissible(net, baseUrl, r.fetched[i]))
  {
    var r := Step(net, baseUrl, s);
    var url := s.frontier[0];
    if url !in s.visited && CrawlPage(net, url).Some? {
      var links := GetLinks(net, baseUrl, s.visited + {url}, url);
      assert r.frontier == s.frontier[1..] + links;
      forall i | 0 <= i < |r.frontier| ensures Admissible(net, baseUrl, r.frontier[i]) {
        if i >= |s.frontier| - 1 {
          assert r.frontier[i] == links[i - |s.frontier| + 1];
        } else {
          assert r.frontier[i] == s.frontier[i + 1];
        }
      }
    }
  }

  lemma {:induction false} CrawlStaysOnSiteFrom(net: Network, baseUrl: string, maxPages: int, s: CrawlState)
    requires forall i | 0 <= i < |s.frontier| :: Admissible(net, baseUrl, s.frontier[i])
    requires forall i | 0 <= i < |s.fetched| :: Admissible(net, baseUrl, s.fetched[i])
    ensures var r := Crawl(net, baseUrl, maxPages, s);
      forall i | 0 <= i < |r.fetched| :: Admissible(net, baseUrl, r.fetched[i])
    decreases maxPages - |s.pages|, |s.frontier|
  {
    if s.frontier != [] && |s.pages| < maxPages {
      var t := Step(net, baseUrl, s);
      StepStaysOnSite(net, baseUrl, s);
      CrawlStaysOnSiteFrom(net, baseUrl, maxPages, t);
      assert Crawl(net, baseUrl, maxPages, s) == Crawl(net, baseUrl, maxPages, t);
    }
  }

  /** The crawl never leaves the base URL's host and never fetches an excluded extension, the seed apart. */
  lemma CrawlStaysOnSite(net: Network, baseUrl: string, maxPages: int, visited: set<string>)
    ensures var r := Crawl(net, baseUrl, maxPages, Start(baseUrl, visited));
      forall i | 0 <= i < |r.fetched| :: r.fetched[i] == baseUrl ||
        (net.netloc(r.fetched[i]) == net.netloc(baseUrl) && !HasExcludedExtension(r.fetched[i]))
  {
    CrawlStaysOnSiteFrom(net, baseUrl, maxPages, Start(baseUrl, visited));
  }

  const DefaultBaseUrl := "https://eora.ru"
  const DefaultMaxPages := 50

  /** The crawler object; `net` stands for its requests.Session. */
  class WebCrawler {
    const baseUrl: string
    const net: Network
    var visitedUrls: set<string>

    /** WebCrawler.__init__: the visited set starts empty. */
    constructor (baseUrl: string, net: Network)
      ensures this.baseUrl == baseUrl && this.net == net && visitedUrls == {}
    {
      this.baseUrl := baseUrl;
      this.net := net;
      visitedUrls := {};
    }

    /** WebCrawler.crawl_site: the FIFO frontier loop; visited_urls is updated in place. */
    method CrawlSite(maxPages: int) returns (pages: seq<PageRecord>)
      modifies this
      ensures var r := Crawl(net, baseUrl, maxPages, Start(baseUrl, old(visitedUrls)));
        pages == r.pages && visitedUrls == r.visited
    {
      pages := [];
      var frontier := [baseUrl];
      ghost var fetched: seq<string> := [];
      while frontier != [] && |pages| < maxPages
        invariant Crawl(net, baseUrl, maxPages, CrawlState(frontier, visitedUrls, pages, fetched))
               == Crawl(net, baseUrl, maxPages, Start(baseUrl, old(visitedUrls)))
        decreases maxPages - |pages|, |frontier|
      {
        ghost var s := CrawlState(frontier, visitedUrls, pages, fetched);
        var url := frontier[0];
        frontier := frontier[1..];
        if url in visitedUrls {
          assert CrawlState(frontier, visitedUrls, pages, fetched) == Step(net, baseUrl, s);
          continue;
        }
        visitedUrls := visitedUrls + {url};
        fetched := fetched + [url];
        var page := CrawlPage(net, url);
        if page.Some? {
          pages := pages + [page.value];
          var links := GetLinks(net, baseUrl, visitedUrls, url);
          frontier := frontier + links;
        }
        assert CrawlState(frontier, visitedUrls, pages, fetched) == Step(net, baseUrl, s);
      }
    }
  }
}
