/**
 * How `upload_file` (main.py:177-210) turns an uploaded file into text:
 * the lower-cased extension from `os.path.splitext` picks one of four
 * extraction paths or rejects the file, and the PDF, DOCX and CSV paths
 * build the text line by line.
 */
module Upload {
  import opened Wrappers
  import opened Text
  import Seqs

  newtype byte = x: int | 0 <= x < 256

  // ------------------------------------------------------------ splitext

  /** `s.rfind(c)`: index of the last `c` in `s`, or -1. */
  function LastIndexOf(s: string, c: char): (r: int)
    ensures -1 <= r < |s|
    ensures r >= 0 ==> s[r] == c
    ensures forall j :: r < j < |s| ==> s[j] != c
  {
    if s == [] then -1
    else if s[|s| - 1] == c then |s| - 1
    else LastIndexOf(s[..|s| - 1], c)
  }

  /**
   * `os.path.splitext(p)` on POSIX: the extension starts at the last `.`
   * of the final path component, unless only dots precede it there (so a
   * leading dot, as in `.bashrc`, does not start an extension).
   */
  function SplitExt(p: string): (r: (string, string))
    ensures r.0 + r.1 == p
    ensures r.1 != [] ==> r.1[0] == '.' && forall j :: 0 < j < |r.1| ==> r.1[j] != '.' && r.1[j] != '/'
    ensures r.1 != [] ==> |r.0| == LastIndexOf(p, '.')
    ensures r.1 != [] <==> exists d, k :: LastIndexOf(p, '/') < k < d < |p| && p[k] != '.' && p[d] == '.'
  {
    var sep := LastIndexOf(p, '/');
    var dot := LastIndexOf(p, '.');
    assert forall d :: sep < d < |p| && p[d] == '.' ==> d <= dot;
    if dot > sep && exists k :: sep < k < dot && p[k] != '.' then (p[..dot], p[dot..]) else (p, "")
  }

  /** `str.lower()` on one character (ASCII letters only). */
  function LowerChar(c: char): char {
    if 'A' <= c <= 'Z' then (c as int + 32) as char else c
  }

  function Lower(s: string): string {
    seq(|s|, i requires 0 <= i < |s| => LowerChar(s[i]))
  }

  /** `ext` of main.py:179. */
  function Extension(filename: string): string {
    Lower(SplitExt(filename).1)
  }

  // ------------------------------------------------------------ dispatch

  datatype FileKind = Pdf | Docx | Csv | PlainText

  const AllowedExtensions: set<string> := {".pdf", ".docx", ".csv", ".txt", ".md"}

  /** The `if`/`elif` chain of main.py:184-202; None is the 400 branch. */
  function Classify(ext: string): Option<FileKind> {
    if ext == ".pdf" then Some(Pdf)
    else if ext == ".docx" then Some(Docx)
    else if ext == ".csv" then Some(Csv)
    else if ext == ".txt" || ext == ".md" then Some(PlainText)
    else None
  }

  /** Exactly the five listed extensions are accepted. */
  lemma ClassifyAccepts(ext: string)
    ensures Classify(ext).Some? <==> ext in AllowedExtensions
  {
  }

  predicate SameIgnoringCase(a: string, b: string) {
    |a| == |b| && forall i :: 0 <= i < |a| ==> LowerChar(a[i]) == LowerChar(b[i])
  }

  lemma {:induction false} LastIndexAgrees(a: string, b: string, c: char)
    requires |a| == |b| && forall i :: 0 <= i < |a| ==> (a[i] == c <==> b[i] == c)
    ensures LastIndexOf(a, c) == LastIndexOf(b, c)
  {
    if a != [] {
      LastIndexAgrees(a[..|a| - 1], b[..|b| - 1], c);
    }
  }

  /** File names that differ only in letter case have the same (lower-cased) extension. */
  lemma ExtensionIgnoresCase(a: string, b: string)
    requires SameIgnoringCase(a, b)
    ensures Extension(a) == Extension(b)
  {
    forall i | 0 <= i < |a| ensures (a[i] == '/' <==> b[i] == '/') && (a[i] == '.' <==> b[i] == '.') {
      assert LowerChar(a[i]) == LowerChar(b[i]);
    }
    SplitPointAgrees(a, b);
    var k := |SplitExt(a).0|;
    assert SplitExt(a).1 == a[k..];
    assert SplitExt(b).1 == b[k..];
    LowerAgrees(a[k..], b[k..]);
  }

  /** Where the extension starts depends only on where the dots and slashes are. */
  lemma SplitPointAgrees(a: string, b: string)
    requires |a| == |b|
    requires forall i :: 0 <= i < |a| ==> (a[i] == '/' <==> b[i] == '/') && (a[i] == '.' <==> b[i] == '.')
    ensures |SplitExt(a).0| == |SplitExt(b).0|
  {
    LastIndexAgrees(a, b, '/');
    LastIndexAgrees(a, b, '.');
  }

  lemma LowerAgrees(a: string, b: string)
    requires SameIgnoringCase(a, b)
    ensures Lower(a) == Lower(b)
  {
  }

  /** So an upper-case extension is dispatched like its lower-case form. */
  lemma ClassifyIgnoresCase(a: string, b: string)
    requires SameIgnoringCase(a, b)
    ensures Classify(Extension(a)) == Classify(Extension(b))
  {
    ExtensionIgnoresCase(a, b);
  }

  /** A leading dot starts no extension. */
  lemma LeadingDotNoExtension()
    ensures SplitExt(".bashrc") == (".bashrc", "")
  {
    var bashrc := ".bashrc";
    assert bashrc[0] == '.' && forall j :: 0 < j < |bashrc| ==> bashrc[j] != '.' && bashrc[j] != '/';
    assert LastIndexOf(bashrc, '.') == 0;
  }

  /** Only the last suffix is the extension. */
  lemma LastSuffixExtension()
    ensures SplitExt("archive.tar.gz") == ("archive.tar", ".gz")
  {
    var archive := "archive.tar.gz";
    assert archive[11] == '.' && archive[12] != '.' && archive[13] != '.';
    assert forall j :: 0 <= j < |archive| ==> archive[j] != '/';
    assert LastIndexOf(archive, '.') == 11;
    assert LastIndexOf(archive, '/') == -1 && archive[0] != '.';
    assert archive[..11] == "archive.tar" && archive[11..] == ".gz";
  }

  /** An upper-case extension is folded to lower case before dispatch. */
  lemma UpperCaseExtension()
    ensures Extension("REPORT.PDF") == ".pdf" && Classify(Extension("REPORT.PDF")) == Some(Pdf)
  {
    var report := "REPORT.PDF";
    assert report[6] == '.' && report[7] != '.' && report[8] != '.' && report[9] != '.';
    assert forall j :: 0 <= j < |report| ==> report[j] != '/';
    assert LastIndexOf(report, '.') == 6;
    assert LastIndexOf(report, '/') == -1 && report[0] != '.';
    assert report[6..] == ".PDF";
    assert Lower(".PDF") == ".pdf";
  }

  /** An extension outside the five is refused. */
  lemma UnlistedExtension()
    ensures Classify(Extension("setup.exe")) == None
  {
    var setup := "setup.exe";
    assert setup[5] == '.' && setup[6] != '.' && setup[7] != '.' && setup[8] != '.';
    assert forall j :: 0 <= j < |setup| ==> setup[j] != '/';
    assert LastIndexOf(setup, '.') == 5;
    assert LastIndexOf(setup, '/') == -1 && setup[0] != '.';
    assert setup[5..] == ".exe";
    assert Lower(".exe") == ".exe";
  }

  // ---------------------------------------------------------- extraction

  /**
   * The foreign parsers the endpoint calls: pypdf's per-page `extract_text`,
   * python-docx's paragraph texts, `bytes.decode("utf-8", errors="replace")`
   * and `csv.reader`. A Failure carries the message of the exception raised.
   */
  datatype Parsers = Parsers(
    pdfPages: seq<byte> -> Result<seq<string>, string>,
    docxParagraphs: seq<byte> -> Result<seq<string>, string>,
    decode: seq<byte> -> string,
    csvRows: string -> Result<seq<seq<string>>, string>)

  /** The pages that produced some text (`if extracted:`), each followed by a newline. */
  function PdfText(pages: seq<string>): string {
    Terminated(Seqs.Filter(pages, NonEmpty))
  }

  function DocxText(paragraphs: seq<string>): string {
    Terminated(paragraphs)
  }

  /** `" ".join(row)`. */
  function RowLine(row: seq<string>): string {
    Join(row, " ")
  }

  function RowLines(rows: seq<seq<string>>): seq<string> {
    seq(|rows|, k requires 0 <= k < |rows| => RowLine(rows[k]))
  }

  function CsvText(rows: seq<seq<string>>): string {
    Terminated(RowLines(rows))
  }

  /** The text the chosen branch of main.py:184-200 produces, or the parser's exception. */
  function ExtractedText(kind: FileKind, content: seq<byte>, parsers: Parsers): Result<string, string> {
    match kind
    case Pdf =>
      (match parsers.pdfPages(content)
       case Success(pages) => Success(PdfText(pages))
       case Failure(e) => Failure(e))
    case Docx =>
      (match parsers.docxParagraphs(content)
       case Success(paragraphs) => Success(DocxText(paragraphs))
       case Failure(e) => Failure(e))
    case Csv =>
      (match parsers.csvRows(parsers.decode(content))
       case Success(rows) => Success(CsvText(rows))
       case Failure(e) => Failure(e))
    case PlainText => Success(parsers.decode(content))
  }

  /** main.py:186-189: `text += extracted + "\n"` for every page with text. */
  method CollectPdfText(pages: seq<string>) returns (text: string)
    ensures text == PdfText(pages)
  {
    text := "";
    for i := 0 to |pages|
      invariant text == PdfText(pages[..i])
    {
      assert pages[..i + 1] == pages[..i] + [pages[i]];
      Seqs.FilterSnoc(pages[..i], pages[i], NonEmpty);
      if pages[i] != [] {
        assert Seqs.Filter(pages[..i + 1], NonEmpty) == Seqs.Filter(pages[..i], NonEmpty) + [pages[i]];
        TerminatedSnoc(Seqs.Filter(pages[..i], NonEmpty), pages[i]);
        text := text + pages[i] + "\n";
        assert text == PdfText(pages[..i + 1]);
      } else {
        assert Seqs.Filter(pages[..i + 1], NonEmpty) == Seqs.Filter(pages[..i], NonEmpty);
        assert text == PdfText(pages[..i + 1]);
      }
    }
    assert pages[..|pages|] == pages;
  }

  /** main.py:191-193: `text += para.text + "\n"` for every paragraph. */
  method CollectDocxText(paragraphs: seq<string>) returns (text: string)
    ensures text == DocxText(paragraphs)
  {
    text := "";
    for i := 0 to |paragraphs|
      invariant text == DocxText(paragraphs[..i])
    {
      assert paragraphs[..i + 1] == paragraphs[..i] + [paragraphs[i]];
      TerminatedSnoc(paragraphs[..i], paragraphs[i]);
      text := text + paragraphs[i] + "\n";
    }
    assert paragraphs[..|paragraphs|] == paragraphs;
  }

  /** main.py:196-198: `text += " ".join(row) + "\n"` for every row. */
  method FlattenCsv(rows: seq<seq<string>>) returns (text: string)
    ensures text == CsvText(rows)
  {
    text := "";
    for i := 0 to |rows|
      invariant text == CsvText(rows[..i])
    {
      assert RowLines(rows[..i + 1]) == RowLines(rows[..i]) + [RowLine(rows[i])];
      TerminatedSnoc(RowLines(rows[..i]), RowLine(rows[i]));
      text := text + Join(rows[i], " ") + "\n";
    }
    assert rows[..|rows|] == rows;
  }

  /** main.py:184-200 without the final hand-over: the extracted text, or the parser's exception. */
  method ExtractText(kind: FileKind, content: seq<byte>, parsers: Parsers) returns (r: Result<string, string>)
    ensures r == ExtractedText(kind, content, parsers)
  {
    match kind
    case Pdf =>
      var pages := parsers.pdfPages(content);
      if pages.Failure? {
        return Failure(pages.error);
      }
      var text := CollectPdfText(pages.value);
      return Success(text);
    case Docx =>
      var paragraphs := parsers.docxParagraphs(content);
      if paragraphs.Failure? {
        return Failure(paragraphs.error);
      }
      var text := CollectDocxText(paragraphs.value);
      return Success(text);
    case Csv =>
      var rows := parsers.csvRows(parsers.decode(content));
      if rows.Failure? {
        return Failure(rows.error);
      }
      var text := FlattenCsv(rows.value);
      return Success(text);
    case PlainText =>
      return Success(parsers.decode(content));
  }

  // -------------------------------------------------------------- csv rows

  /** A row whose cells hold no line boundary gives a line with none. */
  lemma {:induction false} RowLineNoLineBreak(row: seq<string>)
    requires forall k :: 0 <= k < |row| ==> NoLineBreak(row[k])
    ensures NoLineBreak(RowLine(row))
  {
    if |row| > 1 {
      RowLineNoLineBreak(row[1..]);
      var rest := RowLine(row[1..]);
      assert RowLine(row) == row[0] + " " + rest;
      forall i | 0 <= i < |RowLine(row)| ensures !IsLineBreak(RowLine(row)[i]) {
        if i > |row[0]| {
          assert RowLine(row)[i] == rest[i - |row[0]| - 1];
        }
      }
    }
  }

  /** The CSV text reads back, with `splitlines`, as one line per row (cells without line boundaries). */
  lemma CsvOneLinePerRow(rows: seq<seq<string>>)
    requires forall k, c :: 0 <= k < |rows| && 0 <= c < |rows[k]| ==> NoLineBreak(rows[k][c])
    ensures SplitLines(CsvText(rows)) == RowLines(rows)
    ensures |SplitLines(CsvText(rows))| == |rows|
  {
    forall k | 0 <= k < |rows| ensures NoLineBreak(RowLines(rows)[k]) {
      RowLineNoLineBreak(rows[k]);
    }
    SplitLinesTerminated(RowLines(rows));
  }

  /** A single space never spans a cell that holds no space. */
  lemma SpaceSeparable(cell: string)
    requires forall i :: 0 <= i < |cell| ==> cell[i] != ' '
    ensures Separable(cell, " ")
  {
    forall j | 0 <= j < |cell| ensures !OccursAt(cell + " ", " ", j) {
      assert (cell + " ")[j..j + 1][0] == cell[j];
    }
  }

  /** Splitting a row's line on the single space gives back its cells, when no cell holds a space. */
  lemma RowLineCells(row: seq<string>)
    requires |row| > 0
    requires forall k, i :: 0 <= k < |row| && 0 <= i < |row[k]| ==> row[k][i] != ' '
    ensures SplitOn(RowLine(row), " ") == row
  {
    forall k | 0 <= k < |row| ensures Separable(row[k], " ") {
      SpaceSeparable(row[k]);
    }
    SplitOnJoin(row, " ");
  }
}
