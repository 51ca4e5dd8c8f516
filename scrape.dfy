/**
 * The cleaning `scrape_url` applies to the text BeautifulSoup extracts from
 * a page (main.py:164-167): split into lines, strip each line, split each
 * line on two spaces, strip each phrase, drop the empty ones and join the
 * rest with newlines.
 */
module Scrape {
  import opened Text
  import Seqs

  const DoubleSpace: string := "  "

  /** `phrase.strip() for phrase in line.strip().split("  ")` for one line. */
  function Phrases(line: string): seq<string> {
    var pieces := SplitOn(Strip(line), DoubleSpace);
    seq(|pieces|, k requires 0 <= k < |pieces| => Strip(pieces[k]))
  }

  /** The non-empty phrases of one line. */
  function LineChunks(line: string): seq<string> {
    Seqs.Filter(Phrases(line), NonEmpty)
  }

  /** The non-empty phrases of all lines, in order. */
  function Chunks(lines: seq<string>): seq<string> {
    Seqs.FlatMap(lines, LineChunks)
  }

  /** `clean_text` of main.py:167 for the extracted page text. */
  function CleanText(text: string): string {
    Join(Chunks(SplitLines(text)), "\n")
  }

  /** What a line of cleaned text looks like. */
  predicate IsChunk(c: string) {
    c != [] && IsStripped(c) && NoLineBreak(c) && !Contains(c, DoubleSpace)
  }

  /** Each phrase of a line is stripped, holds no line boundary and no double space. */
  lemma PhrasesShape(line: string)
    requires NoLineBreak(line)
    ensures forall p :: p in Phrases(line) ==> IsStripped(p) && NoLineBreak(p) && !Contains(p, DoubleSpace)
  {
    var stripped := Strip(line);
    StripShape(line);
    ContainsNoLineBreak(line, stripped);
    var pieces := SplitOn(stripped, DoubleSpace);
    SplitOnPieces(stripped, DoubleSpace);
    forall k | 0 <= k < |pieces|
      ensures IsStripped(Strip(pieces[k])) && NoLineBreak(Strip(pieces[k])) && !Contains(Strip(pieces[k]), DoubleSpace)
    {
      var piece := pieces[k];
      assert piece in pieces;
      StripShape(piece);
      ContainsNoLineBreak(stripped, piece);
      ContainsNoLineBreak(piece, Strip(piece));
      if Contains(Strip(piece), DoubleSpace) {
        ContainsTransitive(piece, Strip(piece), DoubleSpace);
      }
    }
  }

  /** Every chunk drawn from boundary-free lines is a well-formed line of output. */
  lemma {:induction false} ChunksShape(lines: seq<string>)
    requires forall k :: 0 <= k < |lines| ==> NoLineBreak(lines[k])
    ensures forall c :: c in Chunks(lines) ==> IsChunk(c)
  {
    if lines != [] {
      PhrasesShape(lines[0]);
      ChunksShape(lines[1..]);
    }
  }

  /** Cleaning a line that is already a chunk yields that line alone. */
  lemma ChunkPhrases(c: string)
    requires IsChunk(c)
    ensures Phrases(c) == [c]
  {
    StripFixpoint(c);
    SplitOnAbsent(c, DoubleSpace);
  }

  /** Lines that are all chunks pass through the chunking unchanged. */
  lemma ChunksFixpoint(cs: seq<string>)
    requires forall k :: 0 <= k < |cs| ==> IsChunk(cs[k])
    ensures Chunks(cs) == cs
  {
    forall k | 0 <= k < |cs| ensures LineChunks(cs[k]) == [cs[k]] {
      ChunkPhrases(cs[k]);
      Seqs.FilterKeepsAll([cs[k]], NonEmpty);
    }
    Seqs.FlatMapSingletons(cs, LineChunks);
  }

  /** Every chunk of a page's lines is a well-formed line of output. */
  lemma CleanTextChunks(text: string)
    ensures forall k :: 0 <= k < |Chunks(SplitLines(text))| ==> IsChunk(Chunks(SplitLines(text))[k])
  {
    var cs := Chunks(SplitLines(text));
    ChunksShape(SplitLines(text));
    forall k | 0 <= k < |cs| ensures IsChunk(cs[k]) {
      assert cs[k] in cs;
    }
  }

  /**
   * Read back with `splitlines`, the cleaned text is exactly its chunks:
   * no line is empty, none has whitespace at either end, and none holds
   * two consecutive spaces.
   */
  lemma CleanTextLines(text: string)
    ensures SplitLines(CleanText(text)) == Chunks(SplitLines(text))
    ensures forall line :: line in SplitLines(CleanText(text)) ==>
              line != [] && Strip(line) == line && !Contains(line, DoubleSpace)
  {
    var cs := Chunks(SplitLines(text));
    CleanTextChunks(text);
    assert CleanText(text) == Join(cs, "\n");
    SplitLinesJoin(cs);
    ChunksStripped(cs);
  }

  /** Every chunk is non-empty, is its own `strip()` and holds no double space. */
  lemma ChunksStripped(cs: seq<string>)
    requires forall k :: 0 <= k < |cs| ==> IsChunk(cs[k])
    ensures forall line :: line in cs ==> line != [] && Strip(line) == line && !Contains(line, DoubleSpace)
  {
    forall line | line in cs ensures line != [] && Strip(line) == line && !Contains(line, DoubleSpace) {
      var k :| 0 <= k < |cs| && cs[k] == line;
      StripFixpoint(cs[k]);
    }
  }

  /** Cleaning is idempotent: a second pass changes nothing. */
  lemma CleanTextIdempotent(text: string)
    ensures CleanText(CleanText(text)) == CleanText(text)
  {
    var cs := Chunks(SplitLines(text));
    CleanTextChunks(text);
    SplitLinesJoin(cs);
    ChunksFixpoint(cs);
  }

  /** Chunks joined by newlines never put two spaces side by side. */
  lemma {:induction false} JoinedChunksNoDoubleSpace(cs: seq<string>)
    requires forall k :: 0 <= k < |cs| ==> IsChunk(cs[k])
    ensures !Contains(Join(cs, "\n"), DoubleSpace)
  {
    if |cs| > 1 {
      var c := cs[0];
      var rest := Join(cs[1..], "\n");
      var s := c + "\n" + rest;
      assert Join(cs, "\n") == s;
      JoinedChunksNoDoubleSpace(cs[1..]);
      forall i | 0 <= i <= |s| - 2 ensures !OccursAt(s, DoubleSpace, i) {
        if i + 2 <= |c| {
          assert !OccursAt(c, DoubleSpace, i);
          assert c[i..i + 2] == s[i..i + 2];
        } else if i > |c| {
          assert !OccursAt(rest, DoubleSpace, i - |c| - 1);
          assert rest[i - |c| - 1..i - |c| + 1] == s[i..i + 2];
        } else {
          assert s[i..i + 2][|c| - i] == s[|c|] == '\n';
        }
      }
    }
  }

  /** No two consecutive spaces survive anywhere in the cleaned text. */
  lemma CleanTextNoDoubleSpace(text: string)
    ensures !Contains(CleanText(text), DoubleSpace)
  {
    var cs := Chunks(SplitLines(text));
    CleanTextChunks(text);
    JoinedChunksNoDoubleSpace(cs);
  }
}
