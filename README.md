# RAG-app backend core in Dafny

This project models the FastAPI backend of RAG-app (`main.py`). The backend
keeps a registry of ingested sources, cleans scraped web pages, turns uploaded
files into text and builds the prompt for the chat endpoint. The model covers
the parts of it that are the backend's own logic:

- **Source registry.** `added_sources` is the `sources` field of the class
  `Api.Server`. Its methods are the endpoints that read or change it:
  - `get_sources`;
  - `clear_all_sources`;
  - `delete_source`;
  - `add_texts_to_chroma`;
  - `scrape_url`;
  - `upload_file`.

  The Chroma collection enters as parameters. Whether it was obtained at
  start-up is the constant `collectionReady`, and its `delete` and the embedding
  plus `add` are functions that may fail, and the text splitter is a function
  that may return no chunks. The fresh
  UUID of a new record is a parameter too.
- **Scrape cleaning** (`Scrape`). The text of a fetched page is split into
  lines, each line is stripped and split on two spaces, each phrase is
  stripped, empty phrases are dropped, and the rest is joined with newlines.
  `Text` holds the Python string operations this needs, with Python's
  semantics:
  - `str.isspace`;
  - `strip`;
  - `splitlines` with all its line boundaries;
  - `split(sep)`;
  - `sep.join`.
- **Upload dispatch** (`Upload`). The extension comes from POSIX
  `os.path.splitext` and is lower-cased. It selects PDF, DOCX, CSV or plain
  text, and any other extension is refused. The PDF, DOCX and CSV paths
  build their text with `+=` loops, which are modelled as loops proved
  against specification functions.
- **Chat** (`Chat`). The retrieved documents are joined into a context and
  placed in the fixed prompt template. The model's answer, or an error, is
  mapped to the reply.

`Wrappers` holds `Option`, `Result` and `Outcome`. `Seqs` holds the list
comprehension `[x for x in xs if p(x)]` and `next(...)` over sequences.
`Http` holds the `HTTPException` value.

## Model

| member | source | states |
|---|---|---|
| Seqs.Filter | main.py:123 | the comprehension keeps exactly the elements satisfying the condition, each one found in the input, in input order (a subsequence), as many as satisfy it |
| Seqs.FirstWhere | main.py:107 | `next(...)` yields the first element satisfying the condition, or None when none does |
| Seqs.FilterSnoc | main.py:123 | filtering one more element appends it exactly when it is kept |
| Sources.FindById | main.py:107 | the record found is the first one whose id equals the given id; None exactly when no record has that id |
| Sources.WithoutId | main.py:123 | a record is kept exactly when it was in the list and its id differs from the given one; the others keep their relative order; an absent id leaves the list unchanged |
| Sources.WithoutIdIdempotent | main.py:123 | removing an id a second time changes nothing |
| Sources.WithoutIdCommutes | main.py:123 | removals by two ids can be done in either order |
| Sources.WithoutIdAppended | main.py:123 | removing the id of a record just appended under a fresh id restores the list before the append |
| Sources.FirstFailedDelete | main.py:95-96 | the loop stops at the first source whose vector-store delete fails; None exactly when every delete succeeds |
| Api.Ingest | main.py:127-151 | no contract of its own: 500 without a collection, 400 "No extractable text found." for whitespace-only text, 400 "Text couldn't be chunked." for an empty split, the storing failure as an exception, else the number of chunks; Api.IngestAccepts and Api.BlankTextRejected state its properties |
| Api.HasContent | main.py:132 | no contract of its own: `text.strip()` is truthy, i.e. some character is not whitespace; Text.StripBlank and Api.IngestAccepts state that this is exactly when stripping leaves text |
| Api.Server.constructor | main.py:38-67 | the collection is either obtained at start-up or left unset, and the registry starts empty |
| Api.Server.GetSources | main.py:84-86 | returns the registry as it stands and changes nothing |
| Api.Server.ClearAllSources | main.py:88-102 | with a collection, the first failing delete answers 500 "Failed to clear vector db: " plus its message and the registry is kept; otherwise (or without a collection) the registry becomes empty and the success message is returned |
| Api.Server.DeleteSource | main.py:104-125 | an unknown id answers 404 "Source not found." with the registry kept; a failing delete of the first match's name answers 500 with the registry kept; otherwise every record with that id is removed, the others stay in order, and the reply names the deleted source |
| Api.Server.AddTexts | main.py:127-151 | returns what Ingest decides; exactly one record with the given name, type and fresh id is appended on success, and nothing on any failure |
| Api.IngestAccepts | main.py:129-151 | text is ingested exactly when the collection exists, the text has a non-whitespace character, the splitter returns chunks and storing them succeeds; the count returned is the (positive) number of chunks |
| Api.BlankTextRejected | main.py:132-133 | with a collection, whitespace-only text is refused with 400 "No extractable text found." whatever the splitter and the store do |
| Api.ScrapeOutcome | main.py:153-169 | no contract of its own: a failed fetch or parse is an exception, otherwise the ingest of the cleaned page text; Api.Server.ScrapeUrl is proved against it |
| Api.ScrapeReply | main.py:170-175 | no contract of its own: the success message with the URL and chunk count, an HTTP error passed on unchanged, any other exception as 500 "Failed to scrape URL: " plus its message |
| Api.Server.ScrapeUrl | main.py:153-175 | a failed fetch answers 500 "Failed to scrape URL: "; otherwise the cleaned page text is ingested under the URL with type url; HTTP errors of the ingest pass through unchanged, other failures become 500; exactly one record is appended on success and none otherwise |
| Api.Server.UploadFile | main.py:177-210 | an unsupported extension answers 400; an extraction failure answers 500 "Failed to process file: "; otherwise the extracted text is ingested under the file name with type file; exactly one record is appended on success and none otherwise |
| Api.UploadOutcome | main.py:179-204 | no contract of its own: 400 "Unsupported file type: " plus the lower-cased extension for an unlisted one, the parser's failure as an exception, otherwise the ingest of the extracted text; Api.Server.UploadFile is proved against it and Api.UnsupportedRefused and Api.UploadIgnoresCase state its properties |
| Api.UploadReply | main.py:205-210 | no contract of its own: the success message with the file name and chunk count, an HTTP error passed on unchanged, any other exception as 500 "Failed to process file: " plus its message |
| Api.UnsupportedRefused | main.py:199-204 | an extension outside .pdf, .docx, .csv, .txt, .md is answered 400 "Unsupported file type: " plus the lower-cased extension, and never reaches ingestion |
| Api.UploadIgnoresCase | main.py:179 | file names that differ only in letter case are dispatched, extracted and ingested alike |
| Text.StripShape | main.py:165-166 | `strip()` leaves no whitespace at either end and returns a contiguous part of its input |
| Text.Strip | main.py:132 | `s.strip()` as `rstrip` of `lstrip`; its properties are Text.StripShape, Text.StripFixpoint and Text.StripBlank |
| Text.IsSpace | main.py:132 | no contract of its own: the characters `str.isspace()` accepts, which `strip()` removes at main.py:132 and 165-166 |
| Text.TrimStart | main.py:132 | `lstrip()`: the result is a suffix of the input, begins with a non-whitespace character unless empty, and everything cut off is whitespace |
| Text.TrimEnd | main.py:132 | `rstrip()`: the result is a prefix of the input, ends with a non-whitespace character unless empty, and everything cut off is whitespace |
| Text.StripFixpoint | main.py:165-166 | `strip()` returns its input unchanged exactly when the input has no whitespace at either end |
| Text.StripBlank | main.py:132 | `not text.strip()` holds exactly when every character is whitespace |
| Text.SplitLines | main.py:165 | no line that `splitlines()` returns contains a line boundary |
| Text.IsLineBreak | main.py:165 | no contract of its own: the line boundaries `splitlines()` splits on (`\n`, `\r`, `\v`, `\f`, `\x1c`-`\x1e`, `\x85`, `\u2028`, `\u2029`) |
| Text.SplitLinesJoin | main.py:165-167 | lines joined by newline read back with `splitlines()` as the same lines when none is empty or holds a boundary |
| Text.SplitOnPieces | main.py:166 | every piece of `split("  ")` is a contiguous part of the line and holds no separator |
| Text.SplitOn | main.py:166 | `s.split(sep)` for a non-empty separator: at least one piece, cut at each leftmost non-overlapping occurrence; its properties are Text.SplitOnPieces, Text.JoinSplitOn and Text.SplitOnJoin |
| Text.FindFrom | main.py:166 | `find(sep, k)` as `split` uses it: the first occurrence at or after `k`, or -1 when there is none from `k` on |
| Text.Join | main.py:167 | no contract of its own: `sep.join(pieces)`; Text.JoinSplitOn, Text.SplitOnJoin and Text.SplitLinesJoin relate it to the splits |
| Text.Terminated | main.py:186-198 | no contract of its own: the text the loops build with `text += x + "\n"`, every item followed by a newline; Text.SplitLinesTerminated and Upload.CsvOneLinePerRow read it back by lines |
| Text.Decimal | main.py:170 | no contract of its own: `str(n)` for the chunk count in the replies of main.py:170 and 205 |
| Text.JoinSplitOn | main.py:166 | joining the pieces of `split(sep)` with `sep` gives back the string |
| Text.SplitOnJoin | main.py:230 | splitting the join of pieces on the separator gives back the pieces when no separator can be read across them |
| Scrape.ChunksShape | main.py:165-166 | every surviving phrase is non-empty, stripped, free of line boundaries and of two consecutive spaces |
| Scrape.CleanText | main.py:164-167 | no contract of its own: the non-empty stripped phrases of the stripped lines, joined by newlines; Scrape.CleanTextLines, Scrape.CleanTextNoDoubleSpace and Scrape.CleanTextIdempotent state its properties |
| Scrape.Phrases | main.py:165-166 | no contract of its own: `phrase.strip()` for each piece of `line.strip().split("  ")`, for one line; Scrape.ChunksShape states its properties |
| Scrape.LineChunks | main.py:166-167 | no contract of its own: the phrases of one line that are not empty (`if chunk`) |
| Text.NonEmpty | main.py:167 | no contract of its own: a string is truthy exactly when it is not empty, the test of `if chunk` here and of `if extracted` at main.py:188 |
| Scrape.Chunks | main.py:165-167 | no contract of its own: the non-empty phrases of all lines in order; Scrape.ChunksShape and Scrape.ChunksFixpoint state its properties |
| Seqs.FlatMapSingletons | main.py:166 | a nested generator whose inner part yields each element alone gives the elements back |
| Scrape.ChunksFixpoint | main.py:165-167 | lines that already are such phrases pass through the cleaning unchanged |
| Scrape.CleanTextChunks | main.py:165-167 | every chunk drawn from a page's lines is non-empty and stripped, with no line boundary and no double space |
| Scrape.ChunksStripped | main.py:165-167 | every such chunk is non-empty, equal to its own `strip()` and free of double spaces |
| Scrape.CleanTextLines | main.py:164-167 | read back by lines, the cleaned text is exactly its phrases: no empty line, no line with whitespace at either end, no line with two consecutive spaces |
| Scrape.CleanTextNoDoubleSpace | main.py:164-167 | two consecutive spaces occur nowhere in the cleaned text |
| Scrape.CleanTextIdempotent | main.py:164-167 | cleaning the cleaned text changes nothing |
| Upload.LastIndexOf | main.py:179 | `rfind`: the last index holding the character, or -1 |
| Upload.SplitExt | main.py:179 | root and extension concatenate to the path; there is an extension exactly when the final path component has a dot after some non-dot character, and then it starts at the last dot, holds no other dot and no slash |
| Upload.Extension | main.py:179 | no contract of its own: the lower-cased second half of `splitext`; Upload.ExtensionIgnoresCase states its property |
| Upload.Lower | main.py:179 | no contract of its own: `lower()` folding ASCII capitals, every other character kept |
| Upload.LowerChar | main.py:179 | no contract of its own: `lower()` on one character, for ASCII letters only |
| Upload.LeadingDotNoExtension | main.py:179 | a leading dot starts no extension: `.bashrc` has none |
| Upload.LastSuffixExtension | main.py:179 | only the last suffix is the extension: `archive.tar.gz` gives `.gz` |
| Upload.UpperCaseExtension | main.py:179-185 | `REPORT.PDF` has extension `.pdf` and is dispatched as PDF |
| Upload.UnlistedExtension | main.py:179-202 | `setup.exe` is refused |
| Upload.ExtensionIgnoresCase | main.py:179 | file names differing only in letter case have the same lower-cased extension |
| Upload.ClassifyIgnoresCase | main.py:179-202 | so they take the same branch of the dispatch |
| Upload.ClassifyAccepts | main.py:184-202 | the dispatch accepts exactly the five extensions .pdf, .docx, .csv, .txt, .md |
| Upload.Classify | main.py:184-202 | no contract of its own: the `if`/`elif` chain picking PDF, DOCX, CSV or plain text, None for the 400 branch; Upload.ClassifyAccepts states which extensions pass |
| Upload.CollectPdfText | main.py:186-189 | the loop's text is every page that produced text, each followed by a newline, in page order |
| Upload.CollectDocxText | main.py:191-193 | the loop's text is every paragraph followed by a newline, in order |
| Upload.FlattenCsv | main.py:194-198 | the loop's text is one line per row, the row's cells joined by one space, each line ended by a newline |
| Upload.ExtractText | main.py:184-200 | the text of the branch the file kind selects, or the parser's failure |
| Upload.ExtractedText | main.py:184-200 | no contract of its own: the specification Upload.ExtractText is proved equal to |
| Upload.PdfText | main.py:186-189 | no contract of its own: the non-empty page texts, each followed by a newline; Upload.CollectPdfText is proved to build it |
| Upload.DocxText | main.py:191-193 | no contract of its own: every paragraph text followed by a newline; Upload.CollectDocxText is proved to build it |
| Upload.RowLine | main.py:198 | no contract of its own: `" ".join(row)`; Upload.RowLineNoLineBreak and Upload.RowLineCells state its properties |
| Upload.CsvText | main.py:194-198 | no contract of its own: one line per row, each followed by a newline; Upload.FlattenCsv is proved to build it and Upload.CsvOneLinePerRow reads it back |
| Upload.RowLineNoLineBreak | main.py:198 | a row whose cells hold no line boundary gives a line holding none |
| Upload.CsvOneLinePerRow | main.py:196-198 | when no cell holds a line boundary, the flattened CSV read back by lines gives exactly one line per row, the row's cells joined by a space |
| Upload.RowLineCells | main.py:198 | splitting a non-empty row's line on spaces gives back the cells when no cell holds a space (empty cells included) |
| Chat.ContextWhenNothingRetrieved | main.py:227-230 | no documents (missing, null, an empty list, or an empty first list) gives the empty context |
| Chat.Context | main.py:227-230 | no contract of its own: the first query's documents joined by `"\n\n---\n\n"`, or `""` when documents are missing, null or empty; Chat.ContextWhenNothingRetrieved and Chat.ContextRoundTrip state its properties |
| Chat.ContextRoundTrip | main.py:228-230 | the context, split on `"\n\n---\n\n"`, gives back the retrieved documents of the first query when that list is non-empty and no separator can be read across a document (an empty first list gives `""`, which splits to `[""]`) |
| Chat.PromptDeterminesContext | main.py:233 | for a fixed question, different contexts give different prompts |
| Chat.PromptDeterminesMessage | main.py:233 | for a fixed context, different questions give different prompts |
| Chat.BuildPrompt | main.py:233 | no contract of its own: the fixed template around the context and the question; Chat.PromptDeterminesContext and Chat.PromptDeterminesMessage state its properties |
| Chat.Reply | main.py:212-252 | no contract of its own: 500 without a collection; a `requests` exception from retrieval or the model call gives 503 "Failed to connect to local Ollama (ensure it is running on port 11434): " and its message, any other exception 500 with its message; "No response generated" for a body without "response", else the model's text; Chat.ReplyOutcomes, Chat.ReplyIgnoresHistory and Chat.ReplyFromPrompt state its properties |
| Chat.Handled | main.py:248-251 | no contract of its own: a `requests` exception becomes 503 with the fixed prefix, any other exception 500 with its message |
| Chat.ReplyIgnoresHistory | main.py:212-252 | requests that differ only in history get the same reply |
| Chat.ReplyOutcomes | main.py:214-252 | the endpoint answers exactly when the collection exists, retrieval succeeds and the model returns a body; it answers 503 exactly when retrieval or the model call raises a `requests` exception, and a 503 detail always starts with the fixed "Failed to connect to local Ollama" prefix |
| Chat.ReplyFromPrompt | main.py:227-247 | when the model answers the prompt built from the retrieved context and the question, the reply is the model's text |

## Left out

- FastAPI routing, static file mounting and `serve_index` (main.py:24-29, 80-82) are web plumbing and are not modelled.
- The Chroma client, SentenceTransformer embeddings and `RecursiveCharacterTextSplitter` are parameters: `collectionReady`, `storeDelete`, `store` and `split`. So are the embedding plus query of `chat` (`retrieve`) and its Ollama call (`generate`); each gives its result or the exception it raises, a `requests` exception or another one.
- The contents of the vector store are not modelled. As a result, the model does not show two effects:
  - `delete_source` deletes chunks by source name, so it also removes the chunks of other sources with the same name;
  - a failing `clear_all_sources` has already removed the chunks of the sources before the failing one.
- The HTTP fetch, BeautifulSoup's parsing, pypdf, python-docx, `bytes.decode` and `csv.reader` are parameters (`page`, `Upload.Parsers`). The Ollama call's timeout, model name and payload are not modelled.
- Upload.Lower, Upload.LowerChar: fold ASCII letters only. This is weaker than Python's full Unicode `lower()`. It does not change which extensions are accepted, because no other character lowers to a letter of the five extensions. Only the extension echoed in the 400 detail could differ.
- Upload.SplitExt: uses the POSIX rules of `os.path.splitext`, where `/` is the only separator. The Windows rules are left out.
- `file.filename` being None is left out: the model takes the file name as a string.
- Chat.Reply: a "response" key that is present but null returns None in the source. The model treats it like a missing key.
- Chat.Context: documents given as None inside the first list are left out.
- The log `print` calls, the start-up messages and the uvicorn entry point are left out.
- Concurrency between the thread-pool endpoints and the async ones is left out: each method runs to completion.
- view_chroma_db.py (a print loop over a database) and download_model.py (environment set-up and a model download) are not part of this model.
- The browser client is not part of this model.
