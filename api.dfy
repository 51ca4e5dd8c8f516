/**
 * The endpoints of the backend that read or change the source registry
 * `added_sources` (main.py:67-210). The registry is a field of `Server`;
 * the Chroma collection, the embedding model, the text splitter, the page
 * fetch and the file parsers enter as parameters.
 */
module Api {
  import opened Wrappers
  import opened Http
  import opened Text
  import opened Sources
  import Scrape
  import Upload

  /** An exception leaving `add_texts_to_chroma` or an extraction step. */
  datatype Exception =
    | HttpException(error: HttpError)  // raised on purpose, passed on unchanged
    | Error(message: string)           // anything else, with its `str(e)`

  const NoText: string := "No extractable text found."
  const NotChunked: string := "Text couldn't be chunked."
  const NotFound: string := "Source not found."
  const DeleteFailed: string := "Failed to delete from vector db: "
  const ClearFailed: string := "Failed to clear vector db: "
  const Cleared: string := "Successfully cleared all sources"
  const Deleted: string := "Successfully deleted "
  const ScrapeFailed: string := "Failed to scrape URL: "
  const ProcessFailed: string := "Failed to process file: "
  const Unsupported: string := "Unsupported file type: "

  /** `not text.strip()` is false: the text has a character that is not whitespace. */
  predicate HasContent(text: string) {
    exists i :: 0 <= i < |text| && !IsSpace(text[i])
  }

  /**
   * `add_texts_to_chroma` (main.py:127-151) apart from its append: the
   * number of chunks stored, or the exception it raises. `split` is the
   * text splitter; `store(chunks)` is embedding the chunks and adding them
   * to the collection.
   */
  function Ingest(collectionReady: bool, text: string, split: string -> seq<string>,
                  store: seq<string> -> Outcome<string>): Result<nat, Exception>
  {
    if !collectionReady then Failure(HttpException(HttpError(500, NotInitialised)))
    else if Strip(text) == [] then Failure(HttpException(HttpError(400, NoText)))
    else if split(text) == [] then Failure(HttpException(HttpError(400, NotChunked)))
    else match store(split(text))
      case Fail(e) => Failure(Error(e))
      case Pass => Success(|split(text)|)
  }

  /** Text is ingested exactly when the collection exists, the text has content, it splits and the chunks are stored; the count is the number of chunks. */
  lemma IngestAccepts(collectionReady: bool, text: string, split: string -> seq<string>,
                      store: seq<string> -> Outcome<string>)
    ensures Ingest(collectionReady, text, split, store).Success?
        <==> collectionReady && HasContent(text) && split(text) != [] && store(split(text)).Pass?
    ensures Ingest(collectionReady, text, split, store).Success? ==>
              Ingest(collectionReady, text, split, store).value == |split(text)| > 0
  {
    StripBlank(text);
  }

  /** Whitespace-only text is refused with 400 before the splitter's answer matters. */
  lemma BlankTextRejected(text: string, split: string -> seq<string>, store: seq<string> -> Outcome<string>)
    requires forall i :: 0 <= i < |text| ==> IsSpace(text[i])
    ensures Ingest(true, text, split, store) == Failure(HttpException(HttpError(400, NoText)))
  {
    StripBlank(text);
  }

  /** `scrape_url` up to the reply: a failed fetch, or the cleaned page text ingested. */
  function ScrapeOutcome(collectionReady: bool, page: Result<string, string>, split: string -> seq<string>,
                         store: seq<string> -> Outcome<string>): Result<nat, Exception>
  {
    match page
    case Failure(e) => Failure(Error(e))
    case Success(text) => Ingest(collectionReady, Scrape.CleanText(text), split, store)
  }

  /** The reply of `scrape_url` (main.py:170-175). */
  function ScrapeReply(url: string, outcome: Result<nat, Exception>): Result<string, HttpError> {
    match outcome
    case Success(n) => Success("Successfully scraped " + url + " into " + Decimal(n) + " chunks.")
    case Failure(HttpException(e)) => Failure(e)
    case Failure(Error(m)) => Failure(HttpError(500, ScrapeFailed + m))
  }

  /** `upload_file` up to the reply: dispatch on the extension, extract, ingest. */
  function UploadOutcome(collectionReady: bool, filename: string, content: seq<Upload.byte>, parsers: Upload.Parsers,
                         split: string -> seq<string>, store: seq<string> -> Outcome<string>): Result<nat, Exception>
  {
    var ext := Upload.Extension(filename);
    match Upload.Classify(ext)
    case None => Failure(HttpException(HttpError(400, Unsupported + ext)))
    case Some(kind) =>
      match Upload.ExtractedText(kind, content, parsers)
      case Failure(e) => Failure(Error(e))
      case Success(text) => Ingest(collectionReady, text, split, store)
  }

  /** The reply of `upload_file` (main.py:205-210). */
  function UploadReply(filename: string, outcome: Result<nat, Exception>): Result<string, HttpError> {
    match outcome
    case Success(n) => Success("Processed " + filename + " into " + Decimal(n) + " chunks.")
    case Failure(HttpException(e)) => Failure(e)
    case Failure(Error(m)) => Failure(HttpError(500, ProcessFailed + m))
  }

  /** A file whose extension is not one of the five is refused with 400 naming the extension, and nothing is ingested. */
  lemma UnsupportedRefused(collectionReady: bool, filename: string, content: seq<Upload.byte>, parsers: Upload.Parsers,
                           split: string -> seq<string>, store: seq<string> -> Outcome<string>)
    requires Upload.Extension(filename) !in Upload.AllowedExtensions
    ensures UploadReply(filename, UploadOutcome(collectionReady, filename, content, parsers, split, store))
         == Failure(HttpError(400, Unsupported + Upload.Extension(filename)))
  {
    Upload.ClassifyAccepts(Upload.Extension(filename));
  }

  /** Two file names that differ only in letter case are handled alike (only the echoed name differs). */
  lemma UploadIgnoresCase(collectionReady: bool, a: string, b: string, content: seq<Upload.byte>, parsers: Upload.Parsers,
                          split: string -> seq<string>, store: seq<string> -> Outcome<string>)
    requires Upload.SameIgnoringCase(a, b)
    ensures UploadOutcome(collectionReady, a, content, parsers, split, store)
         == UploadOutcome(collectionReady, b, content, parsers, split, store)
  {
    Upload.ExtensionIgnoresCase(a, b);
  }

  /** The backend's state: whether a collection was obtained at start-up, and `added_sources`. */
  class Server {
    const collectionReady: bool
    var sources: seq<Source>

    /** Start-up (main.py:32-67): the registry starts empty. */
    constructor(collectionReady: bool)
      ensures this.collectionReady == collectionReady && sources == []
    {
      this.collectionReady := collectionReady;
      sources := [];
    }

    /** `get_sources` (main.py:84-86): the registry as it stands; nothing changes. */
    method GetSources() returns (r: seq<Source>)
      ensures r == sources
    {
      r := sources;
    }

    /**
     * `clear_all_sources` (main.py:88-102): delete every source's chunks from
     * the collection, in order; the first failure answers 500 and keeps the
     * registry, otherwise the registry is emptied.
     */
    method ClearAllSources(storeDelete: string -> Outcome<string>) returns (r: Result<string, HttpError>)
      modifies this
      ensures var failed := FirstFailedDelete(old(sources), storeDelete);
              if collectionReady && failed.Some? then
                r == Failure(HttpError(500, ClearFailed + storeDelete(old(sources)[failed.value].name).error))
                && sources == old(sources)
              else
                r == Success(Cleared) && sources == []
    {
      if collectionReady {
        for i := 0 to |sources|
          invariant forall j :: 0 <= j < i ==> storeDelete(sources[j].name).Pass?
        {
          var outcome := storeDelete(sources[i].name);
          if outcome.Fail? {
            return Failure(HttpError(500, ClearFailed + outcome.error));
          }
        }
      }
      sources := [];
      return Success(Cleared);
    }

    /**
     * `delete_source` (main.py:104-125): 404 for an unknown id; else delete
     * the first match's chunks by name (500 on failure, registry kept) and
     * drop every record carrying the id.
     */
    method DeleteSource(sourceId: string, storeDelete: string -> Outcome<string>) returns (r: Result<string, HttpError>)
      modifies this
      ensures var found := FindById(old(sources), sourceId);
              if found.None? then
                r == Failure(HttpError(404, NotFound)) && sources == old(sources)
              else
                var name := old(sources)[found.value].name;
                if collectionReady && storeDelete(name).Fail? then
                  r == Failure(HttpError(500, DeleteFailed + storeDelete(name).error)) && sources == old(sources)
                else
                  r == Success(Deleted + name) && sources == WithoutId(old(sources), sourceId)
    {
      var found := FindById(sources, sourceId);
      if found.None? {
        return Failure(HttpError(404, NotFound));
      }
      var name := sources[found.value].name;
      if collectionReady {
        var outcome := storeDelete(name);
        if outcome.Fail? {
          return Failure(HttpError(500, DeleteFailed + outcome.error));
        }
      }
      sources := WithoutId(sources, sourceId);
      return Success(Deleted + name);
    }

    /**
     * `add_texts_to_chroma` (main.py:127-151): on success exactly one record,
     * with the fresh id `newId`, is appended; on any failure the registry is
     * kept.
     */
    method AddTexts(text: string, name: string, kind: SourceKind, split: string -> seq<string>,
                    store: seq<string> -> Outcome<string>, newId: string) returns (r: Result<nat, Exception>)
      modifies this
      ensures r == Ingest(collectionReady, text, split, store)
      ensures sources == old(sources) + (if r.Success? then [Source(newId, name, kind)] else [])
    {
      if !collectionReady {
        return Failure(HttpException(HttpError(500, NotInitialised)));
      }
      if Strip(text) == [] {
        return Failure(HttpException(HttpError(400, NoText)));
      }
      var splits := split(text);
      if splits == [] {
        return Failure(HttpException(HttpError(400, NotChunked)));
      }
      var outcome := store(splits);
      if outcome.Fail? {
        return Failure(Error(outcome.error));
      }
      sources := sources + [Source(newId, name, kind)];
      return Success(|splits|);
    }

    /**
     * `scrape_url` (main.py:153-175): `page` is the fetched page's text as
     * BeautifulSoup gives it with scripts and styles removed, or the
     * message of the fetch or parse failure.
     */
    method ScrapeUrl(url: string, page: Result<string, string>, split: string -> seq<string>,
                     store: seq<string> -> Outcome<string>, newId: string) returns (r: Result<string, HttpError>)
      modifies this
      ensures r == ScrapeReply(url, ScrapeOutcome(collectionReady, page, split, store))
      ensures sources == old(sources) +
                (if ScrapeOutcome(collectionReady, page, split, store).Success? then [Source(newId, url, Url)] else [])
    {
      if page.Failure? {
        return Failure(HttpError(500, ScrapeFailed + page.error));
      }
      var cleaned := Scrape.CleanText(page.value);
      var added := AddTexts(cleaned, url, Url, split, store, newId);
      r := ScrapeReply(url, added);
    }

    /** `upload_file` (main.py:177-210). */
    method UploadFile(filename: string, content: seq<Upload.byte>, parsers: Upload.Parsers, split: string -> seq<string>,
                      store: seq<string> -> Outcome<string>, newId: string) returns (r: Result<string, HttpError>)
      modifies this
      ensures r == UploadReply(filename, UploadOutcome(collectionReady, filename, content, parsers, split, store))
      ensures sources == old(sources) +
                (if UploadOutcome(collectionReady, filename, content, parsers, split, store).Success?
                 then [Source(newId, filename, File)] else [])
    {
      var ext := Upload.Extension(filename);
      var kind := Upload.Classify(ext);
      if kind.None? {
        return Failure(HttpError(400, Unsupported + ext));
      }
      var text := Upload.ExtractText(kind.value, content, parsers);
      if text.Failure? {
        return Failure(HttpError(500, ProcessFailed + text.error));
      }
      var added := AddTexts(text.value, filename, File, split, store, newId);
      r := UploadReply(filename, added);
    }
  }
}
