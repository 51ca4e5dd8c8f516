/**
 * The `chat` endpoint (main.py:212-252): retrieve the documents closest to
 * the question, join them into a context, fill the fixed prompt template and
 * hand the prompt to the local language model.
 */
module Chat {
  import opened Wrappers
  import opened Http
  import opened Text

  datatype ChatMessage = ChatMessage(role: string, content: string)

  /** The request body; `history` is accepted but never read. */
  datatype ChatRequest = ChatRequest(message: string, history: seq<ChatMessage>)

  /**
   * What the endpoint reads of `collection.query(...)`: `results['documents']`,
   * one list of documents per query embedding; None when the key is missing
   * or its value is null.
   */
  datatype QueryResult = QueryResult(documents: Option<seq<seq<string>>>)

  /**
   * An exception raised inside the `try` of main.py:217-247: a `requests`
   * exception (connection, timeout, error status), which main.py:248-249
   * turns into 503, or any other, which main.py:250-251 turns into 500.
   */
  datatype Raised =
    | RequestException(message: string)
    | OtherException(message: string)

  const ContextSeparator: string := "\n\n---\n\n"
  const PromptPreamble: string := "You are an intelligent assistant. Use the following context documents to answer the user's question. If the context does not contain the answer, say you don't know based on the provided documents.\n\nContext:\n"
  const QuestionLabel: string := "\n\nUser Question: "
  const AnswerLabel: string := "\n\nAnswer:"
  const NoResponse: string := "No response generated"
  const OllamaUnreachable: string := "Failed to connect to local Ollama (ensure it is running on port 11434): "

  /** `context_text` of main.py:227-230. */
  function Context(results: QueryResult): string {
    match results.documents
    case Some(lists) => if lists != [] then Join(lists[0], ContextSeparator) else ""
    case None => ""
  }

  /** The f-string of main.py:233. */
  function BuildPrompt(context: string, message: string): string {
    PromptPreamble + context + QuestionLabel + message + AnswerLabel
  }

  /** The two `except` clauses of main.py:248-251. */
  function Handled(e: Raised): HttpError {
    match e
    case RequestException(m) => HttpError(503, OllamaUnreachable + m)
    case OtherException(m) => HttpError(500, m)
  }

  /**
   * The endpoint's answer. `retrieve` stands for embedding the message and
   * querying the collection, `generate` for the Ollama call with its
   * `raise_for_status`; each gives its result or the exception it raises.
   */
  function Reply(collectionReady: bool, req: ChatRequest,
                 retrieve: string -> Result<QueryResult, Raised>,
                 generate: string -> Result<Option<string>, Raised>): Result<string, HttpError>
  {
    if !collectionReady then Failure(HttpError(500, NotInitialised))
    else match retrieve(req.message)
      case Failure(e) => Failure(Handled(e))
      case Success(results) =>
        match generate(BuildPrompt(Context(results), req.message))
        case Success(Some(text)) => Success(text)
        case Success(None) => Success(NoResponse)
        case Failure(e) => Failure(Handled(e))
  }

  /** No documents (missing, null, an empty result list or an empty first list) gives an empty context. */
  lemma ContextWhenNothingRetrieved(results: QueryResult)
    requires results.documents.None? || results.documents.value == [] || results.documents.value[0] == []
    ensures Context(results) == ""
  {
  }

  /**
   * The context reads back, split on the separator, as the retrieved
   * documents, provided no separator can be read across a document.
   */
  lemma ContextRoundTrip(docs: seq<string>, others: seq<seq<string>>)
    requires |docs| > 0
    requires forall k :: 0 <= k < |docs| ==> Separable(docs[k], ContextSeparator)
    ensures SplitOn(Context(QueryResult(Some([docs] + others))), ContextSeparator) == docs
  {
    SplitOnJoin(docs, ContextSeparator);
  }

  /** For a fixed question, the prompt determines the context. */
  lemma PromptDeterminesContext(c1: string, c2: string, message: string)
    requires BuildPrompt(c1, message) == BuildPrompt(c2, message)
    ensures c1 == c2
  {
    var tail := QuestionLabel + message + AnswerLabel;
    var p := BuildPrompt(c1, message);
    assert p == PromptPreamble + c1 + tail;
    assert p == PromptPreamble + c2 + tail;
    assert |c1| == |c2|;
    assert c1 == p[|PromptPreamble|..|PromptPreamble| + |c1|];
    assert c2 == p[|PromptPreamble|..|PromptPreamble| + |c2|];
  }

  /** For a fixed context, the prompt determines the question. */
  lemma PromptDeterminesMessage(context: string, m1: string, m2: string)
    requires BuildPrompt(context, m1) == BuildPrompt(context, m2)
    ensures m1 == m2
  {
    var head := PromptPreamble + context + QuestionLabel;
    var p := BuildPrompt(context, m1);
    assert p == head + m1 + AnswerLabel;
    assert p == head + m2 + AnswerLabel;
    assert |m1| == |m2|;
    assert m1 == p[|head|..|head| + |m1|];
    assert m2 == p[|head|..|head| + |m2|];
  }

  /** The answer depends on the question only: two requests that differ in history are answered alike. */
  lemma ReplyIgnoresHistory(collectionReady: bool, message: string, h1: seq<ChatMessage>, h2: seq<ChatMessage>,
                            retrieve: string -> Result<QueryResult, Raised>, generate: string -> Result<Option<string>, Raised>)
    ensures Reply(collectionReady, ChatRequest(message, h1), retrieve, generate)
         == Reply(collectionReady, ChatRequest(message, h2), retrieve, generate)
  {
  }

  /**
   * The endpoint answers exactly when the collection exists, retrieval
   * succeeds and the model call returns a body; it answers 503 exactly when
   * retrieval or the model call raises a `requests` exception, with that
   * exception's message after the fixed prefix.
   */
  lemma ReplyOutcomes(collectionReady: bool, req: ChatRequest, retrieve: string -> Result<QueryResult, Raised>,
                      generate: string -> Result<Option<string>, Raised>)
    ensures Reply(collectionReady, req, retrieve, generate).Success?
        <==> collectionReady && retrieve(req.message).Success?
             && generate(BuildPrompt(Context(retrieve(req.message).value), req.message)).Success?
    ensures (Reply(collectionReady, req, retrieve, generate).Failure?
             && Reply(collectionReady, req, retrieve, generate).error.status == 503)
        <==> collectionReady
             && if retrieve(req.message).Failure? then retrieve(req.message).error.RequestException?
                else var g := generate(BuildPrompt(Context(retrieve(req.message).value), req.message));
                     g.Failure? && g.error.RequestException?
    ensures Reply(collectionReady, req, retrieve, generate).Failure?
            && Reply(collectionReady, req, retrieve, generate).error.status == 503 ==>
              OllamaUnreachable <= Reply(collectionReady, req, retrieve, generate).error.detail
  {
  }

  /** When the model answers, the reply is its text, produced from the prompt built from the context and the question. */
  lemma ReplyFromPrompt(req: ChatRequest, retrieve: string -> Result<QueryResult, Raised>,
                        generate: string -> Result<Option<string>, Raised>, results: QueryResult, text: string)
    requires retrieve(req.message) == Success(results)
    requires generate(BuildPrompt(Context(results), req.message)) == Success(Some(text))
    ensures Reply(true, req, retrieve, generate) == Success(text)
  {
  }
}
