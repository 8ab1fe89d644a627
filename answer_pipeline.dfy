/** `lambda_handler` and `formatResponse`: validate the query and the configuration,
    retrieve document snippets, ask the model for an answer (grounded in the snippets,
    or a polite "not found" when there are none), reflow the answer and wrap it in a
    response with a status code. The knowledge-base retrieval and the model invocation
    are collaborators passed in as functions that may fail. */
module AnswerPipeline {
  import opened Wrappers
  import opened Strings
  import opened TextReflow
  import opened PromptAssembler
  import opened Retrieval

  /** How many results the retrieval asks for. */
  const MaxSnippets: nat := 3

  const QueryRequired := "Query parameter is required"
  const KbNotConfigured := "Knowledge Base ID is not configured"
  const InternalErrorPrefix := "Internal server error: "

  /** The text of the "not found" message before the query. */
  const NotFoundOpening :=
    "You are an IT documentation assistant. The "
    + "user asked: \""

  /** The text of the "not found" message after the query. */
  const NotFoundClosing :=
    "\" but I couldn't find any relevant documents "
    + "about this topic. Please politely explain "
    + "that you don't have information about this "
    + "topic in the documentation. Format your "
    + "response with proper paragraphs and spacing "
    + "for readability."

  /** The message sent to the model when no document text was retrieved. */
  function NotFoundPrompt(query: string): string {
    NotFoundOpening + query + NotFoundClosing
  }

  /** `sources[i]?.filename || "Document i+1"`. */
  function DocTitle(i: nat, sources: seq<Source>): string {
    if i < |sources| && sources[i].filename != "" then sources[i].filename
    else "Document " + NatToString(i + 1)
  }

  /** `retrievedTexts.map((text, i) => ({ title: ..., excerpt: text }))`. */
  function DocsFor(texts: seq<string>, sources: seq<Source>): seq<Doc> {
    seq(|texts|, i requires 0 <= i < |texts| => Doc(DocTitle(i, sources), texts[i]))
  }

  /** The JSON body of a response. */
  datatype Body = ErrorBody(error: string) | AnswerBody(answer: string, sources: seq<Source>)

  /** What `formatResponse` returns, without its fixed headers. */
  datatype Response = Response(statusCode: int, body: Body)

  /** A request made to a collaborator. */
  datatype Call =
    | RetrieveCall(knowledgeBaseId: string, query: string, numberOfResults: nat)
    | InvokeCall(prompt: string)

  /** The response together with the collaborator requests made to produce it, in order. */
  datatype Run = Run(response: Response, calls: seq<Call>)

  /** The knowledge-base retrieval: the results, or the message of the error it throws. */
  type Retriever = (string, string, nat) -> Result<seq<RetrievalResult>>

  /** The model invocation: the text of the reply's first content block, or the
      message of the error thrown while invoking or reading the reply. */
  type Invoker = string -> Result<string>

  function FormatResponse(statusCode: int, body: Body): Response {
    Response(statusCode, body)
  }

  /** The `catch` block. */
  function InternalError(message: string): Response {
    FormatResponse(500, ErrorBody(InternalErrorPrefix + message))
  }

  /** What the handler does for `query` with knowledge base `kbId` ("" when unset). */
  function HandlerRun(query: string, kbId: string, retrieve: Retriever, invoke: Invoker): Run {
    if query == "" then Run(FormatResponse(400, ErrorBody(QueryRequired)), [])
    else if kbId == "" then Run(FormatResponse(500, ErrorBody(KbNotConfigured)), [])
    else
      var retrieval := RetrieveCall(kbId, query, MaxSnippets);
      match retrieve(kbId, query, MaxSnippets)
      case Err(message) => Run(InternalError(message), [retrieval])
      case Ok(results) =>
        var texts := KeptTexts(results);
        var sources := SourcesOf(results);
        var prompt :=
          if texts == [] then NotFoundPrompt(query)
          else PromptText(query, DocsFor(texts, sources), []);
        var calls := [retrieval, InvokeCall(prompt)];
        match invoke(prompt)
        case Err(message) => Run(InternalError(message), calls)
        case Ok(reply) =>
          var shown := if texts == [] then [] else sources;
          Run(FormatResponse(200, AnswerBody(EnhanceFormatting(reply), shown)), calls)
  }

  /** `lambda_handler`, step by step: the extraction loop and `constructPrompt` run as
      methods, and `calls` records each collaborator request as it is made. */
  method Handle(query: string, kbId: string, retrieve: Retriever, invoke: Invoker)
    returns (response: Response, calls: seq<Call>)
    ensures Run(response, calls) == HandlerRun(query, kbId, retrieve, invoke)
  {
    calls := [];
    if query == "" {
      return FormatResponse(400, ErrorBody(QueryRequired)), calls;
    }
    if kbId == "" {
      return FormatResponse(500, ErrorBody(KbNotConfigured)), calls;
    }
    calls := calls + [RetrieveCall(kbId, query, MaxSnippets)];
    var retrieveResponse := retrieve(kbId, query, MaxSnippets);
    if retrieveResponse.Err? {
      return InternalError(retrieveResponse.message), calls;
    }
    var retrievedTexts, sources := ExtractResults(retrieveResponse.value);
    var prompt;
    if |retrievedTexts| == 0 {
      prompt := NotFoundPrompt(query);
    } else {
      prompt := ConstructPrompt(query, DocsFor(retrievedTexts, sources), []);
    }
    calls := calls + [InvokeCall(prompt)];
    assert calls == [RetrieveCall(kbId, query, MaxSnippets), InvokeCall(prompt)];
    var reply := invoke(prompt);
    if reply.Err? {
      return InternalError(reply.message), calls;
    }
    var answer := EnhanceFormatting(reply.value);
    if |retrievedTexts| == 0 {
      response := FormatResponse(200, AnswerBody(answer, []));
    } else {
      response := FormatResponse(200, AnswerBody(answer, sources));
    }
  }

  // ---------------------------------------------------------------------------
  // Outcomes of the handler

  /** Every response is a 200 with an answer, or a 400 or 500 with an error; a 400
      is given exactly for the empty query. */
  lemma StatusCodes(query: string, kbId: string, retrieve: Retriever, invoke: Invoker)
    ensures var r := HandlerRun(query, kbId, retrieve, invoke).response;
      (r.statusCode == 200 && r.body.AnswerBody?)
      || ((r.statusCode == 400 || r.statusCode == 500) && r.body.ErrorBody?)
    ensures HandlerRun(query, kbId, retrieve, invoke).response.statusCode == 400 <==> query == ""
  {
  }

  /** The empty query is refused with 400 before the configuration is looked at and
      before any collaborator is called. */
  lemma EmptyQueryRefused(kbId: string, retrieve: Retriever, invoke: Invoker)
    ensures HandlerRun("", kbId, retrieve, invoke) == Run(Response(400, ErrorBody(QueryRequired)), [])
  {
  }

  /** Without a knowledge-base id a non-empty query fails with 500 and no collaborator call. */
  lemma MissingKnowledgeBase(query: string, retrieve: Retriever, invoke: Invoker)
    requires query != ""
    ensures HandlerRun(query, "", retrieve, invoke) == Run(Response(500, ErrorBody(KbNotConfigured)), [])
  {
  }

  /** Any non-empty query, even one made of white space only, goes to the retrieval
      verbatim, asking for three results. */
  lemma QueryForwarded(query: string, kbId: string, retrieve: Retriever, invoke: Invoker)
    requires query != "" && kbId != ""
    ensures var run := HandlerRun(query, kbId, retrieve, invoke);
      |run.calls| >= 1 && run.calls[0] == RetrieveCall(kbId, query, 3)
      && run.response.statusCode != 400
  {
  }

  /** A failing collaborator gives 500 with "Internal server error: " and its message. */
  lemma CollaboratorFailure(query: string, kbId: string, retrieve: Retriever, invoke: Invoker)
    requires query != "" && kbId != ""
    ensures retrieve(kbId, query, MaxSnippets).Err? ==>
      HandlerRun(query, kbId, retrieve, invoke).response
        == Response(500, ErrorBody(InternalErrorPrefix + retrieve(kbId, query, MaxSnippets).message))
    ensures var run := HandlerRun(query, kbId, retrieve, invoke);
      retrieve(kbId, query, MaxSnippets).Ok? && invoke(run.calls[1].prompt).Err? ==>
        run.response == Response(500, ErrorBody(InternalErrorPrefix + invoke(run.calls[1].prompt).message))
  {
  }

  /** When no retrieved result has text, the model is asked the "not found" message
      quoting the query, and its reply comes back reflowed with no sources, even when
      some results had a location. */
  lemma NoDocumentsAnswer(query: string, kbId: string, retrieve: Retriever, invoke: Invoker,
                          results: seq<RetrievalResult>, reply: string)
    requires query != "" && kbId != ""
    requires retrieve(kbId, query, MaxSnippets) == Ok(results)
    requires forall i :: 0 <= i < |results| ==> results[i].text == ""
    requires invoke(NotFoundPrompt(query)) == Ok(reply)
    ensures HandlerRun(query, kbId, retrieve, invoke)
      == Run(Response(200, AnswerBody(EnhanceFormatting(reply), [])),
             [RetrieveCall(kbId, query, MaxSnippets), InvokeCall(NotFoundPrompt(query))])
  {
    assert KeptTexts(results) == [] by {
      KeptTextsEmpty(results);
    }
  }

  /** When some result has text, the model is asked the document prompt, built without
      any conversation history, and its reply comes back reflowed with every source the
      extraction loop built. */
  lemma DocumentsAnswer(query: string, kbId: string, retrieve: Retriever, invoke: Invoker,
                        results: seq<RetrievalResult>, k: nat, reply: string)
    requires query != "" && kbId != ""
    requires retrieve(kbId, query, MaxSnippets) == Ok(results)
    requires k < |results| && results[k].text != ""
    requires invoke(PromptText(query, DocsFor(KeptTexts(results), SourcesOf(results)), [])) == Ok(reply)
    ensures HandlerRun(query, kbId, retrieve, invoke)
      == Run(Response(200, AnswerBody(EnhanceFormatting(reply), SourcesOf(results))),
             [RetrieveCall(kbId, query, MaxSnippets),
              InvokeCall(PromptText(query, DocsFor(KeptTexts(results), SourcesOf(results)), []))])
  {
    assert KeptTexts(results) != [] by {
      KeptTextsEmpty(results);
    }
  }

  /** The document prompt starts with the documents header: no conversation history
      is ever passed to it. */
  lemma DocumentPromptStart(query: string, results: seq<RetrievalResult>)
    ensures var prompt := PromptText(query, DocsFor(KeptTexts(results), SourcesOf(results)), []);
      |prompt| >= |DocsHeader| && prompt[..|DocsHeader|] == DocsHeader
  {
    PromptStart(query, DocsFor(KeptTexts(results), SourcesOf(results)), []);
  }

  /** A successful answer carries exactly the non-white-space characters of the model's
      reply, in order. */
  lemma AnswerKeepsReply(query: string, kbId: string, retrieve: Retriever, invoke: Invoker)
    ensures var run := HandlerRun(query, kbId, retrieve, invoke);
      run.response.statusCode == 200 ==>
        |run.calls| == 2 && invoke(run.calls[1].prompt).Ok?
        && NonSpace(run.response.body.answer) == NonSpace(invoke(run.calls[1].prompt).value)
  {
    var run := HandlerRun(query, kbId, retrieve, invoke);
    if run.response.statusCode == 200 {
      EnhanceKeepsText(invoke(run.calls[1].prompt).value);
    }
  }

  // ---------------------------------------------------------------------------
  // Titles of the documents in the prompt

  /** Document `i` has the `i`-th kept text and the `i`-th source's file name as title,
      or "Document i+1" when there is no `i`-th source. */
  lemma DocAt(texts: seq<string>, sources: seq<Source>, i: nat)
    requires i < |texts|
    ensures |DocsFor(texts, sources)| == |texts|
    ensures DocsFor(texts, sources)[i].excerpt == texts[i]
    ensures i < |sources| && sources[i].filename != "" ==> DocsFor(texts, sources)[i].title == sources[i].filename
    ensures i >= |sources| ==> DocsFor(texts, sources)[i].title == "Document " + NatToString(i + 1)
  {
  }

  /** When every result has text and a location, document `i` is titled with the file
      name of result `i` and carries its text. */
  lemma TitlesMatchWhenComplete(results: seq<RetrievalResult>, i: nat)
    requires forall j :: 0 <= j < |results| ==> results[j].text != "" && results[j].s3Uri.Some?
    requires i < |results|
    ensures |DocsFor(KeptTexts(results), SourcesOf(results))| == |results|
    ensures DocsFor(KeptTexts(results), SourcesOf(results))[i]
      == Doc(Filename(results[i].s3Uri.value), results[i].text)
  {
    var texts, sources := KeptTexts(results), SourcesOf(results);
    AlignedWhenComplete(results);
    var uri := results[i].s3Uri.value;
    assert sources[i] == SourceOf(results[i].text, uri);
    FilenameOf(uri);
    DocAt(texts, sources, i);
  }

  /** What the extraction loop yields for a located result without text followed by a
      located result with text. */
  lemma {:induction false} EmptyThenText(results: seq<RetrievalResult>)
    requires |results| == 2
    requires results[0].text == "" && results[0].s3Uri.Some?
    requires results[1].text != "" && results[1].s3Uri.Some?
    ensures KeptTexts(results) == [results[1].text]
    ensures |SourcesOf(results)| == 2
    ensures SourcesOf(results)[0] == SourceOf(results[0].text, results[0].s3Uri.value)
  {
    assert results[..1][..0] == [];
    assert results[..|results| - 1] == results[..1];
  }

  /** A located result without text still adds a source, so the next document gets its
      title: the first document carries the second result's text under the first
      result's file name. */
  lemma {:induction false} TitleFromWrongResult(results: seq<RetrievalResult>)
    requires |results| == 2
    requires results[0].text == "" && results[0].s3Uri.Some?
    requires results[1].text != "" && results[1].s3Uri.Some?
    ensures |SourcesOf(results)| == 2 && |KeptTexts(results)| == 1
    ensures DocsFor(KeptTexts(results), SourcesOf(results))
      == [Doc(Filename(results[0].s3Uri.value), results[1].text)]
  {
    EmptyThenText(results);
    FilenameOf(results[0].s3Uri.value);
    DocAt(KeptTexts(results), SourcesOf(results), 0);
  }
}
