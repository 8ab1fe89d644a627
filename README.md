# chat-lambda in Dafny

A model of the answer handler in `chat-lambda.py` (JavaScript despite its name). The handler is an AWS Lambda that answers IT-documentation questions by retrieval-augmented generation:

- It checks the query and the knowledge-base configuration.
- It retrieves up to three document snippets from a Bedrock knowledge base.
- It extracts their texts and source records.
- It builds a prompt, either from the documents or as a "not found" message when no text came back.
- It invokes the model and reflows the reply's markdown.
- It wraps the result in a response with status 200, 400 or 500.

The modules follow the pieces of that file:

- `Wrappers`: `Option` and `Result`.
- `Strings`: character classes as the JavaScript regular expressions define them, filtering characters out of a string (`Without`, `NonSpace`), the relation `NewlinesAdded` between a text and the same text with newlines inserted, and the relation `RunsBroken` between a text and the same text with white-space runs after periods turned into newlines.
- `TextReflow`: `enhanceFormatting`. Each global `replace` is a left-to-right, non-overlapping rewrite (`ReplaceAll` over one `Pass`). The paragraph step splits on `"\n\n"`, rewrites long paragraphs and joins them again.
- `ReflowExample`: worked inputs. On one the reflow is not idempotent; on the other it cuts a line-start heading in two.
- `PromptAssembler`: `constructPrompt`. The method `ConstructPrompt` accumulates both contexts in loops, as the source does, and is proved equal to the function `PromptText`.
- `Retrieval`: `truncateText` and the loop that extracts texts and sources. The method `ExtractResults` is proved equal to `KeptTexts` and `SourcesOf`.
- `AnswerPipeline`: `lambda_handler` and `formatResponse`.
  - The retrieval and the model invocation are function parameters that return `Ok` or `Err(message)`. A thrown error is an `Err`.
  - The method `Handle` follows the handler step by step and records each collaborator request in `calls`.
  - `Handle` is proved equal to the function `HandlerRun`, and the outcome lemmas are stated about that function.

The model keeps these behaviours of the code as written:

- The query check is plain emptiness, so a query of spaces goes to the retrieval.
- The document prompt is always built without conversation history.
- A result with an S3 location adds a source even when its text is empty. The document titles, taken as `sources[i].filename`, can then belong to another result (`TitleFromWrongResult`).
- The heading pass takes any character other than a newline before 1-3 `#` and a space, including a heading's own first `#`. So a `## ` or `### ` heading at the start of a line is cut in two (`EnhanceSplitsHeading`), though the prompt asks the model for `## ` headings.
- `\s` in the sentence pass is JavaScript's full white-space set, line terminators included, not only ASCII. `.` in the heading pass stops at any JavaScript line terminator.

## Model

| member | source | states |
|---|---|---|
| Retrieval.Truncate | chat-lambda.py:11-14 | a text of at most `maxLength` characters (500 by default) is returned unchanged; a longer one becomes exactly its first `maxLength` characters followed by "..." |
| TextReflow.MatchKeepsText | chat-lambda.py:19-39 | one replacement of a heading, list or fence pass only adds newlines to the text it covers, and the sentence replacement changes only white space |
| TextReflow.ReplaceAllKeepsLines | chat-lambda.py:19-39 | a global heading, list or fence pass changes only newlines: removing newlines from input and output gives the same text |
| TextReflow.ReplaceAllAddsNewlines | chat-lambda.py:19-39 | a global heading, list or fence pass only inserts newlines: its output is its input with newline characters added, none deleted and nothing else changed |
| TextReflow.SentenceBreakKeepsText | chat-lambda.py:31 | a sentence match covers a period, a non-empty white-space run and a capital letter, and puts ".\n" and that letter in their place; the non-white-space characters are unchanged |
| TextReflow.ReplaceAllBreaksRuns | chat-lambda.py:31 | the global sentence pass changes nothing but white-space runs that lie between a period and a capital letter, each of which becomes one newline; it never lengthens the text |
| TextReflow.SentencePassIdempotent | chat-lambda.py:26-31 | a second sentence pass over the output changes nothing: the pass leaves no run between a period and a capital letter that it would still break |
| TextReflow.ReplaceAllKeepsText | chat-lambda.py:19-39 | every global pass, the sentence pass included, keeps the sequence of non-white-space characters |
| TextReflow.EnhanceKeepsText | chat-lambda.py:17-42 | the whole reflow keeps the sequence of non-white-space characters of its input |
| TextReflow.SplitJoin | chat-lambda.py:27-35 | splitting on "\n\n" and joining with "\n\n" gives the text back |
| TextReflow.JoinKeepsText | chat-lambda.py:35 | joining paragraphs that agree one by one on their non-white-space characters gives texts that agree on them |
| TextReflow.BreakKeepsShortParagraphs | chat-lambda.py:27-35 | the paragraph step leaves the text unchanged when every paragraph has at most 150 characters or starts with `#`, `-`, `*` or digits and a period |
| TextReflow.SplitPartsShort | chat-lambda.py:27 | no paragraph is longer than the text it was split from |
| TextReflow.ShortTextNotBroken | chat-lambda.py:27-35 | a text of at most 150 characters is never broken at sentence boundaries |
| TextReflow.SplitSingle | chat-lambda.py:27 | a text without a newline is one paragraph |
| TextReflow.ReplaceAllNoMatch | chat-lambda.py:19-39 | a pass whose pattern matches at no position returns the text unchanged |
| TextReflow.InsertionNeedsMarker | chat-lambda.py:19-39 | no heading, list or fence pattern matches a text without newlines and `#` |
| TextReflow.ShortPlainTextUnchanged | chat-lambda.py:17-42 | a text of at most 150 characters with no newline and no `#` comes back unchanged; the empty text maps to itself |
| ReflowExample.EnhanceNotIdempotent | chat-lambda.py:19 | reflowing "a# # x" twice differs from reflowing it once: the reflow is not idempotent |
| ReflowExample.EnhanceSplitsHeading | chat-lambda.py:19 | the reflow turns the line-start heading "## T" into "#\n\n# T": the heading is cut after its first `#` |
| PromptAssembler.ConstructPrompt | chat-lambda.py:45-82 | the prompt accumulated by the two loops is the transcript (if any), the documents header and numbered blocks, the instructions and the question, in that order |
| PromptAssembler.PromptEndsWithQuestion | chat-lambda.py:80-81 | the prompt ends with "QUESTION:\n" followed by the query verbatim |
| PromptAssembler.PromptStart | chat-lambda.py:47-63 | the prompt starts with "Previous conversation:\n" exactly when the history is non-empty, and otherwise with "Relevant documents:\n" |
| PromptAssembler.DocBlocksPrefix | chat-lambda.py:58-60 | the blocks of the first `i` documents begin the blocks of all of them |
| PromptAssembler.DocumentInPlace | chat-lambda.py:57-60 | document `i` appears as "[Document i+1: title]\nexcerpt\n\n" right after the blocks of the documents before it: input order is kept |
| PromptAssembler.TranscriptPrefix | chat-lambda.py:50-52 | the transcript of the first `i` turns begins the transcript of all of them |
| PromptAssembler.TurnInPlace | chat-lambda.py:48-52 | turn `i` appears as "Human: q\nAssistant: a\n" right after the header and the turns before it |
| Retrieval.ExtractResults | chat-lambda.py:123-141 | the loop yields exactly the kept texts and the built sources of all results |
| Retrieval.LastSegment | chat-lambda.py:137 | the result is a suffix of the URI without `/`, preceded in the URI by a `/` unless it is the whole URI |
| Retrieval.FilenameOf | chat-lambda.py:137 | a filename is the URI's last `/`-segment, or "Unknown" when the URI is empty or ends in `/`; it is never empty |
| Retrieval.KeptTextsEmpty | chat-lambda.py:126-130 | no text is kept exactly when every result's text is empty |
| Retrieval.KeptTextsPrefix | chat-lambda.py:126-130 | the texts kept from the first `i` results begin the texts kept from all |
| Retrieval.KeptTextAt | chat-lambda.py:126-130 | every non-empty text is kept, after the texts kept from the results before it |
| Retrieval.KeptTextFrom | chat-lambda.py:126-130 | every kept text is the text of some result, and the texts kept before it come from the results before that one |
| Retrieval.SourcesPrefix | chat-lambda.py:132-140 | the sources built from the first `i` results begin the sources built from all |
| Retrieval.SourceAt | chat-lambda.py:132-140 | every result with an S3 location adds its source (URI, filename, preview of at most 100 characters plus "..."), whatever its text |
| Retrieval.SourceFromLast | chat-lambda.py:132-140 | a source added by the last result is that result's own |
| Retrieval.SourceFrom | chat-lambda.py:132-140 | every source comes from some located result, and the sources before it from the results before that one |
| Retrieval.AllTextsKept | chat-lambda.py:126-130 | when every text is non-empty, all are kept, in order |
| Retrieval.AllSourcesBuilt | chat-lambda.py:132-140 | when every result is located, there is one source per result, in order |
| Retrieval.AlignedWhenComplete | chat-lambda.py:126-141 | when every result has text and a location, texts and sources line up one per result |
| AnswerPipeline.Handle | chat-lambda.py:84-217 | the handler's response and its collaborator requests are those of `HandlerRun`, on every input and every collaborator behaviour |
| AnswerPipeline.StatusCodes | chat-lambda.py:97-230 | every response is 200 with an answer, or 400 or 500 with an error; 400 happens exactly for the empty query |
| AnswerPipeline.EmptyQueryRefused | chat-lambda.py:97-99 | the empty query gives 400 "Query parameter is required" before the configuration check and without any collaborator call |
| AnswerPipeline.MissingKnowledgeBase | chat-lambda.py:104-107 | a missing knowledge-base id gives 500 "Knowledge Base ID is not configured" without any collaborator call |
| AnswerPipeline.QueryForwarded | chat-lambda.py:97-120 | any non-empty query, even white space only, is sent to the retrieval verbatim with three results asked for |
| AnswerPipeline.CollaboratorFailure | chat-lambda.py:213-216 | an error from the retrieval or the invocation gives 500 with "Internal server error: " and the error's message |
| AnswerPipeline.NoDocumentsAnswer | chat-lambda.py:143-172 | when no result has text, the model gets the "not found" message quoting the query, and the reply comes back reflowed with status 200 and no sources |
| AnswerPipeline.DocumentsAnswer | chat-lambda.py:174-211 | when some result has text, the model gets the document prompt built without history, and the reply comes back reflowed with status 200 and every source built |
| AnswerPipeline.DocumentPromptStart | chat-lambda.py:180-183 | the document prompt starts with "Relevant documents:\n": history is never passed |
| AnswerPipeline.AnswerKeepsReply | chat-lambda.py:205-211 | a 200 answer has exactly the non-white-space characters of the model's reply |
| AnswerPipeline.DocAt | chat-lambda.py:180-183 | document `i` has the `i`-th kept text, titled with the `i`-th source's filename, or "Document i+1" when there is no `i`-th source |
| AnswerPipeline.TitlesMatchWhenComplete | chat-lambda.py:126-183 | when every result has text and a location, document `i` is titled with result `i`'s filename and carries its text |
| AnswerPipeline.EmptyThenText | chat-lambda.py:126-141 | a located result without text followed by a located result with text gives one kept text and two sources |
| AnswerPipeline.TitleFromWrongResult | chat-lambda.py:128-183 | in that case the only document carries the second result's text under the first result's filename |

## Left out

- The AWS SDK clients and commands are not modelled. The retrieval and the model invocation are function parameters that may fail. The source imports `RetrieveCommand` from the Kendra client but sends it through the Bedrock runtime client; the model does not capture that.
- Extracting the query from the event is not modelled: `JSON.parse` of the body, `body.query || ""` and `event.query || ""`. The query is a string parameter.
- Decoding and parsing the model's reply is not modelled: the `TextDecoder`, `JSON.parse` and `content[0].text`. The invoker returns the reply text, and any failure in these steps is its `Err`.
- `JSON.stringify` of the response body is not modelled; a response is a status code and a body datatype.
- Logging (`console.log`, `console.error`) and `async`/`await` sequencing are not modelled; neither affects the result.
- Of the environment, only the knowledge-base id is modelled, with an unset id as "" (both are falsy).
- The model id and its default, `anthropic_version`, `max_tokens` and `temperature` are not modelled; they are fixed request parameters.
- The CORS headers of `formatResponse` are not modelled; they are fixed values.
- `contextText` is not modelled; it is computed and never used.
- Absent `content.text` and absent `uri` are modelled as "", as the `|| ""` in the source makes them.
- Lengths count characters. JavaScript counts UTF-16 code units, so the 100-, 150- and `maxLength` bounds differ for characters outside the Basic Multilingual Plane.
- PromptAssembler.GuidanceLine: chat-lambda.py:75 holds three unescaped backticks inside the template literal opened at line 63. The first of them ends that literal, so the file does not load as written. The model takes the three backticks as literal characters of the instructions, and `PromptText` and every prompt lemma rest on that reading.
- Retrieval.Truncate: covers only a non-negative integer `maxLength`. Negative, fractional or non-numeric values are not modelled.
- TextReflow.EnhanceFormatting: covers only string input; the source would throw on a non-string reply, which the model treats as an invoker error.
