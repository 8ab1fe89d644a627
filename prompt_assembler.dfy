/** `constructPrompt`: the grounding prompt, built from an optional conversation
    transcript, numbered document blocks, a fixed instruction block and the question. */
module PromptAssembler {
  import opened Strings

  /** One earlier exchange of the conversation. */
  datatype Turn = Turn(question: string, answer: string)

  /** A document handed to the prompt: its display title and its text. */
  datatype Doc = Doc(title: string, excerpt: string)

  const HistoryHeader := "Previous conversation:\n"
  const DocsHeader := "Relevant documents:\n"

  const GuidanceLineCount: nat := 17

  /** Line `n` of the instructions between the documents and the question. */
  function GuidanceLine(n: nat): string
    requires n < GuidanceLineCount
  {
    if n == 0 then ""
    else if n == 1 then ""
    else if n == 2 then "You are an IT documentation assistant for EOTSS (Executive Office of Technology Services and Security)."
    else if n == 3 then "Answer the following question using ONLY the information from the document extracts provided above."
    else if n == 4 then "If the answer is not in the documents, say \"I don't have that information in our documentation.\""
    else if n == 5 then ""
    else if n == 6 then "FORMAT YOUR RESPONSE:"
    else if n == 7 then "- Use markdown formatting to make your answer readable"
    else if n == 8 then "- Use ## headings for main sections"
    else if n == 9 then "- Break your response into short paragraphs with line breaks between them"
    else if n == 10 then "- Use bullet points (- ) for lists of items"
    else if n == 11 then "- Use numbered lists (1. 2. 3.) for sequential steps or processes"
    else if n == 12 then "- Use code blocks (```) for any commands, syntax, or technical configurations"
    else if n == 13 then "- Bold important terms or concepts using **bold text**"
    else if n == 14 then ""
    else if n == 15 then "Be concise and professional in your response."
    else ""
  }

  /** The instruction lines from line `n` on, each followed by a newline. */
  function GuidanceFrom(n: nat): string
    requires n <= GuidanceLineCount
    decreases GuidanceLineCount - n
  {
    if n == GuidanceLineCount then "" else GuidanceLine(n) + "\n" + GuidanceFrom(n + 1)
  }

  /** The instructions between the documents and the question; the first two lines
      are the newline ending the documents' line and a blank line. */
  function Guidance(): string {
    GuidanceFrom(0)
  }

  const QuestionLabel := "QUESTION:\n"

  function TurnLine(t: Turn): string {
    "Human: " + t.question + "\nAssistant: " + t.answer + "\n"
  }

  /** The transcript lines of `history`, oldest first. */
  function Transcript(history: seq<Turn>): string {
    if history == [] then ""
    else Transcript(history[..|history| - 1]) + TurnLine(history[|history| - 1])
  }

  function HistoryContext(history: seq<Turn>): string {
    if |history| > 0 then HistoryHeader + Transcript(history) + "\n" else ""
  }

  /** The block of the document numbered `n` (counting from 1). */
  function DocBlock(n: nat, d: Doc): string {
    "[Document " + NatToString(n) + ": " + d.title + "]\n" + d.excerpt + "\n\n"
  }

  /** The blocks of `docs`, numbered 1, 2, ... in input order. */
  function DocBlocks(docs: seq<Doc>): string {
    if docs == [] then ""
    else DocBlocks(docs[..|docs| - 1]) + DocBlock(|docs|, docs[|docs| - 1])
  }

  function DocsContext(docs: seq<Doc>): string {
    DocsHeader + DocBlocks(docs)
  }

  function Question(query: string): string {
    QuestionLabel + query
  }

  /** The instructions, then the question. */
  function Closing(query: string): string {
    Guidance() + Question(query)
  }

  /** The prompt `constructPrompt(query, docs, history)` returns: the transcript (if any),
      the documents, the instructions and the question, in that order. */
  function PromptText(query: string, docs: seq<Doc>, history: seq<Turn>): string {
    HistoryContext(history) + (DocsContext(docs) + Closing(query))
  }

  /** One more turn adds its line to the transcript. */
  lemma TranscriptStep(history: seq<Turn>, i: nat)
    requires i < |history|
    ensures Transcript(history[..i + 1]) == Transcript(history[..i]) + TurnLine(history[i])
  {
    assert history[..i + 1][..i] == history[..i];
  }

  /** One more document adds its block, numbered `i + 1`. */
  lemma DocBlocksStep(docs: seq<Doc>, i: nat)
    requires i < |docs|
    ensures DocBlocks(docs[..i + 1]) == DocBlocks(docs[..i]) + DocBlock(i + 1, docs[i])
  {
    assert docs[..i + 1][..i] == docs[..i];
  }

  /** `constructPrompt`, accumulating both contexts with `+=` as the source does. */
  method ConstructPrompt(query: string, docs: seq<Doc>, history: seq<Turn>) returns (prompt: string)
    ensures prompt == PromptText(query, docs, history)
  {
    var historyContext := "";
    if |history| > 0 {
      historyContext := HistoryHeader;
      var i := 0;
      while i < |history|
        invariant 0 <= i <= |history|
        invariant historyContext == HistoryHeader + Transcript(history[..i])
      {
        var exchange := history[i];
        historyContext := historyContext + TurnLine(exchange);
        TranscriptStep(history, i);
        AppendAssoc(HistoryHeader, Transcript(history[..i]), TurnLine(exchange));
        i := i + 1;
      }
      assert history[..|history|] == history;
      historyContext := historyContext + "\n";
    }
    var docsContext := DocsHeader;
    var i := 0;
    while i < |docs|
      invariant 0 <= i <= |docs|
      invariant docsContext == DocsHeader + DocBlocks(docs[..i])
    {
      var doc := docs[i];
      docsContext := docsContext + DocBlock(i + 1, doc);
      DocBlocksStep(docs, i);
      AppendAssoc(DocsHeader, DocBlocks(docs[..i]), DocBlock(i + 1, doc));
      i := i + 1;
    }
    assert docs[..|docs|] == docs;
    prompt := historyContext + (docsContext + Closing(query));
  }

  // ---------------------------------------------------------------------------
  // Shape of the prompt

  /** The prompt ends with the question: "QUESTION:\n" followed by the query, verbatim. */
  lemma PromptEndsWithQuestion(query: string, docs: seq<Doc>, history: seq<Turn>)
    ensures var p, q := PromptText(query, docs, history), Question(query);
      |p| >= |q| && p[|p| - |q|..] == q
  {
    var h, d, g, q := HistoryContext(history), DocsContext(docs), Guidance(), Question(query);
    AppendAssoc(d, g, q);
    AppendAssoc(h, d + g, q);
    DropPrefix(h + (d + g), q);
  }

  /** The prompt starts with the transcript header exactly when there is history,
      and otherwise with the documents header. */
  lemma PromptStart(query: string, docs: seq<Doc>, history: seq<Turn>)
    ensures var p := PromptText(query, docs, history);
      (|p| >= |HistoryHeader| && p[..|HistoryHeader|] == HistoryHeader) <==> |history| > 0
    ensures var p := PromptText(query, docs, history);
      |history| == 0 ==> |p| >= |DocsHeader| && p[..|DocsHeader|] == DocsHeader
  {
    var p := PromptText(query, docs, history);
    var rest := DocsContext(docs) + Closing(query);
    if |history| > 0 {
      var h := HistoryContext(history);
      PrefixAppendRight(h, rest, |HistoryHeader|);
      PrefixAppendRight(HistoryHeader + Transcript(history), "\n", |HistoryHeader|);
      PrefixAppendRight(HistoryHeader, Transcript(history), |HistoryHeader|);
    } else {
      assert p == rest;
      PrefixAppendRight(DocsContext(docs), Closing(query), |DocsHeader|);
      PrefixAppendRight(DocsHeader, DocBlocks(docs), |DocsHeader|);
      assert p[0] == DocsHeader[0] != HistoryHeader[0];
    }
  }

  /** The blocks of a prefix of the documents begin the blocks of all of them. */
  lemma {:induction false} DocBlocksPrefix(docs: seq<Doc>, i: nat)
    requires i <= |docs|
    ensures DocBlocks(docs[..i]) <= DocBlocks(docs)
    decreases |docs|
  {
    if i < |docs| {
      var init := docs[..|docs| - 1];
      assert init[..i] == docs[..i];
      DocBlocksPrefix(init, i);
    } else {
      assert docs[..i] == docs;
    }
  }

  /** The prompt begins with the transcript (if any), the documents header, the blocks
      of the documents before document `i` and then document `i`'s block,
      "[Document i+1: title]\nexcerpt\n\n": the prompt keeps the input order. */
  lemma DocumentInPlace(query: string, docs: seq<Doc>, history: seq<Turn>, i: nat)
    requires i < |docs|
    ensures HistoryContext(history) + DocsHeader + DocBlocks(docs[..i]) + DocBlock(i + 1, docs[i])
      <= PromptText(query, docs, history)
  {
    var h, blocks := HistoryContext(history), DocBlocks(docs);
    var before, block := DocBlocks(docs[..i]), DocBlock(i + 1, docs[i]);
    DocBlocksStep(docs, i);
    DocBlocksPrefix(docs, i + 1);
    PrefixWithin(h + DocsHeader, before + block, blocks, Closing(query));
    AppendAssoc(h + DocsHeader, before, block);
    AppendAssoc(h, DocsHeader, blocks);
    AppendAssoc(h, DocsHeader + blocks, Closing(query));
  }

  /** The transcript of a prefix of the history begins the transcript of all of it. */
  lemma {:induction false} TranscriptPrefix(history: seq<Turn>, i: nat)
    requires i <= |history|
    ensures Transcript(history[..i]) <= Transcript(history)
    decreases |history|
  {
    if i < |history| {
      var init := history[..|history| - 1];
      assert init[..i] == history[..i];
      TranscriptPrefix(init, i);
    } else {
      assert history[..i] == history;
    }
  }

  /** With history, the prompt begins with the transcript header, the turns before
      turn `i` and then turn `i`'s line, "Human: q\nAssistant: a\n". */
  lemma TurnInPlace(query: string, docs: seq<Doc>, history: seq<Turn>, i: nat)
    requires i < |history|
    ensures HistoryHeader + Transcript(history[..i]) + TurnLine(history[i]) <= PromptText(query, docs, history)
  {
    var lines, rest := Transcript(history), DocsContext(docs) + Closing(query);
    var before, line := Transcript(history[..i]), TurnLine(history[i]);
    TranscriptStep(history, i);
    TranscriptPrefix(history, i + 1);
    PrefixWithin(HistoryHeader, before + line, lines, "\n" + rest);
    AppendAssoc(HistoryHeader, before, line);
    AppendAssoc(HistoryHeader + lines, "\n", rest);
  }
}
