/** `qa_with_context`: chunk the document, find the chunks nearest to the
    question, put them in the prompt template and ask the chat model. The
    remote services and the vector index are passed in as functions. */
module Rag {
  import opened Py
  import Chunker
  import Retrieval
  import PromptTemplate

  /** The chunk size `qa_with_context` uses when the caller gives none. */
  const DefaultChunkSize: int := 512

  /** What the pipeline gets from outside its own code. */
  datatype Services = Services(
    /** Embeds every chunk and the question, builds a flat L2 index over the
        chunk vectors, searches it for the two nearest and returns the first
        row of positions. */
    nearest: (seq<string>, string) -> seq<int>,
    /** The text of a Python list of strings, as the f-string prints it. */
    render: seq<string> -> string,
    /** The chat model's reply to a one-message conversation. */
    chat: string -> string)

  /** The prompt `qa_with_context` sends, or the exception it raises first. */
  function QaPrompt(svc: Services, text: string, question: string, chunkSize: int): (r: Result<string>)
    ensures chunkSize == 0 <==> r == Err(ZeroStep)
    ensures chunkSize != 0 ==> (r == Err(EmptyCorpus) <==> chunkSize < 0 || text == [])
    ensures r.Ok? ==> PromptTemplate.Occurs(question, r.value)
    ensures r.Ok? ==> |r.value| >= |PromptTemplate.Closing| + |question|
    ensures r.Ok? ==> r.value[|r.value| - |PromptTemplate.Closing| - |question|
                              .. |r.value| - |PromptTemplate.Closing|] == question
  {
    match Chunker.SplitIntoChunks(text, chunkSize)
    case Err(e) => Err(e)
    case Ok(chunks) =>
      if chunks == [] then
        Err(EmptyCorpus)
      else
        var positions := svc.nearest(chunks, question);
        match Retrieval.RetrieveChunks(chunks, positions)
        case Err(e) => Err(e)
        case Ok(retrieved) =>
          var context := svc.render(retrieved);
          PromptTemplate.PromptHasQuestion(context, question);
          PromptTemplate.PromptRoundTrip(context, question);
          Ok(PromptTemplate.BuildPrompt(context, question))
  }

  /** `qa_with_context`: the chat model's answer to the prompt. */
  function QaWithContext(svc: Services, text: string, question: string, chunkSize: int): (r: Result<string>)
    ensures r.Ok? <==> QaPrompt(svc, text, question, chunkSize).Ok?
    ensures r.Err? ==> r.error == QaPrompt(svc, text, question, chunkSize).error
    ensures r.Ok? ==> r.value == svc.chat(QaPrompt(svc, text, question, chunkSize).value)
  {
    match QaPrompt(svc, text, question, chunkSize)
    case Err(e) => Err(e)
    case Ok(prompt) => Ok(svc.chat(prompt))
  }

  /** On a non-empty document with a positive chunk size and a search row
      that Python can index, the prompt holds `[chunks[i] for i in I[0]]`,
      in the order found, and the question. */
  lemma QaPromptRetrieves(svc: Services, text: string, question: string, chunkSize: int)
    requires chunkSize >= 1 && text != []
    requires Retrieval.AllIndexable(svc.nearest(Chunker.Chunks(text, chunkSize), question),
                                    |Chunker.Chunks(text, chunkSize)|)
    ensures var chunks := Chunker.Chunks(text, chunkSize);
      var positions := svc.nearest(chunks, question);
      QaPrompt(svc, text, question, chunkSize) == Ok(PromptTemplate.BuildPrompt(
        svc.render(seq(|positions|, m requires 0 <= m < |positions| => Index(chunks, positions[m]))),
        question))
  {
    var chunks := Chunker.Chunks(text, chunkSize);
    var positions := svc.nearest(chunks, question);
    Chunker.ChunkCount(text, chunkSize);
    assert Retrieval.RetrieveChunks(chunks, positions).value
      == seq(|positions|, m requires 0 <= m < |positions| => Index(chunks, positions[m]));
  }

  /** On a non-empty document with a positive chunk size, the pipeline raises
      IndexError exactly when the search row holds a position Python cannot
      index into the chunks. */
  lemma QaPromptOutOfRange(svc: Services, text: string, question: string, chunkSize: int)
    requires chunkSize >= 1 && text != []
    ensures QaPrompt(svc, text, question, chunkSize) == Err(IndexOutOfRange)
      <==> !Retrieval.AllIndexable(svc.nearest(Chunker.Chunks(text, chunkSize), question),
                                   |Chunker.Chunks(text, chunkSize)|)
  {
    Chunker.ChunkCount(text, chunkSize);
  }

  /** The same with every position in `0 .. len(chunks) - 1`: the prompt
      holds `chunks[I[m]]` for each m. */
  lemma QaPromptRetrievesInRange(svc: Services, text: string, question: string, chunkSize: int)
    requires chunkSize >= 1 && text != []
    requires Retrieval.AllInRange(svc.nearest(Chunker.Chunks(text, chunkSize), question),
                                  |Chunker.Chunks(text, chunkSize)|)
    ensures var chunks := Chunker.Chunks(text, chunkSize);
      var positions := svc.nearest(chunks, question);
      QaPrompt(svc, text, question, chunkSize) == Ok(PromptTemplate.BuildPrompt(
        svc.render(seq(|positions|, m requires 0 <= m < |positions| => chunks[positions[m]])),
        question))
  {
    var chunks := Chunker.Chunks(text, chunkSize);
    var positions := svc.nearest(chunks, question);
    QaPromptRetrieves(svc, text, question, chunkSize);
    assert seq(|positions|, m requires 0 <= m < |positions| => Index(chunks, positions[m]))
      == seq(|positions|, m requires 0 <= m < |positions| => chunks[positions[m]]);
  }

  /** With a chat model that always gives the same reply, any non-empty
      document, any question and any positive chunk size whose search row
      Python can index get exactly that reply. */
  lemma FixedReply(svc: Services, text: string, question: string, chunkSize: int, reply: string)
    requires forall prompt :: svc.chat(prompt) == reply
    requires text != [] && chunkSize >= 1
    requires Retrieval.AllIndexable(svc.nearest(Chunker.Chunks(text, chunkSize), question),
                                    |Chunker.Chunks(text, chunkSize)|)
    ensures QaWithContext(svc, text, question, chunkSize) == Ok(reply)
  {
    QaPromptRetrieves(svc, text, question, chunkSize);
  }
}
