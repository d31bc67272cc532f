/** `configure_tools`: the one tool the chat model may call, described as a
    JSON-schema function declaration, and the table that maps its name to
    `qa_with_context` with the client and the document already bound. */
module Tools {
  import opened Py
  import Rag

  /** The name under which the retrieval function is offered and dispatched. */
  const QaToolName: string := "qa_with_context"

  /** One entry of `"properties"`: a parameter's JSON type and description. */
  datatype Property = Property(kind: string, description: string)

  /** The `"parameters"` object of a function declaration. */
  datatype Parameters = Parameters(kind: string, properties: map<string, Property>, required: seq<string>)

  /** The `"function"` object: name, description, parameters. */
  datatype FunctionDecl = FunctionDecl(name: string, description: string, parameters: Parameters)

  /** One element of `tools`: `{"type": ..., "function": ...}`. */
  datatype Tool = Tool(kind: string, decl: FunctionDecl)

  /** `functools.partial(qa_with_context, client=client, text=text)`. */
  datatype BoundQa = BoundQa(svc: Rag.Services, text: string)

  /** Calling the bound function with a question; `chunk_size` keeps its
      default, so the call cannot hit the zero-step error: it fails on an empty
      document or on a position the search returned out of range. */
  function Call(f: BoundQa, question: string): (r: Result<string>)
    ensures r == Err(EmptyCorpus) <==> f.text == []
    ensures r.Err? ==> r.error == EmptyCorpus || r.error == IndexOutOfRange
  {
    Rag.QaWithContext(f.svc, f.text, question, Rag.DefaultChunkSize)
  }

  /** The descriptor of the retrieval tool: a function named
      `qa_with_context` whose one required parameter, the question, is a
      described string. */
  function QaTool(): (t: Tool)
    ensures t.kind == "function" && t.decl.name == QaToolName
    ensures t.decl.parameters.required == ["question"]
    ensures forall p :: p in t.decl.parameters.required ==>
      p in t.decl.parameters.properties && t.decl.parameters.properties[p].kind == "string"
  {
    Tool("function", FunctionDecl(
      QaToolName,
      "Answer AI related user question by retrieving relevant context",
      Parameters(
        "object",
        map["question" := Property("string", "User question")],
        ["question"])))
  }

  /** Every declared tool can be dispatched, and every parameter a tool
      requires is one it describes. */
  ghost predicate WellFormed(tools: seq<Tool>, table: map<string, BoundQa>)
  {
    && (forall t :: t in tools ==> t.decl.name in table)
    && (forall t, p :: t in tools && p in t.decl.parameters.required ==>
          p in t.decl.parameters.properties)
  }

  /** `configure_tools(client, text)`: the tool list and the dispatch table. */
  function ConfigureTools(svc: Rag.Services, text: string): (r: (seq<Tool>, map<string, BoundQa>))
    ensures |r.0| == 1 && r.0[0].decl.name == QaToolName
    ensures r.1.Keys == {QaToolName}
    ensures forall name :: name in r.1 ==> r.1[name] == BoundQa(svc, text)
    ensures WellFormed(r.0, r.1)
  {
    ([QaTool()], map[QaToolName := BoundQa(svc, text)])
  }

  /** `names_to_functions[name](question=question)`: an absent name raises KeyError. */
  function Dispatch(table: map<string, BoundQa>, name: string, question: string): (r: Result<string>)
    ensures name !in table ==> r == Err(UnknownKey)
  {
    if name in table then Call(table[name], question) else Err(UnknownKey)
  }

  /** The configured table answers exactly the one tool name, with the
      retrieval pipeline over the configured document. */
  lemma DispatchConfigured(svc: Rag.Services, text: string, name: string, question: string)
    ensures var table := ConfigureTools(svc, text).1;
      Dispatch(table, name, question) ==
        if name == QaToolName then Rag.QaWithContext(svc, text, question, Rag.DefaultChunkSize)
        else Err(UnknownKey)
  {
  }
}
