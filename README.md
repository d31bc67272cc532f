# RAGination retrieval core in Dafny

A model of the retrieval-augmented question answering in `rag.py`. The
`qa_with_context` pipeline cuts a document into fixed-size character chunks
and asks a vector index for the chunks nearest to the question. It maps the
positions it gets back to chunks, puts them into a fixed prompt template with
the question, and sends the prompt to a chat model. `configure_tools` offers
this pipeline to the chat model as a callable tool named `qa_with_context`.

Modules:

- `Py` (py.dfy): the Python built-ins the code relies on. These are `range(0, n, step)`, slicing with clamped bounds, indexing where a negative index counts from the end, and the exceptions these raise, as a `Result`.
- `Chunker` (chunker.dfy): `split_into_chunks`. `Chunks` is the list comprehension over `range` for a positive size. `SplitIntoChunks` takes any integer size: a size of zero raises, because `range` refuses a zero step. A negative size gives an empty list, because the range is then empty.
- `Retrieval` (retrieval.dfy): `[chunks[i] for i in I[0]]`. The row `I[0]` of search positions is an input.
- `PromptTemplate` (prompt.dfy): the f-string prompt, kept exactly, with its line breaks and indentation.
- `Rag` (rag.dfy): `qa_with_context`, the whole pipeline. The embedding service, the index search, Python's rendering of a list and the chat model are the fields of a `Services` value passed in.
- `Tools` (tools.dfy): the tool descriptor, the dispatch table and the lookup by name.

The chunker's main results:

- Writing the chunks back to back gives the text (`ConcatChunks`).
- Every chunk but the last has the chunk size. The last one is non-empty and holds the remainder (`ChunkLengths`).
- The count is the ceiling of length over size (`ChunkCount`).
- No other sequence of pieces has these properties (`PartitionUnique`).

Facts about the code that the model keeps:

- The test document `"This is a test document for chunking."` has 37 characters. Its four chunks are as the test expects (`TestDocumentExample`).
- A chunk size below one is not one error. Zero raises ValueError from `range`. A negative size yields no chunks, and the pipeline then fails as for an empty document.
- An empty document fails because `np.array([]).shape[1]` raises IndexError; there is no explicit check. The model calls this outcome `EmptyCorpus`.
- The code has no special case for more neighbours asked than there are chunks. A position the search returns goes through Python indexing, where `-1` is the last chunk (`RetrieveNegative`) and a position at or past the end raises IndexError.

## Model

| member | source | states |
|---|---|---|
| Py.Steps | rag.py:26 | `range(0, len(text), chunk_size)` for a positive step: element k is k times the step, every element is below the length, and length times step reaches the length (no start is missed) |
| Chunker.Chunks | rag.py:26 | the list comprehension itself, for a positive size; its own contract says no chunk is longer than `chunk_size`; `ChunkAt`, `ChunkCount`, `ChunkLengths` and `PartitionUnique` state the rest |
| Chunker.ChunkAt | rag.py:26 | chunk j starts inside the text at j*size and is `text[j*size .. min(j*size + size, len)]`, so order is preserved |
| Chunker.SplitIntoChunks | rag.py:25-26 | a zero chunk size is the only error (ValueError from `range`); a negative size gives `[]`; a positive size gives a fixed-size partition of the text |
| Chunker.ChunkCount | rag.py:26 | no chunks exactly when the text is empty; the count n satisfies (n-1)*size < len <= n*size, i.e. it is the ceiling of len/size |
| Chunker.ChunkLengths | rag.py:26 | every chunk but the last has length exactly `chunk_size`; the last has length between 1 and `chunk_size`, equal to len mod size, or size when it divides |
| Chunker.ChunksUnfold | rag.py:26 | the chunks are the first window of `chunk_size` characters followed by the chunks of the rest (or the whole text when it fits in one window) |
| Chunker.ConcatChunks | rag.py:26 | concatenating the chunks in order gives back the input exactly: no overlap, no loss |
| Chunker.ChunksArePartition | rag.py:26 | the chunks are a fixed-size partition: they concatenate to the text, all but the last have length size, the last is non-empty and at most size |
| Chunker.PartitionUnique | rag.py:26 | any fixed-size partition of the text is the chunker's output, so the chunker is fully determined by those properties |
| Chunker.SingleCharacters | rag.py:26 | a chunk size of 1 splits the text into its single characters |
| Chunker.TestDocumentExample | test_rag.py:32-37 | the 37-character test document in windows of 10 gives `["This is a ", "test docum", "ent for ch", "unking."]` |
| Retrieval.RetrieveChunks | rag.py:39 | succeeds exactly when every position is one Python can index (IndexError otherwise); the result has one item per position, item m is `chunks[I[m]]` under Python indexing (negative counts from the end), each one of the chunks |
| Retrieval.RetrieveInRange | rag.py:38-39 | with every position in `[0, len(chunks))`, item m of the result is `chunks[I[m]]`, same length and order as the search row |
| Retrieval.RetrieveMixedRow | rag.py:39 | over a single chunk, the row `[0, -1]` retrieves that chunk twice |
| Retrieval.RetrieveNegative | rag.py:39 | a negative position selects the chunk counted from the end (`-1` is the last chunk) |
| Retrieval.RetrieveFromNothing | rag.py:39 | indexing an empty list of chunks with any position raises IndexError |
| Retrieval.RetrieveAppend | rag.py:39 | retrieval keeps the search order: retrieving a concatenated row gives the concatenated retrievals |
| PromptTemplate.BuildPrompt | rag.py:42-50 | the prompt starts with the fixed opening lines and ends with the fixed `Answer:` lines; its length is the template's plus context and question |
| PromptTemplate.PromptRoundTrip | rag.py:42-50 | the context and the question can be read back from their fixed places in the prompt |
| PromptTemplate.PromptInjective | rag.py:42-50 | for contexts of one length, different contexts or questions give different prompts |
| PromptTemplate.PromptForbidsPriorKnowledge | rag.py:47 | every prompt contains the instruction to answer from the context and not prior knowledge |
| PromptTemplate.PromptHasQuestion | rag.py:48 | every prompt contains the question |
| Rag.QaPrompt | rag.py:24-50 | zero chunk size fails with the range error; otherwise an empty document or negative size fails with the empty-corpus error; a prompt that is built contains the question just before the closing `Answer:` lines |
| Rag.QaWithContext | rag.py:24-52 | the answer exists exactly when the prompt does and is the chat model's reply to that prompt; otherwise it fails with the prompt's error |
| Rag.QaPromptRetrieves | rag.py:28-50 | for a non-empty document, positive size and a search row Python can index, the prompt is the template around the rendering of `[chunks[i] for i in I[0]]` (Python indexing) and the question |
| Rag.QaPromptOutOfRange | rag.py:39 | for a non-empty document and positive size, the pipeline raises IndexError exactly when the search row holds a position Python cannot index into the chunks |
| Rag.QaPromptRetrievesInRange | rag.py:28-50 | for a search row inside `[0, len(chunks))`, the rendered context is of `chunks[I[m]]` for each m, in search order |
| Rag.FixedReply | test_rag.py:25-30 | with a chat model that always returns the same reply and a search row Python can index, every non-empty document, question and positive size get exactly that reply |
| Tools.Call | rag.py:73 | the bound tool never raises the range error; of the modelled errors, it fails with the empty-corpus error exactly on an empty document, otherwise only on an out-of-range position |
| Tools.QaTool | rag.py:56-71 | the descriptor is a `"function"` named `qa_with_context` whose only required parameter, `question`, is a described string property |
| Tools.ConfigureTools | rag.py:55-75 | exactly one tool, named `qa_with_context`; the dispatch map's keys are exactly `{"qa_with_context"}` and bind the given client and document; every declared tool is dispatchable and its required parameters are described |
| Tools.Dispatch | rag.py:104 | a name missing from the table raises KeyError |
| Tools.DispatchConfigured | rag.py:72-74 | on the configured table, `qa_with_context` runs the pipeline over the configured document with the default chunk size, and every other name raises KeyError |

## Left out

- Embedding calls (`get_text_embedding`), the FAISS `IndexFlatL2` build and search, float vectors and numpy shapes are not modelled. They are remote or foreign code over floating point. `Services.nearest` stands for all of them and returns the search row `I[0]`.
- Rag.QaPrompt, Rag.QaWithContext, Tools.Call: exceptions raised by the embedding calls, the numpy array of embeddings, the FAISS `add` and `search` and the chat call (rag.py:20, 29, 33-34, 38, 51) are not modelled, because `Services` gives total functions. The error cases these members list are complete only for the errors the code itself raises: the zero step and the empty corpus (`QaPrompt`) and the out-of-range position (`QaPromptOutOfRange`).
- Rag.QaPrompt: the model does not require the search row to have exactly `k = 2` positions. What FAISS returns, including for fewer than two chunks, is not visible in this code.
- The chat call is `Services.chat`, a function from the prompt to the reply text. The model does not capture the response object and its `choices[0].message.content` path.
- Python's `str()` of the retrieved list (quoting and escaping) is `Services.render`, left abstract.
- Rag.FixedReply: the test checks `"mock response" in response.lower()`; the lemma states the stronger exact reply and does not model lower-casing. The test mocks `chat.complete` while the code calls `chat`; the model does not reconcile the two.
- Tools.Dispatch: JSON decoding of the tool arguments (`json.loads`, `**args`) is not modelled; the question is passed directly.
- `initialize_client` (environment lookup), `main` (file read) and `chatbot_loop` (standard input and output, message history, catch-all exception handling) are I/O glue and are not modelled.
- The client object bound by `functools.partial` is the `Services` value; connection details and credentials are not modelled.
