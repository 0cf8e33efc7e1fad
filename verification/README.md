# inductive_coder, modelled in Dafny

This project models the deterministic core of `inductive_coder`. The tool does
inductive qualitative coding of text documents with an LLM, in two rounds:

- **Round 1 (reading).** A reading workflow reads every document, keeps notes
  and turns them into a code book.
- **Round 2.** The code book is applied in one of two modes:
  - in *coding* mode, per sentence: a coding workflow cuts each document into
    chunks and codes the relevant chunks;
  - in *categorization* mode, per document: a categorization workflow
    categorizes whole documents.

The use cases load the input documents, refuse an empty input directory, read
the code book or load a saved one, run round 2 and save the result.
Persistence works over JSON files.

## What the model covers

- **The LLM is an oracle.** Every `generate` / `generate_structured` call is a
  function parameter from a request record to the structured response. A
  request record holds what the prompt is built from, not the prompt text.
  Each node is a total function from state (and oracle) to state. Each
  LangGraph workflow is:
  - a recursive `Run` function over its node labels, which gives the meaning
    of a run;
  - a closed form of that run, proved as lemmas;
  - an `Execute` method whose `while` loop drives the nodes along the wired
    edges and is proved to compute `Run`.
- **Entities.** Sentence parsing, the code book and its queries, and the
  append-only analysis result. The result is a `class` whose methods append in
  place.
- **Persistence** works over abstract records instead of files:
  - a directory listing;
  - the `code_book.json` object;
  - the `sentence_codes.json` / `document_codes.json` groupings;
  - the figures of `summary.txt`.

  The dictionary-filling loops are methods proved against grouping functions.
  Reloading is proved to give back, up to order, every saved sentence or
  document code whose name the reloaded book resolves, carrying the book's
  code of that name, with a missing rationale read as `""`. A code book
  comes back with its codes' names, descriptions and criteria, its mode and
  its context, but flat and without parents (see Findings).
- **Use cases** run against a `Storage` object that holds:
  - the input directories;
  - the code-book files;
  - the output directories;
  - a log of what was run and written.

  `Variant` selects the program *as written* or with its two defects corrected
  (see Findings).
- **The LLM client registry** covers the environment fallback chain of
  `get_node_model` and the memo dictionary of `get_llm_client` /
  `set_llm_client`. The registry is a class with a `map` field, and the
  environment is a parameter.
- **The earlier monolithic `workflows.py`.** Its round 1 appends
  `"Document <name>:\n<response>"` entries to a list of notes. Its round 2
  reuses the split coding and categorization definitions: it repeats their
  node logic, apart from the prompt text and the client lookup.

Modules:
- `Wrappers`, `Seqs`, `Text`, `Sorting` and `Grouping`: Python's list, string,
  sort and dictionary idioms.
- `Entities`.
- `CodingNodes` / `CodingEdges` / `CodingGraph`.
- `ReadingNodes` / `ReadingEdges` / `ReadingGraph`.
- `CategorizationNodes` / `CategorizationEdges` / `CategorizationGraph`.
- `Repositories`, `UseCases`, `LlmClient` and `Workflows`.

## Model

| member | source | states |
|---|---|---|
| Entities.ModeFromValue | inductive_coder/domain/entities.py:9-13 | `AnalysisMode(value)` succeeds exactly for "coding" and "categorization", and the value of the mode found is the input |
| Entities.ModeValueRoundTrip | inductive_coder/domain/entities.py:9-13 | reading back a mode's value gives the mode |
| Entities.CodeBook.AddCode | inductive_coder/domain/entities.py:83-85 | the book grows by one, the new code is last, earlier codes and the mode, context and depth are unchanged |
| Entities.CodeBook.GetCode | inductive_coder/domain/entities.py:87-92 | None exactly when no code has the name; otherwise the code found has the name and no earlier code has it |
| Entities.CodeBook.GetChildren | inductive_coder/domain/entities.py:94-96 | exactly the codes whose parent is the given name (order and repetitions: `Entities.ChildrenAfterAdd`) |
| Entities.CodeBook.GetRootCodes | inductive_coder/domain/entities.py:98-100 | exactly the codes without a parent (order and repetitions: `Entities.RootsAfterAdd`) |
| Entities.RootsOfParentless | inductive_coder/domain/entities.py:98-100 | when no code has a parent, the roots are the whole book in order |
| Entities.GetCodeAfterAdd | inductive_coder/domain/entities.py:83-92 | after `add_code`, a lookup finds an earlier code of that name first, otherwise the added code exactly when the names agree |
| Entities.RootOrChild | inductive_coder/domain/entities.py:94-100 | every code of the book is a root or a child of its parent |
| Entities.ChildrenAfterAdd | inductive_coder/domain/entities.py:83-96 | an empty book has no children; after `add_code` the new code is appended to its parent's children and to no other code's, so `get_children` lists codes in book order with repetitions kept |
| Entities.RootsAfterAdd | inductive_coder/domain/entities.py:83-100 | an empty book has no roots; after `add_code` the new code is appended to the roots exactly when it has no parent, so `get_root_codes` lists codes in book order with repetitions kept |
| Entities.SentenceIdInjective | inductive_coder/domain/entities.py:130 | ids `<stem>_<n>` with the same stem and different line numbers differ |
| Entities.LineSentence | inductive_coder/domain/entities.py:128-136 | a line yields one sentence exactly when its stripped text is non-empty, with that text, the number, the id `<stem>_<n>` and the path |
| Entities.ParseLinesAppend | inductive_coder/domain/entities.py:127-137 | parsing one more line appends that line's sentence, if any |
| Entities.ParseLinesSound | inductive_coder/domain/entities.py:124-137 | every parsed sentence comes from a non-blank line and carries its stripped text, 1-based number, id and path |
| Entities.ParseLinesIncreasing | inductive_coder/domain/entities.py:127-137 | line numbers strictly increase along the parsed sentences |
| Entities.ParseLinesComplete | inductive_coder/domain/entities.py:127-129 | every line whose stripped text is non-empty yields a sentence |
| Entities.ParsedIdsDistinct | inductive_coder/domain/entities.py:125-131 | sentence ids within one parsed document are pairwise distinct |
| Entities.ParseSentences | inductive_coder/domain/entities.py:122-137 | the loop over `content.split('\n')` returns exactly the parsed sentences of the lines, in line order |
| Entities.NewDocument | inductive_coder/domain/entities.py:117-120 | parsing happens only when no sentences were supplied and the content is non-empty; supplied sentences are kept |
| Entities.AnalysisResult.constructor | inductive_coder/domain/entities.py:163-170 | the result holds the given mode, book and code lists |
| Entities.AnalysisResult.AddSentenceCode | inductive_coder/domain/entities.py:172-174 | appends; the per-sentence and per-code queries grow by exactly that code; nothing else changes |
| Entities.AnalysisResult.AddDocumentCode | inductive_coder/domain/entities.py:176-178 | appends; the per-document query grows by exactly that code; nothing else changes |
| Entities.AnalysisResult.CodesForSentence | inductive_coder/domain/entities.py:180-182 | exactly the sentence codes with that id (order and repetitions: `Entities.SentenceQueriesInOrder`) |
| Entities.AnalysisResult.CodesForDocument | inductive_coder/domain/entities.py:184-186 | exactly the document codes for that path (order and repetitions: `Entities.DocumentQueryInOrder`) |
| Entities.AnalysisResult.SentencesForCode | inductive_coder/domain/entities.py:188-190 | exactly the sentence codes whose code has that name (order and repetitions: `Entities.SentenceQueriesInOrder`) |
| Entities.SentenceQueriesInOrder | inductive_coder/domain/entities.py:180-190 | the per-sentence and per-code queries over a list made of two parts are the query over the first part followed by that over the second, one code is kept exactly when it matches, and an empty list gives nothing: list order and repetitions, for any list |
| Entities.DocumentQueryInOrder | inductive_coder/domain/entities.py:184-186 | the per-document query likewise keeps list order and repetitions for any list |
| Text.StripFacts | inductive_coder/domain/entities.py:128 | `strip()` gives "" exactly for all-white-space text, and otherwise neither starts nor ends with white space |
| Text.JoinSplit | inductive_coder/domain/entities.py:124 | joining the pieces of `split('\n')` gives the content back |
| Text.SplitPiecesFree | inductive_coder/domain/entities.py:124 | no piece of a split holds the separator |
| Text.ParseNatToString | inductive_coder/domain/entities.py:130 | the decimal line number in an id reads back as that number |
| Text.NatToString | inductive_coder/domain/entities.py:130 | `str(n)` of a line number is a non-empty run of decimal digits |
| Text.NatToStringInjective | inductive_coder/domain/entities.py:130 | different line numbers print differently |
| Text.FileNameFacts | inductive_coder/infrastructure/repositories.py:188 | a path's name holds no '/' and is a suffix of the path |
| Text.LastIndexOfFacts | inductive_coder/domain/entities.py:125 | the index found holds the character and nothing after it does; -1 means absent |
| CodingNodes.RangeStart | inductive_coder/application/coding_workflow/nodes.py:105-107 | the index of the first sentence with the start id, or the length when absent |
| CodingNodes.RangeStop | inductive_coder/application/coding_workflow/nodes.py:110-111 | one past the first sentence with the end id, or the length when absent |
| CodingNodes.RangeSlice | inductive_coder/application/coding_workflow/nodes.py:102-111 | the collected sentences are `sentences[i..k]` for the first start-id index i and the break point k, and empty when the start id is absent or the break comes first |
| CodingNodes.RangeSliceFacts | inductive_coder/application/coding_workflow/nodes.py:102-111 | the slice starts at the start id, holds the end id at most as its last element, and is empty exactly when the scan never reaches the start id |
| CodingNodes.CollectRange | inductive_coder/application/coding_workflow/nodes.py:102-111 | the `in_range` / `break` loop collects exactly `RangeSlice` |
| CodingNodes.RangeChunk | inductive_coder/application/coding_workflow/nodes.py:113-121 | an empty collection is dropped; a kept chunk has the ids exactly as given, the collected sentences and the range's `should_code` |
| CodingNodes.ChunksOfSound | inductive_coder/application/coding_workflow/nodes.py:97-121 | every chunk is non-empty, holds what its ids collect, and keeps `should_code` from one of the ranges |
| CodingNodes.ChunksOfComplete | inductive_coder/application/coding_workflow/nodes.py:97-121 | every range that collects something contributes its chunk |
| CodingNodes.ChunksOfConcat | inductive_coder/application/coding_workflow/nodes.py:97-121 | chunks follow the order of the ranges, and each range contributes at most one chunk |
| CodingNodes.BuildChunks | inductive_coder/application/coding_workflow/nodes.py:96-121 | the loop over the response's ranges returns exactly `ChunksOf` |
| CodingNodes.WholeDocument | inductive_coder/application/coding_workflow/nodes.py:84-94 | without chunking: one chunk from the first to the last id holding every sentence and marked relevant, or none for an empty document |
| CodingNodes.DecidedChunksFacts | inductive_coder/application/coding_workflow/nodes.py:82-121 | every decided chunk is non-empty and made of the document's sentences |
| CodingNodes.ResolveSentenceCodes | inductive_coder/application/coding_workflow/nodes.py:166-177 | at most one code per entry, never more than the response holds; order and repetitions are stated by `ResolveSentenceCodesConcat` |
| CodingNodes.ResolveSentenceCodesFacts | inductive_coder/application/coding_workflow/nodes.py:166-177 | each kept code is the book's code of the entry's name, with the sentence id and rationale copied; entries with unknown names are dropped and no other entry is |
| CodingNodes.ResolveSentenceCodesConcat | inductive_coder/application/coding_workflow/nodes.py:166-177 | resolution goes entry by entry, in response order, a repeated entry giving its code again |
| CodingNodes.ConvertSentenceCodes | inductive_coder/application/coding_workflow/nodes.py:166-177 | the conversion loop returns exactly `ResolveSentenceCodes` |
| CodingNodes.DecideChunkingFacts | inductive_coder/application/coding_workflow/nodes.py:50-127 | documents, book, index and codes stay; the chunk index restarts at 0; past the end there are no chunks and no current document; otherwise the current document is the indexed one and its chunks are non-empty slices of it |
| CodingNodes.DecideChunkingPastEnd | inductive_coder/application/coding_workflow/nodes.py:53-58 | past the last document the node's result does not depend on the model |
| CodingNodes.DecideChunkingNode | inductive_coder/application/coding_workflow/nodes.py:48-127 | the node computes `DecideChunking` with the model's chunker |
| CodingNodes.CodeChunkFacts | inductive_coder/application/coding_workflow/nodes.py:136-182 | only the chunk index and codes change; past the end nothing changes; otherwise the index advances by one, an irrelevant chunk adds no code, and codes only grow by codes of the book |
| CodingNodes.CodeChunkSkipsModel | inductive_coder/application/coding_workflow/nodes.py:136-143 | an index past the end or an irrelevant chunk makes the result independent of the model |
| CodingNodes.CodeChunkNode | inductive_coder/application/coding_workflow/nodes.py:130-182 | the node computes `CodeChunk` with the model's coder |
| CodingNodes.NextDocument | inductive_coder/application/coding_workflow/nodes.py:185-187 | the document index goes up by exactly one and nothing else changes |
| CodingEdges.ShouldContinueCodingChunks | inductive_coder/application/coding_workflow/edges.py:8-12 | code_chunk exactly when the chunk index is below the number of chunks, otherwise next_document |
| CodingEdges.ShouldContinueCodingDocuments | inductive_coder/application/coding_workflow/edges.py:15-19 | decide_chunking exactly when the index is below `len(documents) - 1`, otherwise END |
| CodingEdges.ShouldContinueCodingDocumentsCorrected | inductive_coder/application/coding_workflow/edges.py:15-19 | the corrected router: decide_chunking exactly when the index is a document |
| CodingGraph.ChunkLoop | inductive_coder/application/coding_workflow/graph.py:61-68 | from code_chunk the run codes every remaining chunk in order and reaches next_document with those codes appended |
| CodingGraph.AfterPassFacts | inductive_coder/application/coding_workflow/graph.py:61-79 | one pass moves to the next document and appends that pass's codes |
| CodingGraph.RunPass | inductive_coder/application/coding_workflow/graph.py:58-79 | a run from decide_chunking makes one pass, then ends or starts the next pass as the router says |
| CodingGraph.DocLoop | inductive_coder/application/coding_workflow/graph.py:58-79 | a run entered at index d appends the codes of passes d up to the router's stop index, in order |
| CodingGraph.ExecuteClosedForm | inductive_coder/application/coding_workflow/graph.py:32-43 | `execute` returns the codes of the documents the router lets through, in document order; with at most one document, exactly one pass runs |
| CodingGraph.Execute | inductive_coder/application/coding_workflow/graph.py:26-79 | the loop from the initial state (index 0, no chunks, no codes) returns the run's `sentence_codes` |
| CodingGraph.DocsCodesSplit | inductive_coder/application/coding_workflow/graph.py:61-79 | the passes d..e are passes d..m followed by m..e |
| CodingGraph.DocsCodesPrefix | inductive_coder/application/coding_workflow/graph.py:61-79 | passes that stop before document k do not depend on the documents from k on |
| CodingGraph.AsWrittenSkipsLastDocument | inductive_coder/application/coding_workflow/edges.py:17 | as written, over two or more documents the run returns what the corrected run returns over all but the last document |
| CodingGraph.CorrectedCodesEveryDocument | inductive_coder/application/coding_workflow/edges.py:15-19 | the corrected run returns the as-written result followed by the codes of the last document |
| CodingGraph.CorrectedIsEveryDocument | inductive_coder/application/coding_workflow/graph.py:61-79 | the corrected run returns every document's codes, in document order |
| CodingGraph.RoutersAgreeOnShortInputs | inductive_coder/application/coding_workflow/edges.py:17 | with at most one document both routers give the same codes |
| CodingGraph.RunCodesFromBook | inductive_coder/application/coding_workflow/nodes.py:168-177 | every code a run returns is a code of the book |
| CodingGraph.ChunkCodesFromBook | inductive_coder/application/coding_workflow/nodes.py:168-177 | every code of a document's chunks is a code of the book |
| CodingGraph.DocsCodesFromBook | inductive_coder/application/coding_workflow/nodes.py:168-177 | every code of any run of passes is a code of the book |
| ReadingNodes.NotesSuffixFacts | inductive_coder/application/reading_workflow/nodes.py:55-57 | the system prompt grows exactly when the notes are non-empty, and then carries them verbatim |
| ReadingNodes.NotesSuffixInjective | inductive_coder/application/reading_workflow/nodes.py:55-57 | different notes give different prompts |
| ReadingNodes.ReadDocumentPastEnd | inductive_coder/application/reading_workflow/nodes.py:37-38 | past the end the node changes nothing and does not depend on the model |
| ReadingNodes.ReadDocumentReplacesNotes | inductive_coder/application/reading_workflow/nodes.py:59-64 | the notes become exactly the generated text, the index advances by one, and nothing else changes |
| ReadingNodes.ReadDocumentIgnoresEmptyNotes | inductive_coder/application/reading_workflow/nodes.py:55-57 | notes without content (the initial empty list or "") never reach the model |
| ReadingNodes.CodesOf | inductive_coder/application/reading_workflow/nodes.py:89-92 | one code per entry in response order, with name, description and criteria copied and no parent |
| ReadingNodes.BookOfRoots | inductive_coder/application/reading_workflow/nodes.py:89-94 | every code of the built book is a root |
| ReadingNodes.BookOfNoChildren | inductive_coder/application/reading_workflow/nodes.py:89-94 | no code of the built book has children |
| ReadingNodes.BookOfFinds | inductive_coder/application/reading_workflow/nodes.py:89-94 | every entry's name is found in the built book |
| ReadingEdges.ShouldContinueReading | inductive_coder/application/reading_workflow/edges.py:6-10 | read_document exactly when the index is a document, otherwise create_codebook |
| ReadingGraph.ReadPass | inductive_coder/application/reading_workflow/graph.py:56-63 | one read pass makes the first request, and the requests and notes still to come are those of the next state |
| ReadingGraph.ReadLoop | inductive_coder/application/reading_workflow/graph.py:56-65 | from read_document the run reads every remaining document, then builds the code book once from the final notes |
| ReadingGraph.ReadStep | inductive_coder/application/reading_workflow/graph.py:56-63 | one read_document step of the loop keeps the calls made plus the calls to come equal to the whole list, keeps the final notes, and moves the run on along the router's edge |
| ReadingGraph.ReadsFromLength | inductive_coder/application/reading_workflow/edges.py:6-10 | one read call per remaining document |
| ReadingGraph.ReadsFromChain | inductive_coder/application/reading_workflow/nodes.py:43-62 | the k-th call is made for document i+k, with the starting notes when k is 0 and otherwise with the text the previous call wrote |
| ReadingGraph.ReadsFromAt | inductive_coder/application/reading_workflow/nodes.py:40-62 | the k-th request is built from document i+k with the notes held after k reads |
| ReadingGraph.NotesFromIsLast | inductive_coder/application/reading_workflow/nodes.py:59-64 | the final notes are the last generated text, or the starting notes when nothing is read |
| ReadingGraph.RequestsLength | inductive_coder/application/reading_workflow/edges.py:8-10 | one request per remaining document |
| ReadingGraph.RequestsFollowDocuments | inductive_coder/application/reading_workflow/nodes.py:40-53 | the k-th request is built from document `docIndex + k`, in the state's mode and context |
| ReadingGraph.RequestsChain | inductive_coder/application/reading_workflow/nodes.py:43-62 | the first request carries the starting notes, and each later one the text the previous call generated |
| ReadingGraph.FinalNotesIsLast | inductive_coder/application/reading_workflow/nodes.py:62-69 | the notes handed to create_codebook are the last generated text |
| ReadingGraph.ExecuteClosedForm | inductive_coder/application/reading_workflow/graph.py:29-39 | `execute` returns the book built from the final notes, in the requested mode and context, with the flat default |
| ReadingGraph.ReadingCallsPerDocument | inductive_coder/application/reading_workflow/graph.py:29-65 | over n documents: n read calls in index order, the first with no notes; with none, the book is built from the initial empty list |
| ReadingGraph.Execute | inductive_coder/application/reading_workflow/graph.py:22-65 | the loop returns the run's code book and the read calls it made, in order |
| CategorizationNodes.ResolveDocumentCodes | inductive_coder/application/categorization_workflow/nodes.py:57-69 | at most one code per name |
| CategorizationNodes.ResolveDocumentCodesFacts | inductive_coder/application/categorization_workflow/nodes.py:59-69 | each kept code is the book's code of a response name, for the document's path, with `rationales.get(name)`; unknown names are dropped and no others; the length equals the number of names exactly when all resolve |
| CategorizationNodes.ResolveDocumentCodesConcat | inductive_coder/application/categorization_workflow/nodes.py:59-69 | resolution goes name by name, in response order |
| CategorizationNodes.ConvertDocumentCodes | inductive_coder/application/categorization_workflow/nodes.py:57-69 | the conversion loop returns exactly `ResolveDocumentCodes` |
| CategorizationNodes.CategorizeDocumentFacts | inductive_coder/application/categorization_workflow/nodes.py:31-74 | only the index and codes change; past the end nothing changes; otherwise the index advances by one and the document's codes are appended |
| CategorizationNodes.CategorizeDocumentPastEnd | inductive_coder/application/categorization_workflow/nodes.py:31-32 | past the end the result does not depend on the model |
| CategorizationNodes.CategorizeDocumentNode | inductive_coder/application/categorization_workflow/nodes.py:26-74 | the node computes `CategorizeDocument` with the model's categorizer |
| CategorizationEdges.ShouldContinueCategorization | inductive_coder/application/categorization_workflow/edges.py:8-12 | categorize_document exactly when the index is a document, otherwise END |
| CategorizationGraph.CategorizeLoop | inductive_coder/application/categorization_workflow/graph.py:49-56 | from categorize_document the run appends the codes of every remaining document in order |
| CategorizationGraph.ExecuteClosedForm | inductive_coder/application/categorization_workflow/graph.py:25-33 | `execute` returns the concatenation of the per-document codes in document order; none without documents |
| CategorizationGraph.Execute | inductive_coder/application/categorization_workflow/graph.py:19-56 | the loop from index 0 and no codes returns the run's `document_codes` |
| CategorizationGraph.EveryDocumentOnce | inductive_coder/application/categorization_workflow/edges.py:10 | one more document adds exactly its codes at the end: each document is categorized once, in order |
| CategorizationGraph.CodesFromAppend | inductive_coder/application/categorization_workflow/graph.py:49-56 | the codes over documents followed by one more are the codes over the documents followed by that document's codes |
| CategorizationGraph.CodesFromBook | inductive_coder/application/categorization_workflow/nodes.py:60-74 | each code of documents i.. is a code of the book, for the path of one of those documents |
| CategorizationGraph.RunCodesFromBook | inductive_coder/application/categorization_workflow/nodes.py:60-69 | every returned code is a code of the book, for one of the documents |
| Sorting.SortBy | inductive_coder/infrastructure/repositories.py:49 | the keys ascend and the elements are a permutation of the input |
| Sorting.InsertSorted | inductive_coder/infrastructure/repositories.py:49 | inserting into a sorted list keeps it sorted |
| Sorting.StrLeTotal | inductive_coder/infrastructure/repositories.py:49 | Python's string order compares any two names |
| Sorting.StrLeTransitive | inductive_coder/infrastructure/repositories.py:49 | the string order is transitive |
| Sorting.StrLeAntisymmetric | inductive_coder/infrastructure/repositories.py:49 | names ordered both ways are equal |
| Repositories.LoadedDocument | inductive_coder/infrastructure/repositories.py:26-32 | the document of a file: its path and content, its sentences parsed |
| Repositories.DiscoveredFacts | inductive_coder/infrastructure/repositories.py:42-49 | the documents are sorted by file name and are exactly those of the `*.txt` and `*.md` regular files, one per match |
| Repositories.CollectMatching | inductive_coder/infrastructure/repositories.py:43-46 | one glob pass appends the documents of the matching files, in listing order |
| Repositories.LoadDocuments | inductive_coder/infrastructure/repositories.py:34-51 | a missing directory fails with FileNotFoundError; otherwise the discovered documents |
| Repositories.SaveCodeBook | inductive_coder/infrastructure/repositories.py:62-77 | the record holds the mode's value, the context, and each code's name, description and criteria in book order |
| Repositories.LoadCodeBook | inductive_coder/infrastructure/repositories.py:82-102 | a missing file or unknown mode fails; otherwise codes rebuilt in order without parent, the mode, the context ("" if absent) and the flat default |
| Repositories.CodeBookRoundTrip | inductive_coder/infrastructure/repositories.py:62-102 | save then load keeps mode, context and each code's name, description and criteria, and drops parents and depth |
| Repositories.CodeBookRoundTripExact | inductive_coder/infrastructure/repositories.py:62-102 | a flat book without parents comes back unchanged |
| Repositories.AsWrittenLosesHierarchy | tests/test_repositories.py:147-202 | the test's two-level book, with a child under "Parent", reloads flat, with no children under "Parent" and both codes as roots |
| Repositories.DepthFromValue | inductive_coder/domain/entities.py:16-21 | `HierarchyDepth(value)` succeeds exactly for "1", "2" and "arbitrary", and the depth found has that value |
| Repositories.SaveCodeBookWithHierarchy | tests/test_repositories.py:179-184 | the corrected record also holds the depth's value and every code's parent, in book order |
| Repositories.LoadCodeBookWithHierarchy | tests/test_repositories.py:186-202 | the corrected load fails on a missing file or an unknown mode as the written one does, and otherwise gives one code per saved code |
| Repositories.CodeBookWithHierarchyRoundTrip | tests/test_repositories.py:147-202 | with the hierarchy saved, every book comes back exactly, parents and depth included |
| Repositories.SentenceCodesRecordFacts | inductive_coder/infrastructure/repositories.py:126-163 | both groupings have distinct keys, an entry for every code, each key's entries in order, and sizes summing to `total_coded_sentences` |
| Repositories.IdPrefixOfSentenceId | inductive_coder/infrastructure/repositories.py:147 | the file key of `<stem>_<n>` is the stem, even when the stem holds "_" |
| Repositories.ParsedSentenceFileKey | inductive_coder/infrastructure/repositories.py:145-150 | every parsed sentence is filed under its document's stem |
| Repositories.SaveSentenceCodes | inductive_coder/infrastructure/repositories.py:126-163 | the two filling loops write exactly `SentenceCodesRecordOf` |
| Repositories.PathsOfFacts | inductive_coder/infrastructure/repositories.py:200 | the distinct paths are those of the codes, no more than the codes, none exactly when there are no codes |
| Repositories.DocumentCodesRecordFacts | inductive_coder/infrastructure/repositories.py:168-203 | both groupings are faithful and hold every code once; `total_coded_documents` counts distinct paths, at most the codes, 0 exactly without codes |
| Repositories.SaveDocumentCodes | inductive_coder/infrastructure/repositories.py:168-203 | the two filling loops write exactly `DocumentCodesRecordOf` |
| Repositories.PerCodeFacts | inductive_coder/infrastructure/repositories.py:236-253 | per-code lines in ascending name order, each count the number of codes with that name, every name listed, counts summing to the number of codes |
| Repositories.SummaryFacts | inductive_coder/infrastructure/repositories.py:208-253 | the summary reports the mode and number of codes; in coding mode the total is the number of sentence codes, otherwise at most the number of document codes; counts sum to the codes of the mode |
| Repositories.SaveSummary | inductive_coder/infrastructure/repositories.py:208-253 | the counting loop and sort give exactly `SummaryOf` |
| Repositories.SaveResult | inductive_coder/infrastructure/repositories.py:108-124 | writes the code book, the codes file of the result's mode, and the summary |
| Repositories.SentenceCodesWith | inductive_coder/infrastructure/repositories.py:279-286 | one reloaded code per saved entry |
| Repositories.ExpandSentenceCodes | inductive_coder/infrastructure/repositories.py:276-286 | under a resolving name, reading its entries back re-adds each with the book's code |
| Repositories.AddSentenceCodeGroup | inductive_coder/infrastructure/repositories.py:276-286 | one outer round appends the entries of a resolving name, or nothing for an unknown name |
| Repositories.AddSentenceCodes | inductive_coder/infrastructure/repositories.py:276-286 | the outer loop appends the read-back of `codes_by_name` in file order |
| Repositories.DocumentCodesWith | inductive_coder/infrastructure/repositories.py:297-304 | one reloaded code per saved entry |
| Repositories.ExpandDocumentCodes | inductive_coder/infrastructure/repositories.py:294-304 | under a resolving name, reading its entries back re-adds each with the book's code |
| Repositories.AddDocumentCodeGroup | inductive_coder/infrastructure/repositories.py:294-304 | one outer round appends the entries of a resolving name, or nothing |
| Repositories.AddDocumentCodes | inductive_coder/infrastructure/repositories.py:294-304 | the outer loop appends the read-back of `codes_by_name` in file order |
| Repositories.LoadResult | inductive_coder/infrastructure/repositories.py:259-306 | fails as `load_code_book` fails; otherwise a new result whose mode is the saved book's, holding the reloaded codes of that mode (none when the file is missing) and none of the other |
| Repositories.SentenceReloaded | inductive_coder/infrastructure/repositories.py:276-286 | one sentence code through save and reload keeps its id and name, gets the book's code, and a None rationale comes back as "" |
| Repositories.DocumentReloaded | inductive_coder/infrastructure/repositories.py:294-304 | one document code through save and reload keeps its path and name, gets the book's code, rationale as saved |
| Repositories.SentenceCodesRoundTrip | inductive_coder/infrastructure/repositories.py:126-286 | reloading saved sentence codes gives, up to order, exactly the codes whose name resolves, normalised |
| Repositories.DocumentCodesRoundTrip | inductive_coder/infrastructure/repositories.py:168-304 | reloading saved document codes gives, up to order, exactly the codes whose name resolves, normalised |
| Repositories.MissingRationaleReadsEmpty | inductive_coder/infrastructure/repositories.py:140 | a None rationale is reloaded as "" |
| Repositories.SentenceCodesRoundTripExact | inductive_coder/infrastructure/repositories.py:126-286 | codes taken from the book with rationales come back as the same multiset |
| Repositories.DocumentCodesRoundTripExact | inductive_coder/infrastructure/repositories.py:168-304 | the same for document codes |
| Repositories.SaveThenLoad | inductive_coder/infrastructure/repositories.py:108-124 | after `save_result`, the book loads back as saved and the mode's codes file holds the result; the other file is untouched |
| Grouping.GroupByFaithful | inductive_coder/infrastructure/repositories.py:131-140 | the filled dictionary has distinct keys, an entry for every element's key, and under each key exactly its elements' values in order |
| Grouping.GroupBySizes | inductive_coder/infrastructure/repositories.py:131-161 | the list sizes add up to the number of elements |
| Grouping.GroupKeyUsed | inductive_coder/infrastructure/repositories.py:131-140 | no key of the filled dictionary has an empty list |
| Grouping.FillGroups | inductive_coder/infrastructure/repositories.py:131-140 | the `setdefault`/`append` loop builds exactly `GroupBy` |
| Grouping.UnfoldGroupBy | inductive_coder/infrastructure/repositories.py:276-286 | reading a filled dictionary back gives, up to order, exactly the elements whose key is picked |
| Grouping.CountByFacts | inductive_coder/infrastructure/repositories.py:236-238 | distinct keys, one per key of the elements, each count the number of elements with it, summing to the number of elements |
| Grouping.CountByIsSizes | inductive_coder/infrastructure/repositories.py:236-238 | counting is grouping and taking sizes |
| Grouping.FillCounts | inductive_coder/infrastructure/repositories.py:236-238 | the `get(k, 0) + 1` loop builds exactly `CountBy` |
| Grouping.SumCountsPermutation | inductive_coder/infrastructure/repositories.py:241 | sorting the counts does not change their total |
| UseCases.DocumentsFacts | inductive_coder/application/use_cases.py:56-59 | the use cases go on exactly when the directory exists and holds a `*.txt` or `*.md` file; a missing directory is the repository's error, an empty one `No documents found` |
| UseCases.LoadInputs | inductive_coder/application/use_cases.py:113-116 | `load_documents` plus the empty check give `Documents` |
| UseCases.CallReadingWorkflow | inductive_coder/application/use_cases.py:122-128 | the reading call as the variant makes it |
| UseCases.GenerationSteps | inductive_coder/application/use_cases.py:55-73 | generation step by step: a failed load or read writes nothing; otherwise the book is saved to `output_path` after one read |
| UseCases.RunCodeBookGeneration | inductive_coder/application/use_cases.py:34-73 | the storage after the call and the result are those of `GenerationRun` |
| UseCases.GenerateFromDocuments | inductive_coder/application/use_cases.py:61-73 | from the loaded documents on, the storage and result are those of `GenerationRun` |
| UseCases.GeneratedBookLoadsBack | inductive_coder/application/use_cases.py:62-73 | a generated book has the requested mode and context, and the file written loads back as that book |
| UseCases.GenerationNeedsDocuments | inductive_coder/application/use_cases.py:56-59 | without documents generation fails before anything runs or is written |
| UseCases.ObtainCodeBook | inductive_coder/application/use_cases.py:118-132 | a given path loads the book and writes nothing; otherwise reading runs and its book is saved as `code_book.json` in the output directory |
| UseCases.RunRoundTwo | inductive_coder/application/use_cases.py:134-156 | a new result of the requested mode holding that mode's workflow codes and none of the other |
| UseCases.AnalysisNeedsDocuments | inductive_coder/application/use_cases.py:113-116 | without documents the analysis fails before anything runs or is written |
| UseCases.AnalysisStopsAtRoundOne | inductive_coder/application/use_cases.py:118-128 | a failure to obtain the book stops the run with nothing written |
| UseCases.AnalysisCompletes | inductive_coder/application/use_cases.py:118-161 | a run past round 1 writes the book (when read), then the result, with the events in order |
| UseCases.RoundTwoAndSave | inductive_coder/application/use_cases.py:134-161 | round 2, then `save_result` into the output directory |
| UseCases.StoreResult | inductive_coder/application/use_cases.py:158-159 | the output directory gets the saved result; other storage is unchanged |
| UseCases.RunAnalysis | inductive_coder/application/use_cases.py:89-161 | the storage after the call and the result are those of `AnalysisRun` |
| UseCases.AnalyzeDocuments | inductive_coder/application/use_cases.py:115-161 | from the loaded documents on, the storage and result are those of `AnalysisRun` |
| UseCases.ExistingBookSkipsReading | inductive_coder/application/use_cases.py:119-120 | with a saved book reading does not run, no book is saved, the result carries the loaded book, and a failed load writes nothing |
| UseCases.FreshBookSavedBeforeRoundTwo | inductive_coder/application/use_cases.py:121-132 | corrected, without a saved book: read, save the book, round 2, save the result, in that order |
| UseCases.AsWrittenAnalysisNeverReads | inductive_coder/application/use_cases.py:123-128 | as written, any analysis with documents and no saved book fails with the unexpected keyword `hierarchy_depth` and writes nothing |
| UseCases.AsWrittenGenerationNeverReads | inductive_coder/application/use_cases.py:63-68 | as written generation always fails the same way; corrected, it saves the book read from the documents |
| UseCases.ResultFollowsRequestedMode | inductive_coder/application/use_cases.py:135-156 | the result has the requested mode, the codes of that mode's workflow, and an empty list for the other mode |
| UseCases.AnalysisEventsFacts | inductive_coder/application/use_cases.py:158-161 | the result is saved exactly once, last, right after round 2 |
| UseCases.ResultSavedOnceAtTheEnd | inductive_coder/application/use_cases.py:113-161 | a successful analysis does exactly the listed steps; a failed one writes nothing |
| UseCases.AnalysisOutputLoadsBack | inductive_coder/application/use_cases.py:130-159 | after success, the output directory's book loads back and the mode's codes file holds the result's codes; other directories are untouched |
| LlmClient.Lower | inductive_coder/infrastructure/llm_client.py:85 | `lower()` keeps the length and lowers each ASCII letter |
| LlmClient.FirstSetFacts | inductive_coder/infrastructure/llm_client.py:83-88 | an `or` chain returns the value of the first non-empty variable, all earlier being unset or empty, or the default |
| LlmClient.NodeModelFacts | inductive_coder/infrastructure/llm_client.py:78-88 | `get_node_model` is never empty and prefers the key, then its lower case, then OPENAI_MODEL, then "gpt-4-turbo-preview" |
| LlmClient.ResolvedModelEmpty | inductive_coder/infrastructure/llm_client.py:93 | the resolved name is "" exactly when no name is given and OPENAI_MODEL is set to "" |
| LlmClient.StoredClientFound | inductive_coder/infrastructure/llm_client.py:93-103 | a client stored under a non-empty key is what a get with that key resolves to |
| LlmClient.Client.constructor | inductive_coder/infrastructure/llm_client.py:96 | a client is made for the given model |
| LlmClient.Registry.constructor | inductive_coder/infrastructure/llm_client.py:75 | the registry starts empty |
| LlmClient.Registry.GetLlmClient | inductive_coder/infrastructure/llm_client.py:91-98 | the resolved key is present and its client returned; a hit changes nothing and returns the stored instance; a miss adds exactly one new client for that model |
| LlmClient.Registry.SetLlmClient | inductive_coder/infrastructure/llm_client.py:101-104 | the client is stored under the given name or its model, overwriting that key only |
| Workflows.NoteForFacts | inductive_coder/application/workflows.py:139 | a note starts "Document ", names the document and ends with the generated text |
| Workflows.JoinNotesAppend | inductive_coder/application/workflows.py:160 | joining one more note adds "\n\n" and that note, or just the note when the list was empty |
| Workflows.ReadDocumentAppends | inductive_coder/application/workflows.py:105-141 | past the end nothing changes and the model is not asked; otherwise one note is appended to the list and the index advances by one |
| Workflows.ShouldContinueReading | inductive_coder/application/workflows.py:144-148 | read_document exactly when the index is a document, otherwise create_codebook |
| Workflows.ReadLoop | inductive_coder/application/workflows.py:225-239 | from read_document the run appends every remaining document's note, then builds the book once |
| Workflows.NotesFromFacts | inductive_coder/application/workflows.py:136-141 | one note per remaining document, in index order, each from that document's request |
| Workflows.RequestsFromFacts | inductive_coder/application/workflows.py:113-136 | one request per remaining document, in index order |
| Workflows.Round1ClosedForm | inductive_coder/application/workflows.py:203-220 | `execute` returns the book built from all notes joined with blank lines in reading order; with no documents, from "" |
| Workflows.AppendedNotes | inductive_coder/application/workflows.py:139-160 | notes are appended, not replaced: one more document adds a separator and its note at the end of the joined notes |
| Workflows.ExecuteRound1 | inductive_coder/application/workflows.py:194-241 | the loop returns the run's code book and one read request per document, in order |
| Workflows.ExecuteRound2Coding | inductive_coder/application/workflows.py:246-480 | returns the split coding workflow's result with the as-written router |
| Workflows.ExecuteRound2Categorization | inductive_coder/application/workflows.py:485-590 | returns the split categorization workflow's result |

## Left out

- LLM calls, prompts and `OpenAILLMClient`. The model is an oracle from a
  request record (what the prompt is built from) to the structured response;
  prompt wording, temperature, `load_dotenv` and langchain are not modelled.
- LangGraph itself: `compile`, `ainvoke`, async execution and the
  `recursion_limit` (default 25 steps) are not modelled. A run is the loop of
  the wired edges, however many steps it takes.
- Concurrency and rate limiting: none exists in the code modelled.
- Files and JSON: directories are listings of entries (path, regular-file
  flag, content), and JSON files are records. `mkdir`, encodings,
  `ensure_ascii` and `indent` are not modelled.
  - Glob order is the listing order of the entries; the final sort by name
    fixes the order regardless.
  - The `summary.txt` text layout is reduced to the figures it reports.
  - A hand-edited JSON file with missing keys (a `KeyError`) is not modelled;
    a missing `context` is.
- Code-book paths and output directories are separate maps in `Storage`, so
  writing `output_dir/code_book.json` never aliases a code book given by path.
  Path normalisation is not modelled.
- Hierarchy persistence: `hierarchy_depth` and `parent_code_name` are neither
  written nor read by the repository (see Findings). The use cases keep the
  format as written: every book they save is flat and without parents, which
  survives it exactly (`Repositories.CodeBookRoundTripExact`). The corrected
  format is `Repositories.SaveCodeBookWithHierarchy` /
  `Repositories.LoadCodeBookWithHierarchy`.
- State fields that no node reads (`hierarchy_depth`, `progress_callback`,
  `notes_file_path`) and the presentation, logging and tool modules are not
  part of this model.
- `get_node_model` passes its result to `get_llm_client`, which picks the
  client a node talks to. The model passes each node's oracle directly.
- LlmClient.Lower: models `str.lower()` on ASCII letters only; other Unicode
  case mappings are not modelled.
- The `TypeError` of calling `ReadingWorkflow.execute` with
  `hierarchy_depth` is modelled as an error value, `UnexpectedKeyword`, that
  the use case returns before anything is written.
- Workflows.ExecuteRound1: returns the read requests it made but not the
  code-book request; the code-book request is stated by
  `Workflows.Round1ClosedForm`.
- The CodeBook is a value: `add_code` returns the extended book rather than
  appending in place, since no modelled caller shares a book while adding to
  it.

## Findings

| source | as written | input that shows it | evidently intended | confidence | as-written member | corrected member |
|---|---|---|---|---|---|---|
| inductive_coder/application/coding_workflow/edges.py:17 | `next_document` has already advanced the index when the router checks `index < len(documents) - 1`, so the last document is never chunked or coded (the same bound is at inductive_coder/application/workflows.py:413) | two documents: document 1 is never chunked or coded, so its sentences get no codes | continue while `index < len(documents)`, as the reading and categorization routers do | not executed | CodingGraph.AsWrittenSkipsLastDocument | CodingGraph.CorrectedCodesEveryDocument |
| inductive_coder/application/use_cases.py:123-128 | both use cases pass `hierarchy_depth=` to `ReadingWorkflow.execute`, whose signature (inductive_coder/application/reading_workflow/graph.py:22-27) has no such parameter, so the call raises `TypeError` | any input directory with one `.txt` file and no saved code book | call `execute(mode, documents, user_context)` and read the documents | not executed | UseCases.AsWrittenAnalysisNeverReads | UseCases.FreshBookSavedBeforeRoundTwo |
| inductive_coder/infrastructure/repositories.py:62-102 | `save_code_book` writes neither `hierarchy_depth` nor the codes' `parent_code_name`, and `load_code_book` reads neither, while the repository's own test (tests/test_repositories.py:181-202) expects both to survive | the test's two-level book with codes "Parent" and "Child" (parent "Parent"): it reloads flat, and `get_children("Parent")` is empty | write and read the depth's value and each code's parent | not executed | Repositories.AsWrittenLosesHierarchy | Repositories.CodeBookWithHierarchyRoundTrip |
