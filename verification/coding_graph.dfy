/** The coding workflow as a state machine: entry at decide_chunking, which
    always hands over to code_chunk; code_chunk loops on itself or moves to
    next_document; next_document goes back to decide_chunking or ends.
    `Run` is the meaning of a run from a node; `Execute` is the loop that
    drives the nodes, proved to compute it; the lemmas give the closed form
    of what a run returns. */
module CodingGraph {
  import opened Wrappers
  import opened Entities
  import opened CodingNodes
  import opened CodingEdges

  /** Which document router the graph is wired with. */
  datatype DocumentRouter = AsWritten | Corrected

  function RouteDocuments(router: DocumentRouter, st: CodingState): CodingNode
  {
    match router
    case AsWritten => ShouldContinueCodingDocuments(st)
    case Corrected => ShouldContinueCodingDocumentsCorrected(st)
  }

  /** The state `execute` starts from. */
  function InitialState(documents: seq<Document>, codeBook: CodeBook): CodingState
  {
    CodingState(documents, codeBook, 0, None, [], 0, [])
  }

  function Rank(node: CodingNode): nat
  {
    match node
    case DecideChunkingStep => 3
    case CodeChunkStep => 2
    case NextDocumentStep => 1
    case End => 0
  }

  function DocMeasure(st: CodingState): nat
  {
    if st.docIndex <= |st.documents| then |st.documents| - st.docIndex else 0
  }

  function ChunkMeasure(st: CodingState): nat
  {
    if st.chunkIndex <= |st.chunks| then |st.chunks| - st.chunkIndex else 0
  }

  /** The final state of a run that is at `node` in state `st`, when
      decide_chunking cuts a document by `chunker` and code_chunk codes a
      chunk by `coder`. */
  function Run(router: DocumentRouter, st: CodingState, node: CodingNode,
               chunker: Document -> seq<Chunk>, coder: Chunk -> seq<SentenceCode>): CodingState
    decreases DocMeasure(st), Rank(node), ChunkMeasure(st)
  {
    match node
    case End => st
    case DecideChunkingStep =>
      Run(router, DecideChunking(st, chunker), CodeChunkStep, chunker, coder)
    case CodeChunkStep =>
      var s := CodeChunk(st, coder);
      if ShouldContinueCodingChunks(s) == CodeChunkStep then Run(router, s, CodeChunkStep, chunker, coder)
      else Run(router, s, NextDocumentStep, chunker, coder)
    case NextDocumentStep =>
      var s := NextDocument(st);
      if RouteDocuments(router, s) == DecideChunkingStep then Run(router, s, DecideChunkingStep, chunker, coder)
      else s
  }

  // ---------------------------------------------------------------- closed form

  /** The codes of chunks `i..`, in chunk order. */
  function ChunkCodesFrom(chunks: seq<Chunk>, i: nat, coder: Chunk -> seq<SentenceCode>): seq<SentenceCode>
    decreases |chunks| - i
  {
    if i >= |chunks| then [] else coder(chunks[i]) + ChunkCodesFrom(chunks, i + 1, coder)
  }

  /** The codes of the decide_chunking passes at indexes `d..e-1`, in index
      order; a pass at an index past the last document contributes nothing. */
  function DocsCodes(docs: seq<Document>, d: nat, e: nat,
                     chunker: Document -> seq<Chunk>, coder: Chunk -> seq<SentenceCode>): seq<SentenceCode>
    decreases e - d
  {
    if d >= e then []
    else (if d < |docs| then ChunkCodesFrom(chunker(docs[d]), 0, coder) else [])
         + DocsCodes(docs, d + 1, e, chunker, coder)
  }

  /** The codes the workflow gives one document: its chunks as the model
      decides them, coded in order. */
  function DocCodes(book: CodeBook, doc: Document, chunking: ChunkingModel, coding: CodingModel): seq<SentenceCode>
  {
    ChunkCodesFrom(Chunker(book, chunking)(doc), 0, ChunkCoder(book, coding))
  }

  /** One past the index of the last decide_chunking pass of a run entered
      at index `d` over `n` documents. */
  function StopIndex(router: DocumentRouter, d: nat, n: nat): nat
  {
    match router
    case AsWritten => if d + 2 < n then n - 1 else d + 1
    case Corrected => if d + 1 < n then n else d + 1
  }

  /** The chunk loop: from code_chunk, the run codes every remaining chunk
      in order and arrives at next_document with those codes appended. */
  lemma {:induction false} ChunkLoop(router: DocumentRouter, st: CodingState,
                                     chunker: Document -> seq<Chunk>, coder: Chunk -> seq<SentenceCode>)
    ensures Run(router, st, CodeChunkStep, chunker, coder)
         == Run(router,
                st.(chunkIndex := if st.chunkIndex < |st.chunks| then |st.chunks| else st.chunkIndex,
                    sentenceCodes := st.sentenceCodes + ChunkCodesFrom(st.chunks, st.chunkIndex, coder)),
                NextDocumentStep, chunker, coder)
    decreases |st.chunks| - st.chunkIndex
  {
    var s := CodeChunk(st, coder);
    if st.chunkIndex >= |st.chunks| {
      assert st.sentenceCodes + [] == st.sentenceCodes;
    } else {
      var i := st.chunkIndex;
      if i + 1 < |st.chunks| {
        ChunkLoop(router, s, chunker, coder);
        assert s.sentenceCodes + ChunkCodesFrom(st.chunks, i + 1, coder)
            == st.sentenceCodes + ChunkCodesFrom(st.chunks, i, coder);
      } else {
        assert ChunkCodesFrom(st.chunks, i + 1, coder) == [];
        assert s.sentenceCodes == st.sentenceCodes + ChunkCodesFrom(st.chunks, i, coder);
      }
    }
  }

  /** The codes the pass at the current document index contributes. */
  function PassCodes(st: CodingState, chunker: Document -> seq<Chunk>, coder: Chunk -> seq<SentenceCode>): seq<SentenceCode>
  {
    if st.docIndex < |st.documents| then ChunkCodesFrom(chunker(st.documents[st.docIndex]), 0, coder) else []
  }

  /** The state after one decide_chunking pass, its chunk loop and next_document. */
  function AfterPass(st: CodingState, chunker: Document -> seq<Chunk>, coder: Chunk -> seq<SentenceCode>): CodingState
  {
    var s1 := DecideChunking(st, chunker);
    NextDocument(s1.(chunkIndex := if 0 < |s1.chunks| then |s1.chunks| else 0,
                     sentenceCodes := s1.sentenceCodes + ChunkCodesFrom(s1.chunks, 0, coder)))
  }

  /** A pass moves to the next document and appends the pass's codes. */
  lemma AfterPassFacts(st: CodingState, chunker: Document -> seq<Chunk>, coder: Chunk -> seq<SentenceCode>)
    ensures AfterPass(st, chunker, coder).documents == st.documents
    ensures AfterPass(st, chunker, coder).docIndex == st.docIndex + 1
    ensures AfterPass(st, chunker, coder).sentenceCodes == st.sentenceCodes + PassCodes(st, chunker, coder)
  {
  }

  /** A run from decide_chunking makes one pass, then either ends or starts the next pass. */
  lemma RunPass(router: DocumentRouter, st: CodingState, chunker: Document -> seq<Chunk>, coder: Chunk -> seq<SentenceCode>)
    ensures Run(router, st, DecideChunkingStep, chunker, coder)
         == (var s := AfterPass(st, chunker, coder);
             if RouteDocuments(router, s) == DecideChunkingStep then Run(router, s, DecideChunkingStep, chunker, coder) else s)
  {
    var s1 := DecideChunking(st, chunker);
    ChunkLoop(router, s1, chunker, coder);
  }

  /** The document loop: a run entered at decide_chunking at index `d`
      appends the codes of passes `d..StopIndex-1` in order, and ends with
      the document index at `StopIndex`. */
  lemma {:induction false} DocLoop(router: DocumentRouter, st: CodingState,
                                   chunker: Document -> seq<Chunk>, coder: Chunk -> seq<SentenceCode>)
    ensures Run(router, st, DecideChunkingStep, chunker, coder).sentenceCodes
         == st.sentenceCodes + DocsCodes(st.documents, st.docIndex, StopIndex(router, st.docIndex, |st.documents|), chunker, coder)
    ensures Run(router, st, DecideChunkingStep, chunker, coder).docIndex == StopIndex(router, st.docIndex, |st.documents|)
    decreases DocMeasure(st)
  {
    var d := st.docIndex;
    var n := |st.documents|;
    var s := AfterPass(st, chunker, coder);
    var here := PassCodes(st, chunker, coder);
    RunPass(router, st, chunker, coder);
    AfterPassFacts(st, chunker, coder);
    var stop := StopIndex(router, d, n);
    assert DocsCodes(st.documents, d, stop, chunker, coder) == here + DocsCodes(st.documents, d + 1, stop, chunker, coder);
    if RouteDocuments(router, s) == DecideChunkingStep {
      DocLoop(router, s, chunker, coder);
      assert StopIndex(router, d + 1, n) == stop;
    } else {
      assert stop == d + 1;
    }
  }

  /** The run `execute` makes: from the initial state, at decide_chunking,
      with the nodes asking the two models. */
  function Workflow(router: DocumentRouter, docs: seq<Document>, book: CodeBook,
                    chunking: ChunkingModel, coding: CodingModel): CodingState
  {
    Run(router, InitialState(docs, book), DecideChunkingStep, Chunker(book, chunking), ChunkCoder(book, coding))
  }

  /** What `execute` returns, in closed form: the codes of the documents
      the router lets through, in document order. */
  lemma ExecuteClosedForm(router: DocumentRouter, docs: seq<Document>, book: CodeBook,
                          chunking: ChunkingModel, coding: CodingModel)
    ensures Workflow(router, docs, book, chunking, coding).sentenceCodes
         == DocsCodes(docs, 0, StopIndex(router, 0, |docs|), Chunker(book, chunking), ChunkCoder(book, coding))
  {
    DocLoop(router, InitialState(docs, book), Chunker(book, chunking), ChunkCoder(book, coding));
  }

  /** `CodingWorkflow.execute`: starts at decide_chunking from the initial
      state and drives the nodes along the wired edges until END. */
  method Execute(router: DocumentRouter, docs: seq<Document>, book: CodeBook,
                 chunking: ChunkingModel, coding: CodingModel) returns (codes: seq<SentenceCode>)
    ensures codes == Workflow(router, docs, book, chunking, coding).sentenceCodes
  {
    var chunker := Chunker(book, chunking);
    var coder := ChunkCoder(book, coding);
    var st := CodingState(docs, book, 0, None, [], 0, []);
    var node := DecideChunkingStep;
    while node != End
      invariant st.codeBook == book
      invariant Run(router, st, node, chunker, coder) == Workflow(router, docs, book, chunking, coding)
      decreases DocMeasure(st), Rank(node), ChunkMeasure(st)
    {
      match node {
        case DecideChunkingStep =>
          st := DecideChunkingNode(st, chunking);
          node := CodeChunkStep;
        case CodeChunkStep =>
          st := CodeChunkNode(st, coding);
          node := ShouldContinueCodingChunks(st);
        case NextDocumentStep =>
          st := NextDocument(st);
          node := RouteDocuments(router, st);
      }
    }
    codes := st.sentenceCodes;
  }

  // ---------------------------------------------------------------- the document router

  /** Passes below `k` see only the first `k` documents. */
  lemma {:induction false} DocsCodesPrefix(docs: seq<Document>, k: nat, d: nat, e: nat,
                                           chunker: Document -> seq<Chunk>, coder: Chunk -> seq<SentenceCode>)
    requires e <= k <= |docs|
    ensures DocsCodes(docs, d, e, chunker, coder) == DocsCodes(docs[..k], d, e, chunker, coder)
    decreases e - d
  {
    if d < e {
      DocsCodesPrefix(docs, k, d + 1, e, chunker, coder);
    }
  }

  /** The passes `d..e-1` are the passes `d..m-1` followed by `m..e-1`. */
  lemma {:induction false} DocsCodesSplit(docs: seq<Document>, d: nat, m: nat, e: nat,
                                          chunker: Document -> seq<Chunk>, coder: Chunk -> seq<SentenceCode>)
    requires d <= m <= e
    ensures DocsCodes(docs, d, e, chunker, coder) == DocsCodes(docs, d, m, chunker, coder) + DocsCodes(docs, m, e, chunker, coder)
    decreases m - d
  {
    if d < m {
      DocsCodesSplit(docs, d + 1, m, e, chunker, coder);
    }
  }

  /** As written, a run over two or more documents returns exactly what the
      corrected run returns over all of them but the last: the last
      document is never chunked or coded. */
  lemma AsWrittenSkipsLastDocument(docs: seq<Document>, book: CodeBook, chunking: ChunkingModel, coding: CodingModel)
    requires |docs| >= 2
    ensures Workflow(AsWritten, docs, book, chunking, coding).sentenceCodes
         == Workflow(Corrected, docs[..|docs| - 1], book, chunking, coding).sentenceCodes
  {
    var n := |docs|;
    ExecuteClosedForm(AsWritten, docs, book, chunking, coding);
    ExecuteClosedForm(Corrected, docs[..n - 1], book, chunking, coding);
    DocsCodesPrefix(docs, n - 1, 0, n - 1, Chunker(book, chunking), ChunkCoder(book, coding));
  }

  /** The corrected run codes every document in index order: over two or
      more documents it returns the as-written result followed by the codes
      of the last document. */
  lemma CorrectedCodesEveryDocument(docs: seq<Document>, book: CodeBook, chunking: ChunkingModel, coding: CodingModel)
    requires |docs| >= 2
    ensures Workflow(Corrected, docs, book, chunking, coding).sentenceCodes
         == Workflow(AsWritten, docs, book, chunking, coding).sentenceCodes + DocCodes(book, docs[|docs| - 1], chunking, coding)
  {
    var n := |docs|;
    var chunker := Chunker(book, chunking);
    var coder := ChunkCoder(book, coding);
    ExecuteClosedForm(AsWritten, docs, book, chunking, coding);
    ExecuteClosedForm(Corrected, docs, book, chunking, coding);
    DocsCodesSplit(docs, 0, n - 1, n, chunker, coder);
    assert DocsCodes(docs, n - 1, n, chunker, coder) == ChunkCodesFrom(chunker(docs[n - 1]), 0, coder) + DocsCodes(docs, n, n, chunker, coder);
  }

  /** The corrected run over all documents is the concatenation of every
      document's codes in document order. */
  lemma {:induction false} CorrectedIsEveryDocument(docs: seq<Document>, book: CodeBook, chunking: ChunkingModel, coding: CodingModel)
    ensures Workflow(Corrected, docs, book, chunking, coding).sentenceCodes
         == (if docs == [] then [] else Workflow(Corrected, docs[..|docs| - 1], book, chunking, coding).sentenceCodes
                                        + DocCodes(book, docs[|docs| - 1], chunking, coding))
  {
    var n := |docs|;
    var chunker := Chunker(book, chunking);
    var coder := ChunkCoder(book, coding);
    ExecuteClosedForm(Corrected, docs, book, chunking, coding);
    if n == 0 {
      assert DocsCodes(docs, 0, 1, chunker, coder) == [] + DocsCodes(docs, 1, 1, chunker, coder);
    } else {
      ExecuteClosedForm(Corrected, docs[..n - 1], book, chunking, coding);
      DocsCodesSplit(docs, 0, n - 1, n, chunker, coder);
      DocsCodesPrefix(docs, n - 1, 0, n - 1, chunker, coder);
      assert DocsCodes(docs, n - 1, n, chunker, coder) == ChunkCodesFrom(chunker(docs[n - 1]), 0, coder) + DocsCodes(docs, n, n, chunker, coder);
      if n == 1 {
        assert DocsCodes(docs[..0], 0, 1, chunker, coder) == [] + DocsCodes(docs[..0], 1, 1, chunker, coder);
      }
    }
  }

  /** With at most one document there is exactly one decide_chunking pass
      under either router, so both return the same codes. */
  lemma RoutersAgreeOnShortInputs(docs: seq<Document>, book: CodeBook, chunking: ChunkingModel, coding: CodingModel)
    requires |docs| <= 1
    ensures Workflow(AsWritten, docs, book, chunking, coding).sentenceCodes
         == Workflow(Corrected, docs, book, chunking, coding).sentenceCodes
  {
    ExecuteClosedForm(AsWritten, docs, book, chunking, coding);
    ExecuteClosedForm(Corrected, docs, book, chunking, coding);
  }

  /** The codes of chunks coded against the book are codes of the book. */
  lemma {:induction false} ChunkCodesFromBook(book: CodeBook, chunks: seq<Chunk>, i: nat, coding: CodingModel)
    ensures forall sc :: sc in ChunkCodesFrom(chunks, i, ChunkCoder(book, coding)) ==> sc.code in book.codes
    decreases |chunks| - i
  {
    if i < |chunks| {
      ChunkCodesFromBook(book, chunks, i + 1, coding);
      if chunks[i].shouldCode {
        ResolveSentenceCodesFacts(book, coding(CodeRequest(chunks[i].sentences, book.codes)));
      }
    }
  }

  lemma {:induction false} DocsCodesFromBook(book: CodeBook, docs: seq<Document>, d: nat, e: nat,
                                             chunking: ChunkingModel, coding: CodingModel)
    ensures forall sc :: sc in DocsCodes(docs, d, e, Chunker(book, chunking), ChunkCoder(book, coding)) ==> sc.code in book.codes
    decreases e - d
  {
    if d < e {
      DocsCodesFromBook(book, docs, d + 1, e, chunking, coding);
      if d < |docs| {
        ChunkCodesFromBook(book, Chunker(book, chunking)(docs[d]), 0, coding);
      }
    }
  }

  /** Every code a run returns is a code of the book. */
  lemma RunCodesFromBook(router: DocumentRouter, docs: seq<Document>, book: CodeBook,
                         chunking: ChunkingModel, coding: CodingModel)
    ensures forall sc :: sc in Workflow(router, docs, book, chunking, coding).sentenceCodes ==> sc.code in book.codes
  {
    ExecuteClosedForm(router, docs, book, chunking, coding);
    DocsCodesFromBook(book, docs, 0, StopIndex(router, 0, |docs|), chunking, coding);
  }
}
