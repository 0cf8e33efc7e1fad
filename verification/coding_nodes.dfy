/** The nodes of the coding workflow: deciding how a document is cut into
    chunks, coding one chunk at a time, and moving to the next document.
    Each node is a method that updates the workflow state the way the
    LangGraph merge does (plain keys are overwritten, `sentence_codes` is
    extended), proved equal to a specification function of the state and
    the model's response. */
module CodingNodes {
  import opened Wrappers
  import opened Seqs
  import opened Text
  import opened Entities

  // ---------------------------------------------------------------- model I/O

  /** One range of the chunking response. */
  datatype ChunkRange = ChunkRange(startSentenceId: string, endSentenceId: string, shouldCode: bool)

  /** The structured chunking response. */
  datatype ChunkingDecision = ChunkingDecision(shouldChunk: bool, chunks: seq<ChunkRange>)

  /** One entry of the structured coding response; `rationale` is None when the entry has none. */
  datatype SentenceCodeEntry = SentenceCodeEntry(sentenceId: string, codeName: string, rationale: Option<string>)

  /** What the chunking prompt is built from: the file name, the numbered
      sentences and the code book's codes. */
  datatype ChunkRequest = ChunkRequest(docName: string, sentences: seq<Sentence>, codes: seq<Code>)

  /** What the coding prompt is built from: the chunk's sentences and the codes. */
  datatype CodeRequest = CodeRequest(sentences: seq<Sentence>, codes: seq<Code>)

  /** The language model, seen through the two structured calls the nodes make. */
  type ChunkingModel = ChunkRequest -> ChunkingDecision
  type CodingModel = CodeRequest -> seq<SentenceCodeEntry>

  /** The coding workflow's state record. */
  datatype CodingState = CodingState(
    documents: seq<Document>,
    codeBook: CodeBook,
    docIndex: nat,
    currentDoc: Option<Document>,
    chunks: seq<Chunk>,
    chunkIndex: nat,
    sentenceCodes: seq<SentenceCode>)

  // ---------------------------------------------------------------- range scan

  /** Index of the first sentence with id `startId`, or `|ss|`. */
  function RangeStart(ss: seq<Sentence>, startId: string): (i: nat)
    ensures i <= |ss|
    ensures i < |ss| ==> ss[i].id == startId
    ensures forall j :: 0 <= j < i ==> ss[j].id != startId
  {
    FirstIndex(ss, (s: Sentence) => s.id == startId)
  }

  /** One past the first sentence with id `endId` (where the scan breaks), or `|ss|`. */
  function RangeStop(ss: seq<Sentence>, endId: string): (k: nat)
    ensures k <= |ss|
    ensures forall j :: 0 <= j < k - 1 ==> ss[j].id != endId
    ensures k < |ss| ==> 0 < k && ss[k - 1].id == endId
    ensures k == |ss| ==> forall j :: 0 <= j < |ss| - 1 ==> ss[j].id != endId
  {
    var e := FirstIndex(ss, (s: Sentence) => s.id == endId);
    if e < |ss| then e + 1 else |ss|
  }

  /** The sentences a chunk range collects: from the first sentence whose id
      is the start id up to and including the first sentence whose id is the
      end id (or to the end of the document when the end id is absent);
      nothing when the start id is absent or the end id comes first. */
  function RangeSlice(ss: seq<Sentence>, startId: string, endId: string): (r: seq<Sentence>)
    ensures |r| <= |ss|
  {
    var i := RangeStart(ss, startId);
    var k := RangeStop(ss, endId);
    if i < k then ss[i..k] else []
  }

  /** A collected range is the run of sentences that starts at the first
      sentence with the start id, contains the end id at most as its last
      element, and stops there or at the end of the document; it is empty
      exactly when the scan breaks before reaching the start id or never
      finds it. */
  lemma RangeSliceFacts(ss: seq<Sentence>, startId: string, endId: string)
    ensures var r := RangeSlice(ss, startId, endId);
      && (r != [] ==> (RangeStart(ss, startId) + |r| <= |ss|
                       && r == ss[RangeStart(ss, startId)..RangeStart(ss, startId) + |r|]))
      && (r != [] ==> r[0].id == startId)
      && (r != [] ==> r[|r| - 1].id == endId || RangeStart(ss, startId) + |r| == |ss|)
      && (r == [] <==> RangeStop(ss, endId) <= RangeStart(ss, startId))
    ensures forall k :: 0 <= k < |RangeSlice(ss, startId, endId)| - 1 ==> RangeSlice(ss, startId, endId)[k].id != endId
    ensures forall s :: s in RangeSlice(ss, startId, endId) ==> s in ss
  {
  }

  /** The inner scan of `decide_chunking_node`: an `in_range` flag switched
      on at the start id, every sentence collected while it is on, and a
      `break` at the end id. */
  method CollectRange(ss: seq<Sentence>, startId: string, endId: string) returns (chunkSentences: seq<Sentence>)
    ensures chunkSentences == RangeSlice(ss, startId, endId)
  {
    ghost var i := RangeStart(ss, startId);
    ghost var k := RangeStop(ss, endId);
    chunkSentences := [];
    var inRange := false;
    var j := 0;
    while j < |ss|
      invariant 0 <= j <= |ss|
      invariant j < k || k == |ss|
      invariant inRange <==> i < j
      invariant chunkSentences == if i < j then ss[i..j] else []
    {
      if ss[j].id == startId {
        inRange := true;
      }
      if inRange {
        assert ss[i..j + 1] == ss[i..j] + [ss[j]];
        chunkSentences := chunkSentences + [ss[j]];
      }
      if ss[j].id == endId {
        assert k == j + 1;
        assert chunkSentences == if i < k then ss[i..k] else [];
        return;
      }
      j := j + 1;
    }
  }

  // ---------------------------------------------------------------- chunks

  /** The chunk one range contributes: none when it collects nothing;
      otherwise the ids exactly as the response gave them. */
  function RangeChunk(ss: seq<Sentence>, range: ChunkRange): (r: seq<Chunk>)
    ensures |r| <= 1
    ensures |r| == 1 <==> RangeSlice(ss, range.startSentenceId, range.endSentenceId) != []
    ensures |r| == 1 ==> r[0] == Chunk(range.startSentenceId, range.endSentenceId,
                                       RangeSlice(ss, range.startSentenceId, range.endSentenceId), range.shouldCode)
  {
    var collected := RangeSlice(ss, range.startSentenceId, range.endSentenceId);
    if collected != [] then [Chunk(range.startSentenceId, range.endSentenceId, collected, range.shouldCode)] else []
  }

  /** The chunks of a list of ranges, one range after the other. */
  function ChunksOf(ss: seq<Sentence>, ranges: seq<ChunkRange>): (r: seq<Chunk>)
    ensures |r| <= |ranges|
  {
    if ranges == [] then []
    else ChunksOf(ss, ranges[..|ranges| - 1]) + RangeChunk(ss, ranges[|ranges| - 1])
  }

  /** Every chunk is non-empty, holds exactly what its own ids collect, and
      comes from one of the ranges, whose `should_code` it keeps. */
  lemma {:induction false} ChunksOfSound(ss: seq<Sentence>, ranges: seq<ChunkRange>)
    ensures forall c :: c in ChunksOf(ss, ranges) ==>
      && c.sentences != []
      && c.sentences == RangeSlice(ss, c.startSentenceId, c.endSentenceId)
      && ChunkRange(c.startSentenceId, c.endSentenceId, c.shouldCode) in ranges
  {
    if ranges != [] {
      var init := ranges[..|ranges| - 1];
      ChunksOfSound(ss, init);
      assert ranges == init + [ranges[|ranges| - 1]];
    }
  }

  /** Every range that collects something contributes its chunk. */
  lemma {:induction false} ChunksOfComplete(ss: seq<Sentence>, ranges: seq<ChunkRange>)
    ensures forall range :: range in ranges && RangeSlice(ss, range.startSentenceId, range.endSentenceId) != [] ==>
      Chunk(range.startSentenceId, range.endSentenceId, RangeSlice(ss, range.startSentenceId, range.endSentenceId), range.shouldCode)
        in ChunksOf(ss, ranges)
  {
    if ranges != [] {
      var init := ranges[..|ranges| - 1];
      ChunksOfComplete(ss, init);
      assert ranges == init + [ranges[|ranges| - 1]];
    }
  }

  /** Chunks follow the order of the ranges: the chunks of two runs of
      ranges are the chunks of the first followed by those of the second. */
  lemma {:induction false} ChunksOfConcat(ss: seq<Sentence>, a: seq<ChunkRange>, b: seq<ChunkRange>)
    ensures ChunksOf(ss, a + b) == ChunksOf(ss, a) + ChunksOf(ss, b)
  {
    if b == [] {
      assert a + b == a;
    } else {
      var init := b[..|b| - 1];
      assert a + b == (a + init) + [b[|b| - 1]];
      assert (a + b)[..|a + b| - 1] == a + init;
      ChunksOfConcat(ss, a, init);
    }
  }

  /** The outer loop over the response's ranges. */
  method BuildChunks(ss: seq<Sentence>, ranges: seq<ChunkRange>) returns (chunks: seq<Chunk>)
    ensures chunks == ChunksOf(ss, ranges)
  {
    chunks := [];
    var n := 0;
    while n < |ranges|
      invariant 0 <= n <= |ranges|
      invariant chunks == ChunksOf(ss, ranges[..n])
    {
      var range := ranges[n];
      var chunkSentences := CollectRange(ss, range.startSentenceId, range.endSentenceId);
      assert ranges[..n + 1][..n] == ranges[..n];
      assert ChunksOf(ss, ranges[..n + 1]) == ChunksOf(ss, ranges[..n]) + RangeChunk(ss, range);
      if chunkSentences != [] {
        chunks := chunks + [Chunk(range.startSentenceId, range.endSentenceId, chunkSentences, range.shouldCode)];
      }
      n := n + 1;
    }
    assert ranges[..|ranges|] == ranges;
  }

  /** The fallback when the model does not chunk: one chunk from the first
      to the last sentence holding them all, or none for an empty document. */
  function WholeDocument(ss: seq<Sentence>): (r: seq<Chunk>)
    ensures |r| <= 1
    ensures |r| == 1 <==> ss != []
    ensures |r| == 1 ==> (r[0].sentences == ss && r[0].shouldCode
                          && r[0].startSentenceId == ss[0].id && r[0].endSentenceId == ss[|ss| - 1].id)
  {
    if ss != [] then [Chunk(ss[0].id, ss[|ss| - 1].id, ss, true)] else []
  }

  /** The chunks `decide_chunking_node` makes for a document and a decision. */
  function DecidedChunks(doc: Document, decision: ChunkingDecision): seq<Chunk>
  {
    if !decision.shouldChunk then WholeDocument(doc.sentences) else ChunksOf(doc.sentences, decision.chunks)
  }

  /** Every decided chunk is non-empty and made of the document's sentences. */
  lemma DecidedChunksFacts(doc: Document, decision: ChunkingDecision)
    ensures forall c :: c in DecidedChunks(doc, decision) ==>
      c.sentences != [] && forall s :: s in c.sentences ==> s in doc.sentences
  {
    ChunksOfSound(doc.sentences, decision.chunks);
    forall c | c in DecidedChunks(doc, decision)
      ensures c.sentences != [] && forall s :: s in c.sentences ==> s in doc.sentences
    {
      if decision.shouldChunk {
        RangeSliceFacts(doc.sentences, c.startSentenceId, c.endSentenceId);
      }
    }
  }

  // ---------------------------------------------------------------- code resolution

  /** The response entries whose code name the book knows, in response
      order, each paired with the book's code; the rest are dropped. */
  function ResolveSentenceCodes(book: CodeBook, entries: seq<SentenceCodeEntry>): (r: seq<SentenceCode>)
    ensures |r| <= |entries|
  {
    if entries == [] then []
    else
      var init := entries[..|entries| - 1];
      var e := entries[|entries| - 1];
      var code := book.GetCode(e.codeName);
      ResolveSentenceCodes(book, init) + (if code.Some? then [SentenceCode(e.sentenceId, code.value, e.rationale)] else [])
  }

  /** Resolution keeps exactly the entries the book knows: each kept code
      is the book's code of that name with the entry's sentence id and
      rationale copied; nothing is invented, and nothing is dropped unless
      its name is unknown. */
  lemma {:induction false} ResolveSentenceCodesFacts(book: CodeBook, entries: seq<SentenceCodeEntry>)
    ensures forall sc :: sc in ResolveSentenceCodes(book, entries) ==>
      && sc.code in book.codes
      && SentenceCodeEntry(sc.sentenceId, sc.code.name, sc.rationale) in entries
      && book.GetCode(sc.code.name) == Some(sc.code)
    ensures forall e :: e in entries && book.GetCode(e.codeName).Some? ==>
      SentenceCode(e.sentenceId, book.GetCode(e.codeName).value, e.rationale) in ResolveSentenceCodes(book, entries)
    ensures |ResolveSentenceCodes(book, entries)| == |entries| <==> forall e :: e in entries ==> book.GetCode(e.codeName).Some?
  {
    if entries != [] {
      var init := entries[..|entries| - 1];
      var e := entries[|entries| - 1];
      assert entries == init + [e];
      ResolveSentenceCodesFacts(book, init);
      var r := ResolveSentenceCodes(book, entries);
      var code := book.GetCode(e.codeName);
      if code.None? {
        assert |ResolveSentenceCodes(book, init)| <= |init| < |entries|;
      }
    }
  }

  /** Resolution goes entry by entry: the codes of two runs of entries are
      the codes of the first followed by those of the second. Response order
      is kept, and a repeated entry yields its code again. */
  lemma {:induction false} ResolveSentenceCodesConcat(book: CodeBook, a: seq<SentenceCodeEntry>, b: seq<SentenceCodeEntry>)
    ensures ResolveSentenceCodes(book, a + b) == ResolveSentenceCodes(book, a) + ResolveSentenceCodes(book, b)
    decreases |b|
  {
    if b == [] {
      assert a + b == a;
    } else {
      var init := b[..|b| - 1];
      var e := b[|b| - 1];
      assert (a + b)[..|a + b| - 1] == a + init;
      assert (a + b)[|a + b| - 1] == e;
      ResolveSentenceCodesConcat(book, a, init);
    }
  }

  /** The conversion loop of `code_chunk_node`. */
  method ConvertSentenceCodes(book: CodeBook, entries: seq<SentenceCodeEntry>) returns (codes: seq<SentenceCode>)
    ensures codes == ResolveSentenceCodes(book, entries)
  {
    codes := [];
    var n := 0;
    while n < |entries|
      invariant 0 <= n <= |entries|
      invariant codes == ResolveSentenceCodes(book, entries[..n])
    {
      var e := entries[n];
      var code := book.GetCode(e.codeName);
      if code.Some? {
        codes := codes + [SentenceCode(e.sentenceId, code.value, e.rationale)];
      }
      assert entries[..n + 1][..n] == entries[..n];
      n := n + 1;
    }
    assert entries[..|entries|] == entries;
  }

  // ---------------------------------------------------------------- nodes

  function ChunkRequestFor(book: CodeBook, doc: Document): ChunkRequest
  {
    ChunkRequest(FileName(doc.path), doc.sentences, book.codes)
  }

  /** How the model has a document cut: the chunks decided from its response. */
  function Chunker(book: CodeBook, model: ChunkingModel): Document -> seq<Chunk>
  {
    doc => DecidedChunks(doc, model(ChunkRequestFor(book, doc)))
  }

  /** `decide_chunking_node`, given how a document is cut: past the last
      document it clears the chunks and the current document; otherwise the
      current document is the indexed one and its chunks are those of the
      cut. The chunk index restarts at 0. */
  function DecideChunking(st: CodingState, chunker: Document -> seq<Chunk>): CodingState
  {
    if st.docIndex >= |st.documents| then
      st.(currentDoc := None, chunks := [], chunkIndex := 0)
    else
      var doc := st.documents[st.docIndex];
      st.(currentDoc := Some(doc), chunks := chunker(doc), chunkIndex := 0)
  }

  /** decide_chunking leaves the documents, the book, the document index and
      the codes alone and restarts the chunk index; past the end it clears
      the chunks and the current document, otherwise the current document is
      the indexed one and every chunk is non-empty and made of its sentences. */
  lemma DecideChunkingFacts(st: CodingState, model: ChunkingModel)
    ensures var r := DecideChunking(st, Chunker(st.codeBook, model));
      && r.documents == st.documents && r.codeBook == st.codeBook && r.docIndex == st.docIndex
      && r.sentenceCodes == st.sentenceCodes && r.chunkIndex == 0
      && (st.docIndex >= |st.documents| ==> r.currentDoc == None && r.chunks == [])
      && (st.docIndex < |st.documents| ==> r.currentDoc == Some(st.documents[st.docIndex]))
    ensures st.docIndex < |st.documents| ==>
      forall c :: c in DecideChunking(st, Chunker(st.codeBook, model)).chunks ==>
        c.sentences != [] && forall s :: s in c.sentences ==> s in st.documents[st.docIndex].sentences
  {
    if st.docIndex < |st.documents| {
      var doc := st.documents[st.docIndex];
      DecidedChunksFacts(doc, model(ChunkRequestFor(st.codeBook, doc)));
    }
  }

  /** Past the last document the node makes no model call: its result is
      the same whatever the documents would be cut into. */
  lemma DecideChunkingPastEnd(st: CodingState, c1: Document -> seq<Chunk>, c2: Document -> seq<Chunk>)
    requires st.docIndex >= |st.documents|
    ensures DecideChunking(st, c1) == DecideChunking(st, c2)
  {
  }

  method DecideChunkingNode(st: CodingState, model: ChunkingModel) returns (r: CodingState)
    ensures r == DecideChunking(st, Chunker(st.codeBook, model))
  {
    if st.docIndex >= |st.documents| {
      return st.(currentDoc := None, chunks := [], chunkIndex := 0);
    }
    var doc := st.documents[st.docIndex];
    var decision := model(ChunkRequest(FileName(doc.path), doc.sentences, st.codeBook.codes));
    var chunks := [];
    if !decision.shouldChunk {
      if doc.sentences != [] {
        chunks := [Chunk(doc.sentences[0].id, doc.sentences[|doc.sentences| - 1].id, doc.sentences, true)];
      }
    } else {
      chunks := BuildChunks(doc.sentences, decision.chunks);
    }
    assert Chunker(st.codeBook, model)(doc) == DecidedChunks(doc, model(ChunkRequestFor(st.codeBook, doc)));
    r := st.(currentDoc := Some(doc), chunks := chunks, chunkIndex := 0);
  }

  /** The codes one chunk contributes: nothing for an irrelevant chunk,
      otherwise the resolved response to the chunk's sentences. */
  function ChunkCodes(book: CodeBook, chunk: Chunk, model: CodingModel): seq<SentenceCode>
  {
    if !chunk.shouldCode then [] else ResolveSentenceCodes(book, model(CodeRequest(chunk.sentences, book.codes)))
  }

  /** `ChunkCodes` as a function of the chunk alone. */
  function ChunkCoder(book: CodeBook, model: CodingModel): Chunk -> seq<SentenceCode>
  {
    chunk => ChunkCodes(book, chunk, model)
  }

  /** `code_chunk_node`, given the codes each chunk contributes: past the
      last chunk nothing changes; otherwise the chunk's codes are appended
      and the chunk index advances by one. */
  function CodeChunk(st: CodingState, coder: Chunk -> seq<SentenceCode>): CodingState
  {
    if st.chunkIndex >= |st.chunks| then st
    else st.(sentenceCodes := st.sentenceCodes + coder(st.chunks[st.chunkIndex]), chunkIndex := st.chunkIndex + 1)
  }

  /** code_chunk changes only the chunk index and the codes; past the end it
      changes nothing; otherwise the index advances by one, an irrelevant
      chunk adds no code, and the codes only grow, by codes of the book. */
  lemma CodeChunkFacts(st: CodingState, model: CodingModel)
    ensures CodeChunk(st, ChunkCoder(st.codeBook, model)).(chunkIndex := st.chunkIndex, sentenceCodes := st.sentenceCodes) == st
    ensures st.chunkIndex >= |st.chunks| ==> CodeChunk(st, ChunkCoder(st.codeBook, model)) == st
    ensures st.chunkIndex < |st.chunks| ==> CodeChunk(st, ChunkCoder(st.codeBook, model)).chunkIndex == st.chunkIndex + 1
    ensures st.chunkIndex < |st.chunks| && !st.chunks[st.chunkIndex].shouldCode ==>
      CodeChunk(st, ChunkCoder(st.codeBook, model)).sentenceCodes == st.sentenceCodes
    ensures st.sentenceCodes <= CodeChunk(st, ChunkCoder(st.codeBook, model)).sentenceCodes
    ensures forall sc :: sc in CodeChunk(st, ChunkCoder(st.codeBook, model)).sentenceCodes ==>
      sc in st.sentenceCodes || sc.code in st.codeBook.codes
  {
    var r := CodeChunk(st, ChunkCoder(st.codeBook, model));
    if st.chunkIndex < |st.chunks| {
      var chunk := st.chunks[st.chunkIndex];
      var added := ChunkCodes(st.codeBook, chunk, model);
      assert r.sentenceCodes == st.sentenceCodes + added;
      if chunk.shouldCode {
        ResolveSentenceCodesFacts(st.codeBook, model(CodeRequest(chunk.sentences, st.codeBook.codes)));
      }
      forall sc | sc in r.sentenceCodes ensures sc in st.sentenceCodes || sc.code in st.codeBook.codes {
        if sc !in st.sentenceCodes {
          assert sc in added;
        }
      }
    }
  }

  /** An irrelevant chunk or an index past the end makes no model call. */
  lemma CodeChunkSkipsModel(st: CodingState, m1: CodingModel, m2: CodingModel)
    requires st.chunkIndex >= |st.chunks| || !st.chunks[st.chunkIndex].shouldCode
    ensures CodeChunk(st, ChunkCoder(st.codeBook, m1)) == CodeChunk(st, ChunkCoder(st.codeBook, m2))
  {
  }

  method CodeChunkNode(st: CodingState, model: CodingModel) returns (r: CodingState)
    ensures r == CodeChunk(st, ChunkCoder(st.codeBook, model))
  {
    if st.chunkIndex >= |st.chunks| {
      return st;
    }
    var chunk := st.chunks[st.chunkIndex];
    if !chunk.shouldCode {
      return st.(chunkIndex := st.chunkIndex + 1);
    }
    var response := model(CodeRequest(chunk.sentences, st.codeBook.codes));
    var codes := ConvertSentenceCodes(st.codeBook, response);
    r := st.(sentenceCodes := st.sentenceCodes + codes, chunkIndex := st.chunkIndex + 1);
  }

  /** `next_document_node`: the document index goes up by one and nothing else changes. */
  function NextDocument(st: CodingState): (r: CodingState)
    ensures r.docIndex == st.docIndex + 1
    ensures r.(docIndex := st.docIndex) == st
  {
    st.(docIndex := st.docIndex + 1)
  }
}
