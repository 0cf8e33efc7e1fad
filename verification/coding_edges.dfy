/** The routing functions of the coding workflow. */
module CodingEdges {
  import opened CodingNodes

  /** The nodes of the coding graph, and END. */
  datatype CodingNode = DecideChunkingStep | CodeChunkStep | NextDocumentStep | End

  /** `should_continue_coding_chunks`: code another chunk while the index is
      inside the chunk list, otherwise move to the next document. */
  function ShouldContinueCodingChunks(st: CodingState): (r: CodingNode)
    ensures r == CodeChunkStep || r == NextDocumentStep
    ensures r == CodeChunkStep <==> st.chunkIndex < |st.chunks|
  {
    if st.chunkIndex < |st.chunks| then CodeChunkStep else NextDocumentStep
  }

  /** `should_continue_coding_documents` as written: it compares the index,
      already advanced by `next_document_node`, with one less than the
      number of documents. */
  function ShouldContinueCodingDocuments(st: CodingState): (r: CodingNode)
    ensures r == DecideChunkingStep || r == End
    ensures r == DecideChunkingStep <==> st.docIndex < |st.documents| - 1
  {
    if st.docIndex < |st.documents| - 1 then DecideChunkingStep else End
  }

  /** The document router with the bound the reading and categorization
      routers use: continue while the advanced index is a document. */
  function ShouldContinueCodingDocumentsCorrected(st: CodingState): (r: CodingNode)
    ensures r == DecideChunkingStep || r == End
    ensures r == DecideChunkingStep <==> st.docIndex < |st.documents|
  {
    if st.docIndex < |st.documents| then DecideChunkingStep else End
  }
}
