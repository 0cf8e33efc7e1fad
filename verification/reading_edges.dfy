/** The routing function of the reading workflow. */
module ReadingEdges {
  import opened ReadingNodes

  /** The nodes of the reading graph, and END. */
  datatype ReadingNode = ReadDocumentStep | CreateCodebookStep | End

  /** `should_continue_reading`: read another document while the index is
      a document, otherwise build the code book. */
  function ShouldContinueReading(st: ReadingState): (r: ReadingNode)
    ensures r == ReadDocumentStep || r == CreateCodebookStep
    ensures r == ReadDocumentStep <==> st.docIndex < |st.documents|
  {
    if st.docIndex < |st.documents| then ReadDocumentStep else CreateCodebookStep
  }
}
