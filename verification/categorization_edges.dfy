/** The routing function of the categorization workflow. */
module CategorizationEdges {
  import opened CategorizationNodes

  /** The one node of the categorization graph, and END. */
  datatype CategorizationNode = CategorizeDocumentStep | End

  /** `should_continue_categorization`: categorize another document while
      the index is a document, otherwise end. */
  function ShouldContinueCategorization(st: CategorizationState): (r: CategorizationNode)
    ensures r == CategorizeDocumentStep <==> st.docIndex < |st.documents|
    ensures r == End <==> st.docIndex >= |st.documents|
  {
    if st.docIndex < |st.documents| then CategorizeDocumentStep else End
  }
}
