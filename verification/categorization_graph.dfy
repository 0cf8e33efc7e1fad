/** The categorization workflow as a state machine: entry at
    categorize_document, which loops on itself while documents remain and
    otherwise ends. `Run` is the meaning of a run from a node; `Execute` is
    the loop that drives the node, proved to compute it; the lemmas give the
    closed form of what a run returns. */
module CategorizationGraph {
  import opened Wrappers
  import opened Entities
  import opened CategorizationNodes
  import opened CategorizationEdges

  /** The state `execute` starts from: index 0 and no codes. */
  function InitialState(documents: seq<Document>, codeBook: CodeBook): CategorizationState
  {
    CategorizationState(documents, codeBook, 0, [])
  }

  function Rank(node: CategorizationNode): nat
  {
    match node
    case CategorizeDocumentStep => 1
    case End => 0
  }

  function DocMeasure(st: CategorizationState): nat
  {
    if st.docIndex <= |st.documents| then |st.documents| - st.docIndex else 0
  }

  /** The final state of a run that is at `node` in state `st`, when
      categorize_document gives a document the codes `categorizer` gives it. */
  function Run(st: CategorizationState, node: CategorizationNode,
               categorizer: Document -> seq<DocumentCode>): CategorizationState
    decreases DocMeasure(st), Rank(node)
  {
    match node
    case End => st
    case CategorizeDocumentStep =>
      var s := CategorizeDocument(st, categorizer);
      if ShouldContinueCategorization(s) == CategorizeDocumentStep then Run(s, CategorizeDocumentStep, categorizer)
      else Run(s, End, categorizer)
  }

  // ---------------------------------------------------------------- closed form

  /** The codes of documents `i..`, in document order. */
  function CodesFrom(docs: seq<Document>, i: nat, categorizer: Document -> seq<DocumentCode>): seq<DocumentCode>
    decreases |docs| - i
  {
    if i >= |docs| then [] else categorizer(docs[i]) + CodesFrom(docs, i + 1, categorizer)
  }

  /** The document loop: from categorize_document, the run categorizes every
      remaining document in order, appending its codes, and ends with the
      index at the end (or where it was, after one pass that does nothing). */
  lemma {:induction false} CategorizeLoop(st: CategorizationState, categorizer: Document -> seq<DocumentCode>)
    ensures Run(st, CategorizeDocumentStep, categorizer)
         == st.(documentCodes := st.documentCodes + CodesFrom(st.documents, st.docIndex, categorizer),
                docIndex := if st.docIndex < |st.documents| then |st.documents| else st.docIndex)
    decreases DocMeasure(st)
  {
    var s := CategorizeDocument(st, categorizer);
    var i := st.docIndex;
    if i >= |st.documents| {
      assert st.documentCodes + [] == st.documentCodes;
    } else if i + 1 < |st.documents| {
      CategorizeLoop(s, categorizer);
      assert s.documentCodes + CodesFrom(st.documents, i + 1, categorizer)
          == st.documentCodes + CodesFrom(st.documents, i, categorizer);
    } else {
      assert CodesFrom(st.documents, i + 1, categorizer) == [];
      assert s.documentCodes == st.documentCodes + CodesFrom(st.documents, i, categorizer);
    }
  }

  /** The run `execute` makes: from the initial state, at categorize_document,
      with the node asking the model. */
  function Workflow(docs: seq<Document>, book: CodeBook, model: CategorizingModel): CategorizationState
  {
    Run(InitialState(docs, book), CategorizeDocumentStep, Categorizer(book, model))
  }

  /** What `execute` returns, in closed form: the codes of every document,
      in document order; with no documents, none. */
  lemma ExecuteClosedForm(docs: seq<Document>, book: CodeBook, model: CategorizingModel)
    ensures Workflow(docs, book, model).documentCodes == CodesFrom(docs, 0, Categorizer(book, model))
    ensures docs == [] ==> Workflow(docs, book, model).documentCodes == []
  {
    CategorizeLoop(InitialState(docs, book), Categorizer(book, model));
  }

  /** `CategorizationWorkflow.execute`: starts at categorize_document from the
      initial state and drives the node along its edge until END. */
  method Execute(docs: seq<Document>, book: CodeBook, model: CategorizingModel) returns (codes: seq<DocumentCode>)
    ensures codes == Workflow(docs, book, model).documentCodes
  {
    var categorizer := Categorizer(book, model);
    var st := CategorizationState(docs, book, 0, []);
    var node := CategorizeDocumentStep;
    while node != End
      invariant st.codeBook == book
      invariant Run(st, node, categorizer) == Workflow(docs, book, model)
      decreases DocMeasure(st), Rank(node)
    {
      st := CategorizeDocumentNode(st, model);
      node := ShouldContinueCategorization(st);
    }
    codes := st.documentCodes;
  }

  // ---------------------------------------------------------------- properties

  /** Document by document: the codes over a list with one more document are
      the codes over the list followed by that document's codes. */
  lemma {:induction false} CodesFromAppend(docs: seq<Document>, doc: Document, i: nat,
                                           categorizer: Document -> seq<DocumentCode>)
    requires i <= |docs|
    ensures CodesFrom(docs + [doc], i, categorizer) == CodesFrom(docs, i, categorizer) + categorizer(doc)
    decreases |docs| - i
  {
    var all := docs + [doc];
    if i == |docs| {
      assert all[i] == doc;
      assert CodesFrom(all, i + 1, categorizer) == [];
      assert categorizer(doc) + [] == categorizer(doc);
    } else {
      assert all[i] == docs[i];
      CodesFromAppend(docs, doc, i + 1, categorizer);
    }
  }

  /** Each document is categorized exactly once, in index order: adding a
      document adds its codes at the end of the result. */
  lemma EveryDocumentOnce(docs: seq<Document>, doc: Document, book: CodeBook, model: CategorizingModel)
    ensures Workflow(docs + [doc], book, model).documentCodes
         == Workflow(docs, book, model).documentCodes + DocumentCodesFor(book, doc, model)
  {
    ExecuteClosedForm(docs + [doc], book, model);
    ExecuteClosedForm(docs, book, model);
    CodesFromAppend(docs, doc, 0, Categorizer(book, model));
  }

  /** The codes of documents `i..` are codes of the book, each for one of those documents. */
  lemma {:induction false} CodesFromBook(book: CodeBook, docs: seq<Document>, i: nat, model: CategorizingModel)
    ensures forall dc :: dc in CodesFrom(docs, i, Categorizer(book, model)) ==>
      dc.code in book.codes && exists k :: i <= k < |docs| && docs[k].path == dc.filePath
    decreases |docs| - i
  {
    if i < |docs| {
      CodesFromBook(book, docs, i + 1, model);
      var response := model(CategorizeRequestFor(book, docs[i]));
      ResolveDocumentCodesFacts(book, docs[i].path, response.codeNames, response.rationales);
    }
  }

  /** Every code a run returns is a code of the book, for one of the documents. */
  lemma RunCodesFromBook(docs: seq<Document>, book: CodeBook, model: CategorizingModel)
    ensures forall dc :: dc in Workflow(docs, book, model).documentCodes ==>
      dc.code in book.codes && exists k :: 0 <= k < |docs| && docs[k].path == dc.filePath
  {
    ExecuteClosedForm(docs, book, model);
    CodesFromBook(book, docs, 0, model);
  }
}
