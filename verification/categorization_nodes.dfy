/** The node of the categorization workflow: one model call per document,
    whose response names the codes that apply to the whole document. The
    names are resolved against the code book; unknown names are dropped. */
module CategorizationNodes {
  import opened Wrappers
  import opened Text
  import opened Entities

  /** The structured response: code names, and a rationale per name
      (an empty map when the model gives none). */
  datatype DocumentCodeResponse = DocumentCodeResponse(codeNames: seq<string>, rationales: map<string, string>)

  /** What the categorization prompt is built from: the file name, the
      content, and the book's codes. */
  datatype CategorizeRequest = CategorizeRequest(docName: string, docContent: string, codes: seq<Code>)

  type CategorizingModel = CategorizeRequest -> DocumentCodeResponse

  /** The categorization workflow's state record. */
  datatype CategorizationState = CategorizationState(
    documents: seq<Document>,
    codeBook: CodeBook,
    docIndex: nat,
    documentCodes: seq<DocumentCode>)

  // ---------------------------------------------------------------- code resolution

  /** The rationale given for a name, or None when the map has no entry for it. */
  function RationaleFor(rationales: map<string, string>, name: string): Option<string>
  {
    if name in rationales then Some(rationales[name]) else None
  }

  /** The response names the book knows, in response order and with
      repetitions kept, each as a code of the document at `path` with the
      rationale given for it; unknown names are dropped. */
  function ResolveDocumentCodes(book: CodeBook, path: Path, names: seq<string>, rationales: map<string, string>)
    : (r: seq<DocumentCode>)
    ensures |r| <= |names|
  {
    if names == [] then []
    else
      var init := names[..|names| - 1];
      var name := names[|names| - 1];
      var code := book.GetCode(name);
      ResolveDocumentCodes(book, path, init, rationales)
      + (if code.Some? then [DocumentCode(path, code.value, RationaleFor(rationales, name))] else [])
  }

  /** Resolution keeps exactly the names the book knows: each kept code is
      the book's code of a response name, for the given document, with that
      name's rationale; every known name yields its code; and the result is
      as long as the response exactly when every name is known. */
  lemma {:induction false} ResolveDocumentCodesFacts(book: CodeBook, path: Path, names: seq<string>,
                                                     rationales: map<string, string>)
    ensures forall dc :: dc in ResolveDocumentCodes(book, path, names, rationales) ==>
      && dc.filePath == path
      && dc.code in book.codes
      && dc.code.name in names
      && book.GetCode(dc.code.name) == Some(dc.code)
      && dc.rationale == RationaleFor(rationales, dc.code.name)
    ensures forall name :: name in names && book.GetCode(name).Some? ==>
      DocumentCode(path, book.GetCode(name).value, RationaleFor(rationales, name))
        in ResolveDocumentCodes(book, path, names, rationales)
    ensures |ResolveDocumentCodes(book, path, names, rationales)| == |names|
        <==> forall name :: name in names ==> book.GetCode(name).Some?
  {
    if names != [] {
      var init := names[..|names| - 1];
      var name := names[|names| - 1];
      assert names == init + [name];
      ResolveDocumentCodesFacts(book, path, init, rationales);
      if book.GetCode(name).None? {
        assert |ResolveDocumentCodes(book, path, init, rationales)| <= |init| < |names|;
      }
    }
  }

  /** Resolution goes name by name: the codes of two runs of names are the
      codes of the first followed by those of the second. Order is kept and
      a repeated name yields its code again. */
  lemma {:induction false} ResolveDocumentCodesConcat(book: CodeBook, path: Path, a: seq<string>, b: seq<string>,
                                                      rationales: map<string, string>)
    ensures ResolveDocumentCodes(book, path, a + b, rationales)
         == ResolveDocumentCodes(book, path, a, rationales) + ResolveDocumentCodes(book, path, b, rationales)
    decreases |b|
  {
    if b == [] {
      assert a + b == a;
    } else {
      var init := b[..|b| - 1];
      var name := b[|b| - 1];
      assert (a + b)[..|a + b| - 1] == a + init;
      assert (a + b)[|a + b| - 1] == name;
      ResolveDocumentCodesConcat(book, path, a, init, rationales);
    }
  }

  /** One more name adds its code, if the book knows it, after the codes of the names before it. */
  lemma ResolveDocumentCodesStep(book: CodeBook, path: Path, names: seq<string>, n: nat,
                                 rationales: map<string, string>)
    requires n < |names|
    ensures var code := book.GetCode(names[n]);
      ResolveDocumentCodes(book, path, names[..n + 1], rationales)
      == ResolveDocumentCodes(book, path, names[..n], rationales)
         + (if code.Some? then [DocumentCode(path, code.value, RationaleFor(rationales, names[n]))] else [])
  {
    assert names[..n + 1][..n] == names[..n];
  }

  /** The conversion loop of `categorize_document_node`. */
  method ConvertDocumentCodes(book: CodeBook, path: Path, response: DocumentCodeResponse)
    returns (codes: seq<DocumentCode>)
    ensures codes == ResolveDocumentCodes(book, path, response.codeNames, response.rationales)
  {
    var names := response.codeNames;
    codes := [];
    var n := 0;
    while n < |names|
      invariant 0 <= n <= |names|
      invariant codes == ResolveDocumentCodes(book, path, names[..n], response.rationales)
    {
      var name := names[n];
      var code := book.GetCode(name);
      ResolveDocumentCodesStep(book, path, names, n, response.rationales);
      if code.Some? {
        codes := codes + [DocumentCode(path, code.value, RationaleFor(response.rationales, name))];
      }
      n := n + 1;
    }
    assert names[..|names|] == names;
  }

  // ---------------------------------------------------------------- the node

  function CategorizeRequestFor(book: CodeBook, doc: Document): CategorizeRequest
  {
    CategorizeRequest(FileName(doc.path), doc.content, book.codes)
  }

  /** The codes the model has a document given: its response, resolved. */
  function DocumentCodesFor(book: CodeBook, doc: Document, model: CategorizingModel): seq<DocumentCode>
  {
    var response := model(CategorizeRequestFor(book, doc));
    ResolveDocumentCodes(book, doc.path, response.codeNames, response.rationales)
  }

  /** `DocumentCodesFor` as a function of the document alone. */
  function Categorizer(book: CodeBook, model: CategorizingModel): Document -> seq<DocumentCode>
  {
    doc => DocumentCodesFor(book, doc, model)
  }

  /** `categorize_document_node`, given the codes each document gets: past
      the last document nothing changes; otherwise the document's codes are
      appended (the list reducer) and the index advances by one. */
  function CategorizeDocument(st: CategorizationState, categorizer: Document -> seq<DocumentCode>): CategorizationState
  {
    if st.docIndex >= |st.documents| then st
    else st.(documentCodes := st.documentCodes + categorizer(st.documents[st.docIndex]), docIndex := st.docIndex + 1)
  }

  /** categorize_document changes only the index and the codes; past the end
      it changes nothing; otherwise the index advances by one and the codes
      only grow, by codes of the book for the indexed document. */
  lemma CategorizeDocumentFacts(st: CategorizationState, model: CategorizingModel)
    ensures CategorizeDocument(st, Categorizer(st.codeBook, model)).(docIndex := st.docIndex, documentCodes := st.documentCodes) == st
    ensures st.docIndex >= |st.documents| ==> CategorizeDocument(st, Categorizer(st.codeBook, model)) == st
    ensures st.docIndex < |st.documents| ==> CategorizeDocument(st, Categorizer(st.codeBook, model)).docIndex == st.docIndex + 1
    ensures st.documentCodes <= CategorizeDocument(st, Categorizer(st.codeBook, model)).documentCodes
    ensures forall dc :: dc in CategorizeDocument(st, Categorizer(st.codeBook, model)).documentCodes ==>
      dc in st.documentCodes || (dc.code in st.codeBook.codes && dc.filePath == st.documents[st.docIndex].path)
  {
    var r := CategorizeDocument(st, Categorizer(st.codeBook, model));
    if st.docIndex < |st.documents| {
      var doc := st.documents[st.docIndex];
      var response := model(CategorizeRequestFor(st.codeBook, doc));
      var added := ResolveDocumentCodes(st.codeBook, doc.path, response.codeNames, response.rationales);
      assert r.documentCodes == st.documentCodes + added;
      ResolveDocumentCodesFacts(st.codeBook, doc.path, response.codeNames, response.rationales);
      forall dc | dc in r.documentCodes
        ensures dc in st.documentCodes || (dc.code in st.codeBook.codes && dc.filePath == doc.path)
      {
        if dc !in st.documentCodes {
          assert dc in added;
        }
      }
    }
  }

  /** Past the last document the node makes no model call: its result is
      the same whatever the documents would be given. */
  lemma CategorizeDocumentPastEnd(st: CategorizationState, c1: Document -> seq<DocumentCode>,
                                  c2: Document -> seq<DocumentCode>)
    requires st.docIndex >= |st.documents|
    ensures CategorizeDocument(st, c1) == CategorizeDocument(st, c2) == st
  {
  }

  method CategorizeDocumentNode(st: CategorizationState, model: CategorizingModel) returns (r: CategorizationState)
    ensures r == CategorizeDocument(st, Categorizer(st.codeBook, model))
  {
    if st.docIndex >= |st.documents| {
      return st;
    }
    var doc := st.documents[st.docIndex];
    var response := model(CategorizeRequest(FileName(doc.path), doc.content, st.codeBook.codes));
    var codes := ConvertDocumentCodes(st.codeBook, doc.path, response);
    r := st.(documentCodes := st.documentCodes + codes, docIndex := st.docIndex + 1);
  }
}
