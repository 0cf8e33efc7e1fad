/** The earlier, single-module variant of the three workflows. Its round 1
    differs from the reading workflow: each read sees only its document,
    and the notes are a list that every read extends by one entry
    ("Document <name>:" and the generated text), joined with blank lines
    for the code-book prompt. Its round 2 nodes and routers are the ones
    of the coding and categorization workflows, off-by-one included, so
    round 2 runs those workflows. */
module Workflows {
  import opened Wrappers
  import Text
  import opened Entities
  import ReadingNodes
  import CodingNodes
  import CodingGraph
  import CategorizationNodes
  import CategorizationGraph

  // ---------------------------------------------------------------- model I/O

  /** What the round 1 reading prompt is built from: the mode's value, the
      research context, the file name and the content. No notes. */
  datatype NoteRequest = NoteRequest(mode: AnalysisMode, userContext: string, docName: string, docContent: string)

  /** What the round 1 code-book prompt is built from: the mode, the context
      and all notes joined into one text. */
  datatype BookRequest = BookRequest(mode: AnalysisMode, userContext: string, allNotes: string)

  type NoteModel = NoteRequest -> string
  type BookModel = BookRequest -> seq<ReadingNodes.CodeEntry>

  // ---------------------------------------------------------------- notes

  const NoteSeparator: string := "\n\n"

  /** The entry a read adds to the notes list. */
  function NoteFor(docName: string, response: string): string
  {
    "Document " + docName + ":\n" + response
  }

  /** An entry names its document and then carries the generated text
      verbatim, so the text can be read back from it. */
  lemma NoteForFacts(docName: string, response: string)
    ensures |NoteFor(docName, response)| == 11 + |docName| + |response|
    ensures NoteFor(docName, response)[..9] == "Document "
    ensures NoteFor(docName, response)[9..9 + |docName|] == docName
    ensures NoteFor(docName, response)[11 + |docName|..] == response
  {
    var s := NoteFor(docName, response);
    assert s == "Document " + docName + ":\n" + response;
    assert s[..9] == "Document ";
    assert s[9..9 + |docName|] == docName;
    assert s[11 + |docName|..] == response;
  }

  /** `"\n\n".join(notes)`. */
  function JoinNotes(notes: seq<string>): string
  {
    if notes == [] then ""
    else if |notes| == 1 then notes[0]
    else notes[0] + NoteSeparator + JoinNotes(notes[1..])
  }

  /** Joining is in list order: one more note adds a separator and that
      note at the end of the text, and a single note is joined as itself. */
  lemma {:induction false} JoinNotesAppend(notes: seq<string>, note: string)
    ensures notes == [] ==> JoinNotes(notes + [note]) == note
    ensures notes != [] ==> JoinNotes(notes + [note]) == JoinNotes(notes) + NoteSeparator + note
  {
    if |notes| == 1 {
      assert notes + [note] == [notes[0], note];
      assert [notes[0], note][1..] == [note];
    } else if |notes| > 1 {
      JoinNotesAppend(notes[1..], note);
      assert (notes + [note])[1..] == notes[1..] + [note];
    }
  }

  // ---------------------------------------------------------------- round 1 nodes

  /** The round 1 state record: the notes are a list extended by the `operator.add` reducer. */
  datatype Round1State = Round1State(
    mode: AnalysisMode,
    documents: seq<Document>,
    userContext: string,
    notes: seq<string>,
    docIndex: nat,
    codeBook: Option<CodeBook>)

  /** The nodes of the round 1 graph, and END. */
  datatype Round1Node = ReadDocumentStep | CreateCodebookStep | End

  function NoteRequestFor(mode: AnalysisMode, userContext: string, doc: Document): NoteRequest
  {
    NoteRequest(mode, userContext, Text.FileName(doc.path), doc.content)
  }

  /** The entry the model's answer makes for one document. */
  function NoteOf(mode: AnalysisMode, userContext: string, doc: Document, reader: NoteModel): string
  {
    NoteFor(Text.FileName(doc.path), reader(NoteRequestFor(mode, userContext, doc)))
  }

  /** `read_document_node`: past the last document nothing changes;
      otherwise one entry for the document is added to the notes and the
      index advances by one. */
  function ReadDocument(st: Round1State, reader: NoteModel): Round1State
  {
    if st.docIndex >= |st.documents| then st
    else st.(notes := st.notes + [NoteOf(st.mode, st.userContext, st.documents[st.docIndex], reader)],
             docIndex := st.docIndex + 1)
  }

  /** Past the end the node makes no model call and changes nothing;
      otherwise the notes grow by exactly the document's entry, the old
      entries are kept in place, and nothing else but the index changes. */
  lemma ReadDocumentAppends(st: Round1State, reader: NoteModel, other: NoteModel)
    ensures st.docIndex >= |st.documents| ==> ReadDocument(st, reader) == ReadDocument(st, other) == st
    ensures st.docIndex < |st.documents| ==>
      var s := ReadDocument(st, reader);
      && |s.notes| == |st.notes| + 1
      && s.notes[..|st.notes|] == st.notes
      && s.notes[|st.notes|] == NoteFor(Text.FileName(st.documents[st.docIndex].path),
                                        reader(NoteRequestFor(st.mode, st.userContext, st.documents[st.docIndex])))
      && s.docIndex == st.docIndex + 1
      && s.(notes := st.notes, docIndex := st.docIndex) == st
  {
    if st.docIndex < |st.documents| {
      var s := ReadDocument(st, reader);
      assert s.notes[..|st.notes|] == st.notes;
    }
  }

  /** `should_continue_reading`: read another document while the index is
      a document, otherwise build the code book. */
  function ShouldContinueReading(st: Round1State): (r: Round1Node)
    ensures r == ReadDocumentStep || r == CreateCodebookStep
    ensures r == ReadDocumentStep <==> st.docIndex < |st.documents|
  {
    if st.docIndex < |st.documents| then ReadDocumentStep else CreateCodebookStep
  }

  /** `create_codebook_node`: one call on all notes joined with blank lines;
      the book holds one code per entry, the state's mode and context. */
  function CreateCodebook(st: Round1State, builder: BookModel): Round1State
  {
    var entries := builder(BookRequest(st.mode, st.userContext, JoinNotes(st.notes)));
    st.(codeBook := Some(ReadingNodes.BookOf(entries, st.mode, st.userContext)))
  }

  // ---------------------------------------------------------------- round 1 graph

  /** The state round 1's `execute` starts from: index 0, no notes, no code book. */
  function InitialState(mode: AnalysisMode, documents: seq<Document>, userContext: string): Round1State
  {
    Round1State(mode, documents, userContext, [], 0, None)
  }

  function Rank(node: Round1Node): nat
  {
    match node
    case ReadDocumentStep => 2
    case CreateCodebookStep => 1
    case End => 0
  }

  function DocMeasure(st: Round1State): nat
  {
    if st.docIndex <= |st.documents| then |st.documents| - st.docIndex else 0
  }

  /** The final state of a round 1 run that is at `node` in state `st`. */
  function Run(st: Round1State, node: Round1Node, reader: NoteModel, builder: BookModel): Round1State
    decreases DocMeasure(st), Rank(node)
  {
    match node
    case End => st
    case CreateCodebookStep => Run(CreateCodebook(st, builder), End, reader, builder)
    case ReadDocumentStep =>
      var s := ReadDocument(st, reader);
      if ShouldContinueReading(s) == ReadDocumentStep then Run(s, ReadDocumentStep, reader, builder)
      else Run(s, CreateCodebookStep, reader, builder)
  }

  /** The requests of documents `i..`, in index order. */
  function RequestsFrom(mode: AnalysisMode, userContext: string, docs: seq<Document>, i: nat): seq<NoteRequest>
    decreases |docs| - i
  {
    if i >= |docs| then [] else [NoteRequestFor(mode, userContext, docs[i])] + RequestsFrom(mode, userContext, docs, i + 1)
  }

  /** The entries of documents `i..`, in index order. */
  function NotesFrom(mode: AnalysisMode, userContext: string, docs: seq<Document>, i: nat, reader: NoteModel): seq<string>
    decreases |docs| - i
  {
    if i >= |docs| then [] else [NoteOf(mode, userContext, docs[i], reader)] + NotesFrom(mode, userContext, docs, i + 1, reader)
  }

  /** The state after the reads from `st`: one entry per remaining document
      added to the notes, and the index at the end. */
  function AfterReads(st: Round1State, reader: NoteModel): Round1State
  {
    st.(notes := st.notes + NotesFrom(st.mode, st.userContext, st.documents, st.docIndex, reader),
        docIndex := if st.docIndex < |st.documents| then |st.documents| else st.docIndex)
  }

  /** One read keeps what the reads from the state lead to; once the index
      is past the documents, the reads are done. */
  lemma AfterReadsStep(st: Round1State, reader: NoteModel)
    ensures AfterReads(ReadDocument(st, reader), reader) == AfterReads(st, reader)
    ensures ReadDocument(st, reader).docIndex >= |st.documents| ==> ReadDocument(st, reader) == AfterReads(st, reader)
  {
    var s := ReadDocument(st, reader);
    var i := st.docIndex;
    if i >= |st.documents| {
      assert st.notes + [] == st.notes;
    } else {
      var rest := NotesFrom(st.mode, st.userContext, st.documents, i + 1, reader);
      var note := NoteOf(st.mode, st.userContext, st.documents[i], reader);
      assert NotesFrom(st.mode, st.userContext, st.documents, i, reader) == [note] + rest;
      assert s.notes + rest == st.notes + ([note] + rest);
      if i + 1 >= |st.documents| {
        assert s.notes + [] == s.notes;
      }
    }
  }

  /** The read loop: from read_document, the run reads every remaining
      document, in order, and then builds the code book once, from the
      notes the reads left. */
  lemma {:induction false} ReadLoop(st: Round1State, reader: NoteModel, builder: BookModel)
    ensures Run(st, ReadDocumentStep, reader, builder) == CreateCodebook(AfterReads(st, reader), builder)
    decreases DocMeasure(st)
  {
    var s := ReadDocument(st, reader);
    AfterReadsStep(st, reader);
    if ShouldContinueReading(s) == ReadDocumentStep {
      ReadLoop(s, reader, builder);
    } else {
      assert Run(s, CreateCodebookStep, reader, builder) == CreateCodebook(s, builder);
    }
  }

  /** The round 1 run `execute` makes. */
  function Round1(mode: AnalysisMode, documents: seq<Document>, userContext: string,
                  reader: NoteModel, builder: BookModel): Round1State
  {
    Run(InitialState(mode, documents, userContext), ReadDocumentStep, reader, builder)
  }

  /** The entries of documents `i..`: one per document, in index order, each
      made from its own document only. */
  lemma {:induction false} NotesFromFacts(mode: AnalysisMode, userContext: string, docs: seq<Document>, i: nat,
                                          reader: NoteModel)
    requires i <= |docs|
    ensures |NotesFrom(mode, userContext, docs, i, reader)| == |docs| - i
    ensures forall k :: i <= k < |docs| ==>
      NotesFrom(mode, userContext, docs, i, reader)[k - i] == NoteOf(mode, userContext, docs[k], reader)
    decreases |docs| - i
  {
    if i < |docs| {
      NotesFromFacts(mode, userContext, docs, i + 1, reader);
    }
  }

  /** The requests of documents `i..`: one per document, in index order. */
  lemma {:induction false} RequestsFromFacts(mode: AnalysisMode, userContext: string, docs: seq<Document>, i: nat)
    requires i <= |docs|
    ensures |RequestsFrom(mode, userContext, docs, i)| == |docs| - i
    ensures forall k :: i <= k < |docs| ==>
      RequestsFrom(mode, userContext, docs, i)[k - i] == NoteRequestFor(mode, userContext, docs[k])
    decreases |docs| - i
  {
    if i < |docs| {
      RequestsFromFacts(mode, userContext, docs, i + 1);
    }
  }

  /** What round 1's `execute` returns: the code book built from the
      entries of all documents in reading order, joined with blank lines;
      with no documents, from the empty text. */
  lemma Round1ClosedForm(mode: AnalysisMode, documents: seq<Document>, userContext: string,
                         reader: NoteModel, builder: BookModel)
    ensures Round1(mode, documents, userContext, reader, builder).codeBook
         == Some(ReadingNodes.BookOf(builder(BookRequest(mode, userContext,
                   JoinNotes(NotesFrom(mode, userContext, documents, 0, reader)))), mode, userContext))
    ensures documents == [] ==>
      Round1(mode, documents, userContext, reader, builder).codeBook
      == Some(ReadingNodes.BookOf(builder(BookRequest(mode, userContext, "")), mode, userContext))
  {
    var init := InitialState(mode, documents, userContext);
    ReadLoop(init, reader, builder);
    assert [] + NotesFrom(mode, userContext, documents, 0, reader) == NotesFrom(mode, userContext, documents, 0, reader);
  }

  /** Notes are appended, not replaced: with one more document the joined
      notes are those of the documents before it, a blank line, and the new
      document's entry. */
  lemma AppendedNotes(mode: AnalysisMode, documents: seq<Document>, doc: Document, userContext: string,
                      reader: NoteModel)
    ensures documents != [] ==>
      JoinNotes(NotesFrom(mode, userContext, documents + [doc], 0, reader))
      == JoinNotes(NotesFrom(mode, userContext, documents, 0, reader)) + NoteSeparator + NoteOf(mode, userContext, doc, reader)
    ensures documents == [] ==>
      JoinNotes(NotesFrom(mode, userContext, documents + [doc], 0, reader)) == NoteOf(mode, userContext, doc, reader)
  {
    var all := documents + [doc];
    var before := NotesFrom(mode, userContext, documents, 0, reader);
    NotesFromFacts(mode, userContext, all, 0, reader);
    NotesFromFacts(mode, userContext, documents, 0, reader);
    var after := NotesFrom(mode, userContext, all, 0, reader);
    var expected := before + [NoteOf(mode, userContext, doc, reader)];
    assert |after| == |expected|;
    forall k | 0 <= k < |after|
      ensures after[k] == expected[k]
    {
      assert after[k] == NoteOf(mode, userContext, all[k], reader);
      if k < |documents| {
        assert all[k] == documents[k];
        assert expected[k] == before[k] == NoteOf(mode, userContext, documents[k], reader);
      } else {
        assert all[k] == doc;
      }
    }
    assert after == expected;
    JoinNotesAppend(before, NoteOf(mode, userContext, doc, reader));
  }

  /** One read_document step, as the loop of `execute` sees it: the calls
      made so far followed by the calls still to come stay the whole list. */
  lemma RequestsStep(st: Round1State, done: seq<NoteRequest>, all: seq<NoteRequest>)
    requires done + RequestsFrom(st.mode, st.userContext, st.documents, st.docIndex) == all
    ensures st.docIndex < |st.documents| ==>
      (done + [NoteRequestFor(st.mode, st.userContext, st.documents[st.docIndex])])
        + RequestsFrom(st.mode, st.userContext, st.documents, st.docIndex + 1) == all
    ensures st.docIndex >= |st.documents| ==> done == all
  {
    if st.docIndex < |st.documents| {
      var q := NoteRequestFor(st.mode, st.userContext, st.documents[st.docIndex]);
      var rest := RequestsFrom(st.mode, st.userContext, st.documents, st.docIndex + 1);
      assert done + ([q] + rest) == (done + [q]) + rest;
    } else {
      assert done + [] == done;
    }
  }

  /** Round 1's `execute`: starts at read_document from the initial state
      and drives the nodes along the wired edges until END. Besides the
      code book it returns the reading calls it made, in order: one per
      document, in index order, each on that document alone. */
  method ExecuteRound1(mode: AnalysisMode, documents: seq<Document>, userContext: string,
                       reader: NoteModel, builder: BookModel)
    returns (book: CodeBook, readCalls: seq<NoteRequest>)
    ensures Round1(mode, documents, userContext, reader, builder).codeBook == Some(book)
    ensures |readCalls| == |documents|
    ensures forall k :: 0 <= k < |documents| ==> readCalls[k] == NoteRequestFor(mode, userContext, documents[k])
  {
    ghost var final := Round1(mode, documents, userContext, reader, builder);
    ghost var allReads := RequestsFrom(mode, userContext, documents, 0);
    RequestsFromFacts(mode, userContext, documents, 0);
    Round1ClosedForm(mode, documents, userContext, reader, builder);
    var st := Round1State(mode, documents, userContext, [], 0, None);
    var node := ReadDocumentStep;
    readCalls := [];
    while node != End
      invariant st.mode == mode && st.userContext == userContext && st.documents == documents
      invariant Run(st, node, reader, builder) == final
      invariant node == ReadDocumentStep ==> readCalls + RequestsFrom(mode, userContext, documents, st.docIndex) == allReads
      invariant node != ReadDocumentStep ==> readCalls == allReads
      decreases DocMeasure(st), Rank(node)
    {
      match node {
        case ReadDocumentStep =>
          RequestsStep(st, readCalls, allReads);
          if st.docIndex < |st.documents| {
            readCalls := readCalls + [NoteRequestFor(mode, userContext, st.documents[st.docIndex])];
          }
          st := ReadDocument(st, reader);
          node := ShouldContinueReading(st);
        case CreateCodebookStep =>
          st := CreateCodebook(st, builder);
          node := End;
      }
    }
    book := st.codeBook.value;
  }

  // ---------------------------------------------------------------- round 2

  /** The round 2 coding workflow: the same nodes and routers as the coding
      workflow, the document router with its `len(documents) - 1` bound. */
  method ExecuteRound2Coding(docs: seq<Document>, book: CodeBook,
                             chunking: CodingNodes.ChunkingModel, coding: CodingNodes.CodingModel)
    returns (codes: seq<SentenceCode>)
    ensures codes == CodingGraph.Workflow(CodingGraph.AsWritten, docs, book, chunking, coding).sentenceCodes
  {
    codes := CodingGraph.Execute(CodingGraph.AsWritten, docs, book, chunking, coding);
  }

  /** The round 2 categorization workflow: the same node and router as the
      categorization workflow. */
  method ExecuteRound2Categorization(docs: seq<Document>, book: CodeBook, model: CategorizationNodes.CategorizingModel)
    returns (codes: seq<DocumentCode>)
    ensures codes == CategorizationGraph.Workflow(docs, book, model).documentCodes
  {
    codes := CategorizationGraph.Execute(docs, book, model);
  }
}
