/** The reading workflow as a state machine: entry at read_document, which
    loops on itself while documents remain and then hands over to
    create_codebook, which ends the run. `Run` is the meaning of a run from
    a node; `Execute` is the loop that drives the nodes, proved to compute
    it and to make exactly the model calls the closed form lists. */
module ReadingGraph {
  import opened Wrappers
  import Text
  import opened Entities
  import opened ReadingNodes
  import opened ReadingEdges

  /** The state `execute` starts from: index 0, the notes an empty list, no code book. */
  function InitialState(mode: AnalysisMode, documents: seq<Document>, userContext: string): ReadingState
  {
    ReadingState(mode, documents, userContext, EmptyList, 0, None)
  }

  function Rank(node: ReadingNode): nat
  {
    match node
    case ReadDocumentStep => 2
    case CreateCodebookStep => 1
    case End => 0
  }

  function DocMeasure(st: ReadingState): nat
  {
    if st.docIndex <= |st.documents| then |st.documents| - st.docIndex else 0
  }

  /** The final state of a run that is at `node` in state `st`. */
  function Run(st: ReadingState, node: ReadingNode, reader: ReadingModel, builder: CodeBookModel): ReadingState
    decreases DocMeasure(st), Rank(node)
  {
    match node
    case End => st
    case CreateCodebookStep => Run(CreateCodebook(st, builder), End, reader, builder)
    case ReadDocumentStep =>
      var s := ReadDocument(st, reader);
      if ShouldContinueReading(s) == ReadDocumentStep then Run(s, ReadDocumentStep, reader, builder)
      else Run(s, CreateCodebookStep, reader, builder)
  }

  // ---------------------------------------------------------------- closed form

  /** How read_document turns a document and the notes held into a request,
      in a given mode and context. */
  function Asker(mode: AnalysisMode, userContext: string): (Document, Notes) -> ReadRequest
  {
    (doc: Document, notes: Notes) => ReadRequest(mode, userContext, Text.FileName(doc.path), doc.content, NotesSuffix(notes))
  }

  /** The requests of the passes over `docs` from index `i` on, in index
      order, starting with `notes`; each pass's generated text is the next notes. */
  function ReadsFrom<D>(docs: seq<D>, notes: Notes, i: nat, ask: (D, Notes) -> ReadRequest, reader: ReadingModel)
    : seq<ReadRequest>
    decreases |docs| - i
  {
    if i >= |docs| then []
    else
      var req := ask(docs[i], notes);
      [req] + ReadsFrom(docs, Written(reader(req)), i + 1, ask, reader)
  }

  /** The notes once every document from `i` on has been read. */
  function NotesFrom<D>(docs: seq<D>, notes: Notes, i: nat, ask: (D, Notes) -> ReadRequest, reader: ReadingModel): Notes
    decreases |docs| - i
  {
    if i >= |docs| then notes
    else NotesFrom(docs, Written(reader(ask(docs[i], notes))), i + 1, ask, reader)
  }

  /** The read requests of the passes from `st` on. */
  function Requests(st: ReadingState, reader: ReadingModel): seq<ReadRequest>
  {
    ReadsFrom(st.documents, st.notes, st.docIndex, Asker(st.mode, st.userContext), reader)
  }

  /** The notes once every remaining document of `st` has been read. */
  function FinalNotes(st: ReadingState, reader: ReadingModel): Notes
  {
    NotesFrom(st.documents, st.notes, st.docIndex, Asker(st.mode, st.userContext), reader)
  }

  /** One read_document pass is the first step of the closed form: it makes
      the first request, and the requests and notes still to come are those
      of the state it leaves. */
  lemma ReadPass(st: ReadingState, reader: ReadingModel)
    ensures st.docIndex < |st.documents| ==>
      && Requests(st, reader) == [ReadRequestFor(st)] + Requests(ReadDocument(st, reader), reader)
      && FinalNotes(st, reader) == FinalNotes(ReadDocument(st, reader), reader)
    ensures st.docIndex >= |st.documents| ==>
      Requests(st, reader) == [] && FinalNotes(st, reader) == st.notes && ReadDocument(st, reader) == st
  {
    if st.docIndex < |st.documents| {
      assert Asker(st.mode, st.userContext)(st.documents[st.docIndex], st.notes) == ReadRequestFor(st);
    }
  }

  /** The read loop: from read_document, the run reads every remaining
      document and then builds the code book from the final notes. */
  lemma {:induction false} ReadLoop(st: ReadingState, reader: ReadingModel, builder: CodeBookModel)
    ensures Run(st, ReadDocumentStep, reader, builder)
         == CreateCodebook(st.(notes := FinalNotes(st, reader),
                               docIndex := if st.docIndex < |st.documents| then |st.documents| else st.docIndex),
                           builder)
    decreases DocMeasure(st)
  {
    var s := ReadDocument(st, reader);
    ReadPass(st, reader);
    if st.docIndex < |st.documents| {
      if s.docIndex < |s.documents| {
        ReadLoop(s, reader, builder);
      } else {
        assert Run(st, ReadDocumentStep, reader, builder) == Run(s, CreateCodebookStep, reader, builder);
        ReadPass(s, reader);
      }
    } else {
      assert Run(st, ReadDocumentStep, reader, builder) == Run(st, CreateCodebookStep, reader, builder);
    }
  }

  /** One request per remaining document. */
  lemma {:induction false} ReadsFromLength<D>(docs: seq<D>, notes: Notes, i: nat, ask: (D, Notes) -> ReadRequest,
                                              reader: ReadingModel)
    requires i <= |docs|
    ensures |ReadsFrom(docs, notes, i, ask, reader)| == |docs| - i
    decreases |docs| - i
  {
    if i < |docs| {
      ReadsFromLength(docs, Written(reader(ask(docs[i], notes))), i + 1, ask, reader);
    }
  }

  /** The notes held after `k` more reads from index `i`. */
  function NotesAfter<D>(docs: seq<D>, notes: Notes, i: nat, ask: (D, Notes) -> ReadRequest, reader: ReadingModel,
                         k: nat): Notes
    requires i + k <= |docs|
    decreases k
  {
    if k == 0 then notes
    else NotesAfter(docs, Written(reader(ask(docs[i], notes))), i + 1, ask, reader, k - 1)
  }

  /** The `k`-th request is the one asked for document `i + k` with the
      notes held after `k` reads. */
  lemma {:induction false} ReadsFromAt<D>(docs: seq<D>, notes: Notes, i: nat, ask: (D, Notes) -> ReadRequest,
                                          reader: ReadingModel, k: nat)
    requires i + k < |docs|
    ensures k < |ReadsFrom(docs, notes, i, ask, reader)|
    ensures ReadsFrom(docs, notes, i, ask, reader)[k] == ask(docs[i + k], NotesAfter(docs, notes, i, ask, reader, k))
    decreases k
  {
    if k > 0 {
      ReadsFromAt(docs, Written(reader(ask(docs[i], notes))), i + 1, ask, reader, k - 1);
    }
  }

  /** The first request carries the notes the loop starts with, and every
      later one the text the call before it generated. */
  lemma {:induction false} ReadsFromChain<D>(docs: seq<D>, notes: Notes, i: nat, ask: (D, Notes) -> ReadRequest,
                                             reader: ReadingModel, k: nat)
    requires i + k < |docs|
    ensures k < |ReadsFrom(docs, notes, i, ask, reader)|
    ensures ReadsFrom(docs, notes, i, ask, reader)[k]
         == if k == 0 then ask(docs[i], notes)
            else ask(docs[i + k], Written(reader(ReadsFrom(docs, notes, i, ask, reader)[k - 1])))
    decreases k
  {
    if k > 0 {
      var req := ask(docs[i], notes);
      var rest := ReadsFrom(docs, Written(reader(req)), i + 1, ask, reader);
      assert ReadsFrom(docs, notes, i, ask, reader) == [req] + rest;
      ReadsFromChain(docs, Written(reader(req)), i + 1, ask, reader, k - 1);
    }
  }

  /** The final notes are the last generated text, or the starting notes when nothing is read. */
  lemma {:induction false} NotesFromIsLast<D>(docs: seq<D>, notes: Notes, i: nat, ask: (D, Notes) -> ReadRequest,
                                              reader: ReadingModel)
    ensures NotesFrom(docs, notes, i, ask, reader)
         == if ReadsFrom(docs, notes, i, ask, reader) == [] then notes
            else Written(reader(ReadsFrom(docs, notes, i, ask, reader)[|ReadsFrom(docs, notes, i, ask, reader)| - 1]))
    decreases |docs| - i
  {
    if i < |docs| {
      var req := ask(docs[i], notes);
      var rest := ReadsFrom(docs, Written(reader(req)), i + 1, ask, reader);
      assert ReadsFrom(docs, notes, i, ask, reader) == [req] + rest;
      NotesFromIsLast(docs, Written(reader(req)), i + 1, ask, reader);
    }
  }

  /** One request per remaining document. */
  lemma RequestsLength(st: ReadingState, reader: ReadingModel)
    requires st.docIndex <= |st.documents|
    ensures |Requests(st, reader)| == |st.documents| - st.docIndex
  {
    ReadsFromLength(st.documents, st.notes, st.docIndex, Asker(st.mode, st.userContext), reader);
  }

  /** The `k`-th request is built from document `docIndex + k`, in the state's mode and context. */
  lemma RequestsFollowDocuments(st: ReadingState, reader: ReadingModel, k: nat)
    requires st.docIndex + k < |st.documents|
    ensures k < |Requests(st, reader)|
    ensures Requests(st, reader)[k].mode == st.mode
    ensures Requests(st, reader)[k].userContext == st.userContext
    ensures Requests(st, reader)[k].docName == Text.FileName(st.documents[st.docIndex + k].path)
    ensures Requests(st, reader)[k].docContent == st.documents[st.docIndex + k].content
  {
    ReadsFromAt(st.documents, st.notes, st.docIndex, Asker(st.mode, st.userContext), reader, k);
  }

  /** The first request carries the notes the loop starts with, and every
      later one the text the call before it generated. */
  lemma RequestsChain(st: ReadingState, reader: ReadingModel, k: nat)
    requires st.docIndex + k < |st.documents|
    ensures k < |Requests(st, reader)|
    ensures Requests(st, reader)[k].notesSuffix
         == if k == 0 then NotesSuffix(st.notes) else NotesSuffix(Written(reader(Requests(st, reader)[k - 1])))
  {
    ReadsFromChain(st.documents, st.notes, st.docIndex, Asker(st.mode, st.userContext), reader, k);
  }

  /** The final notes are the last generated text, or the starting notes when nothing is read. */
  lemma FinalNotesIsLast(st: ReadingState, reader: ReadingModel)
    ensures FinalNotes(st, reader)
         == if Requests(st, reader) == [] then st.notes
            else Written(reader(Requests(st, reader)[|Requests(st, reader)| - 1]))
  {
    NotesFromIsLast(st.documents, st.notes, st.docIndex, Asker(st.mode, st.userContext), reader);
  }

  /** The run `execute` makes. */
  function Workflow(mode: AnalysisMode, documents: seq<Document>, userContext: string,
                    reader: ReadingModel, builder: CodeBookModel): ReadingState
  {
    Run(InitialState(mode, documents, userContext), ReadDocumentStep, reader, builder)
  }

  /** What `execute` returns: the code book built from the notes left by
      the last read, in the requested mode and context. */
  lemma ExecuteClosedForm(mode: AnalysisMode, documents: seq<Document>, userContext: string,
                          reader: ReadingModel, builder: CodeBookModel)
    ensures Workflow(mode, documents, userContext, reader, builder).codeBook
         == Some(BookOf(builder(CodeBookRequest(mode, userContext, FinalNotes(InitialState(mode, documents, userContext), reader))),
                        mode, userContext))
  {
    ReadLoop(InitialState(mode, documents, userContext), reader, builder);
  }

  /** Over `n` documents the run makes `n` read calls, one per document in
      index order; the first sees no notes and every later one the text the
      call before it generated; with no documents the code book is built
      from the initial empty list. */
  lemma ReadingCallsPerDocument(mode: AnalysisMode, documents: seq<Document>, userContext: string, reader: ReadingModel)
    ensures |Requests(InitialState(mode, documents, userContext), reader)| == |documents|
    ensures forall k :: 0 <= k < |documents| ==>
      Requests(InitialState(mode, documents, userContext), reader)[k].docContent == documents[k].content
    ensures |documents| > 0 ==> Requests(InitialState(mode, documents, userContext), reader)[0].notesSuffix == ""
    ensures documents == [] ==> FinalNotes(InitialState(mode, documents, userContext), reader) == EmptyList
  {
    var init := InitialState(mode, documents, userContext);
    RequestsLength(init, reader);
    forall k | 0 <= k < |documents|
      ensures Requests(init, reader)[k].docContent == documents[k].content
    {
      RequestsFollowDocuments(init, reader, k);
    }
    if |documents| > 0 {
      RequestsChain(init, reader, 0);
    }
  }

  /** One read_document step, as the loop of `execute` sees it: the calls
      made so far followed by the calls still to come stay the whole list,
      the final notes stay the same, and the run goes on from the next state. */
  lemma ReadStep(st: ReadingState, reader: ReadingModel, builder: CodeBookModel,
                 done: seq<ReadRequest>, all: seq<ReadRequest>)
    requires done + Requests(st, reader) == all
    ensures st.docIndex < |st.documents| ==>
      (done + [ReadRequestFor(st)]) + Requests(ReadDocument(st, reader), reader) == all
    ensures st.docIndex >= |st.documents| ==> done == all && ReadDocument(st, reader) == st
    ensures FinalNotes(st, reader) == FinalNotes(ReadDocument(st, reader), reader)
    ensures ShouldContinueReading(ReadDocument(st, reader)) == ReadDocumentStep ==>
      Run(st, ReadDocumentStep, reader, builder) == Run(ReadDocument(st, reader), ReadDocumentStep, reader, builder)
    ensures ShouldContinueReading(ReadDocument(st, reader)) == CreateCodebookStep ==>
      Run(st, ReadDocumentStep, reader, builder) == Run(ReadDocument(st, reader), CreateCodebookStep, reader, builder)
  {
    ReadPass(st, reader);
    if st.docIndex < |st.documents| {
      var rest := Requests(ReadDocument(st, reader), reader);
      assert done + ([ReadRequestFor(st)] + rest) == (done + [ReadRequestFor(st)]) + rest;
    } else {
      assert done + [] == done;
    }
  }

  /** `ReadingWorkflow.execute`: starts at read_document from the initial
      state and drives the nodes along the wired edges until END. Besides
      the code book it returns the model calls it made, in order. */
  method Execute(mode: AnalysisMode, documents: seq<Document>, userContext: string,
                 reader: ReadingModel, builder: CodeBookModel)
    returns (book: CodeBook, readCalls: seq<ReadRequest>, bookCalls: seq<CodeBookRequest>)
    ensures Workflow(mode, documents, userContext, reader, builder).codeBook == Some(book)
    ensures readCalls == Requests(InitialState(mode, documents, userContext), reader)
    ensures bookCalls == [CodeBookRequest(mode, userContext, FinalNotes(InitialState(mode, documents, userContext), reader))]
  {
    ghost var init := InitialState(mode, documents, userContext);
    ghost var final := Workflow(mode, documents, userContext, reader, builder);
    ghost var allReads := Requests(init, reader);
    ghost var lastNotes := FinalNotes(init, reader);
    var st := ReadingState(mode, documents, userContext, EmptyList, 0, None);
    var node := ReadDocumentStep;
    readCalls := [];
    bookCalls := [];
    while node != End
      invariant st.mode == mode && st.userContext == userContext
      invariant node == ReadDocumentStep ==> Run(st, ReadDocumentStep, reader, builder) == final
      invariant node == CreateCodebookStep ==> Run(st, CreateCodebookStep, reader, builder) == final
      invariant node == End ==> st == final
      invariant node == ReadDocumentStep ==> readCalls + Requests(st, reader) == allReads && FinalNotes(st, reader) == lastNotes
      invariant node != ReadDocumentStep ==> readCalls == allReads
      invariant node == CreateCodebookStep ==> st.notes == lastNotes
      invariant node != End ==> bookCalls == []
      invariant node == End ==> bookCalls == [CodeBookRequest(mode, userContext, lastNotes)]
      decreases DocMeasure(st), Rank(node)
    {
      match node {
        case ReadDocumentStep =>
          ReadStep(st, reader, builder, readCalls, allReads);
          if st.docIndex < |st.documents| {
            readCalls := readCalls + [ReadRequestFor(st)];
          }
          st := ReadDocument(st, reader);
          node := ShouldContinueReading(st);
        case CreateCodebookStep =>
          bookCalls := bookCalls + [CodeBookRequest(st.mode, st.userContext, st.notes)];
          st := CreateCodebook(st, builder);
          node := End;
      }
    }
    ExecuteClosedForm(mode, documents, userContext, reader, builder);
    book := st.codeBook.value;
  }
}
