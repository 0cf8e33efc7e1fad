/** The nodes of the reading workflow: reading one document at a time into
    a single, replaceable text of notes, then turning the final notes into
    a flat code book. The model is seen through the requests it is given. */
module ReadingNodes {
  import opened Wrappers
  import opened Seqs
  import opened Text
  import opened Entities

  // ---------------------------------------------------------------- notes

  /** The `notes` slot of the state: `execute` seeds it with an empty list,
      and every read replaces it with the text the model generated. */
  datatype Notes = EmptyList | Written(text: string)

  /** Python truthiness of the slot: an empty list and an empty string are false. */
  predicate HasNotes(notes: Notes)
  {
    notes.Written? && notes.text != ""
  }

  const NotesHeading: string := "\n\nYour current notes (long-term memory):\n"
  const NotesClosing: string := "\n\nYou can update or expand these notes based on the new document."

  /** What `read_document_node` adds to the system prompt: the current notes
      between a heading and a closing sentence, or nothing when there are no notes. */
  function NotesSuffix(notes: Notes): string
  {
    if HasNotes(notes) then NotesHeading + notes.text + NotesClosing else ""
  }

  /** The system prompt grows exactly when there are notes, and then it
      carries them verbatim right after the heading. */
  lemma NotesSuffixFacts(notes: Notes)
    ensures NotesSuffix(notes) == "" <==> !HasNotes(notes)
    ensures HasNotes(notes) ==>
      && |NotesSuffix(notes)| == |NotesHeading| + |notes.text| + |NotesClosing|
      && NotesSuffix(notes)[|NotesHeading|..|NotesHeading| + |notes.text|] == notes.text
  {
    if HasNotes(notes) {
      var s := NotesSuffix(notes);
      assert s == NotesHeading + notes.text + NotesClosing;
      assert s[|NotesHeading|..|NotesHeading| + |notes.text|] == notes.text;
    }
  }

  /** Different notes give different prompts: the model can tell them apart. */
  lemma NotesSuffixInjective(a: Notes, b: Notes)
    requires HasNotes(a) && HasNotes(b)
    requires NotesSuffix(a) == NotesSuffix(b)
    ensures a == b
  {
    NotesSuffixFacts(a);
    NotesSuffixFacts(b);
  }

  // ---------------------------------------------------------------- model I/O

  /** What the reading prompt is built from: the mode's value, the research
      context, the file name, the content, and the notes suffix of the system prompt. */
  datatype ReadRequest = ReadRequest(mode: AnalysisMode, userContext: string, docName: string,
                                     docContent: string, notesSuffix: string)

  /** One entry of the structured code-book response. */
  datatype CodeEntry = CodeEntry(name: string, description: string, criteria: string)

  /** What the code-book prompt is built from: the mode, the context and the notes as held in state. */
  datatype CodeBookRequest = CodeBookRequest(mode: AnalysisMode, userContext: string, notes: Notes)

  type ReadingModel = ReadRequest -> string
  type CodeBookModel = CodeBookRequest -> seq<CodeEntry>

  /** The reading workflow's state record. */
  datatype ReadingState = ReadingState(
    mode: AnalysisMode,
    documents: seq<Document>,
    userContext: string,
    notes: Notes,
    docIndex: nat,
    codeBook: Option<CodeBook>)

  // ---------------------------------------------------------------- read_document

  function ReadRequestFor(st: ReadingState): ReadRequest
    requires st.docIndex < |st.documents|
  {
    var doc := st.documents[st.docIndex];
    ReadRequest(st.mode, st.userContext, FileName(doc.path), doc.content, NotesSuffix(st.notes))
  }

  /** `read_document_node`: past the last document nothing changes;
      otherwise the notes become the generated text and the index advances by one. */
  function ReadDocument(st: ReadingState, model: ReadingModel): ReadingState
  {
    if st.docIndex >= |st.documents| then st
    else st.(notes := Written(model(ReadRequestFor(st))), docIndex := st.docIndex + 1)
  }

  /** Past the end the node makes no model call and changes nothing. */
  lemma ReadDocumentPastEnd(st: ReadingState, m1: ReadingModel, m2: ReadingModel)
    requires st.docIndex >= |st.documents|
    ensures ReadDocument(st, m1) == ReadDocument(st, m2) == st
  {
  }

  /** The notes are replaced, not extended: after a read they are exactly
      the generated text, and the old notes survive only through the
      request, where they appear exactly when they are non-empty. Nothing
      but the notes and the index changes. */
  lemma ReadDocumentReplacesNotes(st: ReadingState, model: ReadingModel)
    requires st.docIndex < |st.documents|
    ensures ReadDocument(st, model).notes == Written(model(ReadRequestFor(st)))
    ensures ReadDocument(st, model).docIndex == st.docIndex + 1
    ensures ReadDocument(st, model).(notes := st.notes, docIndex := st.docIndex) == st
    ensures ReadRequestFor(st).notesSuffix == "" <==> !HasNotes(st.notes)
  {
    NotesSuffixFacts(st.notes);
  }

  /** Two states that differ only in notes without content (an empty list
      or an empty text) read to the same state: such notes never reach the model. */
  lemma ReadDocumentIgnoresEmptyNotes(st: ReadingState, notes: Notes, model: ReadingModel)
    requires st.docIndex < |st.documents|
    requires !HasNotes(st.notes) && !HasNotes(notes)
    ensures ReadDocument(st.(notes := notes), model) == ReadDocument(st, model)
  {
    assert NotesSuffix(notes) == NotesSuffix(st.notes) == "";
    assert ReadRequestFor(st.(notes := notes)) == ReadRequestFor(st);
  }

  // ---------------------------------------------------------------- create_codebook

  /** The codes built from the response, one per entry in response order,
      with name, description and criteria copied and no parent. */
  function CodesOf(entries: seq<CodeEntry>): (r: seq<Code>)
    ensures |r| == |entries|
    ensures forall i :: 0 <= i < |entries| ==>
      r[i].name == entries[i].name && r[i].description == entries[i].description
      && r[i].criteria == entries[i].criteria && r[i].parentCodeName == None
  {
    if entries == [] then []
    else [Code(entries[0].name, entries[0].description, entries[0].criteria, None)] + CodesOf(entries[1..])
  }

  /** The code book `create_codebook_node` makes: its codes, the state's mode
      and context, and the default flat hierarchy. */
  function BookOf(entries: seq<CodeEntry>, mode: AnalysisMode, context: string): CodeBook
  {
    CodeBook(CodesOf(entries), mode, context, Flat)
  }

  /** Every code of a built book is a root, in book order. */
  lemma BookOfRoots(entries: seq<CodeEntry>, mode: AnalysisMode, context: string)
    ensures BookOf(entries, mode, context).GetRootCodes() == BookOf(entries, mode, context).codes
  {
    RootsOfParentless(CodesOf(entries), mode, context, Flat);
  }

  /** No code of a built book has children. */
  lemma BookOfNoChildren(entries: seq<CodeEntry>, mode: AnalysisMode, context: string, parent: string)
    ensures BookOf(entries, mode, context).GetChildren(parent) == []
  {
    FilterNone(CodesOf(entries), (c: Code) => c.parentCodeName == Some(parent));
  }

  /** Every entry's name is found in the built book, as a code with that name. */
  lemma BookOfFinds(entries: seq<CodeEntry>, mode: AnalysisMode, context: string, i: nat)
    requires i < |entries|
    ensures BookOf(entries, mode, context).GetCode(entries[i].name).Some?
    ensures BookOf(entries, mode, context).GetCode(entries[i].name).value.name == entries[i].name
  {
    var book := BookOf(entries, mode, context);
    assert book.codes[i] in book.codes;
  }

  /** `create_codebook_node`: one call on the notes as held in state; only the code book changes. */
  function CreateCodebook(st: ReadingState, model: CodeBookModel): ReadingState
  {
    st.(codeBook := Some(BookOf(model(CodeBookRequest(st.mode, st.userContext, st.notes)), st.mode, st.userContext)))
  }
}
