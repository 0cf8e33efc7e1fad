/** The two use cases: generating a code book alone (round 1), and running a
    whole analysis (round 1, or a saved code book, then round 2). Each is a
    fixed sequence of repository calls and workflow runs over the files
    behind the injected repositories; the models the workflows ask are
    parameters. */
module UseCases {
  import opened Wrappers
  import opened Seqs
  import opened Text
  import opened Entities
  import opened Repositories
  import ReadingNodes
  import ReadingGraph
  import CodingNodes
  import CodingGraph
  import CategorizationNodes
  import CategorizationGraph

  /** What a use case raises: a repository error, the `ValueError` for an
      input directory without documents, or the `TypeError` of a call with a
      keyword argument the callee does not declare. */
  datatype UseCaseError = Repo(cause: RepoError) | NoDocuments(dir: Path) | UnexpectedKeyword(name: string)

  /** The program as written, or with its two defects corrected: the
      reading workflow called without `hierarchy_depth`, and the coding
      document router bounded by `len(documents)`. */
  datatype Variant = AsWritten | Corrected

  function RouterOf(v: Variant): CodingGraph.DocumentRouter
  {
    if v == AsWritten then CodingGraph.AsWritten else CodingGraph.Corrected
  }

  /** The models the three workflows ask. */
  datatype Models = Models(reader: ReadingNodes.ReadingModel, builder: ReadingNodes.CodeBookModel,
                           chunking: CodingNodes.ChunkingModel, coding: CodingNodes.CodingModel,
                           categorizing: CategorizationNodes.CategorizingModel)

  /** What the use cases do that can be seen from outside, in order:
      workflow runs and files written. */
  datatype Event =
    | Read
    | Coded
    | Categorized
    | CodeBookSavedTo(path: Path)
    | CodeBookSavedIn(dir: Path)
    | ResultSavedIn(dir: Path)

  /** The files behind the injected repositories: input directories, code
      books at arbitrary paths, and output directories. `events` records
      what the use cases did, in order. */
  class Storage {
    var inputs: map<Path, Directory>
    var codeBookFiles: map<Path, CodeBookRecord>
    var outputs: map<Path, OutputDir>
    var events: seq<Event>
  }

  function InputAt(inputs: map<Path, Directory>, dir: Path): Directory
  {
    if dir in inputs then inputs[dir] else Missing
  }

  function CodeBookAt(files: map<Path, CodeBookRecord>, path: Path): Option<CodeBookRecord>
  {
    if path in files then Some(files[path]) else None
  }

  /** An output directory not written yet holds none of the files. */
  function OutputAt(outputs: map<Path, OutputDir>, dir: Path): OutputDir
  {
    if dir in outputs then outputs[dir] else OutputDir(None, None, None, None)
  }

  /** Writing a key twice leaves the second value. A lemma of its own, so
      that the map equality it needs is proved once, apart from the long
      proof of `AnalyzeDocuments`, where the same assertion inline runs the
      solver out of resource. */
  lemma UpdateTwice<K, V>(m: map<K, V>, k: K, a: V, b: V)
    ensures m[k := a][k := b] == m[k := b]
  {
  }

  // ---------------------------------------------------------------- the steps

  /** `load_documents` followed by the check that something was found. */
  function Documents(inputs: map<Path, Directory>, dir: Path): Result<seq<Document>, UseCaseError>
  {
    match InputAt(inputs, dir)
    case Missing => Failure(Repo(DirectoryNotFound))
    case Listing(entries) =>
      if Discovered(entries) == [] then Failure(NoDocuments(dir)) else Success(Discovered(entries))
  }

  /** The empty-input check: the use cases go on exactly when the input
      directory exists and holds at least one regular `*.txt` or `*.md`
      file, and then with all of those documents; a missing directory is
      the repository's error, an existing one without such files the empty
      check's. */
  lemma DocumentsFacts(inputs: map<Path, Directory>, dir: Path)
    ensures Documents(inputs, dir).Success? <==>
      InputAt(inputs, dir).Listing? && exists e :: e in InputAt(inputs, dir).entries && (MatchesTxt(e) || MatchesMd(e))
    ensures Documents(inputs, dir) == Failure(Repo(DirectoryNotFound)) <==> InputAt(inputs, dir).Missing?
    ensures Documents(inputs, dir).Failure? && InputAt(inputs, dir).Listing? ==> Documents(inputs, dir) == Failure(NoDocuments(dir))
    ensures Documents(inputs, dir).Success? ==>
      Documents(inputs, dir).value == Discovered(InputAt(inputs, dir).entries) && |Documents(inputs, dir).value| > 0
  {
    if InputAt(inputs, dir).Listing? {
      var entries := InputAt(inputs, dir).entries;
      var found := Discovered(entries);
      DiscoveredFacts(entries);
      if found != [] {
        assert found[0] in found;
      }
      if exists e :: e in entries && (MatchesTxt(e) || MatchesMd(e)) {
        var e :| e in entries && (MatchesTxt(e) || MatchesMd(e));
        assert LoadedDocument(e) in found;
      }
    }
  }

  /** The code book the reading workflow returns, in closed form. */
  function ReadBook(mode: AnalysisMode, docs: seq<Document>, userContext: string, m: Models): CodeBook
  {
    var notes := ReadingGraph.FinalNotes(ReadingGraph.InitialState(mode, docs, userContext), m.reader);
    ReadingNodes.BookOf(m.builder(ReadingNodes.CodeBookRequest(mode, userContext, notes)), mode, userContext)
  }

  /** Calling `ReadingWorkflow.execute`: as written the call passes
      `hierarchy_depth`, a keyword the method does not declare, so it raises
      before the workflow starts. */
  function CallReading(v: Variant, mode: AnalysisMode, docs: seq<Document>, userContext: string, m: Models)
    : Result<CodeBook, UseCaseError>
  {
    if v == AsWritten then Failure(UnexpectedKeyword("hierarchy_depth"))
    else Success(ReadBook(mode, docs, userContext, m))
  }

  /** Round 1 of the analysis: the saved code book when a path is given, the reading workflow's otherwise. */
  function RoundOne(v: Variant, mode: AnalysisMode, docs: seq<Document>, userContext: string,
                    existing: Option<Path>, files: map<Path, CodeBookRecord>, m: Models): Result<CodeBook, UseCaseError>
  {
    if existing.Some? then
      match LoadCodeBook(CodeBookAt(files, existing.value))
      case Failure(e) => Failure(Repo(e))
      case Success(book) => Success(book)
    else CallReading(v, mode, docs, userContext, m)
  }

  /** The value of an `AnalysisResult`. */
  datatype Analysis = Analysis(mode: AnalysisMode, codeBook: CodeBook,
                               sentenceCodes: seq<SentenceCode>, documentCodes: seq<DocumentCode>)

  /** Round 2: the workflow of the requested mode; the other list stays empty. */
  function RoundTwo(v: Variant, mode: AnalysisMode, docs: seq<Document>, book: CodeBook, m: Models): Analysis
  {
    if mode == Coding then
      Analysis(mode, book, CodingGraph.Workflow(RouterOf(v), docs, book, m.chunking, m.coding).sentenceCodes, [])
    else
      Analysis(mode, book, [], CategorizationGraph.Workflow(docs, book, m.categorizing).documentCodes)
  }

  function RoundTwoEvent(mode: AnalysisMode): Event
  {
    if mode == Coding then Coded else Categorized
  }

  /** What a run leaves behind: its result, the files and what it did. */
  datatype Outcome<T> = Outcome(result: Result<T, UseCaseError>, codeBookFiles: map<Path, CodeBookRecord>,
                                outputs: map<Path, OutputDir>, events: seq<Event>)

  // ---------------------------------------------------------------- CodeBookGenerationUseCase

  /** `CodeBookGenerationUseCase.execute`: on a failure nothing is written;
      otherwise one reading run, then the code book saved to `output_path`. */
  function GenerationRun(v: Variant, found: Result<seq<Document>, UseCaseError>, files: map<Path, CodeBookRecord>,
                         outputs: map<Path, OutputDir>, mode: AnalysisMode, userContext: string,
                         outputPath: Path, m: Models): Outcome<CodeBook>
  {
    match found
    case Failure(e) => Outcome(Failure(e), files, outputs, [])
    case Success(docs) =>
      match CallReading(v, mode, docs, userContext, m)
      case Failure(e) => Outcome(Failure(e), files, outputs, [])
      case Success(book) =>
        Outcome(Success(book), files[outputPath := SaveCodeBook(book)], outputs, [Read, CodeBookSavedTo(outputPath)])
  }

  /** `load_documents` on the input directory, then the empty check. */
  method LoadInputs(inputs: map<Path, Directory>, dir: Path) returns (r: Result<seq<Document>, UseCaseError>)
    ensures r == Documents(inputs, dir)
  {
    var loaded := LoadDocuments(InputAt(inputs, dir));
    if loaded.Failure? {
      return Failure(Repo(loaded.error));
    }
    if loaded.value == [] {
      return Failure(NoDocuments(dir));
    }
    r := Success(loaded.value);
  }

  /** `create_reading_workflow().execute(...)` as the use cases call it. */
  method CallReadingWorkflow(v: Variant, mode: AnalysisMode, docs: seq<Document>, userContext: string, m: Models)
    returns (r: Result<CodeBook, UseCaseError>)
    ensures r == CallReading(v, mode, docs, userContext, m)
  {
    if v == AsWritten {
      return Failure(UnexpectedKeyword("hierarchy_depth"));
    }
    var book, readCalls, bookCalls := ReadingGraph.Execute(mode, docs, userContext, m.reader, m.builder);
    ReadingGraph.ExecuteClosedForm(mode, docs, userContext, m.reader, m.builder);
    r := Success(book);
  }

  /** The run step by step, for the method that performs it. */
  lemma GenerationSteps(v: Variant, found: Result<seq<Document>, UseCaseError>, files: map<Path, CodeBookRecord>,
                        outputs: map<Path, OutputDir>, mode: AnalysisMode, userContext: string,
                        outputPath: Path, m: Models)
    ensures var docs := found;
      var o := GenerationRun(v, found, files, outputs, mode, userContext, outputPath, m);
      && (docs.Failure? ==> o == Outcome(Failure(docs.error), files, outputs, []))
      && (docs.Success? ==>
            var read := CallReading(v, mode, docs.value, userContext, m);
            && (read.Failure? ==> o == Outcome(Failure(read.error), files, outputs, []))
            && (read.Success? ==> o == Outcome(Success(read.value), files[outputPath := SaveCodeBook(read.value)], outputs,
                                               [Read, CodeBookSavedTo(outputPath)])))
  {
  }

  /** `CodeBookGenerationUseCase.execute`: loads the documents, refuses an
      empty directory, runs reading once and saves its code book to the
      given path. The new storage state and the result are those of
      `GenerationRun`. */
  method RunCodeBookGeneration(store: Storage, v: Variant, mode: AnalysisMode, inputDir: Path, userContext: string,
                               outputPath: Path, m: Models) returns (r: Result<CodeBook, UseCaseError>)
    modifies store
    ensures var o := GenerationRun(v, Documents(old(store.inputs), inputDir), old(store.codeBookFiles), old(store.outputs),
                                   mode, userContext, outputPath, m);
      && r == o.result
      && store.inputs == old(store.inputs)
      && store.codeBookFiles == o.codeBookFiles && store.outputs == o.outputs
      && store.events == old(store.events) + o.events
  {
    var documents := LoadInputs(store.inputs, inputDir);
    r := GenerateFromDocuments(store, v, mode, documents, userContext, outputPath, m);
  }

  /** The part of `CodeBookGenerationUseCase.execute` after the documents are
      loaded (or found missing). */
  method GenerateFromDocuments(store: Storage, v: Variant, mode: AnalysisMode,
                               documents: Result<seq<Document>, UseCaseError>, userContext: string,
                               outputPath: Path, m: Models) returns (r: Result<CodeBook, UseCaseError>)
    modifies store
    ensures var o := GenerationRun(v, documents, old(store.codeBookFiles), old(store.outputs),
                                   mode, userContext, outputPath, m);
      && r == o.result
      && store.inputs == old(store.inputs)
      && store.codeBookFiles == o.codeBookFiles && store.outputs == o.outputs
      && store.events == old(store.events) + o.events
  {
    GenerationSteps(v, documents, store.codeBookFiles, store.outputs, mode, userContext, outputPath, m);
    if documents.Failure? {
      return Failure(documents.error);
    }
    var read := CallReadingWorkflow(v, mode, documents.value, userContext, m);
    if read.Failure? {
      return Failure(read.error);
    }
    var book := read.value;
    store.codeBookFiles := store.codeBookFiles[outputPath := SaveCodeBook(book)];
    store.events := store.events + [Read, CodeBookSavedTo(outputPath)];
    r := Success(book);
  }

  /** A generated code book has the requested mode and context and the flat
      hierarchy, and the file written loads back as exactly that book. */
  lemma GeneratedBookLoadsBack(v: Variant, found: Result<seq<Document>, UseCaseError>, files: map<Path, CodeBookRecord>,
                               outputs: map<Path, OutputDir>, mode: AnalysisMode, userContext: string,
                               outputPath: Path, m: Models)
    ensures var o := GenerationRun(v, found, files, outputs, mode, userContext, outputPath, m);
      o.result.Success? ==>
        && o.result.value.mode == mode && o.result.value.context == userContext
        && o.result.value.hierarchyDepth == Flat
        && outputPath in o.codeBookFiles
        && LoadCodeBook(Some(o.codeBookFiles[outputPath])) == Success(o.result.value)
        && (forall p :: p in files && p != outputPath ==> p in o.codeBookFiles && o.codeBookFiles[p] == files[p])
  {
    var o := GenerationRun(v, found, files, outputs, mode, userContext, outputPath, m);
    if o.result.Success? {
      var book := o.result.value;
      var docs := found.value;
      var entries := m.builder(ReadingNodes.CodeBookRequest(mode, userContext,
                       ReadingGraph.FinalNotes(ReadingGraph.InitialState(mode, docs, userContext), m.reader)));
      assert book == ReadingNodes.BookOf(entries, mode, userContext);
      CodeBookRoundTripExact(book);
    }
  }

  /** Both use cases raise before anything runs or is written when the
      input directory is missing or holds no document. */
  lemma GenerationNeedsDocuments(v: Variant, found: Result<seq<Document>, UseCaseError>, files: map<Path, CodeBookRecord>,
                                 outputs: map<Path, OutputDir>, mode: AnalysisMode, userContext: string,
                                 outputPath: Path, m: Models)
    requires found.Failure?
    ensures var o := GenerationRun(v, found, files, outputs, mode, userContext, outputPath, m);
      && o.result == Failure(found.error)
      && o.codeBookFiles == files && o.outputs == outputs && o.events == []
  {
  }

  // ---------------------------------------------------------------- AnalysisUseCase

  /** What a successful analysis does, in order: reading and saving the
      code book unless a saved one was given, then round 2 and saving the result. */
  function AnalysisEvents(mode: AnalysisMode, outputDir: Path, existing: Option<Path>): seq<Event>
  {
    if existing.None? then [Read, CodeBookSavedIn(outputDir), RoundTwoEvent(mode), ResultSavedIn(outputDir)]
    else [RoundTwoEvent(mode), ResultSavedIn(outputDir)]
  }

  /** `AnalysisUseCase.execute`: on a failure nothing is written; otherwise
      round 1 (and, when it read, the code book saved in the output
      directory), round 2, and the result saved in the output directory. */
  function AnalysisRun(v: Variant, found: Result<seq<Document>, UseCaseError>, files: map<Path, CodeBookRecord>,
                       outputs: map<Path, OutputDir>, mode: AnalysisMode, userContext: string,
                       outputDir: Path, existing: Option<Path>, m: Models): Outcome<Analysis>
  {
    match found
    case Failure(e) => Outcome(Failure(e), files, outputs, [])
    case Success(docs) =>
      match RoundOne(v, mode, docs, userContext, existing, files, m)
      case Failure(e) => Outcome(Failure(e), files, outputs, [])
      case Success(book) =>
        var a := RoundTwo(v, mode, docs, book, m);
        var before := OutputAt(outputs, outputDir);
        var dir := if existing.None? then before.(codeBook := Some(SaveCodeBook(book))) else before;
        Outcome(Success(a), files,
                outputs[outputDir := SavedResult(dir, mode, book, a.sentenceCodes, a.documentCodes)],
                AnalysisEvents(mode, outputDir, existing))
  }

  /** Round 1 as `AnalysisUseCase.execute` runs it: the saved code book is
      loaded, or the reading workflow runs and its code book is saved as
      `code_book.json` in the output directory. */
  method ObtainCodeBook(store: Storage, v: Variant, mode: AnalysisMode, docs: seq<Document>, userContext: string,
                        outputDir: Path, existing: Option<Path>, m: Models) returns (r: Result<CodeBook, UseCaseError>)
    modifies store
    ensures r == RoundOne(v, mode, docs, userContext, existing, old(store.codeBookFiles), m)
    ensures store.inputs == old(store.inputs) && store.codeBookFiles == old(store.codeBookFiles)
    ensures existing.Some? || r.Failure? ==> store.outputs == old(store.outputs) && store.events == old(store.events)
    ensures existing.None? && r.Success? ==>
      && store.outputs == old(store.outputs)[outputDir := OutputAt(old(store.outputs), outputDir).(codeBook := Some(SaveCodeBook(r.value)))]
      && store.events == old(store.events) + [Read, CodeBookSavedIn(outputDir)]
  {
    if existing.Some? {
      var saved := LoadCodeBook(CodeBookAt(store.codeBookFiles, existing.value));
      if saved.Failure? {
        return Failure(Repo(saved.error));
      }
      return Success(saved.value);
    }
    r := CallReadingWorkflow(v, mode, docs, userContext, m);
    if r.Success? {
      store.outputs := store.outputs[outputDir := OutputAt(store.outputs, outputDir).(codeBook := Some(SaveCodeBook(r.value)))];
      store.events := store.events + [Read, CodeBookSavedIn(outputDir)];
    }
  }

  /** Round 2: the workflow of the requested mode, and a new result of that mode. */
  method RunRoundTwo(v: Variant, mode: AnalysisMode, docs: seq<Document>, book: CodeBook, m: Models)
    returns (result: AnalysisResult)
    ensures fresh(result)
    ensures var a := RoundTwo(v, mode, docs, book, m);
      result.mode == a.mode && result.codeBook == a.codeBook
      && result.sentenceCodes == a.sentenceCodes && result.documentCodes == a.documentCodes
  {
    if mode == Coding {
      var codes := CodingGraph.Execute(RouterOf(v), docs, book, m.chunking, m.coding);
      result := new AnalysisResult(mode, book, codes, []);
    } else {
      var codes := CategorizationGraph.Execute(docs, book, m.categorizing);
      result := new AnalysisResult(mode, book, [], codes);
    }
  }

  /** Without documents the analysis raises before anything runs or is written. */
  lemma AnalysisNeedsDocuments(v: Variant, found: Result<seq<Document>, UseCaseError>, files: map<Path, CodeBookRecord>,
                                 outputs: map<Path, OutputDir>, mode: AnalysisMode, userContext: string,
                                 outputDir: Path, existing: Option<Path>, m: Models)
    requires found.Failure?
    ensures AnalysisRun(v, found, files, outputs, mode, userContext, outputDir, existing, m)
         == Outcome(Failure(found.error), files, outputs, [])
  {
  }

  /** The run up to a failure to obtain the code book. */
  lemma AnalysisStopsAtRoundOne(v: Variant, found: Result<seq<Document>, UseCaseError>, files: map<Path, CodeBookRecord>,
                                outputs: map<Path, OutputDir>, mode: AnalysisMode, userContext: string,
                                outputDir: Path, existing: Option<Path>, m: Models, docs: seq<Document>)
    requires found == Success(docs)
    requires RoundOne(v, mode, docs, userContext, existing, files, m).Failure?
    ensures AnalysisRun(v, found, files, outputs, mode, userContext, outputDir, existing, m)
         == Outcome(Failure(RoundOne(v, mode, docs, userContext, existing, files, m).error), files, outputs, [])
  {
  }

  /** A run that gets past round 1. */
  lemma AnalysisCompletes(v: Variant, found: Result<seq<Document>, UseCaseError>, files: map<Path, CodeBookRecord>,
                          outputs: map<Path, OutputDir>, mode: AnalysisMode, userContext: string,
                          outputDir: Path, existing: Option<Path>, m: Models, docs: seq<Document>, book: CodeBook,
                          dir: OutputDir, a: Analysis)
    requires found == Success(docs)
    requires RoundOne(v, mode, docs, userContext, existing, files, m) == Success(book)
    requires a == RoundTwo(v, mode, docs, book, m)
    requires dir == if existing.None? then OutputAt(outputs, outputDir).(codeBook := Some(SaveCodeBook(book)))
                    else OutputAt(outputs, outputDir)
    ensures AnalysisRun(v, found, files, outputs, mode, userContext, outputDir, existing, m)
         == Outcome(Success(a), files, outputs[outputDir := SavedResult(dir, mode, book, a.sentenceCodes, a.documentCodes)],
                    AnalysisEvents(mode, outputDir, existing))
  {
  }

  /** Round 2, then `save_result` into the output directory. */
  method RoundTwoAndSave(store: Storage, v: Variant, mode: AnalysisMode, docs: seq<Document>, book: CodeBook,
                         outputDir: Path, m: Models) returns (result: AnalysisResult)
    modifies store
    ensures fresh(result)
    ensures var a := RoundTwo(v, mode, docs, book, m);
      && result.mode == a.mode && result.codeBook == a.codeBook
      && result.sentenceCodes == a.sentenceCodes && result.documentCodes == a.documentCodes
      && store.outputs == old(store.outputs)[outputDir := SavedResult(OutputAt(old(store.outputs), outputDir), mode, book,
                                                                      a.sentenceCodes, a.documentCodes)]
    ensures store.inputs == old(store.inputs) && store.codeBookFiles == old(store.codeBookFiles)
    ensures store.events == old(store.events) + [RoundTwoEvent(mode), ResultSavedIn(outputDir)]
  {
    result := RunRoundTwo(v, mode, docs, book, m);
    StoreResult(store, result, outputDir);
  }

  /** `save_result` into the output directory, and the round-2 and save steps recorded. */
  method StoreResult(store: Storage, result: AnalysisResult, outputDir: Path)
    modifies store
    ensures store.outputs == old(store.outputs)[outputDir := SavedResult(OutputAt(old(store.outputs), outputDir),
                                                result.mode, result.codeBook, result.sentenceCodes, result.documentCodes)]
    ensures store.inputs == old(store.inputs) && store.codeBookFiles == old(store.codeBookFiles)
    ensures store.events == old(store.events) + [RoundTwoEvent(result.mode), ResultSavedIn(outputDir)]
  {
    var out := SaveResult(result, OutputAt(store.outputs, outputDir));
    store.outputs := store.outputs[outputDir := out];
    store.events := store.events + [RoundTwoEvent(result.mode), ResultSavedIn(outputDir)];
  }

  /** `AnalysisUseCase.execute`: loads the documents, refuses an empty
      directory, loads the given code book or runs reading and saves its
      book into the output directory, runs round 2 in the requested mode
      and saves the result there. The new storage state and the result are
      those of `AnalysisRun`. */
  method RunAnalysis(store: Storage, v: Variant, mode: AnalysisMode, inputDir: Path, userContext: string,
                     outputDir: Path, existing: Option<Path>, m: Models) returns (r: Result<AnalysisResult, UseCaseError>)
    modifies store
    ensures var o := AnalysisRun(v, Documents(old(store.inputs), inputDir), old(store.codeBookFiles), old(store.outputs),
                                 mode, userContext, outputDir, existing, m);
      && r.Failure? == o.result.Failure?
      && (r.Failure? ==> r.error == o.result.error)
      && (r.Success? ==> fresh(r.value) && r.value.mode == o.result.value.mode
                         && r.value.codeBook == o.result.value.codeBook
                         && r.value.sentenceCodes == o.result.value.sentenceCodes
                         && r.value.documentCodes == o.result.value.documentCodes)
      && store.inputs == old(store.inputs)
      && store.codeBookFiles == o.codeBookFiles && store.outputs == o.outputs
      && store.events == old(store.events) + o.events
  {
    var documents := LoadInputs(store.inputs, inputDir);
    r := AnalyzeDocuments(store, v, mode, documents, userContext, outputDir, existing, m);
  }

  /** The analysis from the loading of the documents on: stops on a failed
      load, otherwise obtains the code book, runs round 2 and saves. */
  method AnalyzeDocuments(store: Storage, v: Variant, mode: AnalysisMode, documents: Result<seq<Document>, UseCaseError>,
                          userContext: string, outputDir: Path, existing: Option<Path>, m: Models)
    returns (r: Result<AnalysisResult, UseCaseError>)
    modifies store
    ensures var o := AnalysisRun(v, documents, old(store.codeBookFiles), old(store.outputs),
                                 mode, userContext, outputDir, existing, m);
      && r.Failure? == o.result.Failure?
      && (r.Failure? ==> r.error == o.result.error)
      && (r.Success? ==> fresh(r.value) && r.value.mode == o.result.value.mode
                         && r.value.codeBook == o.result.value.codeBook
                         && r.value.sentenceCodes == o.result.value.sentenceCodes
                         && r.value.documentCodes == o.result.value.documentCodes)
      && store.inputs == old(store.inputs)
      && store.codeBookFiles == o.codeBookFiles && store.outputs == o.outputs
      && store.events == old(store.events) + o.events
  {
    if documents.Failure? {
      AnalysisNeedsDocuments(v, documents, store.codeBookFiles, store.outputs, mode, userContext,
                             outputDir, existing, m);
      return Failure(documents.error);
    }
    var book := ObtainCodeBook(store, v, mode, documents.value, userContext, outputDir, existing, m);
    if book.Failure? {
      AnalysisStopsAtRoundOne(v, documents, store.codeBookFiles, store.outputs, mode, userContext,
                              outputDir, existing, m, documents.value);
      return Failure(book.error);
    }
    ghost var before := OutputAt(old(store.outputs), outputDir);
    ghost var dir := if existing.None? then before.(codeBook := Some(SaveCodeBook(book.value))) else before;
    assert OutputAt(store.outputs, outputDir) == dir;
    ghost var events := store.events;
    var result := RoundTwoAndSave(store, v, mode, documents.value, book.value, outputDir, m);
    ghost var a := RoundTwo(v, mode, documents.value, book.value, m);
    AnalysisCompletes(v, documents, old(store.codeBookFiles), old(store.outputs), mode, userContext,
                      outputDir, existing, m, documents.value, book.value, dir, a);
    ghost var first: seq<Event> := if existing.None? then [Read, CodeBookSavedIn(outputDir)] else [];
    assert events == old(store.events) + first;
    AppendTwice(old(store.events), first, [RoundTwoEvent(mode), ResultSavedIn(outputDir)]);
    assert first + [RoundTwoEvent(mode), ResultSavedIn(outputDir)] == AnalysisEvents(mode, outputDir, existing);
    if existing.None? {
      UpdateTwice(old(store.outputs), outputDir, dir, store.outputs[outputDir]);
    }
    r := Success(result);
  }

  // ---------------------------------------------------------------- properties of the analysis

  /** Given a saved code book, the analysis uses it as loaded: reading does
      not run and no code book is saved before round 2. */
  lemma ExistingBookSkipsReading(v: Variant, found: Result<seq<Document>, UseCaseError>, files: map<Path, CodeBookRecord>,
                                 outputs: map<Path, OutputDir>, mode: AnalysisMode, userContext: string,
                                 outputDir: Path, path: Path, m: Models)
    ensures var o := AnalysisRun(v, found, files, outputs, mode, userContext, outputDir, Some(path), m);
      && Read !in o.events && CodeBookSavedIn(outputDir) !in o.events
      && (o.result.Success? ==> Success(o.result.value.codeBook) == LoadCodeBook(CodeBookAt(files, path)))
      && (found.Success? && LoadCodeBook(CodeBookAt(files, path)).Failure? ==>
            o.result == Failure(Repo(LoadCodeBook(CodeBookAt(files, path)).error)) && o.outputs == outputs)
  {
    var o := AnalysisRun(v, found, files, outputs, mode, userContext, outputDir, Some(path), m);
    if o.result.Success? {
      assert o.events == [RoundTwoEvent(mode), ResultSavedIn(outputDir)];
    }
  }

  /** Without a saved code book, the corrected program reads, then saves the
      code book in the output directory, then runs round 2, then saves the
      result; the result carries the code book reading produced. */
  lemma FreshBookSavedBeforeRoundTwo(found: Result<seq<Document>, UseCaseError>, files: map<Path, CodeBookRecord>,
                                     outputs: map<Path, OutputDir>, mode: AnalysisMode, userContext: string,
                                     outputDir: Path, m: Models)
    requires found.Success?
    ensures var o := AnalysisRun(Corrected, found, files, outputs, mode, userContext, outputDir, None, m);
      && o.result.Success?
      && o.result.value.codeBook == ReadBook(mode, found.value, userContext, m)
      && o.events == [Read, CodeBookSavedIn(outputDir), RoundTwoEvent(mode), ResultSavedIn(outputDir)]
  {
  }

  /** As written, the reading call raises: without a saved code book every
      analysis with documents fails before anything is written. */
  lemma AsWrittenAnalysisNeverReads(found: Result<seq<Document>, UseCaseError>, files: map<Path, CodeBookRecord>,
                                    outputs: map<Path, OutputDir>, mode: AnalysisMode, userContext: string,
                                    outputDir: Path, m: Models)
    requires found.Success?
    ensures var o := AnalysisRun(AsWritten, found, files, outputs, mode, userContext, outputDir, None, m);
      && o.result == Failure(UnexpectedKeyword("hierarchy_depth"))
      && o.outputs == outputs && o.events == []
  {
  }

  /** The same holds for generating a code book alone; the corrected call
      writes the code book read from the documents. */
  lemma AsWrittenGenerationNeverReads(found: Result<seq<Document>, UseCaseError>, files: map<Path, CodeBookRecord>,
                                      outputs: map<Path, OutputDir>, mode: AnalysisMode, userContext: string,
                                      outputPath: Path, m: Models)
    requires found.Success?
    ensures GenerationRun(AsWritten, found, files, outputs, mode, userContext, outputPath, m)
         == Outcome(Failure(UnexpectedKeyword("hierarchy_depth")), files, outputs, [])
    ensures var o := GenerationRun(Corrected, found, files, outputs, mode, userContext, outputPath, m);
      && o.result == Success(ReadBook(mode, found.value, userContext, m))
      && o.events == [Read, CodeBookSavedTo(outputPath)]
  {
  }

  /** The result has the requested mode, whatever the mode of the code book;
      it holds the codes of the requested mode's workflow and none of the other. */
  lemma ResultFollowsRequestedMode(v: Variant, found: Result<seq<Document>, UseCaseError>, files: map<Path, CodeBookRecord>,
                                   outputs: map<Path, OutputDir>, mode: AnalysisMode, userContext: string,
                                   outputDir: Path, existing: Option<Path>, m: Models)
    ensures var o := AnalysisRun(v, found, files, outputs, mode, userContext, outputDir, existing, m);
      o.result.Success? ==>
        var a := o.result.value;
        var docs := found.value;
        && a.mode == mode
        && (mode == Coding ==>
              a.documentCodes == []
              && a.sentenceCodes == CodingGraph.Workflow(RouterOf(v), docs, a.codeBook, m.chunking, m.coding).sentenceCodes)
        && (mode == Categorization ==>
              a.sentenceCodes == []
              && a.documentCodes == CategorizationGraph.Workflow(docs, a.codeBook, m.categorizing).documentCodes)
  {
  }

  function IsResultSave(e: Event): bool
  {
    e.ResultSavedIn?
  }

  /** The result is saved exactly once, as the last step and right after round 2. */
  lemma AnalysisEventsFacts(mode: AnalysisMode, outputDir: Path, existing: Option<Path>)
    ensures var events := AnalysisEvents(mode, outputDir, existing);
      && Count(events, IsResultSave) == 1
      && |events| >= 2
      && events[|events| - 1] == ResultSavedIn(outputDir)
      && events[|events| - 2] == RoundTwoEvent(mode)
  {
    var first: seq<Event> := if existing.None? then [Read, CodeBookSavedIn(outputDir)] else [];
    var last := [RoundTwoEvent(mode), ResultSavedIn(outputDir)];
    assert AnalysisEvents(mode, outputDir, existing) == first + last;
    FilterConcat(first, last, IsResultSave);
    FilterNone(first, IsResultSave);
    assert Filter(last, IsResultSave) == [ResultSavedIn(outputDir)];
  }

  /** A successful analysis does what `AnalysisEvents` lists; a failed one
      does nothing and writes nothing. */
  lemma ResultSavedOnceAtTheEnd(v: Variant, found: Result<seq<Document>, UseCaseError>, files: map<Path, CodeBookRecord>,
                                outputs: map<Path, OutputDir>, mode: AnalysisMode, userContext: string,
                                outputDir: Path, existing: Option<Path>, m: Models)
    ensures var o := AnalysisRun(v, found, files, outputs, mode, userContext, outputDir, existing, m);
      && o.codeBookFiles == files
      && (o.result.Failure? ==> o.events == [] && o.outputs == outputs)
      && (o.result.Success? ==> o.events == AnalysisEvents(mode, outputDir, existing))
  {
  }

  /** What a successful analysis leaves in the output directory loads back:
      the code book as saving and loading keep it, and the codes file of the
      requested mode holding the result's codes; the other mode's file is untouched. */
  lemma AnalysisOutputLoadsBack(v: Variant, found: Result<seq<Document>, UseCaseError>, files: map<Path, CodeBookRecord>,
                                outputs: map<Path, OutputDir>, mode: AnalysisMode, userContext: string,
                                outputDir: Path, existing: Option<Path>, m: Models)
    ensures var o := AnalysisRun(v, found, files, outputs, mode, userContext, outputDir, existing, m);
      o.result.Success? ==>
        var a := o.result.value;
        && outputDir in o.outputs
        && LoadCodeBook(o.outputs[outputDir].codeBook) == Success(ReloadedBook(a.codeBook))
        && (mode == Coding ==> o.outputs[outputDir].sentenceCodes == Some(SentenceCodesRecordOf(a.sentenceCodes))
                               && o.outputs[outputDir].documentCodes == OutputAt(outputs, outputDir).documentCodes)
        && (mode == Categorization ==> o.outputs[outputDir].documentCodes == Some(DocumentCodesRecordOf(a.documentCodes))
                                       && o.outputs[outputDir].sentenceCodes == OutputAt(outputs, outputDir).sentenceCodes)
        && forall d :: d in outputs && d != outputDir ==> d in o.outputs && o.outputs[d] == outputs[d]
  {
    var o := AnalysisRun(v, found, files, outputs, mode, userContext, outputDir, existing, m);
    if o.result.Success? {
      var a := o.result.value;
      var before := OutputAt(outputs, outputDir);
      var dir := if existing.None? then before.(codeBook := Some(SaveCodeBook(a.codeBook))) else before;
      SaveThenLoad(dir, mode, a.codeBook, a.sentenceCodes, a.documentCodes);
    }
  }
}
