/** The file-system repositories, over abstract records instead of files and
    JSON: document discovery in a directory listing, the code-book record,
    the sentence- and document-code records grouped by code name and by
    file, the summary counts, and reloading a saved analysis result. */
module Repositories {
  import opened Wrappers
  import opened Seqs
  import opened Text
  import opened Sorting
  import opened Entities
  import opened Grouping

  /** The exceptions the repositories raise: `FileNotFoundError` for a
      missing directory or code book, `ValueError` for an unknown mode value. */
  datatype RepoError = DirectoryNotFound | CodeBookNotFound | InvalidMode(value: string) | InvalidDepth(value: string)

  /** `[f(x) for x in s]` holds exactly the images of the elements of `s`. */
  lemma {:induction false} ApplyMembers<T, V>(s: seq<T>, f: T -> V)
    ensures forall v :: v in Apply(s, f) <==> exists x :: x in s && v == f(x)
  {
    if s != [] {
      ApplyMembers(s[1..], f);
      assert s == [s[0]] + s[1..];
    }
  }

  /** A map that fixes every element leaves the list as it is. */
  lemma {:induction false} ApplyFixed<T>(s: seq<T>, f: T -> T)
    requires forall x :: x in s ==> f(x) == x
    ensures Apply(s, f) == s
  {
    if s != [] {
      assert forall x :: x in s[1..] ==> x in s;
      ApplyFixed(s[1..], f);
    }
  }

  /** Maps that agree on the elements give the same list. */
  lemma {:induction false} ApplyPointwise<T, V>(s: seq<T>, f: T -> V, g: T -> V)
    requires forall x :: x in s ==> f(x) == g(x)
    ensures Apply(s, f) == Apply(s, g)
  {
    if s != [] {
      assert forall x :: x in s[1..] ==> x in s;
      ApplyPointwise(s[1..], f, g);
    }
  }

  /** Tests that agree on the elements keep the same elements. */
  lemma {:induction false} FilterPointwise<T(!new)>(s: seq<T>, p: T -> bool, q: T -> bool)
    requires forall x :: x in s ==> p(x) == q(x)
    ensures Filter(s, p) == Filter(s, q)
  {
    if s != [] {
      assert forall x :: x in s[1..] ==> x in s;
      FilterPointwise(s[1..], p, q);
    }
  }

  // ---------------------------------------------------------------- documents

  /** One entry of a directory listing: its path, whether it is a regular file, and its text. */
  datatype DirEntry = DirEntry(path: Path, isFile: bool, content: string)

  /** A directory as `load_documents` sees it: missing, or its entries in listing order. */
  datatype Directory = Missing | Listing(entries: seq<DirEntry>)

  /** A regular file matched by the pattern `*.txt`. */
  predicate MatchesTxt(e: DirEntry)
  {
    e.isFile && EndsWith(FileName(e.path), ".txt")
  }

  /** A regular file matched by the pattern `*.md`. */
  predicate MatchesMd(e: DirEntry)
  {
    e.isFile && EndsWith(FileName(e.path), ".md")
  }

  /** `load_document`: the document of a file, its sentences parsed unless the content is empty. */
  function LoadedDocument(e: DirEntry): (d: Document)
    ensures d.path == e.path && d.content == e.content
    ensures d.sentences == if e.content == "" then [] else ParsedSentences(e.path, e.content)
  {
    Document(e.path, e.content, if e.content != "" then ParsedSentences(e.path, e.content) else [])
  }

  /** The sort key of `load_documents`: the file name of the path. */
  function DocName(d: Document): string
  {
    FileName(d.path)
  }

  /** The documents `load_documents` returns from a listing: the `*.txt`
      files, then the `*.md` files, sorted by file name. */
  function Discovered(entries: seq<DirEntry>): seq<Document>
  {
    SortBy(Apply(Filter(entries, MatchesTxt), LoadedDocument) + Apply(Filter(entries, MatchesMd), LoadedDocument), DocName)
  }

  /** An element of `[f(x) for x in s if p(x)]` is the image of an element of `s` that passes `p`. */
  lemma FilteredImages<T(!new), V>(s: seq<T>, p: T -> bool, f: T -> V, v: V)
    ensures v in Apply(Filter(s, p), f) <==> exists x :: x in s && p(x) && v == f(x)
  {
    ApplyMembers(Filter(s, p), f);
  }

  /** Discovery keeps exactly the regular `*.txt` and `*.md` files, one
      document per file, and returns them in ascending file-name order. */
  lemma DiscoveredFacts(entries: seq<DirEntry>)
    ensures SortedBy(Discovered(entries), DocName)
    ensures forall d :: d in Discovered(entries) <==>
      exists e :: e in entries && (MatchesTxt(e) || MatchesMd(e)) && d == LoadedDocument(e)
    ensures |Discovered(entries)| == Count(entries, MatchesTxt) + Count(entries, MatchesMd)
  {
    var txt := Apply(Filter(entries, MatchesTxt), LoadedDocument);
    var md := Apply(Filter(entries, MatchesMd), LoadedDocument);
    var r := Discovered(entries);
    assert multiset(r) == multiset(txt + md);
    forall d
      ensures d in r <==> exists e :: e in entries && (MatchesTxt(e) || MatchesMd(e)) && d == LoadedDocument(e)
    {
      assert d in r <==> d in multiset(r);
      assert d in txt + md <==> d in multiset(txt + md);
      FilteredImages(entries, MatchesTxt, LoadedDocument, d);
      FilteredImages(entries, MatchesMd, LoadedDocument, d);
    }
  }

  /** The discovery pass over one more entry adds that entry's document exactly when it is accepted. */
  lemma CollectStep(entries: seq<DirEntry>, i: nat, matches: DirEntry -> bool)
    requires i < |entries|
    ensures matches(entries[i]) ==>
      Apply(Filter(entries[..i + 1], matches), LoadedDocument)
      == Apply(Filter(entries[..i], matches), LoadedDocument) + [LoadedDocument(entries[i])]
    ensures !matches(entries[i]) ==>
      Apply(Filter(entries[..i + 1], matches), LoadedDocument) == Apply(Filter(entries[..i], matches), LoadedDocument)
  {
    var e := entries[i];
    assert entries[..i + 1] == entries[..i] + [e];
    FilterConcat(entries[..i], [e], matches);
    ApplyConcat(Filter(entries[..i], matches), Filter([e], matches), LoadedDocument);
    assert [e][1..] == [];
  }

  /** One pass of the discovery loop: the documents of the entries `matches` accepts, in listing order. */
  method CollectMatching(entries: seq<DirEntry>, matches: DirEntry -> bool) returns (docs: seq<Document>)
    ensures docs == Apply(Filter(entries, matches), LoadedDocument)
  {
    docs := [];
    var i := 0;
    while i < |entries|
      invariant 0 <= i <= |entries|
      invariant docs == Apply(Filter(entries[..i], matches), LoadedDocument)
    {
      var e := entries[i];
      CollectStep(entries, i, matches);
      if matches(e) {
        var doc := NewDocument(e.path, e.content, []);
        docs := docs + [doc];
      }
      i := i + 1;
    }
    assert entries[..|entries|] == entries;
  }

  /** `load_documents`: a missing directory is an error; otherwise the
      `*.txt` pass, then the `*.md` pass, then the sort by file name. */
  method LoadDocuments(dir: Directory) returns (r: Result<seq<Document>, RepoError>)
    ensures dir.Missing? ==> r == Failure(DirectoryNotFound)
    ensures dir.Listing? ==> r == Success(Discovered(dir.entries))
  {
    if dir.Missing? {
      return Failure(DirectoryNotFound);
    }
    var txt := CollectMatching(dir.entries, MatchesTxt);
    var md := CollectMatching(dir.entries, MatchesMd);
    r := Success(SortBy(txt + md, DocName));
  }

  // ---------------------------------------------------------------- code book record

  /** A saved code: name, description and criteria only. */
  datatype CodeRecord = CodeRecord(name: string, description: string, criteria: string)

  /** The object in `code_book.json`; `context` is None when the key is absent. */
  datatype CodeBookRecord = CodeBookRecord(mode: string, context: Option<string>, codes: seq<CodeRecord>)

  /** `save_code_book`: the mode's value, the context, and each code's
      name, description and criteria in book order; parents and the
      hierarchy depth are not written. */
  function SaveCodeBook(book: CodeBook): (r: CodeBookRecord)
    ensures ModeFromValue(r.mode) == Some(book.mode)
    ensures r.context == Some(book.context)
    ensures |r.codes| == |book.codes|
    ensures forall i :: 0 <= i < |r.codes| ==>
      r.codes[i].name == book.codes[i].name && r.codes[i].description == book.codes[i].description
      && r.codes[i].criteria == book.codes[i].criteria
  {
    CodeBookRecord(ModeValue(book.mode), Some(book.context),
      seq(|book.codes|, i requires 0 <= i < |book.codes| =>
        CodeRecord(book.codes[i].name, book.codes[i].description, book.codes[i].criteria)))
  }

  /** `load_code_book`: a missing file and a mode value that is not an
      `AnalysisMode` are errors; otherwise the codes in file order with no
      parent, the mode, the context ("" when absent) and the default flat depth. */
  function LoadCodeBook(file: Option<CodeBookRecord>): (r: Result<CodeBook, RepoError>)
    ensures file.None? ==> r == Failure(CodeBookNotFound)
    ensures file.Some? ==> (r.Failure? <==> ModeFromValue(file.value.mode).None?)
    ensures r.Failure? && file.Some? ==> r.error == InvalidMode(file.value.mode)
    ensures r.Success? ==>
      && Some(r.value.mode) == ModeFromValue(file.value.mode)
      && r.value.context == (if file.value.context.Some? then file.value.context.value else "")
      && r.value.hierarchyDepth == Flat
      && |r.value.codes| == |file.value.codes|
      && forall i :: 0 <= i < |r.value.codes| ==>
           r.value.codes[i] == Code(file.value.codes[i].name, file.value.codes[i].description,
                                    file.value.codes[i].criteria, None)
  {
    if file.None? then Failure(CodeBookNotFound)
    else
      var data := file.value;
      var codes := seq(|data.codes|, i requires 0 <= i < |data.codes| =>
        Code(data.codes[i].name, data.codes[i].description, data.codes[i].criteria, None));
      match ModeFromValue(data.mode)
      case None => Failure(InvalidMode(data.mode))
      case Some(mode) => Success(CodeBook(codes, mode, if data.context.Some? then data.context.value else "", Flat))
  }

  /** A code without its parent. */
  function Unparented(c: Code): Code
  {
    c.(parentCodeName := None)
  }

  /** What survives a save and a load: the book with every parent dropped
      and the default flat depth. */
  function ReloadedBook(book: CodeBook): CodeBook
  {
    CodeBook(Apply(book.codes, Unparented), book.mode, book.context, Flat)
  }

  /** Saving and loading a code book keeps its mode, its context and each
      code's name, description and criteria in order; it loses the parents
      and the hierarchy depth. */
  lemma {:induction false} CodeBookRoundTrip(book: CodeBook)
    ensures LoadCodeBook(Some(SaveCodeBook(book))) == Success(ReloadedBook(book))
  {
    ModeValueRoundTrip(book.mode);
    var loaded := LoadCodeBook(Some(SaveCodeBook(book))).value;
    var expected := ReloadedBook(book);
    ApplyAt(book.codes, Unparented);
    assert loaded.codes == expected.codes;
  }

  /** `[f(x) for x in s][i] == f(s[i])` */
  lemma {:induction false} ApplyAt<T, V>(s: seq<T>, f: T -> V)
    ensures forall i :: 0 <= i < |s| ==> Apply(s, f)[i] == f(s[i])
  {
    if s != [] {
      ApplyAt(s[1..], f);
    }
  }

  /** A flat book without parents, such as the reading workflow builds, survives unchanged. */
  lemma CodeBookRoundTripExact(book: CodeBook)
    requires book.hierarchyDepth == Flat
    requires forall c :: c in book.codes ==> c.parentCodeName.None?
    ensures LoadCodeBook(Some(SaveCodeBook(book))) == Success(book)
  {
    CodeBookRoundTrip(book);
    ApplyFixed(book.codes, Unparented);
  }

  /** The hierarchical book of the repository's own save-and-load test: a
      two-level book holding a parent code and its child. */
  function HierarchicalExample(): CodeBook
  {
    CodeBook([Code("Parent", "Parent code", "Parent criteria", None),
              Code("Child", "Child code", "Child criteria", Some("Parent"))],
             Coding, "Test hierarchical context", TwoLevel)
  }

  /** As written, the hierarchical example does not survive a save and a
      load: the reloaded book is flat, its child lost its parent, and the
      parent has no children and no longer is the only root. */
  lemma AsWrittenLosesHierarchy()
    ensures HierarchicalExample().GetChildren("Parent") == [HierarchicalExample().codes[1]]
    ensures LoadCodeBook(Some(SaveCodeBook(HierarchicalExample()))).Success?
    ensures var loaded := LoadCodeBook(Some(SaveCodeBook(HierarchicalExample()))).value;
      && loaded.hierarchyDepth == Flat
      && loaded.GetChildren("Parent") == []
      && |loaded.GetRootCodes()| == 2
  {
    var book := HierarchicalExample();
    CodeBookRoundTrip(book);
    ApplyAt(book.codes, Unparented);
    var loaded := ReloadedBook(book);
    assert loaded.codes == [Unparented(book.codes[0]), Unparented(book.codes[1])];
    ChildrenAfterAdd(CodeBook([loaded.codes[0]], Coding, book.context, Flat), loaded.codes[1], "Parent");
    RootsAfterAdd(CodeBook([loaded.codes[0]], Coding, book.context, Flat), loaded.codes[1]);
    assert loaded == CodeBook([loaded.codes[0]], Coding, book.context, Flat).AddCode(loaded.codes[1]);
  }

  /** The enum's string value of a hierarchy depth. */
  function DepthValue(d: HierarchyDepth): string
  {
    match d
    case Flat => "1"
    case TwoLevel => "2"
    case Arbitrary => "arbitrary"
  }

  /** `HierarchyDepth(value)`: None stands for the ValueError of an unknown value. */
  function DepthFromValue(v: string): (r: Option<HierarchyDepth>)
    ensures r.Some? <==> v == "1" || v == "2" || v == "arbitrary"
    ensures r.Some? ==> DepthValue(r.value) == v
  {
    if v == "1" then Some(Flat)
    else if v == "2" then Some(TwoLevel)
    else if v == "arbitrary" then Some(Arbitrary)
    else None
  }

  /** A saved code that also records its parent, as the hierarchical test expects. */
  datatype HierarchicalCodeRecord = HierarchicalCodeRecord(name: string, description: string, criteria: string,
                                                           parentCodeName: Option<string>)

  /** A `code_book.json` object that also records the hierarchy depth
      (None when the key is absent). */
  datatype HierarchicalCodeBookRecord = HierarchicalCodeBookRecord(
    mode: string, context: Option<string>, hierarchyDepth: Option<string>, codes: seq<HierarchicalCodeRecord>)

  /** The save the hierarchical test expects: the as-written record plus the
      depth's value and each code's parent. */
  function SaveCodeBookWithHierarchy(book: CodeBook): (r: HierarchicalCodeBookRecord)
    ensures r.hierarchyDepth == Some(DepthValue(book.hierarchyDepth))
    ensures |r.codes| == |book.codes|
    ensures forall i :: 0 <= i < |r.codes| ==> r.codes[i].parentCodeName == book.codes[i].parentCodeName
  {
    HierarchicalCodeBookRecord(ModeValue(book.mode), Some(book.context), Some(DepthValue(book.hierarchyDepth)),
      seq(|book.codes|, i requires 0 <= i < |book.codes| =>
        HierarchicalCodeRecord(book.codes[i].name, book.codes[i].description, book.codes[i].criteria,
                               book.codes[i].parentCodeName)))
  }

  /** The load the hierarchical test expects: as written, but each code keeps
      its saved parent and the depth is read back, flat when the key is absent
      and an error when the value is not a `HierarchyDepth`. */
  function LoadCodeBookWithHierarchy(file: Option<HierarchicalCodeBookRecord>): (r: Result<CodeBook, RepoError>)
    ensures file.None? ==> r == Failure(CodeBookNotFound)
    ensures file.Some? && ModeFromValue(file.value.mode).None? ==> r == Failure(InvalidMode(file.value.mode))
    ensures r.Success? ==> |r.value.codes| == |file.value.codes|
  {
    if file.None? then Failure(CodeBookNotFound)
    else
      var data := file.value;
      var codes := seq(|data.codes|, i requires 0 <= i < |data.codes| =>
        Code(data.codes[i].name, data.codes[i].description, data.codes[i].criteria, data.codes[i].parentCodeName));
      var depth := if data.hierarchyDepth.Some? then DepthFromValue(data.hierarchyDepth.value) else Some(Flat);
      match ModeFromValue(data.mode)
      case None => Failure(InvalidMode(data.mode))
      case Some(mode) =>
        if depth.None? then Failure(InvalidDepth(data.hierarchyDepth.value))
        else Success(CodeBook(codes, mode, if data.context.Some? then data.context.value else "", depth.value))
  }

  /** With the hierarchy saved, every code book comes back exactly: parents,
      depth, mode, context and codes in order. */
  lemma CodeBookWithHierarchyRoundTrip(book: CodeBook)
    ensures LoadCodeBookWithHierarchy(Some(SaveCodeBookWithHierarchy(book))) == Success(book)
  {
    ModeValueRoundTrip(book.mode);
    assert DepthFromValue(DepthValue(book.hierarchyDepth)) == Some(book.hierarchyDepth);
    var loaded := LoadCodeBookWithHierarchy(Some(SaveCodeBookWithHierarchy(book))).value;
    assert loaded.codes == book.codes;
  }

  // ---------------------------------------------------------------- sentence codes record

  /** `rationale or ""` */
  function RationaleText(rationale: Option<string>): string
  {
    if rationale.Some? then rationale.value else ""
  }

  function SentenceCodeName(sc: SentenceCode): string
  {
    sc.code.name
  }

  /** An entry of `codes_by_name` in `sentence_codes.json`. */
  datatype NameEntry = NameEntry(sentenceId: string, rationale: string)

  /** An entry of `codes_by_file` in `sentence_codes.json`. */
  datatype FileEntry = FileEntry(sentenceId: string, code: string, rationale: string)

  function NameEntryOf(sc: SentenceCode): NameEntry
  {
    NameEntry(sc.sentenceId, RationaleText(sc.rationale))
  }

  function FileEntryOf(sc: SentenceCode): FileEntry
  {
    FileEntry(sc.sentenceId, sc.code.name, RationaleText(sc.rationale))
  }

  /** `"_".join(id.split("_")[:-1])`: the id without its last "_"-separated piece. */
  function IdPrefix(id: string): string
  {
    var pieces := Split(id, '_');
    Join(pieces[..|pieces| - 1], '_')
  }

  function SentenceFileKey(sc: SentenceCode): string
  {
    IdPrefix(sc.sentenceId)
  }

  /** The object in `sentence_codes.json`. */
  datatype SentenceCodesRecord = SentenceCodesRecord(
    mode: string,
    totalCodedSentences: nat,
    codesByName: seq<Group<NameEntry>>,
    codesByFile: seq<Group<FileEntry>>)

  /** What `_save_sentence_codes` writes for a list of sentence codes. */
  function SentenceCodesRecordOf(codes: seq<SentenceCode>): SentenceCodesRecord
  {
    SentenceCodesRecord("coding", |codes|, GroupBy(codes, SentenceCodeName, NameEntryOf),
                        GroupBy(codes, SentenceFileKey, FileEntryOf))
  }

  /** Both groupings are faithful to the codes: distinct keys, every code's
      key present, each key's entries exactly those of the codes with that
      key in their original order, and group sizes adding up to the total. */
  lemma SentenceCodesRecordFacts(codes: seq<SentenceCode>)
    ensures var rec := SentenceCodesRecordOf(codes);
      && DistinctKeys(rec.codesByName) && AllPresent(rec.codesByName, codes, SentenceCodeName)
      && ItemsMatch(rec.codesByName, codes, SentenceCodeName, NameEntryOf)
      && DistinctKeys(rec.codesByFile) && AllPresent(rec.codesByFile, codes, SentenceFileKey)
      && ItemsMatch(rec.codesByFile, codes, SentenceFileKey, FileEntryOf)
      && SizeSum(rec.codesByName) == rec.totalCodedSentences
      && SizeSum(rec.codesByFile) == rec.totalCodedSentences
  {
    GroupByFaithful(codes, SentenceCodeName, NameEntryOf);
    GroupByFaithful(codes, SentenceFileKey, FileEntryOf);
    GroupBySizes(codes, SentenceCodeName, NameEntryOf);
    GroupBySizes(codes, SentenceFileKey, FileEntryOf);
  }

  /** The file key of an id `<stem>_<line>` is the stem, even when the stem itself contains "_". */
  lemma IdPrefixOfSentenceId(stem: string, n: nat)
    ensures IdPrefix(SentenceId(stem, n)) == stem
  {
    var digits := NatToString(n);
    assert SentenceId(stem, n) == stem + ['_'] + digits;
    SplitAppend(stem, digits, '_');
    SplitNoSeparator(digits, '_');
    var pieces := Split(stem, '_') + [digits];
    assert pieces[..|pieces| - 1] == Split(stem, '_');
    JoinSplit(stem, '_');
  }

  /** Every sentence parsed from a document is filed under the document's stem. */
  lemma ParsedSentenceFileKey(path: Path, content: string, s: Sentence)
    requires s in ParsedSentences(path, content)
    ensures IdPrefix(s.id) == Stem(path)
  {
    ParseLinesSound(path, Stem(path), Split(content, '\n'), 1);
    IdPrefixOfSentenceId(Stem(path), s.lineNumber);
  }

  /** `_save_sentence_codes`: two loops filling the two dictionaries. */
  method SaveSentenceCodes(codes: seq<SentenceCode>) returns (rec: SentenceCodesRecord)
    ensures rec == SentenceCodesRecordOf(codes)
  {
    var byName := FillGroups(codes, SentenceCodeName, NameEntryOf);
    var byFile := FillGroups(codes, SentenceFileKey, FileEntryOf);
    rec := SentenceCodesRecord("coding", |codes|, byName, byFile);
  }

  // ---------------------------------------------------------------- document codes record

  function DocumentCodeName(dc: DocumentCode): string
  {
    dc.code.name
  }

  function DocumentFileKey(dc: DocumentCode): string
  {
    FileName(dc.filePath)
  }

  /** An entry of `codes_by_name` in `document_codes.json`. */
  datatype DocNameEntry = DocNameEntry(file: Path, rationale: string)

  /** An entry of `codes_by_file` in `document_codes.json`. */
  datatype DocFileEntry = DocFileEntry(code: string, rationale: string)

  function DocNameEntryOf(dc: DocumentCode): DocNameEntry
  {
    DocNameEntry(dc.filePath, RationaleText(dc.rationale))
  }

  function DocFileEntryOf(dc: DocumentCode): DocFileEntry
  {
    DocFileEntry(dc.code.name, RationaleText(dc.rationale))
  }

  /** `set(dc.file_path for dc in codes)` */
  function PathsOf(codes: seq<DocumentCode>): set<Path>
  {
    if codes == [] then {} else {codes[0].filePath} + PathsOf(codes[1..])
  }

  /** The distinct paths are the paths of the codes; there are no more of
      them than codes, and none exactly when there are no codes. */
  lemma {:induction false} PathsOfFacts(codes: seq<DocumentCode>)
    ensures forall p :: p in PathsOf(codes) <==> exists dc :: dc in codes && dc.filePath == p
    ensures |PathsOf(codes)| <= |codes|
    ensures |PathsOf(codes)| == 0 <==> codes == []
  {
    if codes != [] {
      PathsOfFacts(codes[1..]);
      assert codes == [codes[0]] + codes[1..];
      assert codes[0].filePath in PathsOf(codes);
    }
  }

  /** The object in `document_codes.json`. */
  datatype DocumentCodesRecord = DocumentCodesRecord(
    mode: string,
    totalCodedDocuments: nat,
    codesByName: seq<Group<DocNameEntry>>,
    codesByFile: seq<Group<DocFileEntry>>)

  /** What `_save_document_codes` writes for a list of document codes. */
  function DocumentCodesRecordOf(codes: seq<DocumentCode>): DocumentCodesRecord
  {
    DocumentCodesRecord("categorization", |PathsOf(codes)|, GroupBy(codes, DocumentCodeName, DocNameEntryOf),
                        GroupBy(codes, DocumentFileKey, DocFileEntryOf))
  }

  /** Both groupings are faithful to the codes and hold every code once,
      while the total counts distinct documents, not codes. */
  lemma DocumentCodesRecordFacts(codes: seq<DocumentCode>)
    ensures var rec := DocumentCodesRecordOf(codes);
      && DistinctKeys(rec.codesByName) && AllPresent(rec.codesByName, codes, DocumentCodeName)
      && ItemsMatch(rec.codesByName, codes, DocumentCodeName, DocNameEntryOf)
      && DistinctKeys(rec.codesByFile) && AllPresent(rec.codesByFile, codes, DocumentFileKey)
      && ItemsMatch(rec.codesByFile, codes, DocumentFileKey, DocFileEntryOf)
      && SizeSum(rec.codesByName) == |codes| && SizeSum(rec.codesByFile) == |codes|
      && rec.totalCodedDocuments <= |codes|
      && (rec.totalCodedDocuments == 0 <==> codes == [])
  {
    GroupByFaithful(codes, DocumentCodeName, DocNameEntryOf);
    GroupByFaithful(codes, DocumentFileKey, DocFileEntryOf);
    GroupBySizes(codes, DocumentCodeName, DocNameEntryOf);
    GroupBySizes(codes, DocumentFileKey, DocFileEntryOf);
    PathsOfFacts(codes);
  }

  /** `_save_document_codes`: two loops filling the two dictionaries. */
  method SaveDocumentCodes(codes: seq<DocumentCode>) returns (rec: DocumentCodesRecord)
    ensures rec == DocumentCodesRecordOf(codes)
  {
    var byName := FillGroups(codes, DocumentCodeName, DocNameEntryOf);
    var byFile := FillGroups(codes, DocumentFileKey, DocFileEntryOf);
    rec := DocumentCodesRecord("categorization", |PathsOf(codes)|, byName, byFile);
  }

  // ---------------------------------------------------------------- summary

  /** The figures `summary.txt` reports: the mode, the number of codes in
      the book, the total of coded sentences or documents, and the count per
      code name in ascending name order. */
  datatype Summary = Summary(mode: AnalysisMode, numberOfCodes: nat, total: nat, perCode: seq<KeyCount>)

  /** `sorted(code_counts.items())` */
  function SortedCounts(cs: seq<KeyCount>): seq<KeyCount>
  {
    SortBy(cs, CountKey)
  }

  /** What `_save_summary` reports for a result. */
  function SummaryOf(mode: AnalysisMode, book: CodeBook, sentenceCodes: seq<SentenceCode>,
                     documentCodes: seq<DocumentCode>): Summary
  {
    if mode == Coding then
      Summary(mode, |book.codes|, |sentenceCodes|, SortedCounts(CountBy(sentenceCodes, SentenceCodeName)))
    else
      Summary(mode, |book.codes|, |PathsOf(documentCodes)|, SortedCounts(CountBy(documentCodes, DocumentCodeName)))
  }

  /** The per-code lines of a summary: ascending names, each count the
      number of applied codes with that name, every applied name listed,
      and the counts adding up to the number of applied codes. */
  lemma {:induction false} PerCodeFacts<T(!new)>(xs: seq<T>, name: T -> string)
    ensures SortedBy(SortedCounts(CountBy(xs, name)), CountKey)
    ensures forall c :: c in SortedCounts(CountBy(xs, name)) ==> c.count == Count(xs, KeyIs(name, c.key)) > 0
    ensures forall x :: x in xs ==> exists c :: c in SortedCounts(CountBy(xs, name)) && c.key == name(x)
    ensures SumCounts(SortedCounts(CountBy(xs, name))) == |xs|
  {
    var cs := CountBy(xs, name);
    var sorted := SortedCounts(cs);
    CountByFacts(xs, name);
    SumCountsPermutation(cs, sorted);
    forall c | c in sorted ensures c.count == Count(xs, KeyIs(name, c.key)) > 0 {
      assert c in multiset(sorted);
      var i :| 0 <= i < |cs| && cs[i] == c;
    }
    forall x | x in xs ensures exists c :: c in sorted && c.key == name(x) {
      var c := cs[FindKey(cs, CountKey, name(x))];
      assert c in multiset(cs);
      assert c in sorted;
    }
  }

  /** The summary counts: in coding mode per sentence code, otherwise per
      document code, and the total of documents never exceeds the codes. */
  lemma SummaryFacts(mode: AnalysisMode, book: CodeBook, sentenceCodes: seq<SentenceCode>,
                     documentCodes: seq<DocumentCode>)
    ensures var s := SummaryOf(mode, book, sentenceCodes, documentCodes);
      && s.mode == mode && s.numberOfCodes == |book.codes|
      && SortedBy(s.perCode, CountKey)
      && (mode == Coding ==> s.total == |sentenceCodes| == SumCounts(s.perCode))
      && (mode == Categorization ==> s.total <= |documentCodes| == SumCounts(s.perCode))
  {
    PerCodeFacts(sentenceCodes, SentenceCodeName);
    PerCodeFacts(documentCodes, DocumentCodeName);
    PathsOfFacts(documentCodes);
  }

  /** `_save_summary`: the counting loop, then the sort. */
  method SaveSummary(result: AnalysisResult) returns (s: Summary)
    ensures s == SummaryOf(result.mode, result.codeBook, result.sentenceCodes, result.documentCodes)
  {
    var counts: seq<KeyCount>;
    var total: nat;
    if result.mode == Coding {
      counts := FillCounts(result.sentenceCodes, SentenceCodeName);
      total := |result.sentenceCodes|;
    } else {
      counts := FillCounts(result.documentCodes, DocumentCodeName);
      total := |PathsOf(result.documentCodes)|;
    }
    s := Summary(result.mode, |result.codeBook.codes|, total, SortedCounts(counts));
  }

  // ---------------------------------------------------------------- output directory

  /** The files of an output directory, each present or absent. */
  datatype OutputDir = OutputDir(
    codeBook: Option<CodeBookRecord>,
    sentenceCodes: Option<SentenceCodesRecord>,
    documentCodes: Option<DocumentCodesRecord>,
    summary: Option<Summary>)

  /** What `save_result` leaves in a directory: the code book, the codes
      file of the result's mode and the summary are written; the other
      mode's codes file is left as it was. */
  function SavedResult(dir: OutputDir, mode: AnalysisMode, book: CodeBook, sentenceCodes: seq<SentenceCode>,
                       documentCodes: seq<DocumentCode>): OutputDir
  {
    var written := dir.(codeBook := Some(SaveCodeBook(book)),
                        summary := Some(SummaryOf(mode, book, sentenceCodes, documentCodes)));
    if mode == Coding then written.(sentenceCodes := Some(SentenceCodesRecordOf(sentenceCodes)))
    else written.(documentCodes := Some(DocumentCodesRecordOf(documentCodes)))
  }

  /** `save_result` */
  method SaveResult(result: AnalysisResult, dir: OutputDir) returns (out: OutputDir)
    ensures out == SavedResult(dir, result.mode, result.codeBook, result.sentenceCodes, result.documentCodes)
  {
    out := dir.(codeBook := Some(SaveCodeBook(result.codeBook)));
    if result.mode == Coding {
      var rec := SaveSentenceCodes(result.sentenceCodes);
      out := out.(sentenceCodes := Some(rec));
    } else {
      var rec := SaveDocumentCodes(result.documentCodes);
      out := out.(documentCodes := Some(rec));
    }
    var summary := SaveSummary(result);
    out := out.(summary := Some(summary));
  }

  // ---------------------------------------------------------------- load_result

  /** The test `if code:` after `code_book.get_code(code_name)`. */
  function Resolves(book: CodeBook): string -> bool
  {
    k => book.GetCode(k).Some?
  }

  /** The code `get_code` finds; only ever asked for a name that resolves. */
  function CodeNamed(book: CodeBook, k: string): Code
  {
    match book.GetCode(k)
    case Some(c) => c
    case None => Code(k, "", "", None)
  }

  /** A reloaded sentence code: the saved id, the book's code, the saved rationale. */
  function SentenceCodeFrom(book: CodeBook): (string, NameEntry) -> SentenceCode
  {
    (k, e: NameEntry) => SentenceCode(e.sentenceId, CodeNamed(book, k), Some(e.rationale))
  }

  /** A reloaded document code: the saved path, the book's code, the saved rationale. */
  function DocumentCodeFrom(book: CodeBook): (string, DocNameEntry) -> DocumentCode
  {
    (k, e: DocNameEntry) => DocumentCode(e.file, CodeNamed(book, k), Some(e.rationale))
  }

  /** The sentence codes `load_result` re-adds: per `codes_by_name` entry in
      file order, those whose name resolves in the book; none without a file. */
  function ReloadedSentenceCodes(book: CodeBook, file: Option<SentenceCodesRecord>): seq<SentenceCode>
  {
    if file.None? then [] else Unfold(file.value.codesByName, Resolves(book), SentenceCodeFrom(book))
  }

  /** The document codes `load_result` re-adds, likewise. */
  function ReloadedDocumentCodes(book: CodeBook, file: Option<DocumentCodesRecord>): seq<DocumentCode>
  {
    if file.None? then [] else Unfold(file.value.codesByName, Resolves(book), DocumentCodeFrom(book))
  }

  /** What the inner loop of `load_result` re-adds for entries listed under a
      name that resolves to `code`: one code per entry, in file order. */
  function SentenceCodesWith(code: Code, items: seq<NameEntry>): (r: seq<SentenceCode>)
    ensures |r| == |items|
  {
    if items == [] then []
    else
      var e := items[|items| - 1];
      SentenceCodesWith(code, items[..|items| - 1]) + [SentenceCode(e.sentenceId, code, Some(e.rationale))]
  }

  /** Under a name that resolves, the read-back of its entries is what the inner loop re-adds. */
  lemma {:induction false} ExpandSentenceCodes(book: CodeBook, k: string, items: seq<NameEntry>)
    requires book.GetCode(k).Some?
    ensures Expand(k, items, SentenceCodeFrom(book)) == SentenceCodesWith(book.GetCode(k).value, items)
    decreases |items|
  {
    if items != [] {
      ExpandSentenceCodes(book, k, items[..|items| - 1]);
    }
  }

  /** One more entry adds its code after those of the entries before it. */
  lemma SentenceCodesWithStep(code: Code, items: seq<NameEntry>, j: nat)
    requires j < |items|
    ensures var e := items[j];
      SentenceCodesWith(code, items[..j + 1]) == SentenceCodesWith(code, items[..j]) + [SentenceCode(e.sentenceId, code, Some(e.rationale))]
  {
    assert items[..j + 1][..j] == items[..j];
  }

  /** What one key contributes: its entries with the book's code when the name resolves, otherwise nothing. */
  lemma SentencePartOf(book: CodeBook, g: Group<NameEntry>)
    ensures Part(g, Resolves(book), SentenceCodeFrom(book))
            == if book.GetCode(g.key).Some? then SentenceCodesWith(book.GetCode(g.key).value, g.items) else []
  {
    if book.GetCode(g.key).Some? {
      ExpandSentenceCodes(book, g.key, g.items);
      assert Resolves(book)(g.key);
    } else {
      assert !Resolves(book)(g.key);
    }
  }

  /** One round of the outer loop of `load_result` in coding mode: the entries
      listed under a `codes_by_name` key are re-added, in file order, when the
      key names a code of the book, and skipped otherwise. */
  method AddSentenceCodeGroup(result: AnalysisResult, book: CodeBook, g: Group<NameEntry>)
    modifies result
    ensures result.sentenceCodes == old(result.sentenceCodes) + Part(g, Resolves(book), SentenceCodeFrom(book))
    ensures result.mode == old(result.mode) && result.codeBook == old(result.codeBook)
    ensures result.documentCodes == old(result.documentCodes)
  {
    var code := book.GetCode(g.key);
    SentencePartOf(book, g);
    if code.None? {
      return;
    }
    ghost var before := result.sentenceCodes;
    var j := 0;
    while j < |g.items|
      invariant 0 <= j <= |g.items|
      invariant result.mode == old(result.mode) && result.codeBook == old(result.codeBook)
      invariant result.documentCodes == old(result.documentCodes)
      invariant result.sentenceCodes == before + SentenceCodesWith(code.value, g.items[..j])
    {
      var e := g.items[j];
      SentenceCodesWithStep(code.value, g.items, j);
      result.AddSentenceCode(SentenceCode(e.sentenceId, code.value, Some(e.rationale)));
      AppendTwice(before, SentenceCodesWith(code.value, g.items[..j]), [SentenceCode(e.sentenceId, code.value, Some(e.rationale))]);
      j := j + 1;
    }
    assert g.items[..j] == g.items;
  }

  /** What the outer loop has re-added after the first `i` keys of `codes_by_name`. */
  ghost function ReloadedSentencePrefix(book: CodeBook, groups: seq<Group<NameEntry>>, i: nat): seq<SentenceCode>
    requires i <= |groups|
  {
    Unfold(groups[..i], Resolves(book), SentenceCodeFrom(book))
  }

  /** One more key adds what that key contributes. */
  lemma ReloadedSentencePrefixStep(book: CodeBook, groups: seq<Group<NameEntry>>, i: nat)
    requires i < |groups|
    ensures ReloadedSentencePrefix(book, groups, i + 1)
            == ReloadedSentencePrefix(book, groups, i) + Part(groups[i], Resolves(book), SentenceCodeFrom(book))
  {
    UnfoldStep(groups, i, Resolves(book), SentenceCodeFrom(book));
  }

  /** All keys give the whole read-back. */
  lemma ReloadedSentencePrefixAll(book: CodeBook, groups: seq<Group<NameEntry>>)
    ensures ReloadedSentencePrefix(book, groups, |groups|) == Unfold(groups, Resolves(book), SentenceCodeFrom(book))
  {
    assert groups[..|groups|] == groups;
  }

  /** The outer loop of `load_result` in coding mode, over `codes_by_name` in file order. */
  method AddSentenceCodes(result: AnalysisResult, book: CodeBook, groups: seq<Group<NameEntry>>)
    modifies result
    ensures result.sentenceCodes == old(result.sentenceCodes) + Unfold(groups, Resolves(book), SentenceCodeFrom(book))
    ensures result.mode == old(result.mode) && result.codeBook == old(result.codeBook)
    ensures result.documentCodes == old(result.documentCodes)
  {
    ghost var before := result.sentenceCodes;
    var i := 0;
    while i < |groups|
      invariant 0 <= i <= |groups|
      invariant result.mode == old(result.mode) && result.codeBook == old(result.codeBook)
      invariant result.documentCodes == old(result.documentCodes)
      invariant result.sentenceCodes == before + ReloadedSentencePrefix(book, groups, i)
    {
      AddSentenceCodeGroup(result, book, groups[i]);
      ReloadedSentencePrefixStep(book, groups, i);
      AppendTwice(before, ReloadedSentencePrefix(book, groups, i), Part(groups[i], Resolves(book), SentenceCodeFrom(book)));
      i := i + 1;
    }
    ReloadedSentencePrefixAll(book, groups);
  }

  /** What the inner loop of `load_result` re-adds for entries listed under a
      name that resolves to `code`: one code per entry, in file order. */
  function DocumentCodesWith(code: Code, items: seq<DocNameEntry>): (r: seq<DocumentCode>)
    ensures |r| == |items|
  {
    if items == [] then []
    else
      var e := items[|items| - 1];
      DocumentCodesWith(code, items[..|items| - 1]) + [DocumentCode(e.file, code, Some(e.rationale))]
  }

  /** Under a name that resolves, the read-back of its entries is what the inner loop re-adds. */
  lemma {:induction false} ExpandDocumentCodes(book: CodeBook, k: string, items: seq<DocNameEntry>)
    requires book.GetCode(k).Some?
    ensures Expand(k, items, DocumentCodeFrom(book)) == DocumentCodesWith(book.GetCode(k).value, items)
    decreases |items|
  {
    if items != [] {
      ExpandDocumentCodes(book, k, items[..|items| - 1]);
    }
  }

  /** One more entry adds its code after those of the entries before it. */
  lemma DocumentCodesWithStep(code: Code, items: seq<DocNameEntry>, j: nat)
    requires j < |items|
    ensures var e := items[j];
      DocumentCodesWith(code, items[..j + 1]) == DocumentCodesWith(code, items[..j]) + [DocumentCode(e.file, code, Some(e.rationale))]
  {
    assert items[..j + 1][..j] == items[..j];
  }

  /** What one key contributes: its entries with the book's code when the name resolves, otherwise nothing. */
  lemma DocumentPartOf(book: CodeBook, g: Group<DocNameEntry>)
    ensures Part(g, Resolves(book), DocumentCodeFrom(book))
            == if book.GetCode(g.key).Some? then DocumentCodesWith(book.GetCode(g.key).value, g.items) else []
  {
    if book.GetCode(g.key).Some? {
      ExpandDocumentCodes(book, g.key, g.items);
      assert Resolves(book)(g.key);
    } else {
      assert !Resolves(book)(g.key);
    }
  }

  /** One round of the outer loop of `load_result` in categorization mode: the entries
      listed under a `codes_by_name` key are re-added, in file order, when the
      key names a code of the book, and skipped otherwise. */
  method AddDocumentCodeGroup(result: AnalysisResult, book: CodeBook, g: Group<DocNameEntry>)
    modifies result
    ensures result.documentCodes == old(result.documentCodes) + Part(g, Resolves(book), DocumentCodeFrom(book))
    ensures result.mode == old(result.mode) && result.codeBook == old(result.codeBook)
    ensures result.sentenceCodes == old(result.sentenceCodes)
  {
    var code := book.GetCode(g.key);
    DocumentPartOf(book, g);
    if code.None? {
      return;
    }
    ghost var before := result.documentCodes;
    var j := 0;
    while j < |g.items|
      invariant 0 <= j <= |g.items|
      invariant result.mode == old(result.mode) && result.codeBook == old(result.codeBook)
      invariant result.sentenceCodes == old(result.sentenceCodes)
      invariant result.documentCodes == before + DocumentCodesWith(code.value, g.items[..j])
    {
      var e := g.items[j];
      DocumentCodesWithStep(code.value, g.items, j);
      result.AddDocumentCode(DocumentCode(e.file, code.value, Some(e.rationale)));
      AppendTwice(before, DocumentCodesWith(code.value, g.items[..j]), [DocumentCode(e.file, code.value, Some(e.rationale))]);
      j := j + 1;
    }
    assert g.items[..j] == g.items;
  }

  /** What the outer loop has re-added after the first `i` keys of `codes_by_name`. */
  ghost function ReloadedDocumentPrefix(book: CodeBook, groups: seq<Group<DocNameEntry>>, i: nat): seq<DocumentCode>
    requires i <= |groups|
  {
    Unfold(groups[..i], Resolves(book), DocumentCodeFrom(book))
  }

  /** One more key adds what that key contributes. */
  lemma ReloadedDocumentPrefixStep(book: CodeBook, groups: seq<Group<DocNameEntry>>, i: nat)
    requires i < |groups|
    ensures ReloadedDocumentPrefix(book, groups, i + 1)
            == ReloadedDocumentPrefix(book, groups, i) + Part(groups[i], Resolves(book), DocumentCodeFrom(book))
  {
    UnfoldStep(groups, i, Resolves(book), DocumentCodeFrom(book));
  }

  /** All keys give the whole read-back. */
  lemma ReloadedDocumentPrefixAll(book: CodeBook, groups: seq<Group<DocNameEntry>>)
    ensures ReloadedDocumentPrefix(book, groups, |groups|) == Unfold(groups, Resolves(book), DocumentCodeFrom(book))
  {
    assert groups[..|groups|] == groups;
  }

  /** The outer loop of `load_result` in categorization mode, over `codes_by_name` in file order. */
  method AddDocumentCodes(result: AnalysisResult, book: CodeBook, groups: seq<Group<DocNameEntry>>)
    modifies result
    ensures result.documentCodes == old(result.documentCodes) + Unfold(groups, Resolves(book), DocumentCodeFrom(book))
    ensures result.mode == old(result.mode) && result.codeBook == old(result.codeBook)
    ensures result.sentenceCodes == old(result.sentenceCodes)
  {
    ghost var before := result.documentCodes;
    var i := 0;
    while i < |groups|
      invariant 0 <= i <= |groups|
      invariant result.mode == old(result.mode) && result.codeBook == old(result.codeBook)
      invariant result.sentenceCodes == old(result.sentenceCodes)
      invariant result.documentCodes == before + ReloadedDocumentPrefix(book, groups, i)
    {
      AddDocumentCodeGroup(result, book, groups[i]);
      ReloadedDocumentPrefixStep(book, groups, i);
      AppendTwice(before, ReloadedDocumentPrefix(book, groups, i), Part(groups[i], Resolves(book), DocumentCodeFrom(book)));
      i := i + 1;
    }
    ReloadedDocumentPrefixAll(book, groups);
  }

  /** `load_result`: fails as `load_code_book` fails; otherwise a new result
      with the book's mode and the codes of that mode's file. */
  method LoadResult(dir: OutputDir) returns (r: Result<AnalysisResult, RepoError>)
    ensures LoadCodeBook(dir.codeBook).Failure? ==> r.Failure? && r.error == LoadCodeBook(dir.codeBook).error
    ensures LoadCodeBook(dir.codeBook).Success? ==> r.Success? && fresh(r.value)
    ensures r.Success? ==>
      var book := LoadCodeBook(dir.codeBook).value;
      && r.value.mode == book.mode && r.value.codeBook == book
      && r.value.sentenceCodes == (if book.mode == Coding then ReloadedSentenceCodes(book, dir.sentenceCodes) else [])
      && r.value.documentCodes == (if book.mode == Coding then [] else ReloadedDocumentCodes(book, dir.documentCodes))
  {
    var loaded := LoadCodeBook(dir.codeBook);
    if loaded.Failure? {
      return Failure(loaded.error);
    }
    var book := loaded.value;
    var result := new AnalysisResult(book.mode, book, [], []);
    if book.mode == Coding {
      if dir.sentenceCodes.Some? {
        AddSentenceCodes(result, book, dir.sentenceCodes.value.codesByName);
      }
    } else {
      if dir.documentCodes.Some? {
        AddDocumentCodes(result, book, dir.documentCodes.value.codesByName);
      }
    }
    r := Success(result);
  }

  // ---------------------------------------------------------------- save then load

  /** The test "the code's name resolves in `book`". */
  function SentenceNameResolves(book: CodeBook): SentenceCode -> bool
  {
    (sc: SentenceCode) => book.GetCode(sc.code.name).Some?
  }

  function DocumentNameResolves(book: CodeBook): DocumentCode -> bool
  {
    (dc: DocumentCode) => book.GetCode(dc.code.name).Some?
  }

  /** A sentence code as it comes back from a save and a load in `book`:
      the book's code of that name, and a missing rationale read as "". */
  function NormalizedSentenceCode(book: CodeBook): SentenceCode -> SentenceCode
  {
    (sc: SentenceCode) => SentenceCode(sc.sentenceId, CodeNamed(book, sc.code.name), Some(RationaleText(sc.rationale)))
  }

  /** A document code as it comes back from a save and a load in `book`. */
  function NormalizedDocumentCode(book: CodeBook): DocumentCode -> DocumentCode
  {
    (dc: DocumentCode) => DocumentCode(dc.filePath, CodeNamed(book, dc.code.name), Some(RationaleText(dc.rationale)))
  }

  /** One sentence code through the save and the reload. */
  lemma SentenceReloaded(book: CodeBook, sc: SentenceCode)
    ensures KeyPicked(SentenceCodeName, Resolves(book))(sc) == SentenceNameResolves(book)(sc)
    ensures Rebuilt(SentenceCodeName, NameEntryOf, SentenceCodeFrom(book))(sc) == NormalizedSentenceCode(book)(sc)
  {
    assert KeyPicked(SentenceCodeName, Resolves(book))(sc) == Resolves(book)(SentenceCodeName(sc));
    assert Rebuilt(SentenceCodeName, NameEntryOf, SentenceCodeFrom(book))(sc)
        == SentenceCodeFrom(book)(SentenceCodeName(sc), NameEntryOf(sc));
  }

  /** One document code through the save and the reload. */
  lemma DocumentReloaded(book: CodeBook, dc: DocumentCode)
    ensures KeyPicked(DocumentCodeName, Resolves(book))(dc) == DocumentNameResolves(book)(dc)
    ensures Rebuilt(DocumentCodeName, DocNameEntryOf, DocumentCodeFrom(book))(dc) == NormalizedDocumentCode(book)(dc)
  {
    assert KeyPicked(DocumentCodeName, Resolves(book))(dc) == Resolves(book)(DocumentCodeName(dc));
    assert Rebuilt(DocumentCodeName, DocNameEntryOf, DocumentCodeFrom(book))(dc)
        == DocumentCodeFrom(book)(DocumentCodeName(dc), DocNameEntryOf(dc));
  }

  /** Reloading saved sentence codes gives back, up to order (they come
      back grouped by code name), exactly the codes whose name resolves in
      the book, normalized; codes with an unknown name are dropped. */
  lemma SentenceCodesRoundTrip(book: CodeBook, codes: seq<SentenceCode>)
    ensures multiset(ReloadedSentenceCodes(book, Some(SentenceCodesRecordOf(codes))))
         == multiset(Apply(Filter(codes, SentenceNameResolves(book)), NormalizedSentenceCode(book)))
  {
    var p := KeyPicked(SentenceCodeName, Resolves(book));
    var f := Rebuilt(SentenceCodeName, NameEntryOf, SentenceCodeFrom(book));
    UnfoldGroupBy(codes, SentenceCodeName, NameEntryOf, Resolves(book), SentenceCodeFrom(book));
    forall sc | sc in codes
      ensures p(sc) == SentenceNameResolves(book)(sc) && f(sc) == NormalizedSentenceCode(book)(sc)
    {
      SentenceReloaded(book, sc);
    }
    FilterPointwise(codes, p, SentenceNameResolves(book));
    ApplyPointwise(Filter(codes, p), f, NormalizedSentenceCode(book));
  }

  /** Reloading saved document codes likewise. */
  lemma DocumentCodesRoundTrip(book: CodeBook, codes: seq<DocumentCode>)
    ensures multiset(ReloadedDocumentCodes(book, Some(DocumentCodesRecordOf(codes))))
         == multiset(Apply(Filter(codes, DocumentNameResolves(book)), NormalizedDocumentCode(book)))
  {
    var p := KeyPicked(DocumentCodeName, Resolves(book));
    var f := Rebuilt(DocumentCodeName, DocNameEntryOf, DocumentCodeFrom(book));
    UnfoldGroupBy(codes, DocumentCodeName, DocNameEntryOf, Resolves(book), DocumentCodeFrom(book));
    forall dc | dc in codes
      ensures p(dc) == DocumentNameResolves(book)(dc) && f(dc) == NormalizedDocumentCode(book)(dc)
    {
      DocumentReloaded(book, dc);
    }
    FilterPointwise(codes, p, DocumentNameResolves(book));
    ApplyPointwise(Filter(codes, p), f, NormalizedDocumentCode(book));
  }

  /** A missing rationale comes back as the empty text. */
  lemma MissingRationaleReadsEmpty(book: CodeBook, sc: SentenceCode)
    requires sc.rationale.None?
    ensures NormalizedSentenceCode(book)(sc).rationale == Some("")
  {
  }

  /** When every code was looked up in the book and carries a rationale,
      the reload gives back the very same codes, up to order. */
  lemma SentenceCodesRoundTripExact(book: CodeBook, codes: seq<SentenceCode>)
    requires forall sc :: sc in codes ==> book.GetCode(sc.code.name) == Some(sc.code) && sc.rationale.Some?
    ensures multiset(ReloadedSentenceCodes(book, Some(SentenceCodesRecordOf(codes)))) == multiset(codes)
  {
    SentenceCodesRoundTrip(book, codes);
    FilterKeepsAll(codes, SentenceNameResolves(book));
    ApplyFixed(codes, NormalizedSentenceCode(book));
  }

  /** The same for document codes. */
  lemma DocumentCodesRoundTripExact(book: CodeBook, codes: seq<DocumentCode>)
    requires forall dc :: dc in codes ==> book.GetCode(dc.code.name) == Some(dc.code) && dc.rationale.Some?
    ensures multiset(ReloadedDocumentCodes(book, Some(DocumentCodesRecordOf(codes)))) == multiset(codes)
  {
    DocumentCodesRoundTrip(book, codes);
    FilterKeepsAll(codes, DocumentNameResolves(book));
    ApplyFixed(codes, NormalizedDocumentCode(book));
  }

  /** After `save_result`, the code book loads with the saved book's mode
      (not the result's), and the result's codes file is the one just written. */
  lemma SaveThenLoad(dir: OutputDir, mode: AnalysisMode, book: CodeBook, sentenceCodes: seq<SentenceCode>,
                     documentCodes: seq<DocumentCode>)
    ensures var out := SavedResult(dir, mode, book, sentenceCodes, documentCodes);
      && LoadCodeBook(out.codeBook) == Success(ReloadedBook(book))
      && (mode == Coding ==> out.sentenceCodes == Some(SentenceCodesRecordOf(sentenceCodes))
                             && out.documentCodes == dir.documentCodes)
      && (mode == Categorization ==> out.documentCodes == Some(DocumentCodesRecordOf(documentCodes))
                                     && out.sentenceCodes == dir.sentenceCodes)
  {
    CodeBookRoundTrip(book);
  }
}
