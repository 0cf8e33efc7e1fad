/** Domain entities: sentences parsed from a document's lines, codes and the
    code book that looks them up by name, applied sentence and document
    codes, chunks, and the analysis result that accumulates applied codes. */
module Entities {
  import opened Wrappers
  import opened Seqs
  import opened Text

  datatype AnalysisMode = Coding | Categorization

  /** The enum's string value, as written to JSON. */
  function ModeValue(m: AnalysisMode): string
  {
    match m
    case Coding => "coding"
    case Categorization => "categorization"
  }

  /** `AnalysisMode(value)`: None stands for the ValueError of an unknown value. */
  function ModeFromValue(v: string): (r: Option<AnalysisMode>)
    ensures r.Some? <==> v == "coding" || v == "categorization"
    ensures r.Some? ==> ModeValue(r.value) == v
  {
    if v == "coding" then Some(Coding)
    else if v == "categorization" then Some(Categorization)
    else None
  }

  lemma ModeValueRoundTrip(m: AnalysisMode)
    ensures ModeFromValue(ModeValue(m)) == Some(m)
  {
  }

  datatype HierarchyDepth = Flat | TwoLevel | Arbitrary

  datatype Sentence = Sentence(id: string, text: string, lineNumber: int, filePath: Path)

  datatype Code = Code(name: string, description: string, criteria: string, parentCodeName: Option<string>)

  datatype SentenceCode = SentenceCode(sentenceId: string, code: Code, rationale: Option<string>)

  datatype DocumentCode = DocumentCode(filePath: Path, code: Code, rationale: Option<string>)

  datatype Chunk = Chunk(startSentenceId: string, endSentenceId: string, sentences: seq<Sentence>, shouldCode: bool)

  datatype Document = Document(path: Path, content: string, sentences: seq<Sentence>)

  // ---------------------------------------------------------------- code book

  /** A code book: codes in insertion order plus the mode, the research
      context and the hierarchy policy it was made for. */
  datatype CodeBook = CodeBook(codes: seq<Code>, mode: AnalysisMode, context: string, hierarchyDepth: HierarchyDepth)
  {
    /** `add_code`: the code goes at the end and nothing before it moves. */
    function AddCode(code: Code): (r: CodeBook)
      ensures |r.codes| == |codes| + 1
      ensures r.codes[..|codes|] == codes && r.codes[|codes|] == code
      ensures r.mode == mode && r.context == context && r.hierarchyDepth == hierarchyDepth
    {
      this.(codes := codes + [code])
    }

    /** `get_code`: the first code with that name, or None when no code has it. */
    function GetCode(name: string): (r: Option<Code>)
      ensures r.None? <==> forall c :: c in codes ==> c.name != name
      ensures r.Some? ==> exists i :: 0 <= i < |codes| && codes[i] == r.value && r.value.name == name
                                      && forall j :: 0 <= j < i ==> codes[j].name != name
    {
      var i := FirstIndex(codes, (c: Code) => c.name == name);
      if i < |codes| then Some(codes[i]) else None
    }

    /** `get_children`: exactly the codes whose parent is `parentName`, in book order. */
    function GetChildren(parentName: string): (r: seq<Code>)
      ensures forall c :: c in r <==> c in codes && c.parentCodeName == Some(parentName)
      ensures |r| <= |codes|
    {
      Filter(codes, (c: Code) => c.parentCodeName == Some(parentName))
    }

    /** `get_root_codes`: exactly the codes without a parent, in book order. */
    function GetRootCodes(): (r: seq<Code>)
      ensures forall c :: c in r <==> c in codes && c.parentCodeName.None?
      ensures |r| <= |codes|
    {
      Filter(codes, IsRoot)
    }
  }

  predicate IsRoot(c: Code)
  {
    c.parentCodeName.None?
  }

  /** When no code has a parent, the roots are the whole book, in order. */
  lemma RootsOfParentless(codes: seq<Code>, mode: AnalysisMode, context: string, depth: HierarchyDepth)
    requires forall i :: 0 <= i < |codes| ==> codes[i].parentCodeName == None
    ensures CodeBook(codes, mode, context, depth).GetRootCodes() == codes
  {
    FilterKeepsAll(codes, IsRoot);
  }

  /** A lookup after `add_code` finds an earlier code of that name first, and
      otherwise finds the added code exactly when the names agree. */
  lemma {:induction false} GetCodeAfterAdd(book: CodeBook, code: Code, name: string)
    ensures book.AddCode(code).GetCode(name)
            == if book.GetCode(name).Some? then book.GetCode(name)
               else if code.name == name then Some(code) else None
  {
    var p := (c: Code) => c.name == name;
    var s := book.codes + [code];
    assert forall j :: 0 <= j < |book.codes| ==> s[j] == book.codes[j];
    assert s[|book.codes|] == code;
  }

  /** The children keep book order and repetitions: an empty book has none,
      and `add_code` appends the new code to its parent's children and to no
      other code's. Since every book is built from the empty one by
      `add_code`, this fixes `get_children` for every book. */
  lemma ChildrenAfterAdd(book: CodeBook, code: Code, parentName: string)
    ensures book.(codes := []).GetChildren(parentName) == []
    ensures book.AddCode(code).GetChildren(parentName)
            == book.GetChildren(parentName) + (if code.parentCodeName == Some(parentName) then [code] else [])
  {
    FilterConcat(book.codes, [code], (c: Code) => c.parentCodeName == Some(parentName));
  }

  /** The roots likewise: an empty book has none, and `add_code` appends the
      new code to the roots exactly when it has no parent. */
  lemma RootsAfterAdd(book: CodeBook, code: Code)
    ensures book.(codes := []).GetRootCodes() == []
    ensures book.AddCode(code).GetRootCodes() == book.GetRootCodes() + (if code.parentCodeName.None? then [code] else [])
  {
    FilterConcat(book.codes, [code], IsRoot);
  }

  /** Children and roots split the book: every code is a root or a child of its parent. */
  lemma RootOrChild(book: CodeBook, c: Code)
    requires c in book.codes
    ensures c in book.GetRootCodes() || c in book.GetChildren(c.parentCodeName.value)
  {
  }

  // ---------------------------------------------------------------- documents

  /** The id of the sentence on a given 1-based line: `<stem>_<line>`. */
  function SentenceId(stem: string, lineNumber: nat): string
  {
    stem + "_" + NatToString(lineNumber)
  }

  lemma SentenceIdInjective(stem: string, a: nat, b: nat)
    requires SentenceId(stem, a) == SentenceId(stem, b)
    ensures a == b
  {
    var k := |stem| + 1;
    assert NatToString(a) == SentenceId(stem, a)[k..];
    assert NatToString(b) == SentenceId(stem, b)[k..];
    NatToStringInjective(a, b);
  }

  /** The sentence a single line yields: none when the stripped line is empty. */
  function LineSentence(path: Path, stem: string, line: string, n: nat): (r: seq<Sentence>)
    ensures |r| <= 1
    ensures |r| == 1 <==> Strip(line) != ""
    ensures |r| == 1 ==> r[0] == Sentence(SentenceId(stem, n), Strip(line), n, path)
  {
    var text := Strip(line);
    if text != "" then [Sentence(SentenceId(stem, n), text, n, path)] else []
  }

  /** The sentences of `lines`, numbered from `first`: one per line whose
      stripped text is not empty. */
  function ParseLines(path: Path, stem: string, lines: seq<string>, first: nat): seq<Sentence>
  {
    if lines == [] then []
    else LineSentence(path, stem, lines[0], first) + ParseLines(path, stem, lines[1..], first + 1)
  }

  /** What `Document._parse_sentences` produces for a path and content. */
  function ParsedSentences(path: Path, content: string): seq<Sentence>
  {
    ParseLines(path, Stem(path), Split(content, '\n'), 1)
  }

  lemma {:induction false} ParseLinesAppend(path: Path, stem: string, a: seq<string>, line: string, first: nat)
    ensures ParseLines(path, stem, a + [line], first)
            == ParseLines(path, stem, a, first) + LineSentence(path, stem, line, first + |a|)
  {
    if a == [] {
      assert a + [line] == [line];
      assert ParseLines(path, stem, [line], first) == LineSentence(path, stem, line, first) + ParseLines(path, stem, [], first + 1);
    } else {
      var head := LineSentence(path, stem, a[0], first);
      var last := LineSentence(path, stem, line, first + |a|);
      assert (a + [line])[0] == a[0];
      assert (a + [line])[1..] == a[1..] + [line];
      ParseLinesAppend(path, stem, a[1..], line, first + 1);
      var mid := ParseLines(path, stem, a[1..], first + 1);
      assert ParseLines(path, stem, a + [line], first) == head + (mid + last);
      assert head + (mid + last) == (head + mid) + last;
    }
  }

  /** `s` is the sentence of line `s.lineNumber` of `lines`, numbered from `first`. */
  predicate FromLine(s: Sentence, path: Path, stem: string, lines: seq<string>, first: nat)
  {
    && first <= s.lineNumber < first + |lines|
    && s.text == Strip(lines[s.lineNumber - first]) && s.text != ""
    && s.id == SentenceId(stem, s.lineNumber)
    && s.filePath == path
  }

  /** Each parsed sentence comes from a non-blank line and carries its
      stripped text, its 1-based number, the id `<stem>_<number>` and the path. */
  lemma {:induction false} ParseLinesSound(path: Path, stem: string, lines: seq<string>, first: nat)
    ensures forall s :: s in ParseLines(path, stem, lines, first) ==> FromLine(s, path, stem, lines, first)
  {
    if lines != [] {
      ParseLinesSound(path, stem, lines[1..], first + 1);
      var r := ParseLines(path, stem, lines, first);
      var head := LineSentence(path, stem, lines[0], first);
      var tail := ParseLines(path, stem, lines[1..], first + 1);
      assert r == head + tail;
      forall s | s in r ensures FromLine(s, path, stem, lines, first) {
        if s !in head {
          assert s in tail;
          assert FromLine(s, path, stem, lines[1..], first + 1);
          assert lines[1..][s.lineNumber - (first + 1)] == lines[s.lineNumber - first];
        }
      }
    }
  }

  /** Line numbers of parsed sentences strictly increase. */
  lemma {:induction false} ParseLinesIncreasing(path: Path, stem: string, lines: seq<string>, first: nat)
    ensures forall k, l :: 0 <= k < l < |ParseLines(path, stem, lines, first)| ==>
      ParseLines(path, stem, lines, first)[k].lineNumber < ParseLines(path, stem, lines, first)[l].lineNumber
  {
    if lines != [] {
      ParseLinesSound(path, stem, lines[1..], first + 1);
      ParseLinesIncreasing(path, stem, lines[1..], first + 1);
      var r := ParseLines(path, stem, lines, first);
      var head := LineSentence(path, stem, lines[0], first);
      var tail := ParseLines(path, stem, lines[1..], first + 1);
      assert r == head + tail;
      forall k, l | 0 <= k < l < |r| ensures r[k].lineNumber < r[l].lineNumber {
        assert r[l] == tail[l - |head|] && r[l] in tail;
        assert FromLine(r[l], path, stem, lines[1..], first + 1);
        if k < |head| {
          assert r[k] == head[0];
        } else {
          assert r[k] == tail[k - |head|];
        }
      }
    }
  }

  /** Some sentence of `r` comes from line `n`. */
  predicate HasLine(r: seq<Sentence>, n: int)
  {
    exists k :: 0 <= k < |r| && r[k].lineNumber == n
  }

  /** Every line whose stripped text is not empty yields a sentence. */
  lemma {:induction false} ParseLinesComplete(path: Path, stem: string, lines: seq<string>, first: nat)
    ensures forall i :: 0 <= i < |lines| && Strip(lines[i]) != "" ==> HasLine(ParseLines(path, stem, lines, first), first + i)
  {
    if lines != [] {
      ParseLinesComplete(path, stem, lines[1..], first + 1);
      var r := ParseLines(path, stem, lines, first);
      var head := LineSentence(path, stem, lines[0], first);
      var tail := ParseLines(path, stem, lines[1..], first + 1);
      assert r == head + tail;
      forall i | 0 <= i < |lines| && Strip(lines[i]) != ""
        ensures HasLine(r, first + i)
      {
        if i == 0 {
          assert |head| == 1 && r[0] == head[0];
        } else {
          assert lines[i] == lines[1..][i - 1];
          assert HasLine(tail, first + 1 + (i - 1));
          var k :| 0 <= k < |tail| && tail[k].lineNumber == first + 1 + (i - 1);
          assert r[|head| + k] == tail[k];
        }
      }
    }
  }

  /** Sentence ids within one parsed document are pairwise distinct. */
  lemma ParsedIdsDistinct(path: Path, content: string)
    ensures forall k, l :: 0 <= k < l < |ParsedSentences(path, content)| ==>
      ParsedSentences(path, content)[k].id != ParsedSentences(path, content)[l].id
  {
    var lines := Split(content, '\n');
    var r := ParseLines(path, Stem(path), lines, 1);
    ParseLinesSound(path, Stem(path), lines, 1);
    ParseLinesIncreasing(path, Stem(path), lines, 1);
    forall k, l | 0 <= k < l < |r| ensures r[k].id != r[l].id {
      assert r[k] in r && r[l] in r;
      if r[k].id == r[l].id {
        SentenceIdInjective(Stem(path), r[k].lineNumber, r[l].lineNumber);
      }
    }
  }

  /** One loop step of `_parse_sentences`: line `i` (numbered `i + 1`)
      adds its sentence, if any, after those of the lines before it. */
  lemma ParseStep(path: Path, stem: string, lines: seq<string>, i: nat)
    requires i < |lines|
    ensures ParseLines(path, stem, lines[..i + 1], 1)
            == ParseLines(path, stem, lines[..i], 1) + LineSentence(path, stem, lines[i], i + 1)
  {
    ParseLinesAppend(path, stem, lines[..i], lines[i], 1);
    assert lines[..i + 1] == lines[..i] + [lines[i]];
  }

  /** `Document._parse_sentences`: walks the lines of `content.split('\n')`,
      appending a sentence for each line whose stripped text is not empty. */
  method ParseSentences(path: Path, content: string) returns (sentences: seq<Sentence>)
    ensures sentences == ParsedSentences(path, content)
  {
    var lines := Split(content, '\n');
    var base := Stem(path);
    sentences := [];
    var i := 0;
    while i < |lines|
      invariant 0 <= i <= |lines|
      invariant sentences == ParseLines(path, base, lines[..i], 1)
    {
      var line := Strip(lines[i]);
      ParseStep(path, base, lines, i);
      if line != "" {
        sentences := sentences + [Sentence(SentenceId(base, i + 1), line, i + 1, path)];
      }
      i := i + 1;
    }
    assert lines[..|lines|] == lines;
  }

  /** `Document(path, content, sentences)` with `__post_init__`: parses only
      when no sentences were supplied and the content is not empty. */
  method NewDocument(path: Path, content: string, sentences: seq<Sentence>) returns (doc: Document)
    ensures doc.path == path && doc.content == content
    ensures doc.sentences == if sentences == [] && content != "" then ParsedSentences(path, content) else sentences
  {
    doc := Document(path, content, sentences);
    if sentences == [] && content != "" {
      var parsed := ParseSentences(path, content);
      doc := doc.(sentences := parsed);
    }
  }

  // ---------------------------------------------------------------- analysis result

  /** The sentence codes with the given sentence id, in list order. */
  function WithSentenceId(scs: seq<SentenceCode>, sentenceId: string): seq<SentenceCode>
  {
    Filter(scs, (x: SentenceCode) => x.sentenceId == sentenceId)
  }

  /** The sentence codes whose code has the given name, in list order. */
  function WithCodeName(scs: seq<SentenceCode>, codeName: string): seq<SentenceCode>
  {
    Filter(scs, (x: SentenceCode) => x.code.name == codeName)
  }

  /** The document codes for the given path, in list order. */
  function WithPath(dcs: seq<DocumentCode>, filePath: Path): seq<DocumentCode>
  {
    Filter(dcs, (x: DocumentCode) => x.filePath == filePath)
  }

  /** The sentence queries keep list order and repetitions: over a list made
      of two parts each is the query over the first part followed by the
      query over the second, a single code is kept exactly when it matches,
      and an empty list gives nothing. This fixes both queries for every
      list of sentence codes, however the result was built. */
  lemma SentenceQueriesInOrder(a: seq<SentenceCode>, b: seq<SentenceCode>, sc: SentenceCode,
                               sentenceId: string, codeName: string)
    ensures WithSentenceId([], sentenceId) == [] && WithCodeName([], codeName) == []
    ensures WithSentenceId(a + b, sentenceId) == WithSentenceId(a, sentenceId) + WithSentenceId(b, sentenceId)
    ensures WithCodeName(a + b, codeName) == WithCodeName(a, codeName) + WithCodeName(b, codeName)
    ensures WithSentenceId([sc], sentenceId) == if sc.sentenceId == sentenceId then [sc] else []
    ensures WithCodeName([sc], codeName) == if sc.code.name == codeName then [sc] else []
  {
    FilterConcat(a, b, (x: SentenceCode) => x.sentenceId == sentenceId);
    FilterConcat(a, b, (x: SentenceCode) => x.code.name == codeName);
    assert [sc][1..] == [];
  }

  /** The document query keeps list order and repetitions, likewise. */
  lemma DocumentQueryInOrder(a: seq<DocumentCode>, b: seq<DocumentCode>, dc: DocumentCode, filePath: Path)
    ensures WithPath([], filePath) == []
    ensures WithPath(a + b, filePath) == WithPath(a, filePath) + WithPath(b, filePath)
    ensures WithPath([dc], filePath) == if dc.filePath == filePath then [dc] else []
  {
    FilterConcat(a, b, (x: DocumentCode) => x.filePath == filePath);
    assert [dc][1..] == [];
  }

  /** The result of round 2: applied codes accumulate by appending. */
  class AnalysisResult {
    var mode: AnalysisMode
    var codeBook: CodeBook
    var sentenceCodes: seq<SentenceCode>
    var documentCodes: seq<DocumentCode>

    constructor (mode: AnalysisMode, codeBook: CodeBook, sentenceCodes: seq<SentenceCode>, documentCodes: seq<DocumentCode>)
      ensures this.mode == mode && this.codeBook == codeBook
      ensures this.sentenceCodes == sentenceCodes && this.documentCodes == documentCodes
    {
      this.mode := mode;
      this.codeBook := codeBook;
      this.sentenceCodes := sentenceCodes;
      this.documentCodes := documentCodes;
    }

    /** `add_sentence_code`: appends; the per-sentence query grows by exactly this code. */
    method AddSentenceCode(sc: SentenceCode)
      modifies this
      ensures sentenceCodes == old(sentenceCodes) + [sc]
      ensures mode == old(mode) && codeBook == old(codeBook) && documentCodes == old(documentCodes)
      ensures CodesForSentence(sc.sentenceId) == old(CodesForSentence(sc.sentenceId)) + [sc]
      ensures SentencesForCode(sc.code.name) == old(SentencesForCode(sc.code.name)) + [sc]
    {
      SentenceQueriesInOrder(sentenceCodes, [sc], sc, sc.sentenceId, sc.code.name);
      sentenceCodes := sentenceCodes + [sc];
    }

    /** `add_document_code`: appends; the per-document query grows by exactly this code. */
    method AddDocumentCode(dc: DocumentCode)
      modifies this
      ensures documentCodes == old(documentCodes) + [dc]
      ensures mode == old(mode) && codeBook == old(codeBook) && sentenceCodes == old(sentenceCodes)
      ensures CodesForDocument(dc.filePath) == old(CodesForDocument(dc.filePath)) + [dc]
    {
      DocumentQueryInOrder(documentCodes, [dc], dc, dc.filePath);
      documentCodes := documentCodes + [dc];
    }

    /** `get_codes_for_sentence`: the sentence codes with that sentence id, in order. */
    function CodesForSentence(sentenceId: string): (r: seq<SentenceCode>)
      reads this
      ensures forall sc :: sc in r <==> sc in sentenceCodes && sc.sentenceId == sentenceId
    {
      WithSentenceId(sentenceCodes, sentenceId)
    }

    /** `get_codes_for_document`: the document codes for that path, in order. */
    function CodesForDocument(filePath: Path): (r: seq<DocumentCode>)
      reads this
      ensures forall dc :: dc in r <==> dc in documentCodes && dc.filePath == filePath
    {
      WithPath(documentCodes, filePath)
    }

    /** `get_sentences_for_code`: the sentence codes whose code has that name, in order. */
    function SentencesForCode(codeName: string): (r: seq<SentenceCode>)
      reads this
      ensures forall sc :: sc in r <==> sc in sentenceCodes && sc.code.name == codeName
    {
      WithCodeName(sentenceCodes, codeName)
    }
  }
}
