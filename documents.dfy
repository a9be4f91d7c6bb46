/** Ingestion of knowledge-base files (app/core/services/document_processor.py):
    text extraction from the page, paragraph and row texts the PDF and DOCX
    libraries hand back, the dispatch on the file type, and the status
    machine `process_knowledge_file` drives a record through. */
module Documents {
  import opened Wrappers
  import opened Text
  import opened Chunking
  import opened Knowledge
  import opened Embeddings

  /** The separator between page texts and between DOCX paragraphs. */
  const Blank: string := "\n\n"

  const PdfPrefix: string := "Failed to extract text from PDF: "
  const DocxPrefix: string := "Failed to extract text from DOCX: "
  const NoPdfText: string := "No text could be extracted from PDF"
  const NoDocxText: string := "No text could be extracted from DOCX"

  /** What a PDF library yields for the file: the text of each page (`""`
      when a page has none), or the message of the exception it raised while
      opening or reading. */
  type PageReading = Result<seq<string>, string>

  /** `pdfplumber` may be missing (an `ImportError`); PyPDF2 is the fallback. */
  datatype PdfLibrary = NotInstalled | Installed(reading: PageReading)

  /** What python-docx yields: the paragraph texts and, per table, per row,
      the cell texts. */
  datatype DocxDocument = DocxDocument(paragraphs: seq<string>, tables: seq<seq<seq<string>>>)

  /** Everything the file at `file.path` yields through each collaborator:
      the two PDF libraries, python-docx, a plain read, and `Path.stat`. */
  datatype FileSource = FileSource(
    pdfplumber: PdfLibrary,
    pypdf2: PageReading,
    docx: Result<DocxDocument, string>,
    textFile: Result<string, string>,
    size: Result<int, string>)

  // ---------------------------------------------------------------------------
  // PDF

  /** The truthy texts among `texts`, in order. */
  function NonEmptyTexts(texts: seq<string>): (r: seq<string>)
    ensures |r| <= |texts|
    ensures forall k :: 0 <= k < |r| ==> r[k] != []
  {
    if texts == [] then []
    else
      var rest := NonEmptyTexts(texts[..|texts| - 1]);
      var t := texts[|texts| - 1];
      if t == [] then rest else rest + [t]
  }

  /** The text of a PDF whose pages read as `pages`. */
  function PagesText(pages: seq<string>): Result<string, string>
  {
    var parts := NonEmptyTexts(pages);
    if parts == [] then Failure(NoPdfText) else Success(Join(parts, Blank))
  }

  /** One library's attempt: every exception, the "no text" one included,
      is re-raised with the PDF prefix. */
  function ReadPdf(reading: PageReading): Result<string, string>
  {
    match reading
    case Failure(e) => Failure(PdfPrefix + e)
    case Success(pages) =>
      match PagesText(pages)
      case Failure(e) => Failure(PdfPrefix + e)
      case Success(text) => Success(text)
  }

  /** `extract_text_from_pdf`: pdfplumber, or PyPDF2 when it is not installed. */
  function PdfText(plumber: PdfLibrary, pypdf2: PageReading): Result<string, string>
  {
    match plumber
    case NotInstalled => ReadPdf(pypdf2)
    case Installed(reading) => ReadPdf(reading)
  }

  /** The page loop shared by both PDF extractors. */
  method CollectPageTexts(pages: seq<string>) returns (parts: seq<string>)
    ensures parts == NonEmptyTexts(pages)
  {
    parts := [];
    var i := 0;
    while i < |pages|
      invariant 0 <= i <= |pages|
      invariant parts == NonEmptyTexts(pages[..i])
    {
      assert pages[..i + 1][..i] == pages[..i];
      if pages[i] != [] {
        parts := parts + [pages[i]];
      }
      i := i + 1;
    }
    assert pages[..i] == pages;
  }

  /** One PDF library's extraction, as both functions of the source do it. */
  method ExtractPdfWith(reading: PageReading) returns (r: Result<string, string>)
    ensures r == ReadPdf(reading)
  {
    if reading.Failure? {
      return Failure(PdfPrefix + reading.error);
    }
    var parts := CollectPageTexts(reading.value);
    if parts == [] {
      return Failure(PdfPrefix + NoPdfText);
    }
    return Success(Join(parts, Blank));
  }

  /** `extract_text_from_pdf` with its `_extract_text_from_pdf_pypdf2`
      fallback. */
  method ExtractTextFromPdf(plumber: PdfLibrary, pypdf2: PageReading) returns (r: Result<string, string>)
    ensures r == PdfText(plumber, pypdf2)
  {
    if plumber.NotInstalled? {
      r := ExtractPdfWith(pypdf2);
    } else {
      r := ExtractPdfWith(plumber.reading);
    }
  }

  /** The truthy page texts are exactly the non-empty pages, in page order. */
  lemma {:induction false} NonEmptyTextsExact(texts: seq<string>)
    ensures forall t :: t in NonEmptyTexts(texts) <==> t in texts && t != []
  {
    if texts != [] {
      var init := texts[..|texts| - 1];
      NonEmptyTextsExact(init);
      assert texts == init + [texts[|texts| - 1]];
    }
  }

  lemma {:induction false} NonEmptyTextsEmptyIff(texts: seq<string>)
    ensures NonEmptyTexts(texts) == [] <==> forall k :: 0 <= k < |texts| ==> texts[k] == []
  {
    if texts != [] {
      var init := texts[..|texts| - 1];
      NonEmptyTextsEmptyIff(init);
      if NonEmptyTexts(texts) == [] {
        forall k | 0 <= k < |texts| ensures texts[k] == [] {
          if k < |texts| - 1 { assert texts[k] == init[k]; }
        }
      }
    }
  }

  /** A PDF yields its non-empty page texts joined by "\n\n", in page order;
      when no page has text, or the library raises, the error carries the
      PDF prefix, and the "no text" message is the same for both libraries. */
  lemma PdfTextRule(plumber: PdfLibrary, pypdf2: PageReading)
    ensures var reading := if plumber.NotInstalled? then pypdf2 else plumber.reading;
      var r := PdfText(plumber, pypdf2);
      && (r.Failure? ==> StartsWith(r.error, PdfPrefix))
      && (reading.Success? ==>
            && (r.Success? <==> exists k :: 0 <= k < |reading.value| && reading.value[k] != [])
            && (r.Success? ==> r.value == Join(NonEmptyTexts(reading.value), Blank))
            && (r.Failure? ==> r.error == PdfPrefix + NoPdfText))
  {
    var reading := if plumber.NotInstalled? then pypdf2 else plumber.reading;
    if reading.Success? {
      NonEmptyTextsEmptyIff(reading.value);
    }
  }

  // ---------------------------------------------------------------------------
  // DOCX

  /** `[p.text for p in doc.paragraphs if p.text.strip()]`. */
  function NonBlank(texts: seq<string>): (r: seq<string>)
    ensures |r| <= |texts|
    ensures forall k :: 0 <= k < |r| ==> !AllSpace(r[k])
  {
    if texts == [] then []
    else
      var rest := NonBlank(texts[..|texts| - 1]);
      var t := texts[|texts| - 1];
      if AllSpace(t) then rest else rest + [t]
  }

  /** The text of one table row: its cells joined by " | ". */
  function RowText(cells: seq<string>): string {
    Join(cells, " | ")
  }

  /** The non-blank row texts of the rows `rows`, in order. */
  function RowTexts(rows: seq<seq<string>>): (r: seq<string>)
    ensures forall k :: 0 <= k < |r| ==> !AllSpace(r[k])
  {
    if rows == [] then []
    else
      var rest := RowTexts(rows[..|rows| - 1]);
      var t := RowText(rows[|rows| - 1]);
      if AllSpace(t) then rest else rest + [t]
  }

  /** The non-blank row texts of every table, table by table. */
  function TableTexts(tables: seq<seq<seq<string>>>): (r: seq<string>)
    ensures forall k :: 0 <= k < |r| ==> !AllSpace(r[k])
  {
    if tables == [] then [] else TableTexts(tables[..|tables| - 1]) + RowTexts(tables[|tables| - 1])
  }

  /** The combined text before the blank check. */
  function DocxAllText(doc: DocxDocument): string {
    var rows := TableTexts(doc.tables);
    Join(NonBlank(doc.paragraphs), Blank)
      + (if rows != [] then "\n\nTables:\n" + Join(rows, "\n") else [])
  }

  /** `extract_text_from_docx`. */
  function DocxText(reading: Result<DocxDocument, string>): Result<string, string>
  {
    match reading
    case Failure(e) => Failure(DocxPrefix + e)
    case Success(doc) =>
      if AllSpace(DocxAllText(doc)) then Failure(DocxPrefix + NoDocxText)
      else Success(DocxAllText(doc))
  }

  /** The row loop of `extract_text_from_docx`. */
  method CollectTableTexts(tables: seq<seq<seq<string>>>) returns (texts: seq<string>)
    ensures texts == TableTexts(tables)
  {
    texts := [];
    var i := 0;
    while i < |tables|
      invariant 0 <= i <= |tables|
      invariant texts == TableTexts(tables[..i])
    {
      assert tables[..i + 1][..i] == tables[..i];
      var rows := tables[i];
      ghost var before := texts;
      var j := 0;
      while j < |rows|
        invariant 0 <= j <= |rows|
        invariant texts == before + RowTexts(rows[..j])
      {
        assert rows[..j + 1][..j] == rows[..j];
        var rowText := Join(rows[j], " | ");
        if !AllSpace(rowText) {
          texts := texts + [rowText];
        }
        j := j + 1;
      }
      assert rows[..j] == rows;
      i := i + 1;
    }
    assert tables[..i] == tables;
  }

  method ExtractTextFromDocx(reading: Result<DocxDocument, string>) returns (r: Result<string, string>)
    ensures r == DocxText(reading)
  {
    if reading.Failure? {
      return Failure(DocxPrefix + reading.error);
    }
    var doc := reading.value;
    var paragraphs := NonBlank(doc.paragraphs);
    var tableTexts := CollectTableTexts(doc.tables);
    var allText := Join(paragraphs, Blank);
    if tableTexts != [] {
      allText := allText + "\n\nTables:\n" + Join(tableTexts, "\n");
    }
    assert allText == DocxAllText(doc);
    if AllSpace(allText) {
      return Failure(DocxPrefix + NoDocxText);
    }
    return Success(allText);
  }

  lemma {:induction false} NonBlankEmptyIff(texts: seq<string>)
    ensures NonBlank(texts) == [] <==> forall k :: 0 <= k < |texts| ==> AllSpace(texts[k])
  {
    if texts != [] {
      var init := texts[..|texts| - 1];
      NonBlankEmptyIff(init);
      if NonBlank(texts) == [] {
        forall k | 0 <= k < |texts| ensures AllSpace(texts[k]) {
          if k < |texts| - 1 { assert texts[k] == init[k]; }
        }
      }
    }
  }

  /** A document yields text exactly when some paragraph or some table row
      is not blank; the text is the non-blank paragraphs joined by "\n\n",
      followed, when some row is not blank, by "\n\nTables:\n" and those rows
      joined by "\n". */
  lemma DocxTextRule(doc: DocxDocument)
    ensures var r := DocxText(Success(doc));
      && (r.Success? <==>
            (exists k :: 0 <= k < |doc.paragraphs| && !AllSpace(doc.paragraphs[k])) || TableTexts(doc.tables) != [])
      && (r.Success? ==> r.value == DocxAllText(doc))
      && (r.Failure? ==> r.error == DocxPrefix + NoDocxText)
  {
    var ps := NonBlank(doc.paragraphs);
    var rows := TableTexts(doc.tables);
    var head := Join(ps, Blank);
    NonBlankEmptyIff(doc.paragraphs);
    if ps != [] {
      JoinNotAllSpace(ps, Blank, 0);
      if rows != [] {
        var tail := "\n\nTables:\n" + Join(rows, "\n");
        assert (head + tail)[0..|head|] == head;
        assert DocxAllText(doc) == head + tail;
        assert SubstringAt(head + tail, head, 0);
        NotAllSpaceOfSubstring(head + tail, head, 0);
        assert !AllSpace(DocxAllText(doc));
      }
    } else if rows != [] {
      var tail := "\n\nTables:\n" + Join(rows, "\n");
      assert DocxAllText(doc) == tail;
      assert !IsSpace(tail[2]);
    }
  }

  // ---------------------------------------------------------------------------
  // Dispatch on the file type

  /** `extract_text_from_file`. */
  function ExtractedText(fileType: string, source: FileSource): (r: Result<string, string>)
    ensures fileType != "pdf" && fileType != "docx" && fileType != "text" ==>
              r == Failure("Unsupported file type: " + fileType)
  {
    if fileType == "pdf" then PdfText(source.pdfplumber, source.pypdf2)
    else if fileType == "docx" then DocxText(source.docx)
    else if fileType == "text" then
      match source.textFile
      case Success(text) => Success(text)
      case Failure(e) => Failure("Failed to read text file: " + e)
    else Failure("Unsupported file type: " + fileType)
  }

  method ExtractTextFromFile(fileType: string, source: FileSource) returns (r: Result<string, string>)
    ensures r == ExtractedText(fileType, source)
  {
    if fileType == "pdf" {
      r := ExtractTextFromPdf(source.pdfplumber, source.pypdf2);
    } else if fileType == "docx" {
      r := ExtractTextFromDocx(source.docx);
    } else if fileType == "text" {
      if source.textFile.Failure? {
        r := Failure("Failed to read text file: " + source.textFile.error);
      } else {
        r := Success(source.textFile.value);
      }
    } else {
      r := Failure("Unsupported file type: " + fileType);
    }
  }

  // ---------------------------------------------------------------------------
  // process_knowledge_file

  const TextRequired: string := "Text content is required for text type"
  const UrlNotImplemented: string := "URL processing not yet implemented"
  const UnexpectedPrefix: string := "Unexpected error: "

  /** The message for a `pdf` or `docx` row without an attached file. */
  function FileRequired(fileType: string): string {
    "File is required for " + fileType + " type"
  }

  /** The record after `process_knowledge_file`, and what it returns. */
  datatype Handled = Handled(record: FileRecord, outcome: Outcome)

  /** `process_knowledge_file` at time `now`. Extraction errors are the
      service's own exception and are stored as they are; a failing `stat`
      is any other exception, stored with the "Unexpected error: " prefix
      after the extracted text has already been assigned. An embeddings
      failure is only logged. */
  function Processed(rec: FileRecord, source: FileSource, api: EmbeddingsApi, now: int): Handled
  {
    if rec.fileType == "text" then
      if rec.content == [] then Handled(rec, Outcome(false, Some(TextRequired)))
      else
        var ready := rec.(status := Ready, processedAt := Some(now));
        Handled(Embedded(ready, DefaultChunkSize, DefaultOverlap, api), Outcome(true, None))
    else if rec.fileType == "url" then Handled(rec, Outcome(false, Some(UrlNotImplemented)))
    else if !rec.hasFile then Handled(rec, Outcome(false, Some(FileRequired(rec.fileType))))
    else
      match ExtractedText(rec.fileType, source)
      case Failure(e) => Handled(rec.(status := Error, processingError := Some(e)), Outcome(false, Some(e)))
      case Success(text) =>
        var withText := rec.(content := text);
        match source.size
        case Failure(e) =>
          var msg := UnexpectedPrefix + e;
          Handled(withText.(status := Error, processingError := Some(msg)), Outcome(false, Some(msg)))
        case Success(n) =>
          var ready := withText.(fileSize := Some(n), status := Ready, processedAt := Some(now), processingError := None);
          Handled(Embedded(ready, DefaultChunkSize, DefaultOverlap, api), Outcome(true, None))
  }

  /** `process_knowledge_file`: the row is updated field by field as the
      source does it. */
  method ProcessKnowledgeFile(kf: KnowledgeFile, source: FileSource, api: EmbeddingsApi, now: int)
    returns (success: bool, error: Option<string>)
    modifies kf
    ensures kf.Record() == Processed(old(kf.Record()), source, api, now).record
    ensures Outcome(success, error) == Processed(old(kf.Record()), source, api, now).outcome
  {
    if kf.fileType == "text" {
      if kf.content == [] {
        return false, Some(TextRequired);
      }
      kf.status := Ready;
      kf.processedAt := Some(now);
      var _, _ := ProcessKnowledgeFileEmbeddings(kf, DefaultChunkSize, DefaultOverlap, api);
      return true, None;
    }
    if kf.fileType == "url" {
      return false, Some(UrlNotImplemented);
    }
    if !kf.hasFile {
      return false, Some(FileRequired(kf.fileType));
    }
    var extracted := ExtractTextFromFile(kf.fileType, source);
    if extracted.Failure? {
      kf.status := Error;
      kf.processingError := Some(extracted.error);
      return false, Some(extracted.error);
    }
    kf.content := extracted.value;
    if source.size.Failure? {
      var msg := UnexpectedPrefix + source.size.error;
      kf.status := Error;
      kf.processingError := Some(msg);
      return false, Some(msg);
    }
    kf.fileSize := Some(source.size.value);
    kf.status := Ready;
    kf.processedAt := Some(now);
    kf.processingError := None;
    var _, _ := ProcessKnowledgeFileEmbeddings(kf, DefaultChunkSize, DefaultOverlap, api);
    return true, None;
  }

  /** The three checks before any extraction leave the row untouched. */
  lemma EarlyExits(rec: FileRecord, source: FileSource, api: EmbeddingsApi, now: int)
    ensures var p := Processed(rec, source, api, now);
      && (rec.fileType == "text" && rec.content == [] ==> p == Handled(rec, Outcome(false, Some(TextRequired))))
      && (rec.fileType == "url" ==> p == Handled(rec, Outcome(false, Some(UrlNotImplemented))))
      && (rec.fileType != "text" && rec.fileType != "url" && !rec.hasFile ==>
            p == Handled(rec, Outcome(false, Some(FileRequired(rec.fileType)))))
  {
  }

  /** When processing succeeds, and why it fails. A success returns no
      error, marks the row ready at `now`, and for an attached file stores
      the extracted text and size and clears the previous error; a text row
      keeps its previous error. Every failure returns its message, and a
      failure after the early checks stores that message with status
      `error`. */
  lemma ProcessingOutcome(rec: FileRecord, source: FileSource, api: EmbeddingsApi, now: int)
    ensures var p := Processed(rec, source, api, now);
      var isFile := rec.fileType != "text" && rec.fileType != "url" && rec.hasFile;
      && (p.outcome.success <==>
            (rec.fileType == "text" && rec.content != [])
            || (isFile && ExtractedText(rec.fileType, source).Success? && source.size.Success?))
      && (p.outcome.success <==> p.outcome.error == None)
      && (p.outcome.success ==> p.record.status == Ready && p.record.processedAt == Some(now))
      && (p.outcome.success && rec.fileType == "text" ==>
            p.record.content == rec.content && p.record.processingError == rec.processingError)
      && (p.outcome.success && isFile ==>
            && p.record.content == ExtractedText(rec.fileType, source).value
            && p.record.fileSize == Some(source.size.value)
            && p.record.processingError == None)
      && (isFile && !p.outcome.success ==>
            p.record.status == Error && p.record.processingError == p.outcome.error)
      && (isFile && ExtractedText(rec.fileType, source).Failure? ==>
            p.record == rec.(status := Error, processingError := Some(ExtractedText(rec.fileType, source).error)))
      && (isFile && ExtractedText(rec.fileType, source).Success? && source.size.Failure? ==>
            && p.record.content == ExtractedText(rec.fileType, source).value
            && p.outcome.error == Some(UnexpectedPrefix + source.size.error))
  {
    if rec.fileType == "text" && rec.content != [] {
      EmbeddedWrites(rec.(status := Ready, processedAt := Some(now)), DefaultChunkSize, DefaultOverlap, api);
    } else if rec.fileType != "text" && rec.fileType != "url" && rec.hasFile {
      var ex := ExtractedText(rec.fileType, source);
      if ex.Success? && source.size.Success? {
        var ready := rec.(content := ex.value, fileSize := Some(source.size.value), status := Ready,
                          processedAt := Some(now), processingError := None);
        EmbeddedWrites(ready, DefaultChunkSize, DefaultOverlap, api);
      }
    }
  }

  /** The embeddings step never decides the outcome: two providers that
      behave differently give the same outcome and the same row apart from
      the bundle and the chunk count. */
  lemma EmbeddingsNeverBlock(rec: FileRecord, source: FileSource, api1: EmbeddingsApi, api2: EmbeddingsApi, now: int)
    ensures var p1 := Processed(rec, source, api1, now);
      var p2 := Processed(rec, source, api2, now);
      && p1.outcome == p2.outcome
      && p1.record.(embeddings := rec.embeddings, chunkCount := rec.chunkCount)
         == p2.record.(embeddings := rec.embeddings, chunkCount := rec.chunkCount)
  {
    if rec.fileType == "text" && rec.content != [] {
      var ready := rec.(status := Ready, processedAt := Some(now));
      EmbeddedWrites(ready, DefaultChunkSize, DefaultOverlap, api1);
      EmbeddedWrites(ready, DefaultChunkSize, DefaultOverlap, api2);
    } else if rec.fileType != "text" && rec.fileType != "url" && rec.hasFile {
      var ex := ExtractedText(rec.fileType, source);
      if ex.Success? && source.size.Success? {
        var ready := rec.(content := ex.value, fileSize := Some(source.size.value), status := Ready,
                          processedAt := Some(now), processingError := None);
        EmbeddedWrites(ready, DefaultChunkSize, DefaultOverlap, api1);
        EmbeddedWrites(ready, DefaultChunkSize, DefaultOverlap, api2);
      }
    }
  }

  /** A processed PDF always has text, and a processed DOCX non-blank text. */
  lemma ProcessedTextIsPresent(rec: FileRecord, source: FileSource, api: EmbeddingsApi, now: int)
    requires Processed(rec, source, api, now).outcome.success
    ensures rec.fileType == "pdf" ==> Processed(rec, source, api, now).record.content != []
    ensures rec.fileType == "docx" ==> !AllSpace(Processed(rec, source, api, now).record.content)
  {
    ProcessingOutcome(rec, source, api, now);
    if rec.fileType == "pdf" {
      var reading := if source.pdfplumber.NotInstalled? then source.pypdf2 else source.pdfplumber.reading;
      PdfTextRule(source.pdfplumber, source.pypdf2);
      var parts := NonEmptyTexts(reading.value);
      assert |Join(parts, Blank)| >= |parts[0]| > 0;
    } else if rec.fileType == "docx" {
      DocxTextRule(source.docx.value);
    }
  }
}
