# Knowledge retrieval and tenancy rules of the Ariza bot platform, in Dafny

The platform is a multi-tenant Django service. Its organizations run Telegram
bots that draft Uzbek legal applications ("ariza") and answer questions from a
per-bot knowledge base. This project models the parts of it that are plain
sequential logic and proves what they promise:

- **Ingestion** (`documents.dfy`, `knowledge.dfy`). Text is assembled from
  the page, paragraph and table-row texts that the PDF and DOCX libraries hand
  back. `process_knowledge_file` is a status machine over a mutable
  knowledge-file record.
- **Embeddings and retrieval** (`chunking.dfy`, `embeddings.dfy`,
  `ranking.dfy`, `rag.dfy`):
  - the paragraph chunker with overlap;
  - the provider dispatch;
  - the zero-norm guard of the cosine score;
  - storing the chunk/vector bundle;
  - the threshold filter, stable descending sort and top-k cut of the
    semantic search;
  - the greedy packing of the retrieval-augmented context under a character
    budget.
- **The Ariza document generator** (`ariza.dfy`). It has two parts:
  - a line classifier that fills the header, body and appendix lists and the
    date and signature;
  - the layout, a list of paragraph descriptors that the generator object
    appends in order.
- **Tenants** (`organizations.dfy`, `tenancy.dfy`). This covers:
  - usage quotas and counters;
  - the unique-slug search on save;
  - the trial window;
  - API-key issue, verification and permission lookup;
  - tenant resolution from header, subdomain and user;
  - the per-tenant queryset filter.
- **Request validation** (`serializers.dfy`). It covers the Telegram bot-token
  shape, the file/content requirement of a knowledge upload, and the status
  that `create` sets before processing.
- **AI providers** (`providers.dfy`). It covers the OpenAI message list, the
  Gemini prompt string and the provider factory.

`text.dfy` holds the Python string operations the code relies on:
- `strip` and `isspace`;
- `split` and `join`;
- `in` and `startswith`;
- `lower`;
- decimal rendering.

`wrappers.dfy` holds `Option` and `Result`. An exception that the source
raises or catches is a `Failure` carrying the exception's message.

Foreign calls become parameters:
- the embedding endpoint, the chat endpoints and Whisper are oracle functions;
- the PDF/DOCX readers are the texts they return;
- the file size is a `Result`;
- `slugify` and SHA-256 are uninterpreted functions;
- the clock is an integer `now`;
- the ORM tables are sequences and maps.

Mutable records are classes: `KnowledgeFile`, `Organization`, `APIKey` and
`ArizaDocumentGenerator`. Their methods are proved against pure specification
functions, and the properties are lemmas about those functions.

## Model

| member | source | states |
|---|---|---|
| Chunking.Step | app/core/services/embeddings_service.py:47-59 | one paragraph fed to the buffer: a flush when the buffer is non-empty and would pass `chunk_size`, with the overlap carried over, otherwise an append after `"\n\n"`; its rule is stated by `FlushRule` |
| Chunking.Run | app/core/services/embeddings_service.py:37-59 | the loop over `text.split("\n\n")`, skipping pieces that strip to nothing and feeding the others stripped; what holds at every point of it is `RunInvariant` |
| Chunking.Chunks | app/core/services/embeddings_service.py:17-66 | `chunk_text`: `[]` for empty or whitespace-only text, otherwise the loop followed by the flush of a non-blank buffer; its properties are the lemmas below |
| Chunking.ChunkText | app/core/services/embeddings_service.py:17-66 | the paragraph loop returns exactly the chunks of the specification fold over the `"\n\n"`-split text |
| Chunking.AddParagraph | app/core/services/embeddings_service.py:41-59 | one iteration of the loop moves the chunk list and open buffer exactly as one step of the fold |
| Chunking.FlushRule | app/core/services/embeddings_service.py:47-59 | a chunk is emitted iff the buffer is non-empty and buffer plus paragraph exceed `chunk_size`; the emitted chunk is the stripped buffer; after a flush with `overlap > 0` and a longer buffer the new buffer is its last `overlap` chars + `"\n\n"` + paragraph; without a flush the paragraph is appended after `"\n\n"` (or starts the buffer) |
| Chunking.RunInvariant | app/core/services/embeddings_service.py:41-63 | at every point of the loop the stored chunks are trimmed and non-empty, stored chunks plus the open buffer never outnumber the non-empty paragraphs seen, and both are empty iff no non-empty paragraph was seen |
| Chunking.ChunksEmptyIff | app/core/services/embeddings_service.py:33-63 | the result is empty exactly when the text is empty or whitespace-only |
| Chunking.ChunksAreTrimmed | app/core/services/embeddings_service.py:47-63 | every chunk is non-empty and has no leading or trailing whitespace |
| Chunking.ChunkCountBound | app/core/services/embeddings_service.py:37-63 | there are never more chunks than non-empty stripped paragraphs |
| Chunking.ParagraphInSomeChunk | app/core/services/embeddings_service.py:41-63 | every non-empty stripped paragraph occurs whole inside some chunk, so a paragraph longer than `chunk_size` is never split |
| Chunking.NoOverlapJoin | app/core/services/embeddings_service.py:37-63 | with `overlap = 0`, joining the chunks with `"\n\n"` gives the non-empty stripped paragraphs joined with `"\n\n"`: order kept, nothing dropped or duplicated |
| Chunking.SingleParagraph | app/core/services/embeddings_service.py:41-63 | a text with one non-empty paragraph yields exactly that paragraph, whatever its length |
| Embeddings.GenerateEmbeddingsOpenAI | app/core/services/embeddings_service.py:69-111 | succeeds iff the key is present and non-empty and the endpoint succeeds, then returns the endpoint's vectors; every failure, the missing key included, carries the "Failed to generate embeddings: " prefix |
| Embeddings.GenerateEmbeddings | app/core/services/embeddings_service.py:114-131 | provider `openai` delegates with the default model; any other provider fails with "Unsupported embeddings provider: <p>" |
| Embeddings.EmbeddingErrors | app/core/services/embeddings_service.py:109-131 | every failure of the service has one of its two message forms, according to the provider |
| Embeddings.MissingKeyReported | app/core/services/embeddings_service.py:90-92 | a missing or empty key yields the wrapped "OPENAI_API_KEY not found in environment" message whatever the endpoint would do |
| Embeddings.CosineSimilarity | app/core/services/embeddings_service.py:134-155 | fails iff the vectors differ in length (the dot product raises); a zero norm on either side scores 0.0; otherwise the score is the abstract quotient |
| Embeddings.EmbedContent | app/core/services/embeddings_service.py:174-201 | what the function decides for a content: "No content to process", "Failed to chunk text", the provider's own error, or the bundle of chunks, vectors, `text-embedding-3-small`, `chunk_size` and `overlap`; `EmbedFailureCauses` states when each arises |
| Embeddings.Embedded | app/core/services/embeddings_service.py:194-202 | the record after the call: the bundle and `chunk_count = len(chunks)` on success, the record untouched otherwise; `EmbeddedWrites` states it field by field |
| Embeddings.EmbedOutcome | app/core/services/embeddings_service.py:174-209 | the returned pair: `(True, None)` when a bundle is stored, otherwise `(False, message)` |
| Embeddings.ProcessKnowledgeFileEmbeddings | app/core/services/embeddings_service.py:158-209 | the record becomes the specification's embedded record, and the `(success, error)` pair is the specification's outcome for the old content |
| Embeddings.EmbedFailureCauses | app/core/services/embeddings_service.py:174-192 | fails exactly when the content is blank or the provider fails; empty content reports "No content to process", whitespace-only content "Failed to chunk text", a provider failure its own message; success iff no error message |
| Embeddings.EmbeddedWrites | app/core/services/embeddings_service.py:194-209 | only `embeddings` and `chunk_count` ever change; on failure nothing changes; on success the bundle holds the chunks, the provider's vectors, `chunk_size` and `overlap`, and `chunk_count = len(chunks)` |
| Ranking.FileMatches | app/core/services/embeddings_service.py:257-271 | the scored pairs of one file, in chunk order, kept at or above the threshold, the first raising score aborting; `FileMatchesExact` characterises it |
| Ranking.AllMatches | app/core/services/embeddings_service.py:244-271 | the hits of the files in query order, files that are not ready, of another bot or without `vectors` skipped; `AllMatchesExact` characterises it in both directions |
| Ranking.SortDesc | app/core/services/embeddings_service.py:274 | `results.sort(key=similarity, reverse=True)` as an insertion that puts each hit after every earlier one of at least its score; it keeps the length, and `SortDescSorted` and `SortDescStable` state the rest |
| Ranking.SearchResults | app/core/services/embeddings_service.py:240-285 | `semantic_search`: `[]` when the query embedding or a score raises, otherwise the first `top_k` of the sorted hits; `SearchSound`, `SearchKeepsBest` and `SearchTiesInScanOrder` state its properties |
| Ranking.SemanticSearch | app/core/services/embeddings_service.py:220-285 | the scan-score-filter-sort-slice loop returns exactly the specification's results, `[]` whenever the query embedding or a score raises |
| Ranking.FileMatchesExact | app/core/services/embeddings_service.py:253-271 | the hits of one file are exactly its zipped chunk/vector pairs (up to the shorter list) scoring at or above the threshold, each carrying its file and chunk, in chunk order |
| Ranking.AllMatchesExact | app/core/services/embeddings_service.py:244-271 | every hit comes from a `ready` file of the bot with a `vectors` entry and meets the threshold, and every such pair meeting the threshold is a hit |
| Ranking.SortDescSorted | app/core/services/embeddings_service.py:274 | the sort yields a non-increasing permutation of the hits |
| Ranking.SortDescStable | app/core/services/embeddings_service.py:274 | among hits of equal score the sort keeps the input order |
| Ranking.TakeTop | app/core/services/embeddings_service.py:275 | Python's `results[:top_k]`: a prefix of length `min(top_k, n)`, or for negative `top_k` all but the last `-top_k` |
| Ranking.SearchSound | app/core/services/embeddings_service.py:244-281 | results are non-increasing in score, at most `top_k` long, every one at or above the threshold and drawn from a scanned file |
| Ranking.SearchKeepsBest | app/core/services/embeddings_service.py:273-275 | for `top_k >= 0` the search keeps `min(top_k, hits)` results, a sub-multiset of the hits, and no hit left out scores above a kept one |
| Ranking.SearchTiesInScanOrder | app/core/services/embeddings_service.py:253-275 | the results of any one score are a prefix of the hits of that score in scan order (file order, then chunk index) |
| Rag.SourceBlock | app/core/services/embeddings_service.py:309-310 | the source block of one hit: `"\n[Source: <file>]\n<chunk>\n"` |
| Rag.FittingCount | app/core/services/embeddings_service.py:306-316 | how many leading blocks the loop appends before the first one that would pass `max_context`; never more than there are blocks, and `FittingCountGreedy` states the stopping rule |
| Rag.Context | app/core/services/embeddings_service.py:300-318 | the context for ranked hits: `""` for none, otherwise the header and the fitting blocks joined by `"\n"`; `ContextPacking` and `ContextEmptyIff` state its properties |
| Rag.Blocks | app/core/services/embeddings_service.py:308-310 | one `"\n[Source: <file>]\n<chunk>\n"` block per result, in result order |
| Rag.PackContext | app/core/services/embeddings_service.py:302-318 | the packing loop returns exactly the specification context of the ranked results |
| Rag.BuildRagContext | app/core/services/embeddings_service.py:288-318 | the context is the packing of the search run with `top_k = 5` and the default threshold |
| Rag.FittingCountGreedy | app/core/services/embeddings_service.py:306-316 | the blocks taken fit under the budget with the header, and the first block not taken would overflow it |
| Rag.ContextPacking | app/core/services/embeddings_service.py:305-318 | for a non-empty search the context is the header and a prefix of the blocks joined by `"\n"`, stopping at the first block that does not fit; header plus blocks stay within `max_context`, and the result is longer by exactly one uncounted separator per block |
| Rag.ContextEmptyIff | app/core/services/embeddings_service.py:302-318 | the context is `""` exactly when the search returned nothing |
| Rag.RagContextOfSearch | app/core/services/embeddings_service.py:300-318 | `build_rag_context` is `""` iff the search finds nothing, and packs at most five blocks |
| Knowledge.KnowledgeFile.constructor | app/core/migrations/0005_refactor_for_bot_factory.py:122-193 | a new knowledge file is `pending` with no size, error, processing time or embeddings |
| Documents.PdfText | app/core/services/document_processor.py:17-74 | `extract_text_from_pdf`: pdfplumber's reading, or PyPDF2's when pdfplumber is not installed; `PdfTextRule` states the result |
| Documents.CollectPageTexts | app/core/services/document_processor.py:33-38 | the page loop keeps exactly the non-empty page texts, in page order |
| Documents.ExtractPdfWith | app/core/services/document_processor.py:56-74 | one PDF library's extraction matches the specification: non-empty pages joined by `"\n\n"`, every exception re-raised with the PDF prefix |
| Documents.ExtractTextFromPdf | app/core/services/document_processor.py:17-53 | pdfplumber's extraction, or PyPDF2's when pdfplumber is not installed, exactly as the specification states |
| Documents.NonEmptyTextsExact | app/core/services/document_processor.py:35-38 | a text is kept iff it is a non-empty page text |
| Documents.PdfTextRule | app/core/services/document_processor.py:30-74 | every failure carries "Failed to extract text from PDF: "; when the library reads the pages, success iff some page has text, the text is the non-empty pages joined by `"\n\n"`, and no text gives "… No text could be extracted from PDF" |
| Documents.DocxText | app/core/services/document_processor.py:77-119 | `extract_text_from_docx`: a read failure wrapped with the DOCX prefix, an all-blank text refused, otherwise the assembled text; `DocxTextRule` states the result |
| Documents.CollectTableTexts | app/core/services/document_processor.py:99-104 | the row loop keeps, table by table and row by row, the non-blank `" \| "`-joined rows |
| Documents.ExtractTextFromDocx | app/core/services/document_processor.py:77-119 | the DOCX extraction matches the specification of its text assembly and error wrapping |
| Documents.DocxTextRule | app/core/services/document_processor.py:96-112 | succeeds iff some paragraph is non-blank or some row is; the text is the non-blank paragraphs joined by `"\n\n"`, followed when there are rows by `"\n\nTables:\n"` and the rows joined by `"\n"`; otherwise "… No text could be extracted from DOCX" |
| Documents.ExtractedText | app/core/services/document_processor.py:122-148 | any type other than pdf, docx and text fails with "Unsupported file type: <t>" |
| Documents.ExtractTextFromFile | app/core/services/document_processor.py:122-148 | the dispatch returns exactly the specification's extraction for the type |
| Documents.Processed | app/core/services/document_processor.py:151-253 | `process_knowledge_file` as a function of the record, the file source, the provider and the clock; `EarlyExits`, `ProcessingOutcome`, `EmbeddingsNeverBlock` and `ProcessedTextIsPresent` state its properties |
| Documents.ProcessKnowledgeFile | app/core/services/document_processor.py:151-253 | the record's fields end as the specification's processed record, and the returned pair is its outcome |
| Documents.EarlyExits | app/core/services/document_processor.py:165-197 | empty text content, type `url`, and a pdf/docx without a file each return `(False, msg)` with their messages and leave every field, the status included, untouched |
| Documents.ProcessingOutcome | app/core/services/document_processor.py:163-253 | success iff text with content or a file whose extraction and size both succeed; success iff no error; success sets `ready` and `processed_at`; text keeps content and `processing_error`; a file gets its text, size and a cleared error; a failing file is `error` with the returned message stored, an extraction error as is, a size failure prefixed "Unexpected error: " after the content was already assigned |
| Documents.EmbeddingsNeverBlock | app/core/services/document_processor.py:172-231 | the embeddings provider affects neither the returned pair nor any field other than the embeddings bundle and chunk count |
| Documents.ProcessedTextIsPresent | app/core/services/document_processor.py:203-211 | a successfully processed PDF has non-empty content and a DOCX non-blank content |
| Ariza.StepLine | app/documents/generator.py:110-145 | one turn of the line loop, in the code's order: a blank line is skipped, a title switches to the body, `Илова:` selects the appendix, a date line becomes the date and switches to the footer, a footer or signer line fills the date if it is empty and otherwise the signature, and any other line joins the current section's list |
| Ariza.StepShape | app/documents/generator.py:110-145 | one line is appended, stripped, to at most one list and only when it is storable, or replaces the date or the signature by a non-blank stripped line; nothing else changes |
| Ariza.Parse | app/documents/generator.py:90-153 | `parse_ariza_text`: the classifier over `text.split("\n")`, then the `or today` date and `or "[Имзо]"` signature defaults; the lemmas below state its rules |
| Ariza.ArizaDocumentGenerator.ParseArizaText | app/documents/generator.py:90-153 | the line loop with its section variable returns exactly the specification's parse |
| Ariza.EntriesAreStorable | app/documents/generator.py:100-145 | every header, body and appendix entry is a stripped, non-blank line, and the date and signature are empty or stripped |
| Ariza.EntriesInInputOrder | app/documents/generator.py:110-145 | each list is a subsequence of the stripped input lines |
| Ariza.HeaderBeforeMarkers | app/documents/generator.py:108-141 | with no title, appendix, date or signer marker, all non-blank lines go to the header, in order, and nothing else is filled |
| Ariza.ListsOnlyGrow | app/documents/generator.py:139-145 | further lines only append: each list after some lines is a prefix of the same list after more lines |
| Ariza.HeaderClosed | app/documents/generator.py:108-145 | once a title, `Илова:` or date line has left the header, the section never returns to it and the header takes no further line |
| Ariza.HeaderStartsWithUnmarked | app/documents/generator.py:108-141 | for any text, the stripped non-blank lines before its first marker open its header |
| Ariza.HeaderIsUnmarkedOpening | app/documents/generator.py:108-145 | when those lines are followed by a title, `Илова:` or date line, the header is exactly them, whatever follows |
| Ariza.ParsedHeaderStartsWithUnmarked | app/documents/generator.py:100-148 | the returned `header` starts with the stripped non-blank marker-free opening lines of the text |
| Ariza.TitleRule | app/documents/generator.py:116-119 | a line containing `А Р И З А` or `АРИЗА` switches to the body and is stored nowhere |
| Ariza.AppendixRule | app/documents/generator.py:121-145 | an `Илова:` line that is no title, date or signer line switches to the appendix and becomes its next entry |
| Ariza.DateRule | app/documents/generator.py:125-129 | a line matching `\d{2}\.\d{2}\.\d{4}` (and no title) becomes the date, enters no list, and switches to the footer |
| Ariza.LastDateWins | app/documents/generator.py:125-137 | once a date line is seen, only a later date line changes the date: the last one wins |
| Ariza.SignerRule | app/documents/generator.py:131-137 | a footer line or a line naming `Адвокат`/`Имзо` fills the date if it is still empty and otherwise overwrites the signature; no list changes |
| Ariza.ParseDefaults | app/documents/generator.py:147-153 | the date defaults to today only when no date was found; the signature is the default `[Имзо]` when no signer line was found, and a found signature is kept (it reads `[Имзо]` only when that line itself did); every entry is storable |
| Ariza.ArizaDocumentGenerator.constructor | app/documents/generator.py:19-21 | a new generator has an empty document |
| Ariza.ArizaDocumentGenerator.AddRightAlignedParagraph | app/documents/generator.py:37-45 | appends exactly one right-aligned paragraph with the given text and weight |
| Ariza.ArizaDocumentGenerator.AddCenterParagraph | app/documents/generator.py:47-57 | appends exactly one centred paragraph |
| Ariza.ArizaDocumentGenerator.AddBodyParagraph | app/documents/generator.py:59-70 | appends exactly one justified paragraph, indented or not |
| Ariza.ArizaDocumentGenerator.AddEmptyParagraph | app/documents/generator.py:169 | appends exactly one empty paragraph |
| Ariza.ArizaDocumentGenerator.AddSignatureLine | app/documents/generator.py:72-88 | appends one paragraph of left text, 40 spaces and right text |
| Ariza.Layout | app/documents/generator.py:155-186 | the paragraphs `generate_document` adds: header block, blank, bold centred title, body block, a blank and the appendix block when there is one, blank, date-and-signature line; `LayoutHeader`, `LayoutBody` and `LayoutClosing` state the positions |
| Ariza.ArizaDocumentGenerator.AddHeaderLines | app/documents/generator.py:162-167 | the header loop appends the header block |
| Ariza.ArizaDocumentGenerator.AddBodyLines | app/documents/generator.py:174-176 | the body loop appends the body block |
| Ariza.ArizaDocumentGenerator.AddAppendixLines | app/documents/generator.py:181-182 | the appendix loop appends the appendix block |
| Ariza.ArizaDocumentGenerator.GenerateDocument | app/documents/generator.py:155-186 | the document grows by exactly the layout of the data |
| Ariza.GenerateArizaDocument | app/documents/generator.py:206-226 | the document is the layout of the parse of the text |
| Ariza.HeaderBlockRule | app/documents/generator.py:162-167 | one right-aligned paragraph per header line, bold iff its lowercase form contains `судига` |
| Ariza.BodyBlockRule | app/documents/generator.py:174-176 | one justified paragraph per body line, only the first indented |
| Ariza.AppendixBlockRule | app/documents/generator.py:181-182 | one unindented justified paragraph per appendix line |
| Ariza.LayoutHeader | app/documents/generator.py:162-172 | the document is header, blank, bold centred title, body, appendix block (only when non-empty, with its blank), blank, signature; it opens with the header paragraphs followed by the blank and the title |
| Ariza.LayoutBody | app/documents/generator.py:174-176 | the body paragraphs follow the title, justified, only the first indented |
| Ariza.LayoutClosing | app/documents/generator.py:178-186 | a non-empty appendix is preceded by a blank and laid out unindented; the document ends with a blank and the date/signature line |
| Organizations.Organization.constructor | app/organizations/models.py:59-78 | quotas default to 1 bot, 10 documents, 0 (unlimited) API calls, with all counters 0 and no trial |
| Organizations.TrialOpen | app/organizations/models.py:140-144 | there is no trial without an end date; otherwise the trial is open while `now` is before it |
| Organizations.Organization.IsTrial | app/organizations/models.py:139-144 | false without a trial end, otherwise true iff `now` is before it |
| Organizations.CanCreateBot | app/organizations/models.py:147-149 | `can_create_bot`: bots used below the bot quota |
| Organizations.CanGenerateDocument | app/organizations/models.py:152-154 | `can_generate_document`: documents used below the document quota |
| Organizations.CanUseApi | app/organizations/models.py:157-161 | `can_use_api`: a quota of 0 is unlimited, otherwise calls used below the quota |
| Organizations.QuotaCountdown | app/organizations/models.py:146-154 | after `n` document (bot) increments, generation (creation) is allowed iff `used + n < quota` |
| Organizations.ApiQuotaCountdown | app/organizations/models.py:156-161 | with quota 0 API use is always allowed; otherwise after `n` calls iff `used + n < quota` |
| Organizations.Incremented | app/organizations/models.py:169-179 | exactly the counter named by `document`, `api_call` or `bot` grows by one; an unknown type changes nothing |
| Organizations.IncrementedTimesCounts | app/organizations/models.py:169-179 | `n` increments add exactly `n` to the named counter and nothing elsewhere |
| Organizations.Reset | app/organizations/models.py:163-167 | documents and API calls used become 0; every other column is kept |
| Organizations.ResetRestores | app/organizations/models.py:146-167 | after a reset documents can be generated iff the quota is positive, API use is allowed iff the quota is non-negative, and bot creation is as before |
| Organizations.Organization.ResetMonthlyUsage | app/organizations/models.py:163-167 | the counters become their reset and name, slug and trial are unchanged |
| Organizations.Organization.IncrementUsage | app/organizations/models.py:169-179 | the counters become their increment for the type and name, slug and trial are unchanged |
| Organizations.Candidate | app/organizations/models.py:126-133 | the `n`-th candidate is the base for `n = 0`, otherwise the base followed by `-` and more |
| Organizations.CandidateInjective | app/organizations/models.py:131-133 | distinct counters give distinct candidates, so the loop never retries a slug |
| Organizations.FirstFree | app/organizations/models.py:127-133 | where the loop stops: the candidate is not taken and every earlier one is; `FirstFreeUnique` shows it stops at one place at most |
| Organizations.FreeSlug | app/organizations/models.py:125-135 | the loop ends with the first candidate in `base`, `base-1`, `base-2`, … that is not taken |
| Organizations.Organization.Save | app/organizations/models.py:123-137 | a set slug is never changed; an empty one becomes the first free candidate from `slugify(name)`, not taken; no other column changes |
| Organizations.KeyPrefix | app/organizations/models.py:281 | `raw_key[:8]`: the first eight characters, or the whole key when shorter |
| Organizations.KeyPrefixAgrees | app/organizations/models.py:280-301 | the prefix stored at issue and the one looked up at verification agree iff the keys share their first eight characters |
| Organizations.APIKey.Generate | app/organizations/models.py:276-296 | a new key stores the prefix and hash its own raw key is later looked up by, the permissions or `{}`, no use, active, no expiry |
| Organizations.APIKey.HasPermission | app/organizations/models.py:325-329 | empty permissions allow nothing; otherwise an action is allowed iff it is listed as true |
| Organizations.KeyPrefixShort | app/organizations/models.py:281-301 | for raw keys of any length the prefixes agree iff both keys have eight characters or more and share the first eight, or the keys are equal |
| Organizations.APIKey.Expired | app/organizations/models.py:312 | the key has an expiry and `now` is past it |
| Organizations.Matching | app/organizations/models.py:304-309 | the keys the lookup finds are exactly the active keys with the raw key's prefix and hash, and no key twice when the table lists none twice |
| Organizations.VerifyKey | app/organizations/models.py:298-323 | over a table of distinct keys: no match gives `None`; several matches fail; an expired match gives `None`; otherwise the key is returned with `usage_count` one higher and `last_used_at = now`, and no other key or field changes |
| Tenancy.HostName | app/organizations/middleware.py:23 | `request.get_host().split(":")[0]`; `HostParsing` states it is the host up to its first `:` |
| Tenancy.Subdomain | app/organizations/middleware.py:24-26 | the first label when the host name has more than two labels; `HostParsing` states it in dots |
| Tenancy.HostParsing | app/organizations/middleware.py:22-26 | the host name is the host up to its first `:`; a subdomain exists iff the host name has at least two dots, and is its first label |
| Tenancy.FromHeader | app/organizations/middleware.py:14-20 | a non-empty `X-Organization-ID` header naming an existing organization gives it; any other header gives nothing |
| Tenancy.FromSubdomain | app/organizations/middleware.py:22-31 | a subdomain that is not `www`, `api` or `admin` and is some organization's slug gives it |
| Tenancy.FromUser | app/organizations/middleware.py:33-40 | an authenticated user gives `current_organization` when it has one, else the Telegram profile's organization |
| Tenancy.OrganizationFromRequest | app/organizations/middleware.py:9-42 | a resolved organization comes from the header, the subdomain or the user |
| Tenancy.ResolutionPriority | app/organizations/middleware.py:9-42 | header, then subdomain, then user; each is consulted only when the earlier ones resolve nothing; the user fallback is `current_organization`, then the Telegram profile's organization |
| Tenancy.HeaderWins | app/organizations/middleware.py:14-20 | a header naming an existing organization wins whatever the host and the user |
| Tenancy.UnknownHeaderFallsThrough | app/organizations/middleware.py:15-20 | a header naming no organization acts as if it were absent |
| Tenancy.ReservedNeverLookedUp | app/organizations/middleware.py:25-31 | `www`, `api` and `admin` are never looked up: the slug table does not matter |
| Tenancy.TwoLabelHostIgnoresSlugs | app/organizations/middleware.py:23-31 | without a third label the slug table does not matter |
| Tenancy.OwnedByAppend | app/organizations/middleware.py:76-77 | the filter keeps the original order: filtering a concatenation is the concatenation of the filtered parts |
| Tenancy.OwnedByExact | app/organizations/middleware.py:76-77 | the filter keeps exactly the tenant's rows, each as often as it occurs |
| Tenancy.TenantQueryset | app/organizations/middleware.py:70-79 | `get_queryset`: the rows of the organization when there is one and the model has the field, otherwise the queryset as it is |
| Tenancy.TenantIsolation | app/organizations/middleware.py:70-79 | without an organization, or for a model without the field, the queryset is unchanged; otherwise it yields exactly the tenant's rows and loses none |
| Serializers.ValidateTelegramToken | app/core/serializers.py:21-30 | an accepted token is returned unchanged; a rejected one gets the format message |
| Serializers.MatchFrom | app/core/serializers.py:24-25 | `re.match(r"^\d+:[A-Za-z0-9_-]+$", value)` as a four-state scan, with `$` also matching before a final newline; `TokenAccepted` states the accepted shape |
| Serializers.TokenAccepted | app/core/serializers.py:21-30 | a token is accepted iff it is one or more digits, `:`, one or more of `[A-Za-z0-9_-]`, optionally followed by a single `\n` |
| Serializers.Validate | app/core/serializers.py:50-66 | accepted attributes are returned unchanged |
| Serializers.ValidateRules | app/core/serializers.py:50-66 | rejected iff pdf/docx without a file ("File is required for PDF/DOCX file types") or text without content ("Content is required for text file type"); `url` and unknown types are never rejected |
| Serializers.Create | app/core/serializers.py:68-98 | the new instance ends as the inserted row after its status pre-set and processing |
| Serializers.Created | app/core/serializers.py:68-98 | the row after `create`: a text row is set `ready` and a pdf/docx row `processing` before the processor runs on it; any other type is stored as inserted |
| Serializers.CreatedStatus | app/core/serializers.py:76-96 | text ends `ready`; pdf/docx with a file ends `ready` or `error`, without one stays `processing`; any other type is never processed and stays as inserted |
| Providers.OpenAIMessages | app/ai_services/providers.py:76-84 | a system entry comes first iff the system prompt is truthy, then all messages in order |
| Providers.OpenAIChatCompletion | app/ai_services/providers.py:64-100 | the endpoint receives that message list and its reply or error passes through |
| Providers.OpenAITranscribeAudio | app/ai_services/providers.py:33-62 | Whisper receives the audio and the fixed Cyrillic-guidance prompt, and its result passes through |
| Providers.GeminiTranscribeAudio | app/ai_services/providers.py:112-121 | always fails with the not-implemented message |
| Providers.GeminiPrompt | app/ai_services/providers.py:136-150 | the Gemini prompt: the system part when the prompt is truthy, one line per user or assistant message, then `Assistant: `, concatenated; the lemmas below state its shape |
| Providers.BuildGeminiPrompt | app/ai_services/providers.py:136-150 | the prompt loop returns exactly the specification's prompt |
| Providers.GeminiChatCompletion | app/ai_services/providers.py:123-160 | the model receives that prompt and its reply or error passes through |
| Providers.GeminiPromptPieces | app/ai_services/providers.py:136-150 | the prompt is the system part, one line per user/assistant message, and the final `Assistant: ` |
| Providers.OtherRolesDropped | app/ai_services/providers.py:141-147 | a message of any other role leaves the prompt unchanged, wherever it stands |
| Providers.AppendedMessage | app/ai_services/providers.py:141-150 | a later user/assistant message adds its `User: c\n` / `Assistant: c\n` line just before the final cue, after the earlier lines |
| Providers.GeminiPromptFrame | app/ai_services/providers.py:138-150 | the prompt starts with `System: ` iff the system prompt is truthy (then with `System: <p>\n\n`), and always ends with `Assistant: ` |
| Providers.GetAIService | app/ai_services/providers.py:163-183 | `get_ai_service` over the settings, with each `ValueError` as a `Failure` carrying its message; `GetAIServiceRules` states the dispatch |
| Providers.GetAIServiceRules | app/ai_services/providers.py:163-183 | `openai`/`gemini` are chosen iff named (case-insensitively) with their key set; a missing key or an unknown name fails with its message; the name's case never matters |
| Text.IsSpace | app/core/services/embeddings_service.py:33 | Python's `str.isspace` on one character: the Unicode whitespace characters that `strip` removes |
| Text.Strip | app/core/services/embeddings_service.py:42 | `s.strip()`: never longer than `s`, and either empty or with no whitespace at either end |
| Text.Split | app/core/services/embeddings_service.py:37 | `s.split(sep)` for a non-empty separator: always at least one piece |
| Text.Lower | app/ai_services/providers.py:170 | `s.lower()` character by character: the same length, each character folded |

## Left out

- The cosine score's arithmetic (numpy dot product, norms, division on floats) is an abstract `Scorer`. Only the length check and the zero-norm guard are modelled; numpy's "shapes not aligned" message is the scorer's own.
- Network calls and environment reads are oracle parameters: the OpenAI embeddings, chat and Whisper endpoints, Gemini's `generate_content`, and `OPENAI_API_KEY`/`GEMINI_API_KEY`. The model and Whisper names from settings, `max_tokens` and `temperature` are not modelled.
- pdfplumber, PyPDF2 and python-docx are replaced by the page, paragraph and cell texts they return, or the exception message they raise. File paths and `open`/`read` are the `FileSource` value, and `Path.stat` is a `Result`.
- The generator's fonts, sizes, margins, paragraph spacing and `save_to_bytes`/`save_to_file` are foreign library calls. The document is a list of paragraph descriptors (alignment, text, bold, first-line indent).
- `timezone.now`/`datetime.now` are the integer `now`. The parse's default date is a `today` string given by the caller.
- `slugify`, `secrets.token_urlsafe` and `hashlib.sha256` are function parameters. The raw key is given to `APIKey.Generate` rather than drawn at random.
- ORM persistence is left out: `save()` calls, `update_fields`, database errors, and `select_related`. Tables are sequences and maps, and a save never fails.
- The `except Exception` of `process_knowledge_file_embeddings` (app/core/services/embeddings_service.py:211-217) only fires on failures of `save()` or of the ORM, which the model does not have.
- `Organizations.VerifyKey`: a lookup that matches several keys raises `MultipleObjectsReturned` in Django. The model returns a `Failure` whose message is not stated. The key table lists each key object once, as a table holds each row once.
- `Tenancy.OrganizationFromRequest`: a malformed UUID in the header raises `ValidationError` in Django; the model treats it like an unknown id. `DisallowedHost` from `get_host` is not modelled, and the header name's case-insensitive lookup is taken as given.
- The lazy `request.organization` object of `TenantMiddleware` is plumbing and is not modelled. Neither the `Subscription` model nor the plan table is modelled.
- `Serializers.Create`: `super().create` is modelled as inserting the validated fields with the column defaults. The number of chunks starts at 0 because its column default is not part of this model. `ValidationError` is turned into `Failure` messages.
- `Text.IsDigit`: `\d` matches only ASCII digits, not every Unicode decimal digit.
- `Text.Lower`: only ASCII and the Cyrillic block (U+0400–U+04FF) are folded, not the whole of Unicode.
- `Organizations.APIKey.HasPermission`: permission values are booleans, not arbitrary JSON values with Python truthiness.
- The Telegram bot (app/bot/), configuration, URL routing, admin, views, e-mail and migrations are not part of this model.
- Logging is left out everywhere.
