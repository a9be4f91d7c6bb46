/** The embedding side of the knowledge-retrieval engine
    (app/core/services/embeddings_service.py): provider dispatch, the guard
    around the cosine score, and the step that chunks a file's content and
    stores the chunk/vector bundle on the record. */
module Embeddings {
  import opened Wrappers
  import opened Text
  import opened Chunking
  import opened Knowledge

  /** The model tag stored with every bundle and requested from the provider. */
  const DefaultEmbeddingModel: string := "text-embedding-3-small"

  /** The provider name every caller passes. */
  const DefaultProvider: string := "openai"

  /** The chunking parameters the ingestion pipeline uses. */
  const DefaultChunkSize: int := 1000
  const DefaultOverlap: int := 200

  /** The OpenAI embeddings endpoint, seen from the application: the key read
      from the environment and the `embeddings.create(input, model)` call,
      which either returns the vectors or raises with a message. */
  datatype EmbeddingsApi = EmbeddingsApi(
    apiKey: Option<string>,
    create: (seq<string>, string) -> Result<seq<Vector>, string>)

  /** The prefix of every error raised by the OpenAI embeddings path. */
  const OpenAIFailurePrefix: string := "Failed to generate embeddings: "

  /** The message raised when the key is missing. */
  const MissingKeyMessage: string := "OPENAI_API_KEY not found in environment"

  /** The key is present and non-empty (Python truthiness). */
  predicate HasKey(api: EmbeddingsApi) {
    api.apiKey.Some? && api.apiKey.value != []
  }

  /** `generate_embeddings_openai`: a missing key is raised inside the `try`,
      so it reaches the caller with the generic prefix too. */
  function GenerateEmbeddingsOpenAI(texts: seq<string>, model: string, api: EmbeddingsApi): (r: Result<seq<Vector>, string>)
    ensures r.Success? <==> HasKey(api) && api.create(texts, model).Success?
    ensures r.Success? ==> r.value == api.create(texts, model).value
    ensures r.Failure? ==> StartsWith(r.error, OpenAIFailurePrefix)
  {
    if !HasKey(api) then
      Failure(OpenAIFailurePrefix + MissingKeyMessage)
    else
      match api.create(texts, model)
      case Success(vectors) => Success(vectors)
      case Failure(e) => Failure(OpenAIFailurePrefix + e)
  }

  /** `generate_embeddings`: only the `openai` provider exists. */
  function GenerateEmbeddings(texts: seq<string>, provider: string, api: EmbeddingsApi): (r: Result<seq<Vector>, string>)
    ensures provider != DefaultProvider ==> r == Failure("Unsupported embeddings provider: " + provider)
    ensures provider == DefaultProvider ==> r == GenerateEmbeddingsOpenAI(texts, DefaultEmbeddingModel, api)
  {
    if provider == DefaultProvider then GenerateEmbeddingsOpenAI(texts, DefaultEmbeddingModel, api)
    else Failure("Unsupported embeddings provider: " + provider)
  }

  /** Every failure of the embeddings service carries one of its two messages. */
  lemma EmbeddingErrors(texts: seq<string>, provider: string, api: EmbeddingsApi)
    requires GenerateEmbeddings(texts, provider, api).Failure?
    ensures var e := GenerateEmbeddings(texts, provider, api).error;
      || (provider == DefaultProvider && StartsWith(e, OpenAIFailurePrefix))
      || (provider != DefaultProvider && e == "Unsupported embeddings provider: " + provider)
  {
  }

  /** A missing or empty key is reported before the provider is called. */
  lemma MissingKeyReported(texts: seq<string>, api: EmbeddingsApi)
    requires !HasKey(api)
    ensures GenerateEmbeddings(texts, DefaultProvider, api)
         == Failure(OpenAIFailurePrefix + MissingKeyMessage)
  {
  }

  // ---------------------------------------------------------------------------
  // The cosine score

  /** The numeric collaborators of `cosine_similarity`: the vector norm and
      the quotient `dot(a, b) / (norm(a) * norm(b))`, both left abstract. */
  datatype Scorer = Scorer(norm: Vector -> real, quotient: (Vector, Vector) -> real)

  /** `cosine_similarity`: the dot product comes first, so vectors of
      different lengths raise; a zero norm on either side scores 0.0. */
  function CosineSimilarity(a: Vector, b: Vector, scorer: Scorer): (r: Result<real, string>)
    ensures r.Failure? <==> |a| != |b|
    ensures r.Success? && (scorer.norm(a) == 0.0 || scorer.norm(b) == 0.0) ==> r.value == 0.0
    ensures r.Success? && scorer.norm(a) != 0.0 && scorer.norm(b) != 0.0 ==> r.value == scorer.quotient(a, b)
  {
    if |a| != |b| then Failure("shapes not aligned")
    else if scorer.norm(a) == 0.0 || scorer.norm(b) == 0.0 then Success(0.0)
    else Success(scorer.quotient(a, b))
  }

  // ---------------------------------------------------------------------------
  // process_knowledge_file_embeddings

  /** The bundle stored for `chunks` and `vectors`. */
  function Bundle(chunks: seq<string>, vectors: seq<Vector>, chunkSize: int, overlap: int): EmbeddingIndex {
    EmbeddingIndex(Some(chunks), Some(vectors), Some(DefaultEmbeddingModel), Some(chunkSize), Some(overlap))
  }

  /** What `process_knowledge_file_embeddings` decides for a content: the
      bundle to store, or the error message to return. */
  function EmbedContent(content: string, chunkSize: int, overlap: int, api: EmbeddingsApi): Result<EmbeddingIndex, string>
  {
    if content == [] then Failure("No content to process")
    else
      var chunks := Chunks(content, chunkSize, overlap);
      if chunks == [] then Failure("Failed to chunk text")
      else
        match GenerateEmbeddings(chunks, DefaultProvider, api)
        case Failure(e) => Failure(e)
        case Success(vectors) => Success(Bundle(chunks, vectors, chunkSize, overlap))
  }

  /** The record after `process_knowledge_file_embeddings`. */
  function Embedded(rec: FileRecord, chunkSize: int, overlap: int, api: EmbeddingsApi): FileRecord
  {
    match EmbedContent(rec.content, chunkSize, overlap, api)
    case Success(index) => rec.(embeddings := Some(index), chunkCount := |index.chunks.value|)
    case Failure(_) => rec
  }

  /** The `(success, error)` pair `process_knowledge_file_embeddings` returns. */
  function EmbedOutcome(content: string, chunkSize: int, overlap: int, api: EmbeddingsApi): Outcome
  {
    match EmbedContent(content, chunkSize, overlap, api)
    case Success(_) => Outcome(true, None)
    case Failure(e) => Outcome(false, Some(e))
  }

  /** `process_knowledge_file_embeddings`: chunk the content, embed the
      chunks, and only then store the bundle and the chunk count. */
  method ProcessKnowledgeFileEmbeddings(kf: KnowledgeFile, chunkSize: int, overlap: int, api: EmbeddingsApi)
    returns (success: bool, error: Option<string>)
    modifies kf
    ensures kf.Record() == Embedded(old(kf.Record()), chunkSize, overlap, api)
    ensures Outcome(success, error) == EmbedOutcome(old(kf.content), chunkSize, overlap, api)
  {
    if kf.content == [] {
      return false, Some("No content to process");
    }
    var chunks := ChunkText(kf.content, chunkSize, overlap);
    if chunks == [] {
      return false, Some("Failed to chunk text");
    }
    var embeddings := GenerateEmbeddings(chunks, DefaultProvider, api);
    if embeddings.Failure? {
      return false, Some(embeddings.error);
    }
    kf.embeddings := Some(Bundle(chunks, embeddings.value, chunkSize, overlap));
    kf.chunkCount := |chunks|;
    return true, None;
  }

  /** The call fails exactly when the content is empty or blank, or when the
      provider fails on the chunks; each cause has its own message. */
  lemma EmbedFailureCauses(content: string, chunkSize: int, overlap: int, api: EmbeddingsApi)
    ensures var o := EmbedOutcome(content, chunkSize, overlap, api);
      && (!o.success <==>
            AllSpace(content) || GenerateEmbeddings(Chunks(content, chunkSize, overlap), DefaultProvider, api).Failure?)
      && (o.success <==> o.error == None)
      && (content == [] ==> o.error == Some("No content to process"))
      && (content != [] && AllSpace(content) ==> o.error == Some("Failed to chunk text"))
      && (!AllSpace(content) && !o.success ==>
            o.error == Some(GenerateEmbeddings(Chunks(content, chunkSize, overlap), DefaultProvider, api).error))
  {
    ChunksEmptyIff(content, chunkSize, overlap);
  }

  /** A failure touches no field; a success touches only the bundle and the
      chunk count, storing the chunks, the provider's vectors, the model tag
      and both chunking parameters, with `chunk_count = len(chunks)`. */
  lemma EmbeddedWrites(rec: FileRecord, chunkSize: int, overlap: int, api: EmbeddingsApi)
    ensures var r := Embedded(rec, chunkSize, overlap, api);
      && r.(embeddings := rec.embeddings, chunkCount := rec.chunkCount) == rec
      && (!EmbedOutcome(rec.content, chunkSize, overlap, api).success ==> r == rec)
      && (EmbedOutcome(rec.content, chunkSize, overlap, api).success ==>
            var chunks := Chunks(rec.content, chunkSize, overlap);
            && r.embeddings == Some(Bundle(chunks, api.create(chunks, DefaultEmbeddingModel).value, chunkSize, overlap))
            && r.chunkCount == |chunks|
            && chunks != [] && ChunksTrimmed(chunks))
  {
    ChunksAreTrimmed(rec.content, chunkSize, overlap);
  }
}
