/** The knowledge-base file record (`KnowledgeBaseFile`): a row that the
    ingestion pipeline updates field by field, and the value snapshot of it
    that the search reads. */
module Knowledge {
  import opened Wrappers

  /** The processing status of a knowledge-base file. */
  datatype Status = Pending | Processing | Ready | Error

  /** An embedding vector. */
  type Vector = seq<real>

  /** The JSON bundle kept in the `embeddings` column; each key may be absent
      (`None`), and an empty dictionary is the bundle with every key absent. */
  datatype EmbeddingIndex = EmbeddingIndex(
    chunks: Option<seq<string>>,
    vectors: Option<seq<Vector>>,
    model: Option<string>,
    chunkSize: Option<int>,
    overlap: Option<int>)

  /** The `(success, error_message)` pair the processing functions return. */
  datatype Outcome = Outcome(success: bool, error: Option<string>)

  /** The value of every field of a record at one moment. `content` is `""`
      when the column is empty or null (both are falsy), and `hasFile` says
      whether a file is attached. */
  datatype FileRecord = FileRecord(
    id: int,
    name: string,
    botId: int,
    fileType: string,
    hasFile: bool,
    content: string,
    status: Status,
    fileSize: Option<int>,
    processingError: Option<string>,
    processedAt: Option<int>,
    embeddings: Option<EmbeddingIndex>,
    chunkCount: int)

  /** A knowledge-base file as the pipeline sees it: an object whose fields
      are assigned in place. */
  class KnowledgeFile {
    var id: int
    var name: string
    var botId: int
    var fileType: string
    var hasFile: bool
    var content: string
    var status: Status
    var fileSize: Option<int>
    var processingError: Option<string>
    var processedAt: Option<int>
    var embeddings: Option<EmbeddingIndex>
    var chunkCount: int

    /** A new record: status `pending`, nothing processed yet. */
    constructor(id: int, name: string, botId: int, fileType: string, hasFile: bool, content: string)
      ensures Record() == FileRecord(id, name, botId, fileType, hasFile, content,
                                     Pending, None, None, None, None, 0)
    {
      this.id := id;
      this.name := name;
      this.botId := botId;
      this.fileType := fileType;
      this.hasFile := hasFile;
      this.content := content;
      status := Pending;
      fileSize := None;
      processingError := None;
      processedAt := None;
      embeddings := None;
      chunkCount := 0;
    }

    /** The current value of every field. */
    function Record(): FileRecord
      reads this
    {
      FileRecord(id, name, botId, fileType, hasFile, content, status,
                 fileSize, processingError, processedAt, embeddings, chunkCount)
    }
  }
}
