/**
 * The instance fields `QdrantDocumentStore.__init__` sets and the other
 * operations read (the client connection parameters are left out).
 */
module Settings {

  datatype StoreSettings = StoreSettings(
    index: string,
    embeddingDim: int,
    onDisk: bool,
    useSparseEmbeddings: bool,
    sparseIdf: bool,
    similarity: string,
    returnEmbedding: bool,
    recreateIndex: bool,
    writeBatchSize: int,
    scrollSize: int)

  /**
   * The fields as `__init__` stores them: every argument is kept as given,
   * except that IDF is switched off when sparse embeddings are.
   */
  function NewSettings(
    index: string, embeddingDim: int, onDisk: bool, useSparseEmbeddings: bool, sparseIdf: bool,
    similarity: string, returnEmbedding: bool, recreateIndex: bool, writeBatchSize: int, scrollSize: int)
    : (s: StoreSettings)
    ensures useSparseEmbeddings ==> s.sparseIdf == sparseIdf
    ensures !useSparseEmbeddings ==> !s.sparseIdf
    ensures s.useSparseEmbeddings == useSparseEmbeddings && s.embeddingDim == embeddingDim
    ensures s.onDisk == onDisk && s.similarity == similarity && s.index == index
    ensures s.writeBatchSize == writeBatchSize && s.scrollSize == scrollSize
    ensures s.returnEmbedding == returnEmbedding && s.recreateIndex == recreateIndex
  {
    StoreSettings(index, embeddingDim, onDisk, useSparseEmbeddings, useSparseEmbeddings && sparseIdf,
                  similarity, returnEmbedding, recreateIndex, writeBatchSize, scrollSize)
  }

  /** The constructor's defaults. */
  function DefaultSettings(): StoreSettings {
    NewSettings("Document", 768, false, false, false, "cosine", false, false, 100, 10_000)
  }
}
