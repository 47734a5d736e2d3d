/**
 * The collection's vector configuration: the similarity-to-distance table,
 * the configuration the store creates a collection with
 * (`_prepare_collection_config`), the check an existing collection must pass
 * (`_validate_collection_compatibility`), and the choice between the two
 * that `_set_up_collection` makes.
 */
module Collection {
  import opened StoreErrors
  import opened Settings

  /** Qdrant's distance functions. */
  datatype Distance = Cosine | Dot | Euclid | Manhattan

  /**
   * Names of the dense and the sparse vector in a collection with named
   * vectors (defined by the store's converters module).
   */
  const DENSE_VECTORS_NAME: string := "text-dense"
  const SPARSE_VECTORS_NAME: string := "text-sparse"

  /** `QdrantDocumentStore.SIMILARITY`. */
  const SIMILARITY: map<string, Distance> := map["cosine" := Cosine, "dot_product" := Dot, "l2" := Euclid]

  function GetDistance(similarity: string): (r: Result<Distance>)
    ensures r == Ok(Cosine) <==> similarity == "cosine"
    ensures r == Ok(Dot) <==> similarity == "dot_product"
    ensures r == Ok(Euclid) <==> similarity == "l2"
    ensures r != Ok(Manhattan)
    ensures r.Err? <==> similarity != "cosine" && similarity != "dot_product" && similarity != "l2"
    ensures r.Err? ==> r.error == QdrantStoreError(UnsupportedSimilarity(similarity))
  {
    if similarity in SIMILARITY then Ok(SIMILARITY[similarity])
    else Err(QdrantStoreError(UnsupportedSimilarity(similarity)))
  }

  datatype VectorParams = VectorParams(size: int, distance: Distance, onDisk: Option<bool>)

  /** `collection_info.config.params.vectors`: absent, one unnamed vector, or named vectors. */
  datatype VectorsConfig =
    | NoVectors
    | SingleVector(params: VectorParams)
    | NamedVectors(named: map<string, VectorParams>)

  datatype Modifier = Idf

  datatype SparseVectorParams = SparseVectorParams(indexOnDisk: bool, modifier: Option<Modifier>)

  datatype CollectionConfig = CollectionConfig(
    vectors: VectorsConfig,
    sparseVectors: Option<map<string, SparseVectorParams>>)

  /**
   * `_prepare_collection_config`; `s` holds the instance fields the `None`
   * arguments fall back to.
   */
  function PrepareCollectionConfig(
    s: StoreSettings, embeddingDim: int, distance: Distance,
    onDisk: Option<bool>, useSparseEmbeddings: Option<bool>, sparseIdf: bool)
    : (r: CollectionConfig)
    ensures var disk := onDisk.GetOr(s.onDisk);
      var dense := VectorParams(embeddingDim, distance, Some(disk));
      && (r.sparseVectors.Some? <==> useSparseEmbeddings.GetOr(s.useSparseEmbeddings))
      && (r.sparseVectors.None? ==> r.vectors == SingleVector(dense))
      && (r.sparseVectors.Some? ==>
            && r.vectors == NamedVectors(map[DENSE_VECTORS_NAME := dense])
            && r.sparseVectors.value.Keys == {SPARSE_VECTORS_NAME}
            && r.sparseVectors.value[SPARSE_VECTORS_NAME].indexOnDisk == disk
            && (r.sparseVectors.value[SPARSE_VECTORS_NAME].modifier == Some(Idf) <==> sparseIdf))
  {
    var disk := onDisk.GetOr(s.onDisk);
    var sparse := useSparseEmbeddings.GetOr(s.useSparseEmbeddings);
    var baseVectorsConfig := VectorParams(embeddingDim, distance, Some(disk));
    if sparse then
      CollectionConfig(
        NamedVectors(map[DENSE_VECTORS_NAME := baseVectorsConfig]),
        Some(map[SPARSE_VECTORS_NAME := SparseVectorParams(disk, if sparseIdf then Some(Idf) else None)]))
    else
      CollectionConfig(SingleVector(baseVectorsConfig), None)
  }

  /** The existing collection has the layout this store uses: checked before distance and size. */
  predicate LayoutMatches(useSparseEmbeddings: bool, vectors: VectorsConfig) {
    && !vectors.NoVectors?
    && vectors.NamedVectors? == useSparseEmbeddings
    && (vectors.NamedVectors? ==> DENSE_VECTORS_NAME in vectors.named)
  }

  /** The dense vector's parameters in a collection whose layout matches. */
  function DenseParams(useSparseEmbeddings: bool, vectors: VectorsConfig): VectorParams
    requires LayoutMatches(useSparseEmbeddings, vectors)
  {
    if vectors.NamedVectors? then vectors.named[DENSE_VECTORS_NAME] else vectors.params
  }

  /** The existing collection can be used as it is. */
  predicate IsCompatible(useSparseEmbeddings: bool, vectors: VectorsConfig, distance: Distance, embeddingDim: int) {
    && LayoutMatches(useSparseEmbeddings, vectors)
    && DenseParams(useSparseEmbeddings, vectors).distance == distance
    && DenseParams(useSparseEmbeddings, vectors).size == embeddingDim
  }

  /**
   * `_validate_collection_compatibility`, with `self.use_sparse_embeddings`
   * read from `s`. The two checks after the layout checks repeat them and
   * can never fire; they are kept as in the store.
   */
  function ValidateCollectionCompatibility(
    s: StoreSettings, vectors: VectorsConfig, distance: Distance, embeddingDim: int)
    : (r: Outcome)
    ensures r == Accepted <==> IsCompatible(s.useSparseEmbeddings, vectors, distance, embeddingDim)
    ensures !LayoutMatches(s.useSparseEmbeddings, vectors) ==> r.Rejected? && r.error.QdrantStoreError?
    ensures LayoutMatches(s.useSparseEmbeddings, vectors)
            && DenseParams(s.useSparseEmbeddings, vectors).distance != distance
            ==> r == Rejected(ValueError(DistanceMismatch))
    ensures LayoutMatches(s.useSparseEmbeddings, vectors)
            && DenseParams(s.useSparseEmbeddings, vectors).distance == distance
            && DenseParams(s.useSparseEmbeddings, vectors).size != embeddingDim
            ==> r == Rejected(ValueError(VectorSizeMismatch))
    ensures r != Rejected(QdrantStoreError(InvalidSparseVectorConfiguration))
    ensures r != Rejected(QdrantStoreError(InvalidDenseVectorConfiguration))
  {
    if vectors.NoVectors? then
      Rejected(QdrantStoreError(NoVectorConfiguration))
    else
      var hasNamedVectors := vectors.NamedVectors?;
      if hasNamedVectors && DENSE_VECTORS_NAME !in vectors.named then
        Rejected(QdrantStoreError(CreatedOutsideHaystack))
      else if s.useSparseEmbeddings && !hasNamedVectors then
        Rejected(QdrantStoreError(CreatedWithoutSparseVectors))
      else if !s.useSparseEmbeddings && hasNamedVectors then
        Rejected(QdrantStoreError(CreatedWithSparseVectors))
      else
        var current :=
          if s.useSparseEmbeddings then
            (if !vectors.NamedVectors? then Err(QdrantStoreError(InvalidSparseVectorConfiguration))
             else Ok(vectors.named[DENSE_VECTORS_NAME]))
          else
            (if vectors.NamedVectors? then Err(QdrantStoreError(InvalidDenseVectorConfiguration))
             else Ok(vectors.params));
        match current
        case Err(e) => Rejected(e)
        case Ok(params) =>
          if params.distance != distance then Rejected(ValueError(DistanceMismatch))
          else if params.size != embeddingDim then Rejected(ValueError(VectorSizeMismatch))
          else Accepted
  }

  /** What `_set_up_collection` does when it does not raise. */
  datatype SetUpAction =
    | Created(config: CollectionConfig)   // the collection is (re)created with this configuration
    | Reused                              // the existing collection passed the compatibility check

  /**
   * `_set_up_collection` as `_initialize_client` calls it, with the instance
   * fields `s`; `existing` is the vector configuration of the collection
   * named `s.index`, or `None` when no such collection exists.
   */
  function SetUpCollection(s: StoreSettings, existing: Option<VectorsConfig>): (r: Result<SetUpAction>)
    ensures GetDistance(s.similarity).Err? ==> r == Err(GetDistance(s.similarity).error)
    ensures r.Ok? && r.value.Created? <==>
      GetDistance(s.similarity).Ok? && (s.recreateIndex || existing.None?)
    ensures r == Ok(Reused) <==>
      && GetDistance(s.similarity).Ok? && !s.recreateIndex && existing.Some?
      && IsCompatible(s.useSparseEmbeddings, existing.value, GetDistance(s.similarity).value, s.embeddingDim)
    ensures r.Ok? && r.value.Created? ==>
      r.value.config == PrepareCollectionConfig(
        s, s.embeddingDim, GetDistance(s.similarity).value, Some(s.onDisk), Some(s.useSparseEmbeddings), s.sparseIdf)
    ensures GetDistance(s.similarity).Ok? && !s.recreateIndex && existing.Some? && r.Err? ==>
      Rejected(r.error) == ValidateCollectionCompatibility(
        s, existing.value, GetDistance(s.similarity).value, s.embeddingDim)
  {
    match GetDistance(s.similarity)
    case Err(e) => Err(e)
    case Ok(distance) =>
      if s.recreateIndex || existing.None? then
        Ok(Created(PrepareCollectionConfig(
          s, s.embeddingDim, distance, Some(s.onDisk), Some(s.useSparseEmbeddings), s.sparseIdf)))
      else
        match ValidateCollectionCompatibility(s, existing.value, distance, s.embeddingDim)
        case Rejected(e) => Err(e)
        case Accepted => Ok(Reused)
  }

  /**
   * A collection this store created is one it accepts: setting up again,
   * without recreating, reuses it.
   */
  lemma CreatedCollectionIsReused(s: StoreSettings, existing: Option<VectorsConfig>)
    requires SetUpCollection(s, existing).Ok? && SetUpCollection(s, existing).value.Created?
    ensures SetUpCollection(s.(recreateIndex := false), Some(SetUpCollection(s, existing).value.config.vectors))
         == Ok(Reused)
  {
    var cfg := SetUpCollection(s, existing).value.config;
    var distance := GetDistance(s.similarity).value;
    assert IsCompatible(s.useSparseEmbeddings, cfg.vectors, distance, s.embeddingDim);
  }

  /** A collection with a distance no similarity maps to is never reused. */
  lemma ManhattanCollectionIsNeverReused(s: StoreSettings, params: VectorParams)
    requires params.distance == Manhattan
    ensures SetUpCollection(s, Some(SingleVector(params))) != Ok(Reused)
    ensures SetUpCollection(s, Some(NamedVectors(map[DENSE_VECTORS_NAME := params]))) != Ok(Reused)
  {
  }
}
