/**
 * The exceptions the Qdrant document store raises, and the result types that
 * carry them. An operation that raises in the store returns `Err` (or
 * `Rejected`) here; the kind of error records which `raise` statement fired.
 */
module StoreErrors {

  datatype Option<+T> = None | Some(value: T) {
    /** Python's `x if x is not None else default`. */
    function GetOr(default: T): T {
      match this
      case Some(v) => v
      case None => default
    }
  }

  /** Which `ValueError` was raised. */
  datatype ValueErrorKind =
    | InvalidIsliceStop        // itertools.islice refuses a stop outside 0 .. sys.maxsize
    | FilterNotDictOrFilter    // a truthy filter that is neither a dict nor a Filter
    | InvalidFilterSyntax      // a non-empty dict filter without an "operator" key
    | DistanceMismatch         // the collection exists with another distance
    | VectorSizeMismatch       // the collection exists with another vector size

  /** Which `QdrantStoreError` was raised. */
  datatype StoreErrorKind =
    | UnsupportedSimilarity(similarity: string)
    | NoVectorConfiguration
    | CreatedOutsideHaystack
    | CreatedWithoutSparseVectors
    | CreatedWithSparseVectors
    | InvalidSparseVectorConfiguration
    | InvalidDenseVectorConfiguration
    | SparseEmbeddingsDisabled

  datatype Error =
    | ValueError(valueKind: ValueErrorKind)
    | QdrantStoreError(storeKind: StoreErrorKind)
    | DuplicateDocumentError(duplicateIds: set<string>)

  /** The value an operation returns, or the exception it raises. */
  datatype Result<+T> = Ok(value: T) | Err(error: Error)

  /** The outcome of a validation that returns nothing when it succeeds. */
  datatype Outcome = Accepted | Rejected(error: Error)
}
