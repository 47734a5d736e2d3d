/**
 * `QdrantDocumentStore`: the instance fields set by `__init__`, and the two
 * operations that combine the pieces of the other modules — writing
 * documents (deduplicate, apply the policy, upsert batch by batch) and
 * filtering documents (validate, then scroll).
 */
module DocumentStore {
  import opened StoreErrors
  import opened Sequences
  import opened Batching
  import opened Documents
  import opened Settings
  import opened Filters
  import opened Scrolling

  class QdrantDocumentStore {
    const settings: StoreSettings

    /**
     * What the store's Qdrant collection holds, keyed by document id. It
     * stands for the server, which the store reaches through its client.
     */
    var points: map<string, Document>

    /** Every batch passed to the client's `upsert`, in call order. */
    var upserts: seq<seq<Document>>

    /**
     * `__init__` with the fields the model reads; `collection` is what the
     * collection already holds.
     */
    constructor (
      index: string, embeddingDim: int, onDisk: bool, useSparseEmbeddings: bool, sparseIdf: bool,
      similarity: string, returnEmbedding: bool, recreateIndex: bool, writeBatchSize: int, scrollSize: int,
      collection: map<string, Document>)
      ensures settings == NewSettings(index, embeddingDim, onDisk, useSparseEmbeddings, sparseIdf,
                                      similarity, returnEmbedding, recreateIndex, writeBatchSize, scrollSize)
      ensures points == collection && upserts == []
    {
      settings := NewSettings(index, embeddingDim, onDisk, useSparseEmbeddings, sparseIdf,
                              similarity, returnEmbedding, recreateIndex, writeBatchSize, scrollSize);
      points := collection;
      upserts := [];
    }

    /**
     * `write_documents`: an empty list writes nothing; otherwise the policy
     * decides what is written, and that list is upserted in batches of
     * `write_batch_size`. The count returned is the length of that list.
     * As in the store, the policy is FAIL unless the caller names another.
     */
    method WriteDocuments(documents: seq<Document>, policy: DuplicatePolicy := Fail) returns (r: Result<int>)
      modifies this
      ensures |documents| == 0 ==> r == Ok(0) && points == old(points) && upserts == old(upserts)
      ensures |documents| > 0 ==>
        var handled := HandleDuplicateDocuments(documents, policy, old(points).Keys);
        && (handled.Err? ==>
              r == Err(handled.error) && points == old(points) && upserts == old(upserts))
        && (handled.Ok? && !IsIsliceStop(settings.writeBatchSize) ==>
              r == Err(ValueError(InvalidIsliceStop)) && points == old(points) && upserts == old(upserts))
        && (handled.Ok? && IsIsliceStop(settings.writeBatchSize) ==>
              && r == Ok(|handled.value|)
              && upserts == old(upserts) + Batches(handled.value, settings.writeBatchSize)
              && points == UpsertAll(old(points), Flatten(Batches(handled.value, settings.writeBatchSize))))
    {
      if |documents| == 0 {
        return Ok(0);
      }
      var handled := HandleDuplicateDocuments(documents, policy, points.Keys);
      if handled.Err? {
        return Err(handled.error);
      }
      var documentObjects := handled.value;
      var batched := GetBatchesFromGenerator(documentObjects, settings.writeBatchSize);
      if batched.Err? {
        return Err(batched.error);
      }
      UpsertBatches(batched.value);
      return Ok(|documentObjects|);
    }

    /**
     * The loop of `write_documents` over the batches: each batch is passed to
     * the client's `upsert`, in order.
     */
    method UpsertBatches(batches: seq<seq<Document>>)
      modifies this
      ensures upserts == old(upserts) + batches
      ensures points == UpsertAll(old(points), Flatten(batches))
    {
      for i := 0 to |batches|
        invariant upserts == old(upserts) + batches[..i]
        invariant points == UpsertAll(old(points), Flatten(batches[..i]))
      {
        FlattenPrefixStep(batches, i);
        UpsertAllAppend(old(points), Flatten(batches[..i]), batches[i]);
        points := UpsertAll(points, batches[i]);
        upserts := upserts + [batches[i]];
      }
      assert batches[..|batches|] == batches;
    }

    /**
     * `filter_documents`: the filter is validated before anything is read;
     * then the collection is scrolled to the end (`pages` are the scroll
     * responses, in order).
     */
    method FilterDocuments(filters: FilterValue, pages: seq<Page>) returns (r: Result<seq<Document>>)
      requires ValidateFilters(filters) == Accepted ==> EndsSomewhere(pages)
      ensures ValidateFilters(filters).Rejected? ==> r == Err(ValidateFilters(filters).error)
      ensures ValidateFilters(filters) == Accepted ==> r == Ok(ScrolledRecords(pages))
    {
      var validation := ValidateFilters(filters);
      if validation.Rejected? {
        return Err(validation.error);
      }
      var documents, _ := ScrollDocuments(pages);
      return Ok(documents);
    }
  }

  /**
   * With a batch size of zero no batch is produced: whatever the collection
   * holds and whatever the policy let through, no upsert is made and the
   * collection is left as it was.
   */
  lemma ZeroBatchSizeUpsertsNothing(points: map<string, Document>, written: seq<Document>)
    ensures Batches(written, 0) == []
    ensures UpsertAll(points, Flatten(Batches(written, 0))) == points
  {
  }

  /**
   * A SKIP write (and a FAIL write that does not raise) never replaces a
   * stored document: the collection keeps every stored document and gains
   * exactly the first document of each new id.
   */
  lemma SkipWriteKeepsStoredDocuments(points: map<string, Document>, documents: seq<Document>, writeBatchSize: nat)
    requires writeBatchSize > 0
    ensures SkipWrite(points, documents, writeBatchSize).Keys == points.Keys + IdsOf(documents)
    ensures forall id :: id in points ==> SkipWrite(points, documents, writeBatchSize)[id] == points[id]
    ensures forall d :: d in Without(Deduplicated(documents), points.Keys) ==>
      d.id in SkipWrite(points, documents, writeBatchSize) && SkipWrite(points, documents, writeBatchSize)[d.id] == d
  {
    var written := Without(Deduplicated(documents), points.Keys);
    BatchesFlatten(written, writeBatchSize);
    SkipResult(documents, points.Keys);
    UpsertNewDocuments(points, written);
  }

  /** The collection after a SKIP write of `documents` in batches of `writeBatchSize`. */
  function SkipWrite(points: map<string, Document>, documents: seq<Document>, writeBatchSize: nat)
    : map<string, Document>
  {
    UpsertAll(points, Flatten(Batches(Without(Deduplicated(documents), points.Keys), writeBatchSize)))
  }

  /** Upserting documents of distinct, new ids adds them and keeps every stored document. */
  lemma UpsertNewDocuments(points: map<string, Document>, written: seq<Document>)
    requires DistinctIds(written) && IdsOf(written) !! points.Keys
    ensures UpsertAll(points, written).Keys == points.Keys + IdsOf(written)
    ensures forall id :: id in points ==> UpsertAll(points, written)[id] == points[id]
    ensures forall d :: d in written ==> UpsertAll(points, written)[d.id] == d
  {
    UpsertAllDistinct(points, written);
  }

  /**
   * An OVERWRITE write (or one with no policy) replaces stored documents by
   * the input's: every input id ends up holding the last input document
   * carrying it, so with distinct ids each input document is stored as it is;
   * documents whose id is not written are kept.
   */
  lemma OverwriteWriteStoresEveryId(points: map<string, Document>, documents: seq<Document>, writeBatchSize: nat)
    requires writeBatchSize > 0
    ensures OverwriteWrite(points, documents, writeBatchSize).Keys == points.Keys + IdsOf(documents)
    ensures forall id :: id in points && id !in IdsOf(documents) ==>
      OverwriteWrite(points, documents, writeBatchSize)[id] == points[id]
    ensures forall i :: 0 <= i < |documents| && IsLastOccurrence(documents, i) ==>
      && documents[i].id in OverwriteWrite(points, documents, writeBatchSize)
      && OverwriteWrite(points, documents, writeBatchSize)[documents[i].id] == documents[i]
    ensures DistinctIds(documents) ==> forall d :: d in documents ==>
      d.id in OverwriteWrite(points, documents, writeBatchSize)
      && OverwriteWrite(points, documents, writeBatchSize)[d.id] == d
  {
    BatchesFlatten(documents, writeBatchSize);
    UpsertAllLastWins(points, documents);
    if DistinctIds(documents) {
      UpsertAllDistinct(points, documents);
    }
  }

  /** The collection after an OVERWRITE write of `documents` in batches of `writeBatchSize`. */
  function OverwriteWrite(points: map<string, Document>, documents: seq<Document>, writeBatchSize: nat)
    : map<string, Document>
  {
    UpsertAll(points, Flatten(Batches(documents, writeBatchSize)))
  }
}
