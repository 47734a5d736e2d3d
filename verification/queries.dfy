/**
 * The local decisions of the three retrieval paths (`_query_by_sparse`,
 * `_query_by_embedding`, `_query_hybrid`): whether the query is allowed,
 * which vector it uses, whether it is grouped and with what group size; and
 * how grouped results are flattened (`_process_group_results`). The search
 * itself, and Reciprocal Rank Fusion, run in Qdrant.
 */
module Queries {
  import opened StoreErrors
  import opened Sequences
  import opened Settings
  import opened Collection

  /** Group size used when grouping is asked for without one. */
  const DEFAULT_GROUP_SIZE: int := 3

  /** `group_size or DEFAULT_GROUP_SIZE`: `None` and `0` are both falsy. */
  function EffectiveGroupSize(groupSize: Option<int>): (r: int)
    ensures groupSize == None || groupSize == Some(0) ==> r == DEFAULT_GROUP_SIZE
    ensures groupSize.Some? && groupSize.value != 0 ==> r == groupSize.value
    ensures r != 0
  {
    match groupSize
    case Some(g) => if g != 0 then g else DEFAULT_GROUP_SIZE
    case None => DEFAULT_GROUP_SIZE
  }

  /** `if group_by:` — `None` and the empty string are falsy. */
  predicate IsGrouped(groupBy: Option<string>) {
    groupBy.Some? && groupBy.value != ""
  }

  datatype Grouping = Grouping(groupBy: string, groupSize: int)

  /**
   * The request sent to Qdrant: the named vector searched (`using`), the
   * named vectors of the prefetches fused by RRF (hybrid search only), the
   * grouping, the limit and whether vectors are returned.
   */
  datatype QueryRequest = QueryRequest(
    using: Option<string>,
    prefetchUsing: seq<string>,
    grouping: Option<Grouping>,
    limit: int,
    withVectors: bool)

  function GroupingOf(groupBy: Option<string>, groupSize: Option<int>): (g: Option<Grouping>)
    ensures g.Some? <==> IsGrouped(groupBy)
    ensures g.Some? ==> g.value == Grouping(groupBy.value, EffectiveGroupSize(groupSize))
  {
    if IsGrouped(groupBy) then Some(Grouping(groupBy.value, EffectiveGroupSize(groupSize))) else None
  }

  /** `_query_by_sparse`: refused unless the store uses sparse embeddings. */
  function QueryBySparse(
    s: StoreSettings, topK: int, returnEmbedding: bool, groupBy: Option<string>, groupSize: Option<int>)
    : (r: Result<QueryRequest>)
    ensures r.Err? <==> !s.useSparseEmbeddings
    ensures r.Err? ==> r.error == QdrantStoreError(SparseEmbeddingsDisabled)
    ensures r.Ok? ==> r.value.using == Some(SPARSE_VECTORS_NAME) && r.value.prefetchUsing == []
    ensures r.Ok? ==> r.value.grouping == GroupingOf(groupBy, groupSize) && r.value.limit == topK
    ensures r.Ok? ==> r.value.withVectors == returnEmbedding
  {
    if !s.useSparseEmbeddings then Err(QdrantStoreError(SparseEmbeddingsDisabled))
    else Ok(QueryRequest(Some(SPARSE_VECTORS_NAME), [], GroupingOf(groupBy, groupSize), topK, returnEmbedding))
  }

  /** `_query_by_embedding`: always allowed; names the dense vector only in a named-vector collection. */
  function QueryByEmbedding(
    s: StoreSettings, topK: int, returnEmbedding: bool, groupBy: Option<string>, groupSize: Option<int>)
    : (r: Result<QueryRequest>)
    ensures r.Ok?
    ensures r.value.using == (if s.useSparseEmbeddings then Some(DENSE_VECTORS_NAME) else None)
    ensures r.value.prefetchUsing == []
    ensures r.value.grouping == GroupingOf(groupBy, groupSize) && r.value.limit == topK
    ensures r.value.withVectors == returnEmbedding
  {
    Ok(QueryRequest(
      if s.useSparseEmbeddings then Some(DENSE_VECTORS_NAME) else None,
      [], GroupingOf(groupBy, groupSize), topK, returnEmbedding))
  }

  /** `_query_hybrid`: refused unless the store uses sparse embeddings; fuses a sparse and a dense prefetch. */
  function QueryHybrid(
    s: StoreSettings, topK: int, returnEmbedding: bool, groupBy: Option<string>, groupSize: Option<int>)
    : (r: Result<QueryRequest>)
    ensures r.Err? <==> !s.useSparseEmbeddings
    ensures r.Err? ==> r.error == QdrantStoreError(SparseEmbeddingsDisabled)
    ensures r.Ok? ==> r.value.using == None
    ensures r.Ok? ==> r.value.prefetchUsing == [SPARSE_VECTORS_NAME, DENSE_VECTORS_NAME]
    ensures r.Ok? ==> r.value.grouping == GroupingOf(groupBy, groupSize) && r.value.limit == topK
    ensures r.Ok? ==> r.value.withVectors == returnEmbedding
  {
    if !s.useSparseEmbeddings then Err(QdrantStoreError(SparseEmbeddingsDisabled))
    else Ok(QueryRequest(
      None, [SPARSE_VECTORS_NAME, DENSE_VECTORS_NAME], GroupingOf(groupBy, groupSize), topK, returnEmbedding))
  }

  /** The vector names a collection created with `cfg` holds. */
  function VectorNames(cfg: CollectionConfig): set<string> {
    (if cfg.vectors.NamedVectors? then cfg.vectors.named.Keys else {})
    + (if cfg.sparseVectors.Some? then cfg.sparseVectors.value.Keys else {})
  }

  /**
   * Every query the store allows names only vectors that the collection it
   * creates holds, and names none exactly when that collection has a single
   * unnamed vector.
   */
  lemma QueriesMatchCollectionLayout(
    s: StoreSettings, distance: Distance, topK: int, returnEmbedding: bool,
    groupBy: Option<string>, groupSize: Option<int>)
    ensures var cfg := PrepareCollectionConfig(
              s, s.embeddingDim, distance, Some(s.onDisk), Some(s.useSparseEmbeddings), s.sparseIdf);
      forall q :: q in [QueryBySparse(s, topK, returnEmbedding, groupBy, groupSize),
                        QueryByEmbedding(s, topK, returnEmbedding, groupBy, groupSize),
                        QueryHybrid(s, topK, returnEmbedding, groupBy, groupSize)] && q.Ok? ==>
        && (q.value.using.Some? ==> q.value.using.value in VectorNames(cfg))
        && (forall name :: name in q.value.prefetchUsing ==> name in VectorNames(cfg))
        && (q.value.using.None? && q.value.prefetchUsing == [] <==> cfg.vectors.SingleVector?)
  {
  }

  /**
   * The store built with every default (a dense-only cosine collection of
   * dimension 768 on no disk): setting up without an existing collection
   * creates one with a single unnamed vector, dense queries name no vector,
   * and sparse and hybrid queries are refused.
   */
  lemma DefaultStore(topK: int, returnEmbedding: bool, groupBy: Option<string>, groupSize: Option<int>)
    ensures SetUpCollection(DefaultSettings(), None)
         == Ok(Created(CollectionConfig(SingleVector(VectorParams(768, Cosine, Some(false))), None)))
    ensures QueryBySparse(DefaultSettings(), topK, returnEmbedding, groupBy, groupSize)
         == Err(QdrantStoreError(SparseEmbeddingsDisabled))
    ensures QueryHybrid(DefaultSettings(), topK, returnEmbedding, groupBy, groupSize)
         == Err(QdrantStoreError(SparseEmbeddingsDisabled))
    ensures QueryByEmbedding(DefaultSettings(), topK, returnEmbedding, groupBy, groupSize).value.using == None
  {
  }

  /** A group of hits returned by a grouped query. */
  datatype PointGroup<P> = PointGroup(hits: seq<P>)

  function HitsOf<P>(groups: seq<PointGroup<P>>): (hs: seq<seq<P>>)
    ensures |hs| == |groups| && forall k :: 0 <= k < |groups| ==> hs[k] == groups[k].hits
  {
    seq(|groups|, k requires 0 <= k < |groups| => groups[k].hits)
  }

  /**
   * `_process_group_results`: the hits of every group, group after group,
   * each group's hits in order (the conversion of a point to a document is
   * not part of this model). No groups give an empty list, one group gives
   * its hits in their order, and a point is in the result exactly when it is
   * a hit of some group; with `ProcessGroupResultsAppend` this fixes the
   * result.
   */
  function ProcessGroupResults<P(!new)>(groups: seq<PointGroup<P>>): (r: seq<P>)
    ensures groups == [] ==> r == []
    ensures |groups| == 1 ==> r == groups[0].hits
    ensures forall p :: p in r <==> exists k :: 0 <= k < |groups| && p in groups[k].hits
  {
    if groups == [] then []
    else
      var hits := HitsOf(groups);
      assert |groups| == 1 ==> Flatten(hits) == groups[0].hits by {
        if |groups| == 1 {
          assert hits == [groups[0].hits];
          assert Flatten(hits) == groups[0].hits + Flatten(hits[1..]);
        }
      }
      assert forall p :: p in Flatten(hits) <==> exists k :: 0 <= k < |groups| && p in groups[k].hits by {
        forall p ensures p in Flatten(hits) <==> exists k :: 0 <= k < |groups| && p in groups[k].hits {
          FlattenMembership(hits, p);
        }
      }
      Flatten(hits)
  }

  /** Results of consecutive runs of groups are concatenated in the same order. */
  lemma ProcessGroupResultsAppend<P(!new)>(a: seq<PointGroup<P>>, b: seq<PointGroup<P>>)
    ensures ProcessGroupResults(a + b) == ProcessGroupResults(a) + ProcessGroupResults(b)
  {
    assert HitsOf(a + b) == HitsOf(a) + HitsOf(b);
    FlattenAppend(HitsOf(a), HitsOf(b));
  }

  /** The result holds one entry per hit. */
  lemma {:induction false} ProcessGroupResultsLength<P(!new)>(groups: seq<PointGroup<P>>)
    ensures |ProcessGroupResults(groups)| == TotalHits(groups)
    decreases |groups|
  {
    if groups != [] {
      assert groups == [groups[0]] + groups[1..];
      ProcessGroupResultsAppend([groups[0]], groups[1..]);
      ProcessGroupResultsLength(groups[1..]);
      assert HitsOf([groups[0]]) == [groups[0].hits];
      assert Flatten([groups[0].hits]) == groups[0].hits + Flatten([groups[0].hits][1..]);
    }
  }

  function TotalHits<P>(groups: seq<PointGroup<P>>): nat {
    if groups == [] then 0 else |groups[0].hits| + TotalHits(groups[1..])
  }
}
