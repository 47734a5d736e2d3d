# Qdrant document store — a Dafny model

This project models the local logic of Haystack's `QdrantDocumentStore`
(`integrations/qdrant/src/haystack_integrations/document_stores/qdrant/document_store.py`).
That logic is the bookkeeping and validation that surrounds the calls the store
makes to the Qdrant client:

- splitting a list of documents into upsert batches (`get_batches_from_generator`);
- dropping documents with a repeated id, keeping the first (`_drop_duplicate_documents`);
- the duplicate policies FAIL, SKIP and OVERWRITE against the ids already stored
  (`_handle_duplicate_documents`);
- `write_documents`, which deduplicates, applies the policy and upserts batch by batch;
- `filter_documents` and the scroll loop of `_get_documents_generator`;
- the filter shape check (`_validate_filters`);
- the similarity table and `get_distance`;
- the collection configuration the store creates (`_prepare_collection_config`);
- the check an existing collection must pass (`_validate_collection_compatibility`);
- the choice `_set_up_collection` makes between the two;
- the derived setting of `__init__`: `sparse_idf` is off unless sparse
  embeddings are on;
- the local decisions of the sparse, dense and hybrid queries, including
  `group_size or DEFAULT_GROUP_SIZE`;
- the flattening of grouped results (`_process_group_results`).

Modules, one per file:

| file | module | what it holds |
|---|---|---|
| `errors.dfy` | `StoreErrors` | `Option`, `Result`, `Outcome` and the store's error kinds (`ValueError`, `QdrantStoreError`, `DuplicateDocumentError`) |
| `sequences.dfy` | `Sequences` | `Flatten` and the subsequence relation, with their lemmas |
| `batching.dfy` | `Batching` | the batching loop, specified by `Batches` |
| `documents.dfy` | `Documents` | documents, deduplication, duplicate policies, upsert semantics |
| `settings.dfy` | `Settings` | the instance fields set by `__init__` |
| `filters.dfy` | `Filters` | filter validation |
| `collection.dfy` | `Collection` | distances, collection configuration, compatibility, set-up |
| `queries.dfy` | `Queries` | query requests and grouped results |
| `scrolling.dfy` | `Scrolling` | the scroll loop over a sequence of pages |
| `document_store.dfy` | `DocumentStore` | the `QdrantDocumentStore` class with `WriteDocuments` and `FilterDocuments` |

How the Qdrant side is represented:

- The collection is the class field `points: map<string, Document>`, keyed by
  document id. Every upsert call is appended to the field `upserts`. An upsert
  stores each document under its id, and a later document with the same id wins.
- The ids that `get_documents_by_id` would find are the keys of `points`.
  `Documents.WithoutFoundIsWithoutStored` shows that filtering by the ids found
  among the written documents is the same as filtering by every stored id.
- The responses of successive `scroll` calls are a sequence of pages, each a
  list of records and the offset of the next page.

Three points where the model follows the code closely:

- `islice` raises `ValueError` for a batch size below 0 or above `sys.maxsize`.
  The generator is lazy, so that error surfaces when `write_documents` asks for
  the first batch, before any upsert. A batch size of zero yields no batch at
  all: `write_documents` then upserts nothing
  (`DocumentStore.ZeroBatchSizeUpsertsNothing`) and still returns the number
  of documents the policy let through (the last case of the ensures of
  `DocumentStore.QdrantDocumentStore.WriteDocuments`).
- `write_documents` defaults to the FAIL policy, and so does `WriteDocuments`.
  `DuplicatePolicy.NONE` and a `None` policy (the default of
  `_handle_duplicate_documents`) behave alike and are one constructor,
  `Unspecified`.
- `_validate_collection_compatibility` checks twice whether a named-vector
  layout was used (lines 1707-1709 and 1715-1717). Both checks are modelled.
  `Collection.ValidateCollectionCompatibility` proves that neither can ever fire.

## Model

| member | source | states |
|---|---|---|
| Batching.GetBatchesFromGenerator | integrations/qdrant/src/haystack_integrations/document_stores/qdrant/document_store.py:43-51 | an `n` below 0 or above `sys.maxsize` is `islice`'s `ValueError`; otherwise the batches yielded are `Batches(iterable, n)` (loop invariant: batches so far followed by the batches of the rest are the batches of the whole) |
| Batching.BatchesFlatten | integrations/qdrant/src/haystack_integrations/document_stores/qdrant/document_store.py:43-51 | for `n > 0`, concatenating the batches gives back the input, in order |
| Batching.BatchesShape | integrations/qdrant/src/haystack_integrations/document_stores/qdrant/document_store.py:43-51 | every batch is non-empty and at most `n` long; all but the last are exactly `n` long |
| Batching.BatchesEmpty | integrations/qdrant/src/haystack_integrations/document_stores/qdrant/document_store.py:43-51 | there are no batches exactly when the input is empty or `n` is zero |
| Batching.BatchesCover | integrations/qdrant/src/haystack_integrations/document_stores/qdrant/document_store.py:43-51 | for `n > 0`, an element is in the input iff it is in some batch |
| Documents.DropDuplicateDocuments | integrations/qdrant/src/haystack_integrations/document_stores/qdrant/document_store.py:1504-1523 | the loop with the set of seen ids returns exactly `Deduplicated(documents)` |
| Documents.DeduplicatedDistinct | integrations/qdrant/src/haystack_integrations/document_stores/qdrant/document_store.py:1504-1523 | the deduplicated list has pairwise distinct ids |
| Documents.DeduplicatedIds | integrations/qdrant/src/haystack_integrations/document_stores/qdrant/document_store.py:1504-1523 | deduplication keeps the set of ids of the input |
| Documents.DeduplicatedSubsequence | integrations/qdrant/src/haystack_integrations/document_stores/qdrant/document_store.py:1504-1523 | the deduplicated list is a subsequence of the input |
| Documents.DeduplicatedKeepsFirst | integrations/qdrant/src/haystack_integrations/document_stores/qdrant/document_store.py:1504-1523 | a document is kept iff it is the first one of the input carrying its id (both directions) |
| Documents.DeduplicatedDistinctIsIdentity | integrations/qdrant/src/haystack_integrations/document_stores/qdrant/document_store.py:1504-1523 | a list with distinct ids is left unchanged |
| Documents.DeduplicatedIdempotent | integrations/qdrant/src/haystack_integrations/document_stores/qdrant/document_store.py:1504-1523 | deduplicating twice is deduplicating once |
| Documents.Without | integrations/qdrant/src/haystack_integrations/document_stores/qdrant/document_store.py:1472 | the filtered list holds exactly the documents whose id is not excluded, is a subsequence of its input and keeps distinct ids distinct |
| Documents.HandleDuplicateDocuments | integrations/qdrant/src/haystack_integrations/document_stores/qdrant/document_store.py:1449-1474 | OVERWRITE and no policy return the input unchanged; SKIP returns the deduplicated input without stored ids; FAIL raises `DuplicateDocumentError` naming the stored ids exactly when some input id is stored, and otherwise returns what SKIP returns |
| Documents.WithoutFoundIsWithoutStored | integrations/qdrant/src/haystack_integrations/document_stores/qdrant/document_store.py:1464-1472 | dropping the ids found among the documents equals dropping every stored id |
| Documents.SkipResult | integrations/qdrant/src/haystack_integrations/document_stores/qdrant/document_store.py:1461-1474 | the documents a SKIP write keeps have distinct ids, and their ids are the input ids that are not stored |
| Documents.UpsertAll | integrations/qdrant/src/haystack_integrations/document_stores/qdrant/document_store.py:414-420 | after upserting, the collection's ids are the old ids plus the written ids, and every document whose id was not written is unchanged |
| Documents.UpsertAllAppend | integrations/qdrant/src/haystack_integrations/document_stores/qdrant/document_store.py:408-422 | upserting a list in two consecutive calls is upserting it in one |
| Documents.UpsertAllDistinct | integrations/qdrant/src/haystack_integrations/document_stores/qdrant/document_store.py:414-420 | when the written ids are distinct, each written document is what the collection then holds under its id |
| Documents.UpsertAllLastWins | integrations/qdrant/src/haystack_integrations/document_stores/qdrant/document_store.py:414-420 | when an id is written more than once, the collection holds the last document written under it |
| Settings.NewSettings | integrations/qdrant/src/haystack_integrations/document_stores/qdrant/document_store.py:256 | `sparse_idf` is on only when sparse embeddings are on, and then equals the argument |
| Queries.DefaultStore | integrations/qdrant/src/haystack_integrations/document_stores/qdrant/document_store.py:113-134 | with every default, set-up without an existing collection creates a single unnamed cosine vector of size 768 not on disk; sparse and hybrid queries are refused and dense queries name no vector |
| DocumentStore.QdrantDocumentStore.constructor | integrations/qdrant/src/haystack_integrations/document_stores/qdrant/document_store.py:224-264 | the fields are set from the arguments with the `sparse_idf` rule; no upsert has been made |
| DocumentStore.QdrantDocumentStore.WriteDocuments | integrations/qdrant/src/haystack_integrations/document_stores/qdrant/document_store.py:373-424 | the policy defaults to FAIL; an empty list returns 0 and changes nothing; a policy error, or a batch size `islice` refuses, is returned and changes nothing; otherwise the count is the length of the policy's list, the upserts made are that list's batches, and the collection is the old one with them upserted |
| DocumentStore.QdrantDocumentStore.UpsertBatches | integrations/qdrant/src/haystack_integrations/document_stores/qdrant/document_store.py:408-422 | the batches are upserted one call each, in order: the upsert log grows by exactly these batches, and the collection is the old one with their documents upserted in order (loop invariant over the batches done so far) |
| DocumentStore.QdrantDocumentStore.FilterDocuments | integrations/qdrant/src/haystack_integrations/document_stores/qdrant/document_store.py:337-357 | a rejected filter is returned before anything is read; otherwise the result is the records of every page up to the one that ends the scroll |
| DocumentStore.ZeroBatchSizeUpsertsNothing | integrations/qdrant/src/haystack_integrations/document_stores/qdrant/document_store.py:408-422 | with a batch size of zero no batch is made, and whatever the collection holds it is left unchanged |
| DocumentStore.SkipWriteKeepsStoredDocuments | integrations/qdrant/src/haystack_integrations/document_stores/qdrant/document_store.py:1459-1472 | a SKIP write keeps every stored document unchanged, and the collection gains exactly the input's new ids, each under the first document carrying it |
| DocumentStore.OverwriteWriteStoresEveryId | integrations/qdrant/src/haystack_integrations/document_stores/qdrant/document_store.py:380-424 | an OVERWRITE write replaces stored documents by the input's: every input id holds the last input document carrying it (with distinct ids, each input document as it is), and documents whose id is not written are kept |
| Filters.ValidateFilters | integrations/qdrant/src/haystack_integrations/document_stores/qdrant/document_store.py:1604-1617 | a falsy filter, a `Filter` object or a dict with `operator` is accepted; a truthy non-dict non-`Filter` is the first `ValueError`; a non-empty dict without `operator` is the second (each an if-and-only-if) |
| Collection.GetDistance | integrations/qdrant/src/haystack_integrations/document_stores/qdrant/document_store.py:1194-1213 | `cosine`, `dot_product` and `l2` map to COSINE, DOT and EUCLID, each iff; any other string is a `QdrantStoreError` |
| Collection.PrepareCollectionConfig | integrations/qdrant/src/haystack_integrations/document_stores/qdrant/document_store.py:1565-1602 | `None` arguments fall back to the fields; without sparse embeddings a single dense vector of the given size and distance and no sparse config; with them the same dense params under the dense name and one sparse vector whose IDF modifier is present iff `sparse_idf` |
| Collection.ValidateCollectionCompatibility | integrations/qdrant/src/haystack_integrations/document_stores/qdrant/document_store.py:1657-1740 | accepted iff a vector config exists, it is named iff sparse embeddings are used, a named config has the dense entry, and the distance and size match; layout failures are `QdrantStoreError`s, checked before a distance `ValueError`, which comes before a size `ValueError`; the two repeated layout checks never fire |
| Collection.SetUpCollection | integrations/qdrant/src/haystack_integrations/document_stores/qdrant/document_store.py:1251-1306 | an unknown similarity is an error; the collection is created iff recreation is asked for or none exists, and then with `_prepare_collection_config` of the instance's size, distance, `on_disk`, `use_sparse_embeddings` and `sparse_idf`; an existing collection is reused iff it is compatible, and otherwise the error is exactly the one `_validate_collection_compatibility` raises (a `QdrantStoreError` for a wrong layout, a `ValueError` for a different distance or size) |
| Collection.CreatedCollectionIsReused | integrations/qdrant/src/haystack_integrations/document_stores/qdrant/document_store.py:1251-1306 | a collection the store created passes its own compatibility check when set up again without recreation |
| Collection.ManhattanCollectionIsNeverReused | integrations/qdrant/src/haystack_integrations/document_stores/qdrant/document_store.py:1657-1740 | a collection using a distance outside the similarity table is never reused |
| Queries.EffectiveGroupSize | integrations/qdrant/src/haystack_integrations/document_stores/qdrant/document_store.py:747 | a missing or zero group size becomes 3; any other value is kept |
| Queries.GroupingOf | integrations/qdrant/src/haystack_integrations/document_stores/qdrant/document_store.py:736-750 | a grouped query is made iff `group_by` is a non-empty string, with the effective group size |
| Queries.QueryBySparse | integrations/qdrant/src/haystack_integrations/document_stores/qdrant/document_store.py:690-765 | refused with `QdrantStoreError` iff sparse embeddings are off; otherwise searches the sparse vector with the grouping and limit asked for, returning vectors iff `return_embedding` |
| Queries.QueryByEmbedding | integrations/qdrant/src/haystack_integrations/document_stores/qdrant/document_store.py:767-825 | always allowed; names the dense vector iff sparse embeddings are on; the grouping and limit are those asked for, and vectors are returned iff `return_embedding` |
| Queries.QueryHybrid | integrations/qdrant/src/haystack_integrations/document_stores/qdrant/document_store.py:827-938 | refused with `QdrantStoreError` iff sparse embeddings are off; otherwise fuses a sparse and a dense prefetch, with the grouping and limit asked for, returning vectors iff `return_embedding` |
| Queries.QueriesMatchCollectionLayout | integrations/qdrant/src/haystack_integrations/document_stores/qdrant/document_store.py:1565-1602 | every allowed query names only vectors of the collection the store creates, and names none exactly when that collection has one unnamed vector |
| Queries.ProcessGroupResults | integrations/qdrant/src/haystack_integrations/document_stores/qdrant/document_store.py:1643-1655 | no groups give an empty list; one group gives its hits in their order; a point is in the result iff it is a hit of some group (with `ProcessGroupResultsAppend`, the groups' hits group after group, each in order) |
| Queries.ProcessGroupResultsAppend | integrations/qdrant/src/haystack_integrations/document_stores/qdrant/document_store.py:1643-1655 | the results of consecutive runs of groups are concatenated in order |
| Queries.ProcessGroupResultsLength | integrations/qdrant/src/haystack_integrations/document_stores/qdrant/document_store.py:1643-1655 | the result has one entry per hit |
| Scrolling.ScrollDocuments | integrations/qdrant/src/haystack_integrations/document_stores/qdrant/document_store.py:554-589 | the documents yielded are the records of the pages up to the first one whose offset ends the scroll; the first request has no offset; each later one carries the previous page's offset, which is not an end offset |

## Left out

- The async twins (`_initialize_async_client`, `filter_documents_async`,
  `write_documents_async`, `_handle_duplicate_documents_async` and the rest)
  repeat the synchronous logic around asynchronous I/O.
- Every Qdrant client call is left out as I/O: `count`, `upsert`, `delete`,
  `retrieve`, `scroll`, `query_points`, `query_points_groups`, and collection
  creation, deletion and payload indexing. `count_documents`,
  `delete_documents` and `get_documents_by_id` are therefore not modelled.
  Upsert and scroll are represented by the class fields and the page sequence
  described above.
- The search and Reciprocal Rank Fusion run in Qdrant. The query model covers
  only the local decisions: refusal, vector names, grouping, limit and whether
  vectors are returned.
- Score scaling in `_process_query_point_results` is floating-point arithmetic
  with `exp`.
- `to_dict`, `from_dict` and `_prepare_client_params` rely on reflection, the
  serialization framework and secret resolution.
- Progress bars and logging are left out.
- `sys.maxsize` is taken to be that of a 64-bit interpreter, 2^63 - 1
  (`Batching.SYS_MAXSIZE`); a 32-bit interpreter would refuse larger batch
  sizes from 2^31 on.
- The `isinstance(doc, Document)` check of `write_documents` is not modelled:
  the model's documents are typed.
- The `converters` and `filters` helper modules are not part of this model.
  This covers point↔document conversion, `convert_id` and the filter
  conversion. Documents keep their ids through an upsert and a scroll. The
  vector names are written `"text-dense"` and `"text-sparse"`; the model
  relies only on their being different.
- The `try`/`except` around the hybrid search turns any client exception into
  a `QdrantStoreError`. Client exceptions are not modelled.
- `_initialize_client` sets up the collection before `write_documents` and
  `filter_documents` run. `WriteDocuments` and `FilterDocuments` start from a
  collection that is already set up; the set-up itself is
  `Collection.SetUpCollection`.
- `_query_by_sparse`, `_query_by_embedding` and `_query_hybrid` also call
  `_initialize_client` first, before the sparse-embeddings refusal. So a
  refused query still sets up (or rejects) the collection. The query model
  starts from a store that is already set up, as above.
- `wait=self.wait_result_from_api` on every upsert is not modelled. When it is
  false, Qdrant acknowledges the upsert before applying it, so the collection
  that `WriteDocuments` ensures is the state once the upserts are applied, not
  necessarily the one a read right after the call would see.
- Scrolling.ScrollDocuments: requires that some response ends the scroll.
  Without one the source loops forever, which the model does not represent.
- The test files and `question_answering.py` are not part of this model.
