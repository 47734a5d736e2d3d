/**
 * Documents as the store sees them when writing: deduplication by id
 * (`_drop_duplicate_documents`), the duplicate policy applied against the ids
 * already stored (`_handle_duplicate_documents`), and the effect of an upsert
 * on the collection.
 */
module Documents {
  import opened StoreErrors
  import opened Sequences

  /**
   * A Haystack document. The store's bookkeeping looks only at `id`; the
   * rest of the document (content, meta, embeddings, score) is carried,
   * uninterpreted, in `content`.
   */
  datatype Document = Document(id: string, content: string)

  function IdsOf(docs: seq<Document>): set<string> {
    set d | d in docs :: d.id
  }

  lemma IdsOfSnoc(docs: seq<Document>, x: Document)
    ensures IdsOf(docs + [x]) == IdsOf(docs) + {x.id}
  {
    assert forall d :: d in docs + [x] <==> d in docs || d == x;
  }

  predicate DistinctIds(docs: seq<Document>) {
    forall i, j :: 0 <= i < j < |docs| ==> docs[i].id != docs[j].id
  }

  /** `docs[i]` is the first document of `docs` carrying its id. */
  predicate IsFirstOccurrence(docs: seq<Document>, i: int)
    requires 0 <= i < |docs|
  {
    forall j :: 0 <= j < i ==> docs[j].id != docs[i].id
  }

  // ---------------------------------------------------------------------------
  // Deduplication

  /**
   * The documents `_drop_duplicate_documents` keeps: scanning left to right,
   * a document is kept unless an earlier one carried the same id.
   */
  function Deduplicated(docs: seq<Document>): seq<Document> {
    if docs == [] then []
    else
      var prefix := docs[..|docs| - 1];
      var last := docs[|docs| - 1];
      if last.id in IdsOf(prefix) then Deduplicated(prefix)
      else Deduplicated(prefix) + [last]
  }

  lemma DeduplicatedSnoc(docs: seq<Document>, x: Document)
    ensures Deduplicated(docs + [x])
         == if x.id in IdsOf(docs) then Deduplicated(docs) else Deduplicated(docs) + [x]
  {
    assert (docs + [x])[..|docs|] == docs;
  }

  /** Deduplication keeps the set of ids. */
  lemma {:induction false} DeduplicatedIds(docs: seq<Document>)
    ensures IdsOf(Deduplicated(docs)) == IdsOf(docs)
    decreases |docs|
  {
    if docs != [] {
      var prefix, last := docs[..|docs| - 1], docs[|docs| - 1];
      assert docs == prefix + [last];
      DeduplicatedIds(prefix);
      IdsOfSnoc(prefix, last);
      if last.id !in IdsOf(prefix) {
        IdsOfSnoc(Deduplicated(prefix), last);
      }
    }
  }

  /** No two kept documents share an id. */
  lemma {:induction false} DeduplicatedDistinct(docs: seq<Document>)
    ensures DistinctIds(Deduplicated(docs))
    decreases |docs|
  {
    if docs != [] {
      var prefix, last := docs[..|docs| - 1], docs[|docs| - 1];
      DeduplicatedDistinct(prefix);
      DeduplicatedIds(prefix);
      if last.id !in IdsOf(prefix) {
        var d := Deduplicated(prefix);
        forall i | 0 <= i < |d| ensures d[i].id != last.id {
          assert d[i] in d;
        }
      }
    }
  }

  /** The kept documents appear in the input, in the input's order. */
  lemma {:induction false} DeduplicatedSubsequence(docs: seq<Document>)
    ensures IsSubsequence(Deduplicated(docs), docs)
    decreases |docs|
  {
    if docs != [] {
      var prefix, last := docs[..|docs| - 1], docs[|docs| - 1];
      assert docs == prefix + [last];
      DeduplicatedSubsequence(prefix);
      if last.id in IdsOf(prefix) {
        SubsequenceExtend(Deduplicated(prefix), prefix, last);
      } else {
        SubsequenceSnoc(Deduplicated(prefix), prefix, last);
      }
    }
  }

  /** An id is absent from a list exactly when no position carries it. */
  lemma IdNotIn(docs: seq<Document>, id: string)
    ensures id !in IdsOf(docs) <==> forall j :: 0 <= j < |docs| ==> docs[j].id != id
  {
    if id in IdsOf(docs) {
      var d :| d in docs && d.id == id;
      var j :| 0 <= j < |docs| && docs[j] == d;
    }
  }

  /** Each kept document is the first of the input carrying its id. */
  lemma {:induction false} DeduplicatedOnlyFirsts(docs: seq<Document>)
    ensures forall d :: d in Deduplicated(docs) ==>
              exists i :: 0 <= i < |docs| && docs[i] == d && IsFirstOccurrence(docs, i)
    decreases |docs|
  {
    if docs != [] {
      var prefix, last := docs[..|docs| - 1], docs[|docs| - 1];
      var n := |prefix|;
      DeduplicatedOnlyFirsts(prefix);
      DeduplicatedSnoc(prefix, last);
      assert docs == prefix + [last];
      forall d | d in Deduplicated(docs)
        ensures exists i :: 0 <= i < |docs| && docs[i] == d && IsFirstOccurrence(docs, i)
      {
        if d in Deduplicated(prefix) {
          var i :| 0 <= i < n && prefix[i] == d && IsFirstOccurrence(prefix, i);
          assert docs[i] == d && IsFirstOccurrence(docs, i);
        } else {
          IdNotIn(prefix, last.id);
          assert docs[n] == d && IsFirstOccurrence(docs, n);
        }
      }
    }
  }

  /** The first document of the input carrying an id is kept. */
  lemma {:induction false} DeduplicatedAllFirsts(docs: seq<Document>)
    ensures forall i :: 0 <= i < |docs| && IsFirstOccurrence(docs, i) ==> docs[i] in Deduplicated(docs)
    decreases |docs|
  {
    if docs != [] {
      var prefix, last := docs[..|docs| - 1], docs[|docs| - 1];
      var n := |prefix|;
      DeduplicatedAllFirsts(prefix);
      DeduplicatedSnoc(prefix, last);
      assert docs == prefix + [last];
      forall i | 0 <= i < |docs| && IsFirstOccurrence(docs, i)
        ensures docs[i] in Deduplicated(docs)
      {
        if i < n {
          assert IsFirstOccurrence(prefix, i);
        } else {
          IdNotIn(prefix, last.id);
        }
      }
    }
  }

  /**
   * For every id, the document kept is the first one carrying it: each kept
   * document is a first occurrence in the input, and each first occurrence
   * is kept.
   */
  lemma DeduplicatedKeepsFirst(docs: seq<Document>)
    ensures forall d :: d in Deduplicated(docs) ==>
              exists i :: 0 <= i < |docs| && docs[i] == d && IsFirstOccurrence(docs, i)
    ensures forall i :: 0 <= i < |docs| && IsFirstOccurrence(docs, i) ==> docs[i] in Deduplicated(docs)
  {
    DeduplicatedOnlyFirsts(docs);
    DeduplicatedAllFirsts(docs);
  }

  /** A list whose ids are already distinct is left as it is. */
  lemma {:induction false} DeduplicatedDistinctIsIdentity(docs: seq<Document>)
    requires DistinctIds(docs)
    ensures Deduplicated(docs) == docs
    decreases |docs|
  {
    if docs != [] {
      var prefix, last := docs[..|docs| - 1], docs[|docs| - 1];
      assert DistinctIds(prefix);
      DeduplicatedDistinctIsIdentity(prefix);
      IdNotIn(prefix, last.id);
      assert last.id !in IdsOf(prefix) by {
        forall j | 0 <= j < |prefix| ensures prefix[j].id != last.id {
          assert docs[j] == prefix[j];
        }
      }
      DeduplicatedSnoc(prefix, last);
      assert docs == prefix + [last];
    }
  }

  /** Deduplicating twice is deduplicating once. */
  lemma DeduplicatedIdempotent(docs: seq<Document>)
    ensures Deduplicated(Deduplicated(docs)) == Deduplicated(docs)
  {
    DeduplicatedDistinct(docs);
    DeduplicatedDistinctIsIdentity(Deduplicated(docs));
  }

  /**
   * `_drop_duplicate_documents`: one pass that appends a document to the
   * result unless its id is already in the set of ids seen.
   */
  method DropDuplicateDocuments(documents: seq<Document>) returns (result: seq<Document>)
    ensures result == Deduplicated(documents)
  {
    var hashIds: set<string> := {};
    result := [];
    for i := 0 to |documents|
      invariant result == Deduplicated(documents[..i])
      invariant hashIds == IdsOf(result)
    {
      var document := documents[i];
      assert documents[..i + 1] == documents[..i] + [document];
      DeduplicatedSnoc(documents[..i], document);
      DeduplicatedIds(documents[..i]);
      if document.id in hashIds {
        continue;
      }
      IdsOfSnoc(result, document);
      result := result + [document];
      hashIds := hashIds + {document.id};
    }
    assert documents[..|documents|] == documents;
  }

  // ---------------------------------------------------------------------------
  // Duplicate policy

  /** Documents of `docs` whose id is not in `ids`, in order. */
  function Without(docs: seq<Document>, ids: set<string>): (r: seq<Document>)
    ensures forall d :: d in r <==> d in docs && d.id !in ids
    ensures IsSubsequence(r, docs)
    ensures DistinctIds(docs) ==> DistinctIds(r)
  {
    if docs == [] then []
    else if docs[0].id in ids then
      var rest := Without(docs[1..], ids);
      assert rest != [] ==> rest[0] in rest;
      rest
    else
      var rest := Without(docs[1..], ids);
      var r := [docs[0]] + rest;
      assert r[1..] == rest;
      assert DistinctIds(docs) ==> forall d :: d in rest ==> d.id != docs[0].id by {
        if DistinctIds(docs) {
          forall d | d in rest ensures d.id != docs[0].id {
            var j :| 0 <= j < |docs[1..]| && docs[1..][j] == d;
            assert docs[j + 1] == d;
          }
        }
      }
      assert DistinctIds(docs) ==> DistinctIds(r) by {
        if DistinctIds(docs) {
          forall i, j | 0 <= i < j < |r| ensures r[i].id != r[j].id {
            if i == 0 {
              assert r[j] in rest;
            } else {
              assert r[i] == rest[i - 1] && r[j] == rest[j - 1];
            }
          }
        }
      }
      r
  }

  /**
   * Haystack's duplicate policies. `Unspecified` stands for both
   * `DuplicatePolicy.NONE` and an absent policy (`None`).
   */
  datatype DuplicatePolicy = Unspecified | Skip | Overwrite | Fail

  /**
   * `_handle_duplicate_documents`, with `stored` the ids the collection
   * already holds (what `get_documents_by_id` finds). SKIP and FAIL first
   * deduplicate; FAIL raises when some remaining id is stored; both then
   * drop the documents whose id was found.
   */
  function HandleDuplicateDocuments(documents: seq<Document>, policy: DuplicatePolicy, stored: set<string>)
    : (r: Result<seq<Document>>)
    ensures policy == Overwrite || policy == Unspecified ==> r == Ok(documents)
    ensures policy == Skip ==> r == Ok(Without(Deduplicated(documents), stored))
    ensures policy == Fail ==> (r.Err? <==> IdsOf(documents) * stored != {})
    ensures policy == Fail && r.Err? ==> r.error == DuplicateDocumentError(IdsOf(documents) * stored)
    ensures policy == Fail && r.Ok? ==> r == Ok(Without(Deduplicated(documents), stored))
  {
    if policy == Skip || policy == Fail then
      var deduped := Deduplicated(documents);
      var idsExistInDb := IdsOf(deduped) * stored;
      DeduplicatedIds(documents);
      if idsExistInDb != {} && policy == Fail then
        Err(DuplicateDocumentError(idsExistInDb))
      else
        WithoutFoundIsWithoutStored(deduped, stored);
        Ok(Without(deduped, idsExistInDb))
    else
      Ok(documents)
  }

  /** Dropping the ids found among `docs` is dropping every stored id. */
  lemma {:induction false} WithoutFoundIsWithoutStored(docs: seq<Document>, stored: set<string>)
    ensures Without(docs, IdsOf(docs) * stored) == Without(docs, stored)
  {
    WithoutAgrees(docs, IdsOf(docs) * stored, stored);
  }

  /** Filtering depends only on which of the documents' own ids are dropped. */
  lemma {:induction false} WithoutAgrees(docs: seq<Document>, a: set<string>, b: set<string>)
    requires forall d :: d in docs ==> (d.id in a <==> d.id in b)
    ensures Without(docs, a) == Without(docs, b)
    decreases |docs|
  {
    if docs != [] {
      assert forall d :: d in docs[1..] ==> d in docs;
      WithoutAgrees(docs[1..], a, b);
    }
  }

  /**
   * What SKIP (and a FAIL that does not raise) hands on for writing: distinct
   * ids, exactly the input ids not yet stored.
   */
  lemma SkipResult(documents: seq<Document>, stored: set<string>)
    ensures var r := Without(Deduplicated(documents), stored);
      && DistinctIds(r)
      && IdsOf(r) == IdsOf(documents) - stored
  {
    var deduped := Deduplicated(documents);
    DeduplicatedDistinct(documents);
    DeduplicatedIds(documents);
    var r := Without(deduped, stored);
    forall id | id in IdsOf(documents) - stored ensures id in IdsOf(r) {
      var d :| d in deduped && d.id == id;
      assert d in r;
    }
  }

  // ---------------------------------------------------------------------------
  // The collection's content

  /**
   * The collection after upserting `docs` in order into `points`: each
   * document replaces whatever the collection held under its id.
   */
  function UpsertAll(points: map<string, Document>, docs: seq<Document>): (r: map<string, Document>)
    ensures r.Keys == points.Keys + IdsOf(docs)
    ensures forall id :: id in points && id !in IdsOf(docs) ==> r[id] == points[id]
    decreases |docs|
  {
    if docs == [] then points
    else
      assert IdsOf(docs) == {docs[0].id} + IdsOf(docs[1..]) by {
        assert forall d :: d in docs <==> d == docs[0] || d in docs[1..];
      }
      UpsertAll(points[docs[0].id := docs[0]], docs[1..])
  }

  lemma {:induction false} UpsertAllAppend(points: map<string, Document>, a: seq<Document>, b: seq<Document>)
    ensures UpsertAll(points, a + b) == UpsertAll(UpsertAll(points, a), b)
    decreases |a|
  {
    if a == [] {
      assert a + b == b;
    } else {
      assert (a + b)[0] == a[0] && (a + b)[1..] == a[1..] + b;
      UpsertAllAppend(points[a[0].id := a[0]], a[1..], b);
    }
  }

  /** `docs[i]` is the last document of `docs` carrying its id. */
  predicate IsLastOccurrence(docs: seq<Document>, i: int)
    requires 0 <= i < |docs|
  {
    forall j :: i < j < |docs| ==> docs[j].id != docs[i].id
  }

  /** For a repeated id, the collection holds the last document written under it. */
  lemma {:induction false} UpsertAllLastWins(points: map<string, Document>, docs: seq<Document>)
    ensures forall i :: 0 <= i < |docs| && IsLastOccurrence(docs, i) ==>
      docs[i].id in UpsertAll(points, docs) && UpsertAll(points, docs)[docs[i].id] == docs[i]
    decreases |docs|
  {
    if docs != [] {
      var rest := docs[1..];
      var first := docs[0];
      UpsertAllLastWins(points[first.id := first], rest);
      forall i | 0 <= i < |docs| && IsLastOccurrence(docs, i)
        ensures docs[i].id in UpsertAll(points, docs) && UpsertAll(points, docs)[docs[i].id] == docs[i]
      {
        if i == 0 {
          IdNotIn(rest, first.id);
          assert first.id !in IdsOf(rest) by {
            forall j | 0 <= j < |rest| ensures rest[j].id != first.id {
              assert rest[j] == docs[j + 1];
            }
          }
        } else {
          assert rest[i - 1] == docs[i];
          assert IsLastOccurrence(rest, i - 1) by {
            forall j | i - 1 < j < |rest| ensures rest[j].id != rest[i - 1].id {
              assert rest[j] == docs[j + 1];
            }
          }
        }
      }
    }
  }

  /** With distinct ids, every upserted document is what the collection then holds under its id. */
  lemma {:induction false} UpsertAllDistinct(points: map<string, Document>, docs: seq<Document>)
    requires DistinctIds(docs)
    ensures forall d :: d in docs ==> d.id in UpsertAll(points, docs) && UpsertAll(points, docs)[d.id] == d
    decreases |docs|
  {
    if docs != [] {
      var rest := docs[1..];
      assert DistinctIds(rest);
      UpsertAllDistinct(points[docs[0].id := docs[0]], rest);
      assert docs[0].id !in IdsOf(rest) by {
        forall d | d in rest ensures d.id != docs[0].id {
          var j :| 0 <= j < |rest| && rest[j] == d;
          assert docs[j + 1] == d;
        }
      }
      forall d | d in docs ensures UpsertAll(points, docs)[d.id] == d {
        if d != docs[0] {
          assert d in rest;
        }
      }
    }
  }
}
