/**
 * The scroll loop of `_get_documents_generator`: page through the collection,
 * passing each page's next offset to the following request, until Qdrant
 * answers with an offset that marks the end.
 */
module Scrolling {
  import opened Documents

  /**
   * The next-page offset of a scroll response: none, a point id of the REST
   * API (an integer or a UUID, written out), or a gRPC `PointId`.
   */
  datatype NextOffset =
    | NoOffset
    | RestPointId(id: string)
    | GrpcPointId(num: int, uuid: string)

  /** `next_offset is None`, or a gRPC `PointId` with `num == 0` and `uuid == ""`. */
  predicate IsEnd(offset: NextOffset) {
    offset.NoOffset? || (offset.GrpcPointId? && offset.num == 0 && offset.uuid == "")
  }

  /** One scroll response: a page of records and the offset of the next page. */
  datatype Page = Page(records: seq<Document>, next: NextOffset)

  /** The records of the pages up to and including the first one whose offset marks the end. */
  function ScrolledRecords(pages: seq<Page>): seq<Document> {
    ScrolledFrom(pages, 0)
  }

  /** The records of `pages[j]` and the pages after it, up to the first one whose offset marks the end. */
  function ScrolledFrom(pages: seq<Page>, j: nat): seq<Document>
    requires j <= |pages|
    decreases |pages| - j
  {
    if j == |pages| then []
    else pages[j].records + (if IsEnd(pages[j].next) then [] else ScrolledFrom(pages, j + 1))
  }

  /** Some response marks the end: without one the loop never stops. */
  predicate EndsSomewhere(pages: seq<Page>) {
    exists k :: 0 <= k < |pages| && IsEnd(pages[k].next)
  }

  /** No page before the `n`-th marks the end. */
  predicate NoEndBefore(pages: seq<Page>, n: int)
    requires n <= |pages|
  {
    forall j :: 0 <= j < n ==> !IsEnd(pages[j].next)
  }

  /** The offsets sent with the first `k` scroll requests. */
  function OffsetsSent(pages: seq<Page>, k: nat): seq<NextOffset>
    requires k <= |pages|
  {
    if k == 0 then [] else OffsetsSent(pages, k - 1) + [if k == 1 then NoOffset else pages[k - 2].next]
  }

  /** The records of the first `k` responses, in order. */
  function RecordsRead(pages: seq<Page>, k: nat): seq<Document>
    requires k <= |pages|
  {
    if k == 0 then [] else RecordsRead(pages, k - 1) + pages[k - 1].records
  }

  lemma {:induction false} OffsetsSentAt(pages: seq<Page>, k: nat)
    requires k <= |pages|
    ensures |OffsetsSent(pages, k)| == k
    ensures forall j :: 0 <= j < k ==>
      OffsetsSent(pages, k)[j] == if j == 0 then NoOffset else pages[j - 1].next
  {
    if k > 0 {
      OffsetsSentAt(pages, k - 1);
    }
  }

  /** Reading page after page, up to the first page that marks the end, reads the scrolled records. */
  lemma {:induction false} RecordsReadPrefix(pages: seq<Page>, j: nat)
    requires j <= |pages| && NoEndBefore(pages, j)
    ensures ScrolledRecords(pages) == RecordsRead(pages, j) + ScrolledFrom(pages, j)
  {
    if j > 0 {
      assert NoEndBefore(pages, j - 1);
      RecordsReadPrefix(pages, j - 1);
      assert !IsEnd(pages[j - 1].next);
    }
  }

  lemma RecordsReadUpToEnd(pages: seq<Page>, k: nat)
    requires 0 < k <= |pages| && NoEndBefore(pages, k - 1) && IsEnd(pages[k - 1].next)
    ensures RecordsRead(pages, k) == ScrolledRecords(pages)
  {
    RecordsReadPrefix(pages, k - 1);
  }

  /**
   * The loop, with `pages[k]` the response to the k-th scroll request. It
   * returns the documents yielded and the offset sent with each request.
   */
  method ScrollDocuments(pages: seq<Page>) returns (documents: seq<Document>, requested: seq<NextOffset>)
    requires EndsSomewhere(pages)
    ensures documents == ScrolledRecords(pages)
    ensures 0 < |requested| <= |pages|
    ensures requested[0] == NoOffset
    ensures forall k :: 0 < k < |requested| ==> requested[k] == pages[k - 1].next && !IsEnd(requested[k])
    ensures IsEnd(pages[|requested| - 1].next)
  {
    ghost var end :| 0 <= end < |pages| && IsEnd(pages[end].next);
    var nextOffset := NoOffset;
    var stopScrolling := false;
    var k := 0;
    documents := [];
    requested := [];
    while !stopScrolling
      invariant 0 <= k <= |pages|
      invariant !stopScrolling ==> k <= end
      invariant requested == OffsetsSent(pages, k) && |requested| == k
      invariant documents == RecordsRead(pages, k)
      invariant nextOffset == (if k == 0 then NoOffset else pages[k - 1].next)
      invariant NoEndBefore(pages, if stopScrolling then k - 1 else k)
      invariant stopScrolling ==> k > 0 && IsEnd(pages[k - 1].next)
      decreases |pages| - k, !stopScrolling
    {
      requested := requested + [nextOffset];
      var page := pages[k];
      nextOffset := page.next;
      stopScrolling := IsEnd(nextOffset);
      documents := documents + page.records;
      k := k + 1;
    }
    assert IsEnd(pages[k - 1].next);
    OffsetsSentAt(pages, k);
    RecordsReadUpToEnd(pages, k);
  }
}
