/**
 * Paginated retrieval of document descriptors updated within a date range.
 * The API is an oracle: `responses[k]` is what the k-th request (0-based)
 * receives, None for a failed request; a request past the end of the oracle
 * fails too.
 */
module Pagination {
  import opened Wrappers

  /** A decoded answer: its `data` list (empty when absent) and its paging fields. */
  datatype Page<D> = Page(data: seq<D>, page: int, pageCount: int)

  /** The query parameters of one request. */
  datatype Query = Query(filters: seq<string>, limit: int, offset: int)

  /** The `updatedAt` filters of the date range, in the API's filter syntax. */
  function DateFilters(startDate: string, endDate: string): seq<string>
  {
    ["updatedAt||$gte||" + startDate, "updatedAt||$lte||" + endDate]
  }

  /** What the k-th request receives. */
  function Answer<D>(responses: seq<Option<Page<D>>>, k: nat): Option<Page<D>>
  {
    if k < |responses| then responses[k] else None
  }

  /** The loop's paging state: the next page number and the page count. */
  datatype Cursor = Cursor(page: int, pageCount: int)

  /** The loop asks for another page while the page count is not below the next page. */
  predicate Continues(c: Cursor)
  {
    c.pageCount >= c.page
  }

  /**
   * The paging state after an answered request: the paging fields are taken
   * from the answer only while the page count is still 0, then the page
   * number moves on by one.
   */
  function Advance<D>(c: Cursor, p: Page<D>): Cursor
  {
    if c.pageCount == 0 then Cursor(p.page + 1, p.pageCount) else Cursor(c.page + 1, c.pageCount)
  }

  /** The paging state after the first k requests. */
  function CursorAfter<D>(responses: seq<Option<Page<D>>>, k: nat): Cursor
  {
    if k == 0 then Cursor(0, 0)
    else
      match Answer(responses, k - 1)
      case None => CursorAfter(responses, k - 1)
      case Some(p) => Advance(CursorAfter(responses, k - 1), p)
  }

  /** The documents received in the first k requests, in order. */
  function Gathered<D>(responses: seq<Option<Page<D>>>, k: nat): seq<D>
  {
    if k == 0 then []
    else
      match Answer(responses, k - 1)
      case None => Gathered(responses, k - 1)
      case Some(p) => Gathered(responses, k - 1) + p.data
  }

  /**
   * The loop makes exactly n requests: before each of them the loop
   * condition held, each but the last one was answered, and after the last
   * one either it failed or the condition no longer holds.
   */
  ghost predicate StopsAt<D>(responses: seq<Option<Page<D>>>, n: nat)
  {
    && n >= 1
    && (forall k :: 0 <= k < n ==> Continues(CursorAfter(responses, k)))
    && (forall k :: 0 <= k < n - 1 ==> Answer(responses, k).Some?)
    && (Answer(responses, n - 1).None? || !Continues(CursorAfter(responses, n)))
  }

  /**
   * Fetch every page of the date range. `sent` holds the queries in the
   * order they were sent; `documents` everything the answered requests
   * carried, in order, the pages before a failed request included.
   */
  method FetchByDateRange<D>(startDate: string, endDate: string, responses: seq<Option<Page<D>>>)
    returns (documents: seq<D>, sent: seq<Query>)
    ensures StopsAt(responses, |sent|)
    ensures forall k :: 0 <= k < |sent| ==> sent[k] == Query(DateFilters(startDate, endDate), 100, 100 * k)
    ensures documents == Gathered(responses, |sent|)
  {
    var filters := DateFilters(startDate, endDate);
    var offset := 0;
    documents, sent := [], [];
    var page, pageCount := 0, 0;
    while pageCount >= page
      invariant |sent| <= |responses|
      invariant offset == 100 * |sent|
      invariant forall k :: 0 <= k < |sent| ==> sent[k] == Query(filters, 100, 100 * k)
      invariant forall k :: 0 <= k < |sent| ==> Answer(responses, k).Some?
      invariant forall k :: 0 <= k < |sent| ==> Continues(CursorAfter(responses, k))
      invariant Cursor(page, pageCount) == CursorAfter(responses, |sent|)
      invariant documents == Gathered(responses, |sent|)
      decreases |responses| - |sent|
    {
      sent := sent + [Query(filters, 100, offset)];
      var answer := Answer(responses, |sent| - 1);
      offset := offset + 100;
      if answer.Some? && answer.value.data != [] {
        documents := documents + answer.value.data;
      }
      if answer.None? {
        break;
      }
      if pageCount == 0 {
        pageCount := answer.value.pageCount;
        page := answer.value.page;
      }
      page := page + 1;
    }
  }

  /** The number of requests is determined by the answers. */
  lemma StopsAtUnique<D>(responses: seq<Option<Page<D>>>, n: nat, m: nat)
    requires StopsAt(responses, n) && StopsAt(responses, m)
    ensures n == m
  {
  }

  /**
   * Once an answer with a non-zero page count is in, the count is fixed and
   * the page number goes up by one per answered request.
   */
  lemma {:induction false} CursorAfterFirstPage<D>(responses: seq<Option<Page<D>>>, n: nat)
    requires forall j :: 0 <= j < n ==> Answer(responses, j).Some?
    requires Answer(responses, 0).Some? && Answer(responses, 0).value.pageCount != 0
    ensures forall k :: 1 <= k <= n ==>
      CursorAfter(responses, k) == Cursor(Answer(responses, 0).value.page + k, Answer(responses, 0).value.pageCount)
  {
    if n > 1 {
      CursorAfterFirstPage(responses, n - 1);
    }
  }

  /**
   * The number of requests when nothing fails: a first answer with page p
   * and page count P (not 0) leads to P - p + 1 requests when P >= p, and to
   * one request otherwise.
   */
  lemma RequestCount<D>(responses: seq<Option<Page<D>>>, n: nat)
    requires StopsAt(responses, n)
    requires Answer(responses, 0).Some? && Answer(responses, 0).value.pageCount != 0
    requires var first := Answer(responses, 0).value;
      var expected := if first.pageCount >= first.page then first.pageCount - first.page + 1 else 1;
      forall j :: 0 <= j < expected ==> Answer(responses, j).Some?
    ensures var first := Answer(responses, 0).value;
      n == if first.pageCount >= first.page then first.pageCount - first.page + 1 else 1
  {
    var first := Answer(responses, 0).value;
    var expected := if first.pageCount >= first.page then first.pageCount - first.page + 1 else 1;
    CursorAfterFirstPage(responses, expected);
    assert n > expected ==> Continues(CursorAfter(responses, expected));
  }

  /**
   * A first answer with page count 0 and a page number of at least 0 (the
   * answer for a range with no documents) ends the loop after one request.
   */
  lemma EmptyRangeOneRequest<D>(responses: seq<Option<Page<D>>>, n: nat)
    requires StopsAt(responses, n)
    requires Answer(responses, 0).Some?
    requires Answer(responses, 0).value.pageCount == 0 && Answer(responses, 0).value.page >= 0
    ensures n == 1
  {
    assert CursorAfter(responses, 1) == Cursor(Answer(responses, 0).value.page + 1, 0);
  }

  /** Later requests only add documents: what the first j requests gathered is kept, in order. */
  lemma {:induction false} GatheredKeepsEarlier<D>(responses: seq<Option<Page<D>>>, j: nat, n: nat)
    requires j <= n
    ensures Gathered(responses, j) <= Gathered(responses, n)
    decreases n
  {
    if j < n {
      GatheredKeepsEarlier(responses, j, n - 1);
    }
  }

  /** Every gathered document was in the data of an answered request. */
  lemma {:induction false} GatheredFromAnswers<D>(responses: seq<Option<Page<D>>>, n: nat, x: D)
    requires x in Gathered(responses, n)
    ensures exists k :: 0 <= k < n && Answer(responses, k).Some? && x in Answer(responses, k).value.data
  {
    if n > 0 {
      match Answer(responses, n - 1)
      case None =>
        GatheredFromAnswers(responses, n - 1, x);
      case Some(p) =>
        if x !in p.data {
          GatheredFromAnswers(responses, n - 1, x);
        }
    }
  }
}
