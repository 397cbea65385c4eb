/** The record fetcher `get_pages`: it posts database queries and follows
    the pagination cursor. The remote API is a finite sequence of responses;
    the k-th request the fetcher makes is answered by the k-th response. */
module Fetch {
  import opened Wrappers

  /** One query response: `results`, `has_more` and `next_cursor`
      (`None` for a JSON `null`). */
  datatype Page<R> = Page(results: seq<R>, hasMore: bool, nextCursor: Option<string>)

  /** The JSON payload of one query: the first carries only `page_size`,
      every follow-up also `start_cursor`. */
  datatype Request =
    | FirstQuery(pageSize: int)
    | NextQuery(pageSize: int, startCursor: Option<string>)
  {
    function PageSize(): int {
      match this
      case FirstQuery(n) => n
      case NextQuery(n, _) => n
    }
  }

  /** The page size used when every page is fetched. */
  const FetchAllPageSize: int := 100

  /** The page size of `get_pages(num_pages)`. */
  function PageSizeFor(numPages: Option<int>): int {
    if numPages.None? then FetchAllPageSize else numPages.value
  }

  /** Some response says there is nothing more: the database is finite. */
  predicate Finishes<R>(api: seq<Page<R>>) {
    exists i :: 0 <= i < |api| && !api[i].hasMore
  }

  /** The position of the first response whose `has_more` is false. */
  function FirstFinal<R>(api: seq<Page<R>>): (n: nat)
    requires Finishes(api)
    ensures n < |api| && !api[n].hasMore
    ensures forall i :: 0 <= i < n ==> api[i].hasMore
  {
    if !api[0].hasMore then 0
    else
      assert Finishes(api[1..]) by {
        var i :| 0 <= i < |api| && !api[i].hasMore;
        assert i > 0 && !api[1..][i - 1].hasMore;
      }
      1 + FirstFinal(api[1..])
  }

  /** How many responses `get_pages(num_pages)` reads: one when a page size
      is given, otherwise every response up to the first final one. */
  function PagesConsumed<R>(api: seq<Page<R>>, numPages: Option<int>): (n: nat)
    requires |api| > 0
    requires numPages.None? ==> Finishes(api)
    ensures 1 <= n <= |api|
  {
    if numPages.None? then FirstFinal(api) + 1 else 1
  }

  /** The results of the given responses, concatenated in order. */
  function Flatten<R>(pages: seq<Page<R>>): seq<R> {
    if pages == [] then [] else Flatten(pages[..|pages| - 1]) + pages[|pages| - 1].results
  }

  /** `get_pages(num_pages)`, with `num_pages = None` as `numPages.None?`.
      Returns the accumulated results and the requests in the order they
      were posted. */
  method GetPages<R>(api: seq<Page<R>>, numPages: Option<int>)
      returns (results: seq<R>, requests: seq<Request>)
    requires |api| > 0
    requires numPages.None? ==> Finishes(api)
    ensures |requests| == PagesConsumed(api, numPages)
    ensures results == Flatten(api[..|requests|])
    ensures requests[0] == FirstQuery(PageSizeFor(numPages))
    ensures forall i :: 0 <= i < |requests| ==> requests[i].PageSize() == PageSizeFor(numPages)
    ensures forall i :: 0 < i < |requests| ==>
      requests[i] == NextQuery(PageSizeFor(numPages), api[i - 1].nextCursor)
    ensures numPages.None? ==>
      (forall i :: 0 <= i < |requests| - 1 ==> api[i].hasMore) && !api[|requests| - 1].hasMore
    ensures numPages.Some? ==> requests == [FirstQuery(numPages.value)] && results == api[0].results
  {
    var getAll := numPages.None?;
    var pageSize := PageSizeFor(numPages);
    requests := [FirstQuery(pageSize)];
    var data := api[0];
    results := data.results;
    assert api[..1] == [api[0]];
    var k := 1;
    while data.hasMore && getAll
      invariant 1 <= k <= |api|
      invariant getAll ==> k <= FirstFinal(api) + 1
      invariant !getAll ==> k == 1
      invariant data == api[k - 1]
      invariant |requests| == k
      invariant results == Flatten(api[..k])
      invariant requests[0] == FirstQuery(pageSize)
      invariant forall i :: 0 < i < k ==> requests[i] == NextQuery(pageSize, api[i - 1].nextCursor)
      invariant forall i :: 0 <= i < k - 1 ==> api[i].hasMore
      decreases |api| - k
    {
      requests := requests + [NextQuery(pageSize, data.nextCursor)];
      data := api[k];
      assert api[..k + 1][..k] == api[..k];
      k := k + 1;
      results := results + data.results;
    }
  }

  /** A feed whose responses all say `has_more` except the last is read to
      the end, one request per response. */
  lemma ReadsWholeFeed<R>(api: seq<Page<R>>)
    requires |api| > 0 && !api[|api| - 1].hasMore
    requires forall i :: 0 <= i < |api| - 1 ==> api[i].hasMore
    ensures PagesConsumed(api, None) == |api|
    ensures api[..PagesConsumed(api, None)] == api
  {
    assert Finishes(api) by { assert !api[|api| - 1].hasMore; }
  }

  /** Every result of every consumed response is returned, at the offset
      given by the sizes of the responses before it. */
  lemma {:induction false} FlattenAt<R>(pages: seq<Page<R>>, k: nat, j: nat)
    requires k < |pages| && j < |pages[k].results|
    ensures |Flatten(pages[..k])| + j < |Flatten(pages)|
    ensures Flatten(pages)[|Flatten(pages[..k])| + j] == pages[k].results[j]
    decreases |pages|
  {
    var n := |pages|;
    if k == n - 1 {
      assert pages[..n - 1] == pages[..k];
    } else {
      var init := pages[..n - 1];
      assert init[..k] == pages[..k];
      FlattenAt(init, k, j);
    }
  }
}
