/** getDataBatch: request pages 0, 1, 2, ... one at a time, stop before
    yielding an empty page, and stop after yielding page p once (p + 1) * 10
    reaches the row budget. The lazy generator is modelled by the finite run it
    produces: the batches yielded, how many pages were requested, and the
    KeyError that ended the run, if one did. */
module Paging {
  import opened NewsTypes
  import Normalize

  /** What the upstream returns for each page number: its records, or the
      KeyError raised while mapping them. */
  type Pages = nat -> Result<seq<Record>>

  /** The records of a page, as get_news_items computes them for a connector. */
  function NewsPages(fetch: Fetch, config: Config): Pages
  {
    (p: nat) => Normalize.NewsItems(fetch(config.apiKey, config.query, p))
  }

  /** A finished run of the generator: the batches it yielded, the number of
      pages it requested, and the error it raised, if any. */
  datatype Run = Run(batches: seq<seq<Record>>, fetched: nat, failure: Option<KeyError>)

  /** The run of the generator loop entered with the page counter at `page`. */
  function RunFrom(pages: Pages, budget: int, page: nat): Run
    decreases budget - page * 10
  {
    match pages(page)
    case Err(e) => Run([], 1, Some(e))
    case Ok(items) =>
      if items == [] then Run([], 1, None)
      else if (page + 1) * 10 >= budget then Run([items], 1, None)
      else
        var rest := RunFrom(pages, budget, page + 1);
        Run([items] + rest.batches, 1 + rest.fetched, rest.failure)
  }

  /** The run of getDataBatch(budget). */
  function Batches(pages: Pages, budget: int): Run
  {
    RunFrom(pages, budget, 0)
  }

  /** Everything a run from `page` says about the pages it saw: batch k is page
      page + k and is not empty; at most one requested page is not yielded, and
      it is either the empty page or the failing one; a run that yields every
      page it requests stopped on the budget and on no earlier page; a page
      requested after a yielded one is always within the budget. */
  lemma {:induction false} RunFromShape(pages: Pages, budget: int, page: nat)
    ensures var s := RunFrom(pages, budget, page);
      && |s.batches| <= s.fetched <= |s.batches| + 1
      && (forall k :: 0 <= k < |s.batches| ==> pages(page + k) == Ok(s.batches[k]) && s.batches[k] != [])
      && (|s.batches| >= 2 ==> (page + |s.batches| - 1) * 10 < budget)
      && (s.fetched == |s.batches| ==> |s.batches| >= 1 && (page + |s.batches|) * 10 >= budget && s.failure.None?)
      && (s.fetched == |s.batches| + 1 && s.failure.None? ==> pages(page + |s.batches|) == Ok([]))
      && (s.fetched == |s.batches| + 1 && |s.batches| >= 1 ==> (page + |s.batches|) * 10 < budget)
      && (s.failure.Some? ==> s.fetched == |s.batches| + 1 && pages(page + |s.batches|) == Err(s.failure.value))
    decreases budget - page * 10
  {
    var s := RunFrom(pages, budget, page);
    if pages(page).Ok? && pages(page).value != [] && (page + 1) * 10 < budget {
      RunFromShape(pages, budget, page + 1);
      var rest := RunFrom(pages, budget, page + 1);
      assert s.batches == [pages(page).value] + rest.batches;
      forall k | 0 <= k < |s.batches|
        ensures pages(page + k) == Ok(s.batches[k]) && s.batches[k] != []
      {
        if k > 0 { assert s.batches[k] == rest.batches[k - 1]; }
      }
    }
  }

  /** The number of batches a run yields when no page is empty and none fails:
      one page, or as many pages of ten as it takes to reach the budget. */
  function PagesForBudget(budget: int): (n: nat)
    ensures n >= 1 && n * 10 >= budget
    ensures n >= 2 ==> (n - 1) * 10 < budget
  {
    if budget <= 10 then 1 else (budget + 9) / 10
  }

  /** No run yields or requests more pages than the budget allows. */
  lemma BatchesAtMostBudget(pages: Pages, budget: int)
    ensures |Batches(pages, budget).batches| <= PagesForBudget(budget)
    ensures Batches(pages, budget).fetched <= PagesForBudget(budget)
    ensures budget <= 10 ==> |Batches(pages, budget).batches| <= 1
  {
    RunFromShape(pages, budget, 0);
  }

  /** A page that is never empty and never fails. */
  ghost predicate AlwaysFull(pages: Pages)
  {
    forall p: nat :: pages(p).Ok? && pages(p).value != []
  }

  /** With an upstream that never runs dry, getDataBatch(budget) yields exactly
      max(1, ceil(budget / 10)) batches, pages 0, 1, ... in order, requests no
      page it does not yield, and raises nothing. */
  lemma BatchesWhenAlwaysFull(pages: Pages, budget: int)
    requires AlwaysFull(pages)
    ensures var s := Batches(pages, budget);
      && |s.batches| == PagesForBudget(budget)
      && s.fetched == |s.batches|
      && s.failure.None?
      && forall k :: 0 <= k < |s.batches| ==> Ok(s.batches[k]) == pages(k)
  {
    var s := Batches(pages, budget);
    RunFromShape(pages, budget, 0);
    assert pages(|s.batches|).Ok? && pages(|s.batches|).value != [];
    BatchesAtMostBudget(pages, budget);
  }

  /** A run entered at `page` over full pages page .. e - 1 and an empty page
      e, with the budget letting it reach e, yields exactly those full pages. */
  lemma {:induction false} RunFromStopsAtEmpty(pages: Pages, budget: int, page: nat, e: nat)
    requires page <= e
    requires forall p: nat :: page <= p < e ==> pages(p).Ok? && pages(p).value != []
    requires pages(e) == Ok([])
    requires e == page || e * 10 < budget
    ensures var s := RunFrom(pages, budget, page);
      && |s.batches| == e - page
      && s.fetched == e - page + 1
      && s.failure.None?
      && forall k :: 0 <= k < e - page ==> Ok(s.batches[k]) == pages(page + k)
    decreases e - page
  {
    if page < e {
      assert pages(page).Ok? && pages(page).value != [];
      RunFromStopsAtEmpty(pages, budget, page + 1, e);
      var s := RunFrom(pages, budget, page);
      var rest := RunFrom(pages, budget, page + 1);
      assert s.batches == [pages(page).value] + rest.batches;
      forall k | 0 <= k < e - page ensures Ok(s.batches[k]) == pages(page + k) {
        if k > 0 { assert s.batches[k] == rest.batches[k - 1]; }
      }
    }
  }

  /** The first empty page ends the run before the budget does: when pages
      0 .. e - 1 are full, page e is empty and the budget would have allowed
      page e, the run yields exactly pages 0 .. e - 1 and requests e + 1 pages. */
  lemma BatchesStopAtEmptyPage(pages: Pages, budget: int, e: nat)
    requires forall p: nat :: p < e ==> pages(p).Ok? && pages(p).value != []
    requires pages(e) == Ok([])
    requires e < PagesForBudget(budget)
    ensures var s := Batches(pages, budget);
      && |s.batches| == e
      && s.fetched == e + 1
      && s.failure.None?
      && forall k :: 0 <= k < e ==> Ok(s.batches[k]) == pages(k)
  {
    RunFromStopsAtEmpty(pages, budget, 0, e);
  }

  /** A run entered at `page` after yielding `prefix`: the whole run seen from
      the start of the loop. */
  function After(prefix: seq<seq<Record>>, page: nat, rest: Run): Run
  {
    Run(prefix + rest.batches, page + rest.fetched, rest.failure)
  }

  /** One turn of the loop, as a step from the run at `page` to what it
      becomes: an exit on a failing page, on an empty page, on the budget, or
      a yielded page followed by the run at page + 1. */
  lemma RunFromStep(pages: Pages, budget: int, prefix: seq<seq<Record>>, page: nat)
    ensures pages(page).Err? ==>
      After(prefix, page, RunFrom(pages, budget, page)) == Run(prefix, page + 1, Some(pages(page).error))
    ensures pages(page) == Ok([]) ==>
      After(prefix, page, RunFrom(pages, budget, page)) == Run(prefix, page + 1, None)
    ensures pages(page).Ok? && pages(page).value != [] && (page + 1) * 10 >= budget ==>
      After(prefix, page, RunFrom(pages, budget, page)) == Run(prefix + [pages(page).value], page + 1, None)
    ensures pages(page).Ok? && pages(page).value != [] && (page + 1) * 10 < budget ==>
      After(prefix, page, RunFrom(pages, budget, page))
        == After(prefix + [pages(page).value], page + 1, RunFrom(pages, budget, page + 1))
  {
    assert prefix + [] == prefix;
    if pages(page).Ok? && pages(page).value != [] && (page + 1) * 10 < budget {
      var rest := RunFrom(pages, budget, page + 1);
      assert prefix + ([pages(page).value] + rest.batches) == (prefix + [pages(page).value]) + rest.batches;
    }
  }

  /** getDataBatch: the page counter starts at 0; an empty page stops the loop
      before it is yielded; after a page is yielded the counter is incremented
      and the loop stops once counter * 10 reaches the budget. `requested`
      lists the page numbers passed to get_news_items, in order. */
  method GetDataBatch(fetch: Fetch, config: Config, batchSize: int)
    returns (batches: seq<seq<Record>>, requested: seq<nat>, failure: Option<KeyError>)
    ensures Run(batches, |requested|, failure) == Batches(NewsPages(fetch, config), batchSize)
    ensures forall k :: 0 <= k < |requested| ==> requested[k] == k
  {
    ghost var pages := NewsPages(fetch, config);
    batches, requested, failure := [], [], None;
    var page: nat := 0;
    while true
      invariant page == |batches| == |requested|
      invariant page == 0 || page * 10 < batchSize
      invariant forall k :: 0 <= k < |requested| ==> requested[k] == k
      invariant Batches(pages, batchSize) == After(batches, page, RunFrom(pages, batchSize, page))
      decreases (if batchSize > 0 then batchSize else 0) + 10 - page * 10
    {
      var newsItems := Normalize.GetNewsItems(fetch, config.apiKey, config.query, page);
      assert newsItems == pages(page);
      RunFromStep(pages, batchSize, batches, page);
      requested := requested + [page];
      if newsItems.Err? {
        failure := Some(newsItems.error);
        return;
      }
      if newsItems.value == [] {
        return;
      }
      batches := batches + [newsItems.value];
      page := page + 1;
      if page * 10 >= batchSize {
        return;
      }
    }
  }
}
