/** The multi-page driver of server.py: the bounded breadth-first crawl of a
    site's pagination, the scrape of every crawled page with results
    deduplicated across pages, the summary line and the validation of the
    URL a user submits.

    Fetching is a map from URL to page text: a URL outside the map is a
    failed fetch, which ends the whole crawl with an error, as the
    exception the source's `fetch` raises would.  The tokenizer and
    `urljoin` are parameters. */
module ServerSite {
  import opened Text
  import opened Html
  import opened Urls
  import opened ServerLinks
  import opened PricePattern
  import opened Extract
  import Dedup

  /** `MAX_PAGINATION_PAGES`, the default `limit`. */
  const MaxPaginationPages: nat := 20

  type Fetch = map<string, string>
  type Tokenizer = string -> seq<Event>

  function FetchFailed(url: string): string {
    "cannot fetch " + url
  }

  // ---------------------------------------------------------------------
  // `_collect_paginated_pages`

  /** The pagination URLs `_discover_pagination_urls` finds on a page,
      given its URL and text. */
  function LinksOf(tokenize: Tokenizer, join: Join): (string, string) -> seq<string> {
    (url, htmlText) => Discovered(AnchorRun(tokenize(htmlText)).links, url, join)
  }

  /** The normal forms under `norm` of the URLs of `pages`. */
  function NormalSet(pages: seq<(string, string)>, norm: string -> string): set<string>
    decreases |pages|
  {
    if pages == [] then {} else NormalSet(pages[..|pages| - 1], norm) + {norm(pages[|pages| - 1].0)}
  }

  lemma {:induction false} NormalSetMeaning(pages: seq<(string, string)>, norm: string -> string)
    ensures forall u :: u in NormalSet(pages, norm) <==> exists i :: 0 <= i < |pages| && norm(pages[i].0) == u
    decreases |pages|
  {
    if pages != [] {
      var n := |pages| - 1;
      NormalSetMeaning(pages[..n], norm);
      assert forall i :: 0 <= i < n ==> pages[..n][i] == pages[i];
    }
  }

  lemma {:induction false} NormalSetSize(pages: seq<(string, string)>, norm: string -> string)
    ensures |NormalSet(pages, norm)| <= |pages|
    decreases |pages|
  {
    if pages != [] {
      NormalSetSize(pages[..|pages| - 1], norm);
    }
  }

  /** No two pages share a normal form: no page was fetched twice. */
  ghost predicate DistinctPages(pages: seq<(string, string)>, norm: string -> string) {
    forall i, j :: 0 <= i < j < |pages| ==> norm(pages[i].0) != norm(pages[j].0)
  }

  /** As many normal forms as pages means no normal form repeats. */
  lemma {:induction false} DistinctBySize(pages: seq<(string, string)>, norm: string -> string)
    requires |NormalSet(pages, norm)| == |pages|
    ensures DistinctPages(pages, norm)
    decreases |pages|
  {
    if pages != [] {
      var n := |pages| - 1;
      var init := pages[..n];
      var known, x := NormalSet(init, norm), norm(pages[n].0);
      NormalSetSize(init, norm);
      FreshBySize(known, x, n);
      DistinctBySize(init, norm);
      NormalSetMeaning(init, norm);
      assert pages == init + [pages[n]];
      DistinctSnoc(init, pages[n], norm);
    }
  }

  /** An element whose addition makes a set of at most `n` elements one
      of `n + 1` was not in it. */
  lemma FreshBySize<T>(known: set<T>, x: T, n: nat)
    requires |known| <= n && |known + {x}| == n + 1
    ensures x !in known && |known| == n
  {
    assert x in known ==> known + {x} == known;
  }

  lemma DistinctSnoc(init: seq<(string, string)>, last: (string, string), norm: string -> string)
    requires DistinctPages(init, norm)
    requires forall i :: 0 <= i < |init| ==> norm(init[i].0) != norm(last.0)
    ensures DistinctPages(init + [last], norm)
  {
    var pages := init + [last];
    forall i, j | 0 <= i < j < |pages| ensures norm(pages[i].0) != norm(pages[j].0) {
      assert pages[i] == init[i];
      if j < |init| {
        assert pages[j] == init[j];
      }
    }
  }

  /** Every page holds what fetching its URL gives. */
  ghost predicate Fetched(pages: seq<(string, string)>, fetch: Fetch) {
    forall i :: 0 <= i < |pages| ==> pages[i].0 in fetch && pages[i].1 == fetch[pages[i].0]
  }

  /** `Fetched`, one page at a time. */
  ghost predicate AllFetched(pages: seq<(string, string)>, fetch: Fetch)
    decreases |pages|
  {
    pages == [] ||
    (AllFetched(pages[..|pages| - 1], fetch) &&
     pages[|pages| - 1].0 in fetch && pages[|pages| - 1].1 == fetch[pages[|pages| - 1].0])
  }

  lemma {:induction false} AllFetchedMeaning(pages: seq<(string, string)>, fetch: Fetch)
    requires AllFetched(pages, fetch)
    ensures Fetched(pages, fetch)
    decreases |pages|
  {
    if pages != [] {
      var n := |pages| - 1;
      AllFetchedMeaning(pages[..n], fetch);
      assert forall i :: 0 <= i < n ==> pages[..n][i] == pages[i];
    }
  }

  /** `u` is among the links of one of `pages`. */
  ghost predicate LinkedFrom(u: string, pages: seq<(string, string)>, links: (string, string) -> seq<string>)
    decreases |pages|
  {
    pages != [] &&
    (u in links(pages[|pages| - 1].0, pages[|pages| - 1].1) || LinkedFrom(u, pages[..|pages| - 1], links))
  }

  lemma {:induction false} LinkedFromMeaning(u: string, pages: seq<(string, string)>, links: (string, string) -> seq<string>)
    requires LinkedFrom(u, pages, links)
    ensures exists i :: 0 <= i < |pages| && u in links(pages[i].0, pages[i].1)
    decreases |pages|
  {
    var n := |pages| - 1;
    if u !in links(pages[n].0, pages[n].1) {
      LinkedFromMeaning(u, pages[..n], links);
      var i :| 0 <= i < n && u in links(pages[..n][i].0, pages[..n][i].1);
      assert pages[..n][i] == pages[i];
    }
  }

  /** Every entry of `es` after the first is linked from one of `pages`. */
  ghost predicate AllLinked(es: seq<string>, pages: seq<(string, string)>, links: (string, string) -> seq<string>)
    decreases |es|
  {
    |es| <= 1 || (AllLinked(es[..|es| - 1], pages, links) && LinkedFrom(es[|es| - 1], pages, links))
  }

  lemma {:induction false} AllLinkedMeaning(es: seq<string>, pages: seq<(string, string)>, links: (string, string) -> seq<string>)
    requires AllLinked(es, pages, links)
    ensures forall k :: 1 <= k < |es| ==> exists i :: 0 <= i < |pages| && es[k] in links(pages[i].0, pages[i].1)
    decreases |es|
  {
    if |es| > 1 {
      var n := |es| - 1;
      AllLinkedMeaning(es[..n], pages, links);
      LinkedFromMeaning(es[n], pages, links);
      assert forall k :: 1 <= k < n ==> es[..n][k] == es[k];
    }
  }

  lemma {:induction false} AllLinkedMorePages(es: seq<string>, pages: seq<(string, string)>, page: (string, string),
                                              links: (string, string) -> seq<string>)
    requires AllLinked(es, pages, links)
    ensures AllLinked(es, pages + [page], links)
    decreases |es|
  {
    assert (pages + [page])[..|pages|] == pages;
    if |es| > 1 {
      AllLinkedMorePages(es[..|es| - 1], pages, page, links);
    }
  }

  /** The pages were taken from `enqueued` in the order it was filled:
      page `i` is entry `order[i]`, each below `bound` and below the next. */
  ghost predicate InQueueOrder(pages: seq<(string, string)>, enqueued: seq<string>, order: seq<nat>, bound: nat)
    decreases |pages|
  {
    |order| == |pages| &&
    (pages != [] ==>
      var n := |pages| - 1;
      order[n] < bound && order[n] < |enqueued| && enqueued[order[n]] == pages[n].0 &&
      InQueueOrder(pages[..n], enqueued, order[..n], order[n]))
  }

  lemma {:induction false} InQueueOrderMeaning(pages: seq<(string, string)>, enqueued: seq<string>, order: seq<nat>, bound: nat)
    requires InQueueOrder(pages, enqueued, order, bound)
    ensures forall i :: 0 <= i < |pages| ==> order[i] < bound && order[i] < |enqueued| && enqueued[order[i]] == pages[i].0
    ensures forall i, j :: 0 <= i < j < |pages| ==> order[i] < order[j]
    decreases |pages|
  {
    if pages != [] {
      var n := |pages| - 1;
      InQueueOrderMeaning(pages[..n], enqueued, order[..n], order[n]);
      assert forall i :: 0 <= i < n ==> pages[..n][i] == pages[i] && order[..n][i] == order[i];
    }
  }

  lemma {:induction false} InQueueOrderMoreEntries(pages: seq<(string, string)>, enqueued: seq<string>, order: seq<nat>,
                                                   bound: nat, u: string)
    requires InQueueOrder(pages, enqueued, order, bound)
    ensures InQueueOrder(pages, enqueued + [u], order, bound)
    decreases |pages|
  {
    if pages != [] {
      var n := |pages| - 1;
      InQueueOrderMoreEntries(pages[..n], enqueued, order[..n], order[n], u);
    }
  }

  /** The inner loop of `_collect_paginated_pages`: the links of a page
      offered to the queue in order, each queued unless its normal form is
      visited or queued already, or the limit counts it out. */
  function Offer(candidates: seq<string>, limit: nat, norm: string -> string, visited: set<string>,
                 queue: seq<string>, queued: set<string>): (seq<string>, set<string>)
    decreases |candidates|
  {
    if candidates == [] then (queue, queued)
    else
      var n := norm(candidates[0]);
      if n in visited || n in queued || |visited| + |queued| >= limit then
        Offer(candidates[1..], limit, norm, visited, queue, queued)
      else
        Offer(candidates[1..], limit, norm, visited, queue + [candidates[0]], queued + {n})
  }

  /** The loop of `_collect_paginated_pages` from a given queue: the pages
      it fetches, in order, or the failed fetch that ends it. */
  function CrawlFrom(limit: nat, fetch: Fetch, norm: string -> string, links: (string, string) -> seq<string>,
                     queue: seq<string>, queued: set<string>, visited: set<string>,
                     pages: seq<(string, string)>): Result<seq<(string, string)>>
    decreases limit - |visited|, |queue|
  {
    if queue == [] || |visited| >= limit then Ok(pages)
    else
      var current := queue[0];
      var n := norm(current);
      if n in visited then CrawlFrom(limit, fetch, norm, links, queue[1..], queued - {n}, visited, pages)
      else if current !in fetch then Err(FetchFailed(current))
      else
        var visited' := visited + {n};
        assert |visited'| == |visited| + 1;
        var pages' := pages + [(current, fetch[current])];
        if |visited'| >= limit then CrawlFrom(limit, fetch, norm, links, queue[1..], queued - {n}, visited', pages')
        else
          var next := Offer(links(current, fetch[current]), limit, norm, visited', queue[1..], queued - {n});
          CrawlFrom(limit, fetch, norm, links, next.0, next.1, visited', pages')
  }

  /** `_collect_paginated_pages(start_url, limit=limit)`. */
  function CrawlSpec(startUrl: string, limit: nat, fetch: Fetch, norm: string -> string,
                     links: (string, string) -> seq<string>): Result<seq<(string, string)>> {
    CrawlFrom(limit, fetch, norm, links, [startUrl], {norm(startUrl)}, {}, [])
  }

  /** The state of the crawl: the queue is what remains of everything ever
      enqueued, the start URL first and every other entry linked from a
      crawled page; the pages are fetched and in queue order; `visited`
      holds their normal forms, one per page. */
  ghost predicate Crawl(startUrl: string, limit: nat, fetch: Fetch, norm: string -> string,
                        links: (string, string) -> seq<string>,
                        queue: seq<string>, visited: set<string>, pages: seq<(string, string)>,
                        enqueued: seq<string>, head: nat, order: seq<nat>)
  {
    head <= |enqueued| && queue == enqueued[head..] &&
    enqueued != [] && enqueued[0] == startUrl &&
    AllLinked(enqueued, pages, links) &&
    visited == NormalSet(pages, norm) && |visited| == |pages| <= limit &&
    AllFetched(pages, fetch) &&
    InQueueOrder(pages, enqueued, order, head) &&
    (pages == [] ==> head == 0 && |enqueued| == 1) &&
    (pages != [] ==> pages[0].0 == startUrl)
  }

  lemma CrawlStart(startUrl: string, limit: nat, fetch: Fetch, norm: string -> string,
                   links: (string, string) -> seq<string>)
    ensures Crawl(startUrl, limit, fetch, norm, links, [startUrl], {}, [], [startUrl], 0, [])
  {
  }

  /** Taking a URL off the queue whose normal form was already fetched. */
  lemma CrawlSkip(startUrl: string, limit: nat, fetch: Fetch, norm: string -> string,
                  links: (string, string) -> seq<string>,
                  queue: seq<string>, visited: set<string>, pages: seq<(string, string)>,
                  enqueued: seq<string>, head: nat, order: seq<nat>)
    requires Crawl(startUrl, limit, fetch, norm, links, queue, visited, pages, enqueued, head, order)
    requires queue != [] && norm(queue[0]) in visited
    ensures Crawl(startUrl, limit, fetch, norm, links, queue[1..], visited, pages, enqueued, head + 1, order)
  {
  }

  /** Fetching the URL at the head of the queue. */
  lemma CrawlVisit(startUrl: string, limit: nat, fetch: Fetch, norm: string -> string,
                   links: (string, string) -> seq<string>,
                   queue: seq<string>, visited: set<string>, pages: seq<(string, string)>,
                   enqueued: seq<string>, head: nat, order: seq<nat>)
    requires Crawl(startUrl, limit, fetch, norm, links, queue, visited, pages, enqueued, head, order)
    requires queue != [] && |visited| < limit
    requires norm(queue[0]) !in visited && queue[0] in fetch
    ensures Crawl(startUrl, limit, fetch, norm, links, queue[1..], visited + {norm(queue[0])},
                  pages + [(queue[0], fetch[queue[0]])], enqueued, head + 1, order + [head])
  {
    var page := (queue[0], fetch[queue[0]]);
    var pages' := pages + [page];
    assert pages'[..|pages|] == pages;
    assert (order + [head])[..|pages|] == order;
    AllLinkedMorePages(enqueued, pages, page, links);
    assert |visited + {norm(queue[0])}| == |visited| + 1;
  }

  /** Adding a link of the last fetched page to the queue. */
  lemma CrawlEnqueue(startUrl: string, limit: nat, fetch: Fetch, norm: string -> string,
                     links: (string, string) -> seq<string>,
                     queue: seq<string>, visited: set<string>, pages: seq<(string, string)>,
                     enqueued: seq<string>, head: nat, order: seq<nat>, candidate: string)
    requires Crawl(startUrl, limit, fetch, norm, links, queue, visited, pages, enqueued, head, order)
    requires pages != [] && candidate in links(pages[|pages| - 1].0, pages[|pages| - 1].1)
    ensures Crawl(startUrl, limit, fetch, norm, links, queue + [candidate], visited, pages,
                  enqueued + [candidate], head, order)
  {
    var enqueued' := enqueued + [candidate];
    assert enqueued'[head..] == enqueued[head..] + [candidate];
    assert enqueued'[..|enqueued|] == enqueued;
    InQueueOrderMoreEntries(pages, enqueued, order, head, candidate);
  }

  /** What the crawl has established when it stops. */
  lemma CrawlDone(startUrl: string, limit: nat, fetch: Fetch, norm: string -> string,
                  links: (string, string) -> seq<string>,
                  queue: seq<string>, visited: set<string>, pages: seq<(string, string)>,
                  enqueued: seq<string>, head: nat, order: seq<nat>)
    requires Crawl(startUrl, limit, fetch, norm, links, queue, visited, pages, enqueued, head, order)
    requires queue == [] || |visited| >= limit
    ensures |pages| <= limit && DistinctPages(pages, norm) && Fetched(pages, fetch)
    ensures limit > 0 ==> pages != [] && pages[0].0 == startUrl
    ensures forall i :: 0 <= i < |pages| ==> order[i] < |enqueued| && enqueued[order[i]] == pages[i].0
    ensures forall i, j :: 0 <= i < j < |pages| ==> order[i] < order[j]
    ensures forall k :: 1 <= k < |enqueued| ==> exists i :: 0 <= i < |pages| && enqueued[k] in links(pages[i].0, pages[i].1)
  {
    DistinctBySize(pages, norm);
    AllFetchedMeaning(pages, fetch);
    InQueueOrderMeaning(pages, enqueued, order, head);
    AllLinkedMeaning(enqueued, pages, links);
  }

  /** One round of the inner loop of `_collect_paginated_pages`: the links
      of the page just fetched, queued unless their normal form is visited
      or queued already, or the limit counts them out. */
  method EnqueueLinks(candidates: seq<string>, ghost startUrl: string, limit: nat, ghost fetch: Fetch,
                      norm: string -> string, ghost links: (string, string) -> seq<string>,
                      queue0: seq<string>, visited: set<string>, queued0: set<string>,
                      ghost pages: seq<(string, string)>, ghost enqueued0: seq<string>,
                      ghost head: nat, ghost order: seq<nat>)
    returns (queue: seq<string>, queued: set<string>, ghost enqueued: seq<string>)
    requires Crawl(startUrl, limit, fetch, norm, links, queue0, visited, pages, enqueued0, head, order)
    requires pages != [] && candidates == links(pages[|pages| - 1].0, pages[|pages| - 1].1)
    ensures Crawl(startUrl, limit, fetch, norm, links, queue, visited, pages, enqueued, head, order)
    ensures (queue, queued) == Offer(candidates, limit, norm, visited, queue0, queued0)
  {
    queue, queued, enqueued := queue0, queued0, enqueued0;
    for j := 0 to |candidates|
      invariant Crawl(startUrl, limit, fetch, norm, links, queue, visited, pages, enqueued, head, order)
      invariant Offer(candidates[j..], limit, norm, visited, queue, queued) ==
        Offer(candidates, limit, norm, visited, queue0, queued0)
    {
      assert candidates[j..][1..] == candidates[j + 1..];
      var candidate := candidates[j];
      var normalizedCandidate := norm(candidate);
      if normalizedCandidate in visited || normalizedCandidate in queued {
        continue;
      }
      if |visited| + |queued| >= limit {
        continue;
      }
      CrawlEnqueue(startUrl, limit, fetch, norm, links, queue, visited, pages, enqueued, head, order, candidate);
      queue := queue + [candidate];
      enqueued := enqueued + [candidate];
      queued := queued + {normalizedCandidate};
    }
  }

  /** The body of the loop of `_collect_paginated_pages` for a URL at the
      head of the queue whose normal form is new and which can be fetched:
      the page is recorded and, while the limit allows, its links queued. */
  method VisitPage(ghost startUrl: string, limit: nat, fetch: Fetch,
                   norm: string -> string, links: (string, string) -> seq<string>,
                   queue0: seq<string>, visited0: set<string>, queued0: set<string>,
                   pages0: seq<(string, string)>, ghost enqueued0: seq<string>, ghost head0: nat, ghost order0: seq<nat>)
    returns (queue: seq<string>, visited: set<string>, queued: set<string>, pages: seq<(string, string)>,
             ghost enqueued: seq<string>, ghost head: nat, ghost order: seq<nat>)
    requires Crawl(startUrl, limit, fetch, norm, links, queue0, visited0, pages0, enqueued0, head0, order0)
    requires queue0 != [] && |visited0| < limit
    requires norm(queue0[0]) !in visited0 && queue0[0] in fetch
    ensures Crawl(startUrl, limit, fetch, norm, links, queue, visited, pages, enqueued, head, order)
    ensures |visited| == |visited0| + 1
    ensures visited == visited0 + {norm(queue0[0])} && pages == pages0 + [(queue0[0], fetch[queue0[0]])]
    ensures |visited| >= limit ==> queue == queue0[1..] && queued == queued0
    ensures |visited| < limit ==>
      (queue, queued) == Offer(links(queue0[0], fetch[queue0[0]]), limit, norm, visited, queue0[1..], queued0)
  {
    var current := queue0[0];
    var htmlText := fetch[current];
    CrawlVisit(startUrl, limit, fetch, norm, links, queue0, visited0, pages0, enqueued0, head0, order0);
    queue, head, order := queue0[1..], head0 + 1, order0 + [head0];
    pages := pages0 + [(current, htmlText)];
    visited := visited0 + {norm(current)};
    queued, enqueued := queued0, enqueued0;
    if |visited| >= limit {
      return;
    }
    var candidates := links(current, htmlText);
    queue, queued, enqueued := EnqueueLinks(candidates, startUrl, limit, fetch, norm, links, queue, visited, queued,
                                            pages, enqueued, head, order);
  }

  /** What a crawl from `startUrl` achieves: the start URL was enqueued
      first and every later entry of `enqueued` is a link of a crawled
      page; the pages, at most `limit`, were fetched, each normal form
      once, the first from the start URL, and were taken from `enqueued`
      in its order (page `i` is entry `order[i]`); a failure names an
      enqueued URL that cannot be fetched. */
  ghost predicate Crawled(startUrl: string, limit: nat, fetch: Fetch,
                          norm: string -> string, links: (string, string) -> seq<string>,
                          r: Result<seq<(string, string)>>, enqueued: seq<string>, order: seq<nat>)
  {
    enqueued != [] && enqueued[0] == startUrl &&
    (r.Ok? ==>
      |r.value| <= limit && DistinctPages(r.value, norm) && Fetched(r.value, fetch) &&
      (limit > 0 ==> r.value != [] && r.value[0].0 == startUrl) &&
      |order| == |r.value| &&
      (forall i :: 0 <= i < |r.value| ==> order[i] < |enqueued| && enqueued[order[i]] == r.value[i].0) &&
      (forall i, j :: 0 <= i < j < |r.value| ==> order[i] < order[j]) &&
      (forall k :: 1 <= k < |enqueued| ==>
        exists i :: 0 <= i < |r.value| && enqueued[k] in links(r.value[i].0, r.value[i].1))) &&
    (r.Err? ==> exists u :: u in enqueued && u !in fetch && r.message == FetchFailed(u))
  }

  /** The loop of `_collect_paginated_pages`, for any normaliser `norm`
      and any link finder `links`.  `enqueued` records every URL ever put
      on the queue, and `order` where in it each page was taken from. */
  method Crawler(startUrl: string, limit: nat, fetch: Fetch,
                 norm: string -> string, links: (string, string) -> seq<string>)
    returns (r: Result<seq<(string, string)>>, ghost enqueued: seq<string>, ghost order: seq<nat>)
    ensures r == CrawlSpec(startUrl, limit, fetch, norm, links)
    ensures Crawled(startUrl, limit, fetch, norm, links, r, enqueued, order)
  {
    var queue: seq<string> := [startUrl];
    var queued: set<string> := {norm(startUrl)};
    var visited: set<string> := {};
    var pages: seq<(string, string)> := [];
    enqueued := [startUrl];
    ghost var head: nat := 0;
    order := [];
    CrawlStart(startUrl, limit, fetch, norm, links);
    while queue != [] && |visited| < limit
      invariant Crawl(startUrl, limit, fetch, norm, links, queue, visited, pages, enqueued, head, order)
      invariant CrawlFrom(limit, fetch, norm, links, queue, queued, visited, pages) ==
        CrawlSpec(startUrl, limit, fetch, norm, links)
      decreases limit - |visited|, |queue|
    {
      var current := queue[0];
      var normalizedCurrent := norm(current);
      queued := queued - {normalizedCurrent};
      if normalizedCurrent in visited {
        CrawlSkip(startUrl, limit, fetch, norm, links, queue, visited, pages, enqueued, head, order);
        queue, head := queue[1..], head + 1;
      } else if current !in fetch {
        assert current == enqueued[head];
        return Err(FetchFailed(current)), enqueued, order;
      } else {
        queue, visited, queued, pages, enqueued, head, order :=
          VisitPage(startUrl, limit, fetch, norm, links, queue, visited, queued, pages, enqueued, head, order);
      }
    }
    CrawlDone(startUrl, limit, fetch, norm, links, queue, visited, pages, enqueued, head, order);
    r := Ok(pages);
  }

  /** `_collect_paginated_pages` with `fetch` a map: the crawl with
      `_normalize_url` and `_discover_pagination_urls`. */
  method CollectPaginatedPages(startUrl: string, limit: nat, fetch: Fetch, tokenize: Tokenizer, join: Join)
    returns (r: Result<seq<(string, string)>>, ghost enqueued: seq<string>, ghost order: seq<nat>)
    ensures r == CrawlSpec(startUrl, limit, fetch, NormalizeUrl, LinksOf(tokenize, join))
    ensures Crawled(startUrl, limit, fetch, NormalizeUrl, LinksOf(tokenize, join), r, enqueued, order)
  {
    r, enqueued, order := Crawler(startUrl, limit, fetch, NormalizeUrl, LinksOf(tokenize, join));
  }

  // ---------------------------------------------------------------------
  // `scrape_site`

  /** The prices visible on a page, as `extract_prices` reports them. */
  ghost function PagePrices(htmlText: string): set<string> {
    MatchesAreSpans(SearchText(htmlText));
    Elements(VisiblePrices(SearchText(htmlText), FindAll(SearchText(htmlText), 0)))
  }

  /** The prices visible on any of `pages`. */
  ghost function SitePrices(pages: seq<(string, string)>): set<string>
    decreases |pages|
  {
    if pages == [] then {} else SitePrices(pages[..|pages| - 1]) + PagePrices(pages[|pages| - 1].1)
  }

  lemma PricesOfSnoc(rs: seq<PriceResult>, x: PriceResult)
    ensures PricesOf(rs + [x]) == PricesOf(rs) + {x.price}
  {
    assert (rs + [x])[..|rs|] == rs;
  }

  lemma PricesOfTake(rs: seq<PriceResult>, j: nat)
    requires j < |rs|
    ensures PricesOf(rs[..j + 1]) == PricesOf(rs[..j]) + {rs[j].price}
  {
    assert rs[..j + 1][..j] == rs[..j];
  }

  /** The prices of a set of keys. */
  function KeyPrices(keys: set<(string, string)>): set<string> {
    set k | k in keys :: k.1
  }

  lemma KeyPricesAdd(keys: set<(string, string)>, k: (string, string))
    ensures KeyPrices(keys + {k}) == KeyPrices(keys) + {k.1}
  {
  }

  /** The prices of the results are those of their keys. */
  lemma {:induction false} PricesOfKeys(rs: seq<PriceResult>)
    ensures PricesOf(rs) == KeyPrices(Dedup.KeySet(rs, Key))
    decreases |rs|
  {
    if rs != [] {
      var n := |rs| - 1;
      PricesOfKeys(rs[..n]);
      assert rs[..n] + [rs[n]] == rs;
      Dedup.KeySetSnoc(rs[..n], rs[n], Key);
      KeyPricesAdd(Dedup.KeySet(rs[..n], Key), Key(rs[n]));
    }
  }

  /** What deduplicating the items of all pages keeps: distinct keys,
      well-formed results, and every price of every item. */
  lemma SiteResults(all: seq<PriceResult>)
    requires AllReported(all)
    ensures DistinctKeys(Dedup.DedupBy(all, Key))
    ensures AllReported(Dedup.DedupBy(all, Key))
    ensures PricesOf(Dedup.DedupBy(all, Key)) == PricesOf(all)
  {
    var results := Dedup.DedupBy(all, Key);
    Dedup.DedupByDistinct(all, Key);
    Dedup.DedupBySubset(all, Key);
    Dedup.DedupBySameKeys(all, Key);
    PricesOfKeys(all);
    PricesOfKeys(results);
    forall i | 0 <= i < |results| ensures Reported(results[i]) {
      assert results[i] in all;
    }
  }

  /** The results gathered so far: `all` is every item in order, all of
      them well-formed, whose prices are `prices`; `results` keeps the
      first item of every key and `seen` holds those keys. */
  ghost predicate Gathered(prices: set<string>, all: seq<PriceResult>, results: seq<PriceResult>,
                           seen: set<(string, string)>)
  {
    AllReported(all) && results == Dedup.DedupBy(all, Key) && seen == Dedup.KeySet(results, Key) &&
    PricesOf(all) == prices
  }

  lemma GatherItem(prices: set<string>, all: seq<PriceResult>, results: seq<PriceResult>,
                   seen: set<(string, string)>, item: PriceResult)
    requires Gathered(prices, all, results, seen) && Reported(item)
    ensures Gathered(prices + {item.price}, all + [item],
      if Key(item) in seen then results else results + [item],
      if Key(item) in seen then seen else seen + {Key(item)})
  {
    Dedup.DedupBySnoc(all, item, Key);
    Dedup.KeySetSnoc(results, item, Key);
    PricesOfSnoc(all, item);
    var all' := all + [item];
    forall k | 0 <= k < |all'| ensures Reported(all'[k]) {
      if k < |all| {
        assert all'[k] == all[k];
      }
    }
  }

  /** One item of the inner loop of `scrape_site`: recorded, and kept
      unless its key was seen before. */
  method GatherOne(item: PriceResult, ghost prices: set<string>, all0: seq<PriceResult>,
                   results0: seq<PriceResult>, seen0: set<(string, string)>)
    returns (all: seq<PriceResult>, results: seq<PriceResult>, seen: set<(string, string)>)
    requires Reported(item) && Gathered(prices, all0, results0, seen0)
    ensures Gathered(prices + {item.price}, all, results, seen)
    ensures all == all0 + [item]
  {
    GatherItem(prices, all0, results0, seen0, item);
    all, results, seen := all0 + [item], results0, seen0;
    var key := Key(item);
    if key in seen {
      return;
    }
    seen := seen + {key};
    results := results + [item];
  }

  lemma AppendTake(all0: seq<PriceResult>, items: seq<PriceResult>, j: nat)
    requires j < |items|
    ensures all0 + items[..j] + [items[j]] == all0 + items[..j + 1]
  {
    assert items[..j + 1] == items[..j] + [items[j]];
  }

  /** The inner loop of `scrape_site`: the items of one page added in
      order. */
  method GatherItems(items: seq<PriceResult>, ghost prices: set<string>, all0: seq<PriceResult>,
                     results0: seq<PriceResult>, seen0: set<(string, string)>)
    returns (all: seq<PriceResult>, results: seq<PriceResult>, seen: set<(string, string)>)
    requires AllReported(items) && Gathered(prices, all0, results0, seen0)
    ensures Gathered(prices + PricesOf(items), all, results, seen)
    ensures all == all0 + items
  {
    results, seen := results0, seen0;
    assert all0 + items[..0] == all0 && PricesOf(items[..0]) == {};
    for j := 0 to |items|
      invariant Gathered(prices + PricesOf(items[..j]), all0 + items[..j], results, seen)
    {
      assert Reported(items[j]);
      var extended;
      extended, results, seen := GatherOne(items[j], prices + PricesOf(items[..j]), all0 + items[..j], results, seen);
      PricesOfTake(items, j);
      AppendTake(all0, items, j);
    }
    all := all0 + items;
    assert items[..|items|] == items;
  }

  /** The items of the pages' result lists, page after page. */
  ghost function Flatten(perPage: seq<seq<PriceResult>>): seq<PriceResult>
    decreases |perPage|
  {
    if perPage == [] then [] else Flatten(perPage[..|perPage| - 1]) + perPage[|perPage| - 1]
  }

  /** What `extract_prices` promises of the results `items` of one page:
      well-formed, one per key, and exactly the page's visible prices. */
  ghost predicate PageExtracted(items: seq<PriceResult>, htmlText: string) {
    AllReported(items) && DistinctKeys(items) && PricesOf(items) == PagePrices(htmlText)
  }

  /** `ok` holds of the `i`-th elements of `xs` and `ys`, for every `i`. */
  ghost predicate Pointwise<A, B>(xs: seq<A>, ys: seq<B>, ok: (A, B) -> bool) {
    |xs| == |ys| && forall i :: 0 <= i < |xs| ==> ok(xs[i], ys[i])
  }

  lemma PointwiseSnoc<A, B>(xs: seq<A>, ys: seq<B>, i: nat, x: A, ok: (A, B) -> bool)
    requires i < |ys| && Pointwise(xs, ys[..i], ok) && ok(x, ys[i])
    ensures Pointwise(xs + [x], ys[..i + 1], ok)
  {
    forall k | 0 <= k < i + 1 ensures ok((xs + [x])[k], ys[..i + 1][k]) {
      if k < i {
        assert (xs + [x])[k] == xs[k] && ys[..i + 1][k] == ys[..i][k];
      }
    }
  }

  /** `PageExtracted` for a crawled page. */
  ghost predicate PageOk(items: seq<PriceResult>, page: (string, string)) {
    PageExtracted(items, page.1)
  }

  lemma FlattenSnoc(perPage: seq<seq<PriceResult>>, items: seq<PriceResult>)
    ensures Flatten(perPage + [items]) == Flatten(perPage) + items
  {
    assert (perPage + [items])[..|perPage|] == perPage;
  }

  /** One round of the loop of `scrape_site`: the `extract_prices` results
      `items` of one page gathered after those of the earlier pages. */
  method ScrapeOne(htmlText: string, tokenize: Tokenizer, ghost prices: set<string>, gathered0: seq<PriceResult>,
                   results0: seq<PriceResult>, seen0: set<(string, string)>)
    returns (gathered: seq<PriceResult>, results: seq<PriceResult>, seen: set<(string, string)>,
             ghost items: seq<PriceResult>)
    requires Gathered(prices, gathered0, results0, seen0)
    ensures Gathered(prices + PagePrices(htmlText), gathered, results, seen)
    ensures gathered == gathered0 + items && PageExtracted(items, htmlText)
  {
    var extracted := ExtractPrices(htmlText, DefaultContext, tokenize);
    items := extracted;
    gathered, results, seen := GatherItems(extracted, prices, gathered0, results0, seen0);
  }

  /** The loop of `scrape_site`: `extract_prices` on every page in turn,
      keeping the first result of every (description, price) key over the
      results of all pages in page order.  `perPage[i]` is what
      `extract_prices` returned for the `i`-th page. */
  method ScrapePages(pages: seq<(string, string)>, tokenize: Tokenizer)
    returns (results: seq<PriceResult>, ghost perPage: seq<seq<PriceResult>>)
    ensures |perPage| == |pages|
    ensures forall i :: 0 <= i < |pages| ==> PageExtracted(perPage[i], pages[i].1)
    ensures results == Dedup.DedupBy(Flatten(perPage), Key)
    ensures DistinctKeys(results) && AllReported(results)
    ensures PricesOf(results) == SitePrices(pages)
  {
    results := [];
    var seen: set<(string, string)> := {};
    var gathered: seq<PriceResult> := [];
    perPage := [];
    for i := 0 to |pages|
      invariant Gathered(SitePrices(pages[..i]), gathered, results, seen)
      invariant Pointwise(perPage, pages[..i], PageOk) && gathered == Flatten(perPage)
    {
      ghost var items;
      gathered, results, seen, items := ScrapeOne(pages[i].1, tokenize, SitePrices(pages[..i]), gathered, results, seen);
      FlattenSnoc(perPage, items);
      assert PageOk(items, pages[i]);
      PointwiseSnoc(perPage, pages, i, items, PageOk);
      perPage := perPage + [items];
      assert pages[..i + 1][..i] == pages[..i];
    }
    assert pages[..|pages|] == pages;
    assert Pointwise(perPage, pages, PageOk);
    forall i | 0 <= i < |pages| ensures PageExtracted(perPage[i], pages[i].1) {
      assert PageOk(perPage[i], pages[i]);
    }
    SiteResults(gathered);
  }

  /** `scrape_site`: the crawl from `url`, then the deduplicated results
      of every crawled page with the number of pages.  A failed crawl is
      the failure of `scrape_site`. */
  method ScrapeSite(url: string, limit: nat, fetch: Fetch, tokenize: Tokenizer, join: Join)
    returns (r: Result<(seq<PriceResult>, nat)>, ghost pages: seq<(string, string)>, ghost perPage: seq<seq<PriceResult>>,
             ghost enqueued: seq<string>, ghost order: seq<nat>)
    ensures (if r.Ok? then Ok(pages) else Err(r.message)) == CrawlSpec(url, limit, fetch, NormalizeUrl, LinksOf(tokenize, join))
    ensures Crawled(url, limit, fetch, NormalizeUrl, LinksOf(tokenize, join),
                    if r.Ok? then Ok(pages) else Err(r.message), enqueued, order)
    ensures r.Ok? ==> r.value.1 == |pages|
    ensures r.Ok? ==> |perPage| == |pages|
    ensures r.Ok? ==> forall i :: 0 <= i < |pages| ==> PageExtracted(perPage[i], pages[i].1)
    ensures r.Ok? ==> r.value.0 == Dedup.DedupBy(Flatten(perPage), Key)
    ensures r.Ok? ==> DistinctKeys(r.value.0) && AllReported(r.value.0)
    ensures r.Ok? ==> PricesOf(r.value.0) == SitePrices(pages)
  {
    var collected;
    collected, enqueued, order := CollectPaginatedPages(url, limit, fetch, tokenize, join);
    if collected.Err? {
      pages, perPage := [], [];
      return Err(collected.message), pages, perPage, enqueued, order;
    }
    var crawled := collected.value;
    pages := crawled;
    var results;
    results, perPage := ScrapePages(crawled, tokenize);
    r := Ok((results, |crawled|));
  }

  // ---------------------------------------------------------------------
  // `_format_summary`

  /** `_format_summary`. */
  function FormatSummary(productCount: nat, pageCount: nat): string {
    var pageWord := if pageCount == 1 then "page" else "pages";
    NatToString(productCount) + " products have been scrapped from " + NatToString(pageCount) + " " + pageWord
  }

  /** The decimal value of a string of digits. */
  function DigitsValue(s: string): nat
    requires forall i :: 0 <= i < |s| ==> IsDigit(s[i])
    decreases |s|
  {
    if s == [] then 0
    else
      assert IsDigit(s[|s| - 1]);
      DigitsValue(s[..|s| - 1]) * 10 + (s[|s| - 1] as int - '0' as int)
  }

  lemma {:induction false} DigitsValueOfNatToString(n: nat)
    ensures DigitsValue(NatToString(n)) == n
    decreases n
  {
    if n >= 10 {
      DigitsValueOfNatToString(n / 10);
      var s := NatToString(n);
      assert s[..|s| - 1] == NatToString(n / 10);
    }
  }

  /** The length of the run of digits `s` starts with. */
  function LeadingDigits(s: string): (k: nat)
    ensures k <= |s| && forall i :: 0 <= i < k ==> IsDigit(s[i])
    ensures k < |s| ==> !IsDigit(s[k])
    decreases |s|
  {
    if s == [] || !IsDigit(s[0]) then 0 else 1 + LeadingDigits(s[1..])
  }

  lemma {:induction false} LeadingDigitsOf(digits: string, rest: string)
    requires forall i :: 0 <= i < |digits| ==> IsDigit(digits[i])
    requires rest == [] || !IsDigit(rest[0])
    ensures LeadingDigits(digits + rest) == |digits|
    decreases |digits|
  {
    if digits != [] {
      LeadingDigitsOf(digits[1..], rest);
      assert (digits + rest)[1..] == digits[1..] + rest;
    }
  }

  const SummaryMiddle := " products have been scrapped from "

  /** Reads the two counts back from a summary line. */
  function ReadSummary(s: string): Option<(nat, nat)> {
    var a := LeadingDigits(s);
    var rest := s[a..];
    if a == 0 || !StartsWith(rest, SummaryMiddle) then None
    else
      match ReadPageCount(rest[|SummaryMiddle|..])
      case None => None
      case Some(count) => Some((DigitsValue(s[..a]), count))
  }

  /** Reads the page count and the word agreeing with it from the end of
      a summary line. */
  function ReadPageCount(tail: string): Option<nat> {
    var b := LeadingDigits(tail);
    var word := tail[b..];
    if b == 0 || (word != " page" && word != " pages") then None
    else
      var count := DigitsValue(tail[..b]);
      if (word == " page") == (count == 1) then Some(count) else None
  }

  lemma ReadPageCountOf(c: string, word: string)
    requires c != [] && forall i :: 0 <= i < |c| ==> IsDigit(c[i])
    requires word == " page" || word == " pages"
    requires (word == " page") == (DigitsValue(c) == 1)
    ensures ReadPageCount(c + word) == Some(DigitsValue(c))
  {
    var tail := c + word;
    LeadingDigitsOf(c, word);
    assert tail[|c|..] == word && tail[..|c|] == c;
  }

  /** A line made of two runs of digits, the middle text and the word
      agreeing with the second count reads back as the two counts. */
  lemma ReadSummaryOf(p: string, c: string, word: string)
    requires p != [] && forall i :: 0 <= i < |p| ==> IsDigit(p[i])
    requires c != [] && forall i :: 0 <= i < |c| ==> IsDigit(c[i])
    requires word == " page" || word == " pages"
    requires (word == " page") == (DigitsValue(c) == 1)
    ensures ReadSummary(p + (SummaryMiddle + c + word)) == Some((DigitsValue(p), DigitsValue(c)))
  {
    var rest := SummaryMiddle + c + word;
    var s := p + rest;
    assert LeadingDigits(s) == |p| by {
      LeadingDigitsOf(p, rest);
    }
    assert s[|p|..] == rest && s[..|p|] == p;
    assert StartsWith(rest, SummaryMiddle) by {
      assert rest[..|SummaryMiddle|] == SummaryMiddle;
    }
    assert rest[|SummaryMiddle|..] == c + word;
    ReadPageCountOf(c, word);
  }

  /** The summary line states both counts, and the singular `page` exactly
      when one page was scraped. */
  lemma ReadFormatSummary(productCount: nat, pageCount: nat)
    ensures ReadSummary(FormatSummary(productCount, pageCount)) == Some((productCount, pageCount))
  {
    var p := NatToString(productCount);
    var c := NatToString(pageCount);
    var word := if pageCount == 1 then " page" else " pages";
    assert FormatSummary(productCount, pageCount) == p + (SummaryMiddle + c + word);
    DigitsValueOfNatToString(productCount);
    DigitsValueOfNatToString(pageCount);
    ReadSummaryOf(p, c, word);
  }

  /** The summary ends in `page` for one page and in `pages` otherwise. */
  lemma SummaryWord(productCount: nat, pageCount: nat)
    ensures EndsWith(FormatSummary(productCount, pageCount), " page") <==> pageCount == 1
    ensures pageCount != 1 ==> EndsWith(FormatSummary(productCount, pageCount), " pages")
  {
    var s := FormatSummary(productCount, pageCount);
    if pageCount != 1 {
      assert s[|s| - 1] == 's';
    }
  }

  // ---------------------------------------------------------------------
  // `validate_url`

  const InvalidUrlMessage := "Please provide a valid HTTP or HTTPS URL."

  /** The parse `validate_url` judges: the input's own, or with `https://`
      in front when it has no scheme. */
  function ValidationParse(v: string): Url {
    var parsed := Parse(v);
    if parsed.scheme == "" then Parse("https://" + v) else parsed
  }

  /** `validate_url`: the submitted URL, trimmed and given `https://` when
      it has no scheme, or the error the source raises as `ValueError`. */
  function ValidateUrl(value: string): (r: Result<string>)
    ensures r.Err? ==> r.message == InvalidUrlMessage
  {
    var parsed := ValidationParse(Strip(value));
    if !IsHttp(parsed.scheme) || parsed.netloc == "" then Err(InvalidUrlMessage)
    else Ok(Unparse(parsed))
  }

  lemma ParseKeepsSplit(url: string)
    ensures Parse(url).scheme == Split(url).scheme && Parse(url).netloc == Split(url).netloc
  {
  }

  /** `https://` in front of a text gives its parse the scheme `https`. */
  lemma HttpsPrefix(v: string)
    ensures Split("https://" + v).scheme == "https"
  {
    assert "https" + ":" + ("//" + v) == "https://" + v;
    assert ValidScheme("https");
    SplitSchemeOf("https", "//" + v);
  }

  /** An accepted URL is an http(s) URL with a network location, which
      keeps the scheme, network location and query of the parse judged;
      one typed without a scheme comes back as https. */
  lemma ValidateUrlSpec(value: string)
    requires ValidateUrl(value).Ok?
    ensures IsHttp(Split(ValidateUrl(value).value).scheme)
    ensures Split(ValidateUrl(value).value).netloc != ""
    ensures Split(ValidateUrl(value).value).netloc == ValidationParse(Strip(value)).netloc
    ensures Split(ValidateUrl(value).value).query == ValidationParse(Strip(value)).query
    ensures Parse(Strip(value)).scheme == "" ==> Split(ValidateUrl(value).value).scheme == "https"
  {
    var v := Strip(value);
    var url := if Parse(v).scheme == "" then "https://" + v else v;
    assert ValidationParse(v) == Parse(url);
    ParseKeepsSplit(url);
    UnparseParse(url);
    if Parse(v).scheme == "" {
      HttpsPrefix(v);
    }
  }

  /** A URL whose judged parse is not http(s) or has no network location
      is refused. */
  lemma ValidateUrlRefuses(value: string)
    requires !IsHttp(ValidationParse(Strip(value)).scheme) || ValidationParse(Strip(value)).netloc == ""
    ensures ValidateUrl(value) == Err(InvalidUrlMessage)
  {
  }
}
