/** The two crawls of pricing_scrapper/knbk.py.

    `scrape_category_products` follows a category's "next page" links,
    fetching every URL at most once, and merges the categories of all the
    pages; `scrape_category_hierarchy_products` walks a category and,
    depth first, the subcategories its pages link to, naming every
    category after the path of link names that leads to it.

    Fetching is a map from URL to page text: a URL outside the map is a
    failed fetch, which ends the whole crawl with an error, as the
    exception the source's `fetch` raises would.  The tokenizer and
    `urljoin` are parameters. */
module KnbkScrape {
  import opened Text
  import opened Html
  import opened Dedup
  import opened KnbkPage
  import opened KnbkLinks
  import opened KnbkMerge

  type Fetch = map<string, string>
  type Tokenizer = string -> seq<Event>
  type Join = (string, string) -> string

  function FetchFailed(url: string): string {
    "cannot fetch " + url
  }

  /** Python truthiness of an optional URL. */
  predicate Truthy(u: Option<string>) {
    u.Some? && u.value != []
  }

  /** What the crawl learns from a fetched page, given its text and URL:
      the URL of the next page. */
  type NextOf = (string, string) -> Option<string>

  /** `_find_next_page_url` as the crawl uses it. */
  function NextPage(tokenize: Tokenizer, join: Join): NextOf {
    (page, u) => ResolveNextHref(PagRun(tokenize(page)).nextHref, u, join)
  }

  /** `parse_category_products` as the crawl uses it. */
  function CategoriesOf(tokenize: Tokenizer): string -> seq<Category> {
    page => Run(tokenize(page)).categories
  }

  lemma CountDown(keys: set<string>, seen: set<string>, u: string)
    requires u in keys && u !in seen
    ensures |keys - (seen + {u})| < |keys - seen|
  {
    assert keys - seen == (keys - (seen + {u})) + {u};
  }

  function Prepend(done: seq<string>, r: Result<seq<string>>): Result<seq<string>> {
    match r
    case Err(m) => Err(m)
    case Ok(rest) => Ok(done + rest)
  }

  lemma PrependNil(r: Result<seq<string>>)
    ensures Prepend([], r) == r
  {
    if r.Ok? {
      assert [] + r.value == r.value;
    }
  }

  lemma PrependTwice(done: seq<string>, u: string, r: Result<seq<string>>)
    ensures Prepend(done, Prepend([u], r)) == Prepend(done + [u], r)
  {
    if r.Ok? {
      assert done + ([u] + r.value) == (done + [u]) + r.value;
    }
  }

  // ---------------------------------------------------------------------
  // The pagination crawl

  /** The pages `scrape_category_products` fetches, in order, starting
      from `next` with the URLs `seen` already fetched. */
  function Pages(fetch: Fetch, nextOf: NextOf, next: Option<string>, seen: set<string>): Result<seq<string>>
    decreases |fetch.Keys - seen|
  {
    if !Truthy(next) || next.value in seen then Ok([])
    else if next.value !in fetch then Err(FetchFailed(next.value))
    else
      CountDown(fetch.Keys, seen, next.value);
      Prepend([next.value], Pages(fetch, nextOf, nextOf(fetch[next.value], next.value), seen + {next.value}))
  }

  /** The crawl fetches every URL at most once, and only fetchable URLs
      not fetched before. */
  lemma {:induction false} PagesFresh(fetch: Fetch, nextOf: NextOf, next: Option<string>, seen: set<string>)
    ensures var r := Pages(fetch, nextOf, next, seen);
      r.Ok? ==>
        (forall i, j :: 0 <= i < j < |r.value| ==> r.value[i] != r.value[j]) &&
        (forall p :: p in r.value ==> p in fetch && p !in seen)
    decreases |fetch.Keys - seen|
  {
    if Truthy(next) && next.value !in seen && next.value in fetch {
      var u := next.value;
      var after := nextOf(fetch[u], u);
      CountDown(fetch.Keys, seen, u);
      PagesFresh(fetch, nextOf, after, seen + {u});
      var r := Pages(fetch, nextOf, after, seen + {u});
      if r.Ok? {
        var pages := [u] + r.value;
        assert Pages(fetch, nextOf, next, seen) == Ok(pages);
        forall i, j | 0 <= i < j < |pages| ensures pages[i] != pages[j] {
          if i > 0 {
            assert pages[i] == r.value[i - 1];
          }
          assert pages[j] == r.value[j - 1];
        }
      }
    }
  }

  /** The crawl starts at `next` unless it is missing or fetched before,
      and each page it fetches after the first is the "next" link of the
      page before. */
  lemma {:induction false} PagesChain(fetch: Fetch, nextOf: NextOf, next: Option<string>, seen: set<string>)
    ensures var r := Pages(fetch, nextOf, next, seen);
      r.Ok? ==>
        var pages := r.value;
        (pages != [] <==> Truthy(next) && next.value !in seen) &&
        (pages != [] ==> pages[0] == next.value && pages[0] in fetch) &&
        (forall i :: 0 <= i < |pages| - 1 ==>
          pages[i] in fetch && nextOf(fetch[pages[i]], pages[i]) == Some(pages[i + 1]))
    decreases |fetch.Keys - seen|
  {
    if Truthy(next) && next.value !in seen && next.value in fetch {
      var u := next.value;
      var after := nextOf(fetch[u], u);
      CountDown(fetch.Keys, seen, u);
      PagesChain(fetch, nextOf, after, seen + {u});
      var r := Pages(fetch, nextOf, after, seen + {u});
      if r.Ok? {
        var pages := [u] + r.value;
        assert Pages(fetch, nextOf, next, seen) == Ok(pages);
        forall i | 0 <= i < |pages| - 1
          ensures pages[i] in fetch && nextOf(fetch[pages[i]], pages[i]) == Some(pages[i + 1])
        {
          if i > 0 {
            assert pages[i] == r.value[i - 1];
          }
        }
      }
    }
  }

  /** The crawl stops at a page whose "next" link is missing or leads to
      a URL fetched before. */
  lemma {:induction false} PagesEnd(fetch: Fetch, nextOf: NextOf, next: Option<string>, seen: set<string>)
    ensures var r := Pages(fetch, nextOf, next, seen);
      r.Ok? && r.value != [] ==>
        var last := r.value[|r.value| - 1];
        last in fetch &&
        (!Truthy(nextOf(fetch[last], last)) || nextOf(fetch[last], last).value in seen ||
         nextOf(fetch[last], last).value in r.value)
    decreases |fetch.Keys - seen|
  {
    if Truthy(next) && next.value !in seen && next.value in fetch {
      var u := next.value;
      var after := nextOf(fetch[u], u);
      CountDown(fetch.Keys, seen, u);
      PagesEnd(fetch, nextOf, after, seen + {u});
      var r := Pages(fetch, nextOf, after, seen + {u});
      if r.Ok? {
        var pages := [u] + r.value;
        assert Pages(fetch, nextOf, next, seen) == Ok(pages);
        if r.value != [] {
          assert pages[|pages| - 1] == r.value[|r.value| - 1];
          assert forall q :: q in r.value ==> q in pages;
        } else {
          assert Pages(fetch, nextOf, after, seen + {u}) == Ok([]);
        }
      }
    }
  }

  lemma PagesInFetch(fetch: Fetch, nextOf: NextOf, next: Option<string>, seen: set<string>)
    ensures var r := Pages(fetch, nextOf, next, seen);
      r.Ok? ==> forall p :: p in r.value ==> p in fetch
  {
    PagesFresh(fetch, nextOf, next, seen);
  }

  /** The categories of the fetched pages, in page order. */
  function PageCategories(fetch: Fetch, parse: string -> seq<Category>, pages: seq<string>): seq<Category>
    requires forall p :: p in pages ==> p in fetch
    decreases |pages|
  {
    if pages == [] then []
    else PageCategories(fetch, parse, pages[..|pages| - 1]) + parse(fetch[pages[|pages| - 1]])
  }

  /** The merged categories of the pages the crawl from `url` visits, or
      the crawl's failure. */
  function ScrapeWith(url: string, fetch: Fetch, nextOf: NextOf, parse: string -> seq<Category>): Result<seq<Category>> {
    PagesInFetch(fetch, nextOf, Some(url), {});
    match Pages(fetch, nextOf, Some(url), {})
    case Err(m) => Err(m)
    case Ok(pages) => Ok(Merged(PageCategories(fetch, parse, pages), CorrectKey))
  }

  /** `scrape_category_products`: the crawl follows the pages' "next"
      links and parses each page's categories. */
  function ScrapeSpec(url: string, fetch: Fetch, tokenize: Tokenizer, join: Join): Result<seq<Category>> {
    ScrapeWith(url, fetch, NextPage(tokenize, join), CategoriesOf(tokenize))
  }

  lemma PageCategoriesSnoc(fetch: Fetch, parse: string -> seq<Category>, pages: seq<string>, p: string)
    requires forall q :: q in pages ==> q in fetch
    requires p in fetch
    ensures PageCategories(fetch, parse, pages + [p]) == PageCategories(fetch, parse, pages) + parse(fetch[p])
  {
    assert (pages + [p])[..|pages|] == pages;
  }

  lemma PagesStop(fetch: Fetch, nextOf: NextOf, next: Option<string>, seen: set<string>)
    requires !Truthy(next) || next.value in seen
    ensures Pages(fetch, nextOf, next, seen) == Ok([])
  {
  }

  /** Once the crawl is known to visit `done`, the result is the merge of
      the pages of `done`. */
  lemma ScrapeDone(url: string, fetch: Fetch, nextOf: NextOf, parse: string -> seq<Category>, done: seq<string>)
    requires Pages(fetch, nextOf, Some(url), {}) == Ok(done)
    requires forall p :: p in done ==> p in fetch
    ensures ScrapeWith(url, fetch, nextOf, parse) == Ok(Merged(PageCategories(fetch, parse, done), CorrectKey))
  {
  }

  /** When the loop stops, the lookup over its merge state is the result. */
  lemma ScrapeFinish(url: string, fetch: Fetch, nextOf: NextOf, parse: string -> seq<Category>,
                     done: seq<string>, next: Option<string>, seen: set<string>, st: MergeState<CategoryKey>)
    requires forall p :: p in done ==> p in fetch
    requires Pages(fetch, nextOf, Some(url), {}) == Prepend(done, Pages(fetch, nextOf, next, seen))
    requires !Truthy(next) || next.value in seen
    requires st == MergeFold(PageCategories(fetch, parse, done), CorrectKey)
    ensures forall k :: k in st.order ==> k in st.agg
    ensures ScrapeWith(url, fetch, nextOf, parse) == Ok(Lookup(st.agg, st.order))
  {
    PagesStop(fetch, nextOf, next, seen);
    assert done + [] == done;
    ScrapeDone(url, fetch, nextOf, parse, done);
    MergedFromState(PageCategories(fetch, parse, done), CorrectKey, st);
  }

  /** A page the crawl cannot fetch fails the whole scrape. */
  lemma ScrapeFails(url: string, fetch: Fetch, nextOf: NextOf, parse: string -> seq<Category>, m: string)
    requires Pages(fetch, nextOf, Some(url), {}) == Err(m)
    ensures ScrapeWith(url, fetch, nextOf, parse) == Err(m)
  {
  }

  /** One page of `scrape_category_products`: its categories merged into
      the running state, and the page's "next" link. */
  method ScrapePage(page: string, current: string, tokenize: Tokenizer, join: Join,
                    agg: map<CategoryKey, Category>, order: seq<CategoryKey>, counter: nat)
    returns (aggregated: map<CategoryKey, Category>, orderedKeys: seq<CategoryKey>, placeholderCounter: nat, nextUrl: Option<string>)
    ensures MergeState(aggregated, orderedKeys, placeholderCounter)
         == MergeAll(MergeState(agg, order, counter), CategoriesOf(tokenize)(page), CorrectKey)
    ensures nextUrl == NextPage(tokenize, join)(page, current)
  {
    var events := tokenize(page);
    var pageCategories := ParseCategoryProducts(events);
    aggregated, orderedKeys, placeholderCounter := MergeCategories(agg, order, counter, pageCategories);
    nextUrl := FindNextPageUrl(events, current, join);
  }

  /** `scrape_category_products`. */
  method ScrapeCategoryProducts(url: string, fetch: Fetch, tokenize: Tokenizer, join: Join)
    returns (r: Result<seq<Category>>)
    ensures r == ScrapeSpec(url, fetch, tokenize, join)
  {
    ghost var nextOf := NextPage(tokenize, join);
    ghost var parse := CategoriesOf(tokenize);
    var aggregated: map<CategoryKey, Category> := map[];
    var placeholderCounter: nat := 0;
    var orderedKeys: seq<CategoryKey> := [];
    var seenUrls: set<string> := {};
    var nextUrl: Option<string> := Some(url);
    ghost var done: seq<string> := [];
    PrependNil(Pages(fetch, nextOf, nextUrl, seenUrls));
    while Truthy(nextUrl) && nextUrl.value !in seenUrls
      invariant forall p :: p in done ==> p in fetch
      invariant Pages(fetch, nextOf, Some(url), {}) == Prepend(done, Pages(fetch, nextOf, nextUrl, seenUrls))
      invariant MergeState(aggregated, orderedKeys, placeholderCounter) == MergeFold(PageCategories(fetch, parse, done), CorrectKey)
      decreases |fetch.Keys - seenUrls|
    {
      var current := nextUrl.value;
      if current !in fetch {
        ScrapeFails(url, fetch, nextOf, parse, FetchFailed(current));
        return Err(FetchFailed(current));
      }
      CountDown(fetch.Keys, seenUrls, current);
      PrependTwice(done, current, Pages(fetch, nextOf, nextOf(fetch[current], current), seenUrls + {current}));
      seenUrls := seenUrls + {current};
      MergeAllAppend(PageCategories(fetch, parse, done), parse(fetch[current]), CorrectKey);
      PageCategoriesSnoc(fetch, parse, done, current);
      aggregated, orderedKeys, placeholderCounter, nextUrl :=
        ScrapePage(fetch[current], current, tokenize, join, aggregated, orderedKeys, placeholderCounter);
      done := done + [current];
      if nextUrl.Some? && nextUrl.value in seenUrls {
        break;
      }
    }
    ScrapeFinish(url, fetch, nextOf, parse, done, nextUrl, seenUrls, MergeState(aggregated, orderedKeys, placeholderCounter));
    r := Ok(Lookup(aggregated, orderedKeys));
  }

  // ---------------------------------------------------------------------
  // Category names in the hierarchy

  /** The path parts naming a category: the path, then the category's own
      name unless the path already ends with it. */
  function NameParts(path: seq<string>, name: string): seq<string> {
    if path == [] || path[|path| - 1] != name then path + [name] else path
  }

  function NonEmptyParts(parts: seq<string>): (r: seq<string>)
    ensures forall p :: p in r ==> p in parts && p != []
    decreases |parts|
  {
    if parts == [] then []
    else if parts[|parts| - 1] == [] then NonEmptyParts(parts[..|parts| - 1])
    else NonEmptyParts(parts[..|parts| - 1]) + [parts[|parts| - 1]]
  }

  /** `" / ".join(part for part in path_parts if part)`. */
  function FullName(path: seq<string>, name: string): string {
    JoinWith(NonEmptyParts(NameParts(path, name)), " / ")
  }

  /** The name always comes last, after the whole path, and only once:
      naming a second time after the same name adds nothing. */
  lemma NamePartsSpec(path: seq<string>, name: string)
    ensures var parts := NameParts(path, name);
      parts != [] && parts[|parts| - 1] == name && parts[..|path|] == path &&
      |parts| <= |path| + 1 && NameParts(parts, name) == parts
  {
  }

  lemma {:induction false} JoinWithLast(parts: seq<string>, sep: string)
    requires parts != []
    ensures EndsWith(JoinWith(parts, sep), parts[|parts| - 1])
    decreases |parts|
  {
    if |parts| > 1 {
      JoinWithLast(parts[1..], sep);
      var rest := JoinWith(parts[1..], sep);
      assert JoinWith(parts, sep) == parts[0] + sep + rest;
      assert (parts[0] + sep + rest)[|parts[0] + sep + rest| - |rest| ..] == rest;
    }
  }

  /** A non-empty category name ends its full name. */
  lemma FullNameEndsWithName(path: seq<string>, name: string)
    requires name != []
    ensures EndsWith(FullName(path, name), name)
  {
    var parts := NameParts(path, name);
    NamePartsSpec(path, name);
    assert parts == parts[..|parts| - 1] + [name];
    var kept := NonEmptyParts(parts);
    assert kept == NonEmptyParts(parts[..|parts| - 1]) + [name];
    JoinWithLast(kept, " / ");
  }

  /** The categories of a page, renamed after the path leading to it. */
  function Renamed(cats: seq<Category>, path: seq<string>): (r: seq<Category>)
    ensures |r| == |cats| && forall i :: 0 <= i < |cats| ==> r[i] == Category(FullName(path, cats[i].name), cats[i].products)
    decreases |cats|
  {
    if cats == [] then []
    else Renamed(cats[..|cats| - 1], path) + [Category(FullName(path, cats[|cats| - 1].name), cats[|cats| - 1].products)]
  }

  // ---------------------------------------------------------------------
  // The hierarchy walk

  /** The key under which `walk` records a visited URL. */
  function WalkKey(url: string): Option<string> {
    NormalizeCatalogUrl(url, "", "")
  }

  /** What `walk` does with a URL, given as functions: the pages
      (`fetch`), the key of a URL, the categories `scrape_category_products`
      collects from it, and the subcategory links of a page, given its text
      and URL. */
  datatype WalkEnv = WalkEnv(
    fetch: Fetch,
    key: string -> Option<string>,
    scrape: string -> Result<seq<Category>>,
    links: (string, string) -> seq<CategoryLink>)

  function MakeEnv(fetch: Fetch, tokenize: Tokenizer, join: Join): WalkEnv {
    WalkEnv(
      fetch,
      WalkKey,
      u => ScrapeSpec(u, fetch, tokenize, join),
      (page, u) => DedupBy(LinkRun(MakeLinkBase(u), join, tokenize(page)).links, LinkUrl))
  }

  /** The fetchable URLs whose key has not been visited: what is left to
      walk. */
  ghost function Unvisited(env: WalkEnv, visited: set<string>): set<string> {
    set u | u in env.fetch.Keys && env.key(u).Some? && env.key(u).value !in visited
  }

  /** Visiting a key can only shrink what is left to walk. */
  lemma UnvisitedAntitone(env: WalkEnv, visited: set<string>, later: set<string>)
    requires visited <= later
    ensures Unvisited(env, later) <= Unvisited(env, visited)
    ensures |Unvisited(env, later)| <= |Unvisited(env, visited)|
  {
    var a, b := Unvisited(env, later), Unvisited(env, visited);
    assert a <= b;
    assert b == a + (b - a);
    assert a * (b - a) == {};
  }

  /** Visiting the key of a fetchable URL makes what is left smaller. */
  lemma UnvisitedShrinks(env: WalkEnv, visited: set<string>, later: set<string>, u: string)
    requires visited <= later
    requires u in env.fetch && env.key(u).Some? && env.key(u).value !in visited && env.key(u).value in later
    ensures |Unvisited(env, later)| < |Unvisited(env, visited)|
  {
    UnvisitedAntitone(env, visited, later);
    var a, b := Unvisited(env, later), Unvisited(env, visited);
    assert u in b && u !in a;
    assert b == a + (b - a);
    assert a * (b - a) == {};
    assert |b - a| >= 1 by {
      assert u in b - a;
    }
  }

  /** What a walk leaves behind: the visited keys, the categories found so
      far, and the keys it walked itself, in order. */
  datatype WalkOut = WalkOut(visited: set<string>, results: seq<Category>, walked: seq<string>)

  /** `walk(url, path)` with `visited` and `results` as it finds them. */
  function Walk(env: WalkEnv, url: string, path: seq<string>, visited: set<string>, results: seq<Category>): (r: Result<WalkOut>)
    ensures r.Ok? ==> visited <= r.value.visited
    decreases |Unvisited(env, visited)|, 0
  {
    var key := env.key(url);
    if key.None? || key.value in visited then Ok(WalkOut(visited, results, []))
    else if url !in env.fetch then Err(FetchFailed(url))
    else
      match env.scrape(url)
      case Err(m) => Err(m)
      case Ok(cats) =>
        UnvisitedShrinks(env, visited, visited + {key.value}, url);
        match WalkLinks(env, env.links(env.fetch[url], url), path, visited + {key.value}, results + Renamed(cats, path))
        case Err(m) => Err(m)
        case Ok(o) => Ok(o.(walked := [key.value] + o.walked))
  }

  /** The loop over a page's subcategory links. */
  function WalkLinks(env: WalkEnv, links: seq<CategoryLink>, path: seq<string>, visited: set<string>, results: seq<Category>): (r: Result<WalkOut>)
    ensures r.Ok? ==> visited <= r.value.visited
    decreases |Unvisited(env, visited)|, |links|
  {
    if links == [] then Ok(WalkOut(visited, results, []))
    else
      match Walk(env, links[0].url, path + [links[0].name], visited, results)
      case Err(m) => Err(m)
      case Ok(o) =>
        UnvisitedAntitone(env, visited, o.visited);
        match WalkLinks(env, links[1..], path, o.visited, o.results)
        case Err(m) => Err(m)
        case Ok(o2) => Ok(o2.(walked := o.walked + o2.walked))
  }

  /** A walk's visited keys and categories, as the source's closure
      variables hold them. */
  function Outcome(r: Result<WalkOut>): Result<(set<string>, seq<Category>)> {
    match r
    case Err(m) => Err(m)
    case Ok(o) => Ok((o.visited, o.results))
  }

  /** The walked keys are distinct and are the keys added to `visited`. */
  ghost predicate WalkedOnce(visited: set<string>, o: WalkOut) {
    (forall i, j :: 0 <= i < j < |o.walked| ==> o.walked[i] != o.walked[j]) &&
    (forall w :: w in o.walked <==> w in o.visited && w !in visited)
  }

  /** Every key is walked at most once: the keys a walk walks are distinct,
      and exactly the keys it adds to `visited`. */
  lemma {:induction false} WalkOnce(env: WalkEnv, url: string, path: seq<string>, visited: set<string>, results: seq<Category>)
    ensures var r := Walk(env, url, path, visited, results);
      r.Ok? ==> WalkedOnce(visited, r.value)
    decreases |Unvisited(env, visited)|, 0
  {
    var key := env.key(url);
    if key.Some? && key.value !in visited && url in env.fetch && env.scrape(url).Ok? {
      var cats := env.scrape(url).value;
      var v := visited + {key.value};
      UnvisitedShrinks(env, visited, v, url);
      var links := env.links(env.fetch[url], url);
      WalkLinksOnce(env, links, path, v, results + Renamed(cats, path));
      var rest := WalkLinks(env, links, path, v, results + Renamed(cats, path));
      if rest.Ok? {
        ConcatOnce(visited, WalkOut(v, results, [key.value]), rest.value);
      }
    }
  }

  lemma {:induction false} WalkLinksOnce(env: WalkEnv, links: seq<CategoryLink>, path: seq<string>, visited: set<string>, results: seq<Category>)
    ensures var r := WalkLinks(env, links, path, visited, results);
      r.Ok? ==> WalkedOnce(visited, r.value)
    decreases |Unvisited(env, visited)|, |links|
  {
    if links != [] {
      var first := Walk(env, links[0].url, path + [links[0].name], visited, results);
      WalkOnce(env, links[0].url, path + [links[0].name], visited, results);
      if first.Ok? {
        var o := first.value;
        UnvisitedAntitone(env, visited, o.visited);
        WalkLinksOnce(env, links[1..], path, o.visited, o.results);
        var rest := WalkLinks(env, links[1..], path, o.visited, o.results);
        if rest.Ok? {
          ConcatOnce(visited, o, rest.value);
        }
      }
    }
  }

  lemma ConcatOnce(visited: set<string>, o: WalkOut, o2: WalkOut)
    requires WalkedOnce(visited, o) && WalkedOnce(o.visited, o2) && visited <= o.visited && o.visited <= o2.visited
    ensures WalkedOnce(visited, o2.(walked := o.walked + o2.walked))
  {
    var w := o.walked + o2.walked;
    forall i, j | 0 <= i < j < |w| ensures w[i] != w[j] {
      if j >= |o.walked| {
        assert w[j] == o2.walked[j - |o.walked|];
        assert w[j] !in o.visited;
        if i >= |o.walked| {
          assert w[i] == o2.walked[i - |o.walked|];
        } else {
          assert w[i] == o.walked[i];
          assert w[i] in o.visited;
        }
      } else {
        assert w[i] == o.walked[i] && w[j] == o.walked[j];
      }
    }
    forall x ensures x in w <==> x in o2.visited && x !in visited {
      assert x in w <==> x in o.walked || x in o2.walked;
    }
  }

  /** `walk` returns at once on a URL without a key or with a visited key. */
  lemma WalkSkips(env: WalkEnv, url: string, path: seq<string>, visited: set<string>, results: seq<Category>)
    requires env.key(url).None? || env.key(url).value in visited
    ensures Outcome(Walk(env, url, path, visited, results)) == Ok((visited, results))
  {
  }

  /** A new key whose page cannot be fetched or scraped fails the walk. */
  lemma WalkFails(env: WalkEnv, url: string, path: seq<string>, visited: set<string>, results: seq<Category>)
    requires env.key(url).Some? && env.key(url).value !in visited
    ensures url !in env.fetch ==> Outcome(Walk(env, url, path, visited, results)) == Err(FetchFailed(url))
    ensures url in env.fetch && env.scrape(url).Err? ==>
      Outcome(Walk(env, url, path, visited, results)) == Err(env.scrape(url).message)
  {
  }

  /** A new key's walk records its renamed categories and then walks its
      subcategory links. */
  lemma WalkVisits(env: WalkEnv, url: string, path: seq<string>, visited: set<string>, results: seq<Category>,
                    cats: seq<Category>, links: seq<CategoryLink>, visited1: set<string>, results1: seq<Category>)
    requires env.key(url).Some? && env.key(url).value !in visited
    requires url in env.fetch && env.scrape(url) == Ok(cats)
    requires links == env.links(env.fetch[url], url)
    requires visited1 == visited + {env.key(url).value} && results1 == results + Renamed(cats, path)
    ensures |Unvisited(env, visited1)| < |Unvisited(env, visited)|
    ensures Outcome(Walk(env, url, path, visited, results)) == Outcome(WalkLinks(env, links, path, visited1, results1))
  {
    UnvisitedShrinks(env, visited, visited1, url);
  }

  /** The loop over links walks the first link, then the others. */
  lemma WalkLinksFirst(env: WalkEnv, links: seq<CategoryLink>, path: seq<string>, visited: set<string>, results: seq<Category>)
    requires links != []
    ensures var first := Outcome(Walk(env, links[0].url, path + [links[0].name], visited, results));
      Outcome(WalkLinks(env, links, path, visited, results)) ==
        if first.Err? then Err(first.message)
        else Outcome(WalkLinks(env, links[1..], path, first.value.0, first.value.1))
  {
  }

  /** `walk` and the `results`/`visited` it shares with its own recursive
      calls, as fields. */
  class Walker {
    const env: WalkEnv
    var visited: set<string>
    var results: seq<Category>

    constructor (env: WalkEnv)
      ensures this.env == env
      ensures visited == {} && results == []
    {
      this.env := env;
      visited := {};
      results := [];
    }

    /** `walk`. */
    method WalkFrom(url: string, path: seq<string>) returns (r: Result<()>)
      modifies this
      ensures Outcome(Walk(env, url, path, old(visited), old(results))) ==
        if r.Err? then Err(r.message) else Ok((visited, results))
      decreases |Unvisited(env, visited)|, 1
    {
      var normalized := env.key(url);
      if normalized.None? || normalized.value in visited {
        WalkSkips(env, url, path, visited, results);
        return Ok(());
      }
      r := Visit(url, path, normalized.value);
    }

    /** The rest of `walk`, once `url` has a key not visited yet. */
    method Visit(url: string, path: seq<string>, key: string) returns (r: Result<()>)
      requires env.key(url) == Some(key) && key !in visited
      modifies this
      ensures Outcome(Walk(env, url, path, old(visited), old(results))) ==
        if r.Err? then Err(r.message) else Ok((visited, results))
      decreases |Unvisited(env, visited)|, 0
    {
      ghost var visited0, results0 := visited, results;
      visited := visited + {key};
      if url !in env.fetch {
        WalkFails(env, url, path, visited0, results0);
        return Err(FetchFailed(url));
      }
      var page := env.fetch[url];
      var pageCategories := env.scrape(url);
      if pageCategories.Err? {
        WalkFails(env, url, path, visited0, results0);
        return Err(pageCategories.message);
      }
      AppendRenamed(pageCategories.value, path);
      var subLinks := env.links(page, url);
      WalkVisits(env, url, path, visited0, results0, pageCategories.value, subLinks, visited, results);
      r := WalkLinksFrom(subLinks, path);
    }

    /** The loop appending a page's categories, renamed, to `results`. */
    method AppendRenamed(cats: seq<Category>, path: seq<string>)
      modifies this
      ensures results == old(results) + Renamed(cats, path)
      ensures visited == old(visited)
    {
      ghost var results0 := results;
      for i := 0 to |cats|
        invariant results == results0 + Renamed(cats[..i], path)
        invariant visited == old(visited)
      {
        assert cats[..i + 1][..i] == cats[..i];
        results := results + [Category(FullName(path, cats[i].name), cats[i].products)];
      }
      assert cats[..|cats|] == cats;
    }

    /** The loop over the subcategory links inside `walk`. */
    method WalkLinksFrom(links: seq<CategoryLink>, path: seq<string>) returns (r: Result<()>)
      modifies this
      ensures Outcome(WalkLinks(env, links, path, old(visited), old(results))) ==
        if r.Err? then Err(r.message) else Ok((visited, results))
      decreases |Unvisited(env, visited)|, 2
    {
      ghost var visited0, results0 := visited, results;
      for i := 0 to |links|
        invariant visited0 <= visited
        invariant |Unvisited(env, visited)| <= |Unvisited(env, visited0)|
        invariant Outcome(WalkLinks(env, links, path, visited0, results0)) ==
          Outcome(WalkLinks(env, links[i..], path, visited, results))
      {
        ghost var v, res := visited, results;
        WalkLinksFirst(env, links[i..], path, v, res);
        assert links[i..][0] == links[i] && links[i..][1..] == links[i + 1..];
        var step := WalkFrom(links[i].url, path + [links[i].name]);
        if step.Err? {
          return step;
        }
        UnvisitedAntitone(env, v, visited);
      }
      return Ok(());
    }
  }

  /** `scrape_category_hierarchy_products`. */
  function HierarchySpec(url: string, fetch: Fetch, tokenize: Tokenizer, join: Join): Result<seq<Category>> {
    match Walk(MakeEnv(fetch, tokenize, join), url, [], {}, [])
    case Err(m) => Err(m)
    case Ok(o) => Ok(o.results)
  }

  /** `scrape_category_hierarchy_products`. */
  method ScrapeCategoryHierarchyProducts(url: string, fetch: Fetch, tokenize: Tokenizer, join: Join)
    returns (r: Result<seq<Category>>)
    ensures r == HierarchySpec(url, fetch, tokenize, join)
  {
    var walker := new Walker(MakeEnv(fetch, tokenize, join));
    var outcome := walker.WalkFrom(url, []);
    if outcome.Err? {
      return Err(outcome.message);
    }
    return Ok(walker.results);
  }
}
