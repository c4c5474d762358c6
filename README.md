# pricing_scrapper, modelled and proved in Dafny

This project models the content-extraction core of the `pricing_scrapper`
repository:

- `pricing_scrapper/knbk.py`, the extractor for one catalogue site. It holds
  - the element classifiers;
  - the page parser that builds categories of products;
  - the next-page and subcategory link parsers;
  - the paginated scrape, with its merge of same-named categories;
  - the depth-first walk of a category hierarchy.
- `pricing_scrapper/scraper.py`, the generic price extractor. It holds
  - the price pattern;
  - visible-text collection with sibling-indexed paths;
  - the character walks around a match;
  - noise stripping;
  - candidate scoring and neighbour selection;
  - the cursor search over text nodes;
  - `extract_prices` and `iter_prices`.
- The non-I/O part of `server.py`:
  - the anchor collector;
  - URL normalisation;
  - the pagination-link filter;
  - the bounded breadth-first crawl;
  - `scrape_site`, the summary line and `validate_url`.

The HTML tokenizer is not modelled. A page is a sequence of events
(`StartTag(tag, attrs)`, `EndTag(tag)`, `Data(text)`); a self-closing tag is
a start tag followed by an end tag, as `handle_startendtag` does. Where the
source takes page text, the model takes a `tokenize` function from text to
events as a parameter.

Each parser is a class with the source's fields. Its handler methods are
proved equal to pure step functions over a state record, the invariants are
proved about those step functions, and the drivers are loops proved against
a specification function.

The fetcher is a map from URL to page text: a URL outside the map is a fetch
error. `urljoin` is a parameter, while `urlsplit`/`urlunsplit` and
`urlparse`/`urlunparse` are written out. `PRICE_PATTERN`, `_SCRIPT_STYLE_RE`,
`_TAG_RE` and `_NOISE_PREFIX_RE` are hand-written recognisers, each proved
to match its grammar.

Modules (one file each): `Text`, `Html`, `Markup`, `PricePattern`, `Window`,
`VisibleText`, `Candidates`, `Selection`, `Dedup`, `Extract`,
`KnbkClassify`, `KnbkPage`, `KnbkLinks`, `KnbkMerge`, `KnbkScrape`, `Urls`,
`ServerLinks`, `ServerSite`.

## Model

| member | source | states |
|---|---|---|
| Markup.ElementEndIsLazy | pricing_scrapper/scraper.py:92-94 | a `<script>` or `<style>` element ends no later than its first matching closing tag, as the lazy `.*?` of `_SCRIPT_STYLE_RE` requires |
| Markup.RemoveScriptStylePrefix | pricing_scrapper/scraper.py:92-94 | text without `<` passes through the script/style removal unchanged in front of whatever follows it |
| Markup.RemoveScriptStylePlain | pricing_scrapper/scraper.py:92-94 | text without `<` is left unchanged by the script/style removal |
| Markup.RemoveTagsWithoutGt | pricing_scrapper/scraper.py:90 | text without `>` holds no tag, so `_TAG_RE.sub` leaves it unchanged |
| Markup.RemoveTagsLeavesNoTag | pricing_scrapper/scraper.py:90 | after removing tags, no `<…>` tag is left anywhere in the text |
| Markup.CleanSnippet | pricing_scrapper/scraper.py:201-205 | a cleaned snippet has no whitespace at either end, every whitespace character in it is a plain space, and no two of them are adjacent |
| Markup.IsInsideHtmlTagIff | pricing_scrapper/scraper.py:183-192 | an index is inside a tag exactly when some `<` before it is followed by no `>` up to the index |
| PricePattern.MatchAtSound | pricing_scrapper/scraper.py:12-19 | whatever the recogniser matches at a position is a non-empty span of the price grammar (currency before or after, digit groups, decimals) |
| PricePattern.MatchAtComplete | pricing_scrapper/scraper.py:12-19 | wherever the price grammar spans some text, the recogniser finds a match there |
| PricePattern.FindAllSpec | pricing_scrapper/scraper.py:12-19 | `finditer` yields genuine matches in left-to-right order without overlap, and every position where a match starts lies inside one of them |
| PricePattern.MatchStartsVisible | pricing_scrapper/scraper.py:12-19 | a price match never starts with whitespace |
| Window.GatherVisibleText | pricing_scrapper/scraper.py:131-180 | the walk collects at most `limit` characters, never `<` or `>`, never begins (in walking order) with whitespace; over tag-free text it is the first `limit` characters after the start, leading whitespace dropped (forward), or the last `limit` before it, trailing whitespace dropped (backward) |
| Window.VisibleTextWindow | pricing_scrapper/scraper.py:195-198 | the window is the left walk, the match itself and the right walk, in that order; over tag-free text it is exactly the context characters on either side of the match |
| VisibleText.VisibleTextParser.constructor | pricing_scrapper/scraper.py:56-61 | the parser starts with no open elements, no sibling counts and no text nodes |
| VisibleText.VisibleTextParser.HandleStartTag | pricing_scrapper/scraper.py:63-71 | the parser's state moves as the start-tag step says: the element is pushed with its index among same-named siblings |
| VisibleText.VisibleTextParser.HandleEndTag | pricing_scrapper/scraper.py:73-75 | the parser's state moves as the end-tag step says: the innermost open element is popped, whatever the closing tag's name |
| VisibleText.VisibleTextParser.HandleData | pricing_scrapper/scraper.py:77-87 | the parser's state moves as the data step says: non-blank text outside script/style becomes a node with the current path |
| VisibleText.VisibleTextParser.Feed | pricing_scrapper/scraper.py:53-87 | feeding a page runs the step functions over its events in order |
| VisibleText.RunInv | pricing_scrapper/scraper.py:53-87 | every state reached keeps each open element's index below the counter of its parent for its tag, so the next sibling of that tag gets a fresh index, and every node collected has non-empty text and no script or style on its path |
| VisibleText.RunExtendsNodes | pricing_scrapper/scraper.py:77-87 | nodes, once emitted, stay in place: later events only append |
| VisibleText.StartTagNumber | pricing_scrapper/scraper.py:63-71 | an element is numbered by how many siblings of its name came before it, and closing it counts one more such sibling |
| VisibleText.SiblingsCounted | pricing_scrapper/scraper.py:63-75 | `n` complete siblings of one name raise that name's sibling count by `n` and leave the depth unchanged |
| VisibleText.CollectTextNodes | pricing_scrapper/scraper.py:208-212 | the nodes are those the parser run emits, and each is well formed |
| Candidates.PrefixMatchMeaning | pricing_scrapper/scraper.py:96-128 | the noise-prefix match is the longest prefix word matching the text case-insensitively; no match means no noise word is a prefix |
| Candidates.StripNoisePrefix | pricing_scrapper/scraper.py:226-234 | the result is a suffix of the text, starts with no separator and starts with no noise word: the stripping loop has run to its fixed point |
| Candidates.PrepareCandidateText | pricing_scrapper/scraper.py:237-243 | a prepared text has no separators at either end, starts with no noise word, and its whitespace is single plain spaces, never two in a row |
| Candidates.PreparedValidIff | pricing_scrapper/scraper.py:246-260 | a prepared text is a valid candidate exactly when it holds a letter |
| Candidates.TextQualityBounds | pricing_scrapper/scraper.py:263-273 | quality lies between the text's length and three times its length plus five |
| Candidates.CommonPrefixLength | pricing_scrapper/scraper.py:215-223 | the count is the length of the longest common prefix: both sequences agree up to it and differ just after it, where both go on |
| Candidates.SharedPrefixUnique | pricing_scrapper/scraper.py:215-223 | only one length has that property |
| Candidates.ScorePositiveIsValid | pricing_scrapper/scraper.py:276-291 | a text with a positive score is a valid candidate |
| Candidates.ScoreMonotone | pricing_scrapper/scraper.py:276-291 | among valid texts, a longer shared path prefix or a shorter distance never lowers the score, and strictly raises it |
| Selection.Locate | pricing_scrapper/scraper.py:350-374 | the node found holds the price at or after its consumed offset; the nodes searched before it hold none; the search wraps around from `start`; nothing is found exactly when no node holds the price |
| Selection.LocateNodeForPrice | pricing_scrapper/scraper.py:350-374 | the cursor search yields the node `Locate` defines and moves that node's consumed offset past the price, changing nothing else; no node found means nothing changes |
| Selection.PickUnique | pricing_scrapper/scraper.py:310-345 | the candidate a scan picks is unique |
| Selection.ScanMeaning | pricing_scrapper/scraper.py:310-345 | a neighbour scan chooses something exactly when some examined neighbour scores above zero, and then the first of the best among those it examined |
| Selection.FoldChoice | pricing_scrapper/scraper.py:310-345 | the best score never drops below zero, and the chosen text is a positive-scoring neighbour's |
| Selection.SelectBestNeighbor | pricing_scrapper/scraper.py:294-347 | the text before the price in its own node wins when valid, then the text after it; otherwise the best-scoring neighbour behind, else ahead, else nothing; whatever is chosen is a valid candidate |
| Dedup.DedupByDistinct | pricing_scrapper/scraper.py:442-446 | first-occurrence deduplication leaves distinct keys |
| Dedup.DedupBySubset | pricing_scrapper/scraper.py:442-446 | it keeps only items of the input |
| Dedup.DedupBySameKeys | pricing_scrapper/scraper.py:442-446 | it loses no key |
| Dedup.DedupByKeepsFirst | pricing_scrapper/scraper.py:442-446 | the first item of every key is kept |
| Dedup.DedupFirst | pricing_scrapper/scraper.py:442-446 | the loop with its `seen` set computes first-occurrence deduplication |
| Extract.VisiblePricesSound | pricing_scrapper/scraper.py:451-460 | every price yielded is the stripped text of a match that does not start inside a tag |
| Extract.VisiblePricesComplete | pricing_scrapper/scraper.py:451-460 | every match that does not start inside a tag is yielded |
| Extract.IterPrices | pricing_scrapper/scraper.py:451-460 | `iter_prices` yields, in order, the stripped text of every price match outside a tag in the page with scripts and styles removed |
| Extract.IterPricesVisible | pricing_scrapper/scraper.py:451-460 | every price yielded is non-empty with no whitespace at either end |
| Extract.RefineSnippetNonEmpty | pricing_scrapper/scraper.py:377-399 | a snippet with visible text never refines to nothing |
| Extract.RefineSnippetPrefers | pricing_scrapper/scraper.py:377-399 | refinement prefers the valid prepared text before the price, then after it, and otherwise keeps the snippet |
| Extract.RefineSnippetEdges | pricing_scrapper/scraper.py:377-399 | a snippet without edge whitespace refines to one without edge whitespace |
| Extract.Shorten | pricing_scrapper/scraper.py:439-440 | a description is at most 160 characters: short ones are kept, long ones are their first 157 characters and `...` |
| Extract.NeighbourText | pricing_scrapper/scraper.py:426-431 | the neighbour description, when there is one, is a valid candidate, and the node cursor stays or lands on a node |
| Extract.DescribeMatch | pricing_scrapper/scraper.py:417-440 | every match gets a non-empty description of at most 160 characters |
| Extract.ExtractPrices | pricing_scrapper/scraper.py:402-448 | the results carry distinct (description, price) keys, each with a non-empty price and a non-empty description of at most 160 characters, and the set of their prices is the set of prices `iter_prices` yields: no visible price goes unreported |
| Text.NormalizeText | pricing_scrapper/knbk.py:187-190 | normalised text has no whitespace at either end, and its whitespace is single plain spaces, never two in a row |
| KnbkClassify.Classes | pricing_scrapper/knbk.py:37-41 | an element's classes are whitespace-free, non-empty words, and there are none without a `class` attribute |
| KnbkClassify.ClassMatchesIff | pricing_scrapper/knbk.py:193-200 | an element's classes match exactly when some class, case-folded, contains some keyword |
| KnbkClassify.CrossedOutPriceIsNotPrice | pricing_scrapper/knbk.py:256-266 | without `itemprop="price"`, an element carrying both a price class and a crossed-out class is never a price, whatever its `data-qaid` |
| KnbkClassify.PriceByDataQaid | pricing_scrapper/knbk.py:256-266 | without `itemprop="price"` and without a price class, an element is a price exactly when its `data-qaid` mentions `price` and not `old` |
| KnbkClassify.ElementClassesNeverMakeContainers | pricing_scrapper/knbk.py:211-223 | classes written `block__element` never make a category container: only a `div`, `section` or `article` with a group `data-qaid` is one |
| KnbkPage.Placeholder | pricing_scrapper/knbk.py:420-421 | the name given to an untitled category is clean: non-empty, no edge whitespace, and single plain spaces, never two in a row |
| KnbkPage.PageParser.constructor | pricing_scrapper/knbk.py:297-303 | the parser starts with no open elements, captures, contexts or categories, and its invariant holds |
| KnbkPage.PageParser.HandleStartTag | pricing_scrapper/knbk.py:306-355 | the parser's state moves as the start-tag step says, and the invariant is kept |
| KnbkPage.PageParser.HandleData | pricing_scrapper/knbk.py:369-374 | the parser's state moves as the data step says: every pending capture's buffer gets the text |
| KnbkPage.PageParser.HandleEndTag | pricing_scrapper/knbk.py:357-363 | the parser's state moves as the end-tag step says, and the invariant is kept |
| KnbkPage.PageParser.FinalizeCaptures | pricing_scrapper/knbk.py:376-397 | the loop finishes exactly the captures the pure `_finalize_captures` step finishes, in the same order |
| KnbkPage.PageParser.FinalizeProduct | pricing_scrapper/knbk.py:399-410 | the state moves as the product-closing step says |
| KnbkPage.PageParser.FinalizeCategory | pricing_scrapper/knbk.py:412-422 | the state moves as the category-closing step says |
| KnbkPage.ParseCategoryProducts | pricing_scrapper/knbk.py:430-441 | feeding the page yields the categories the parser run emits |
| KnbkPage.RunOk | pricing_scrapper/knbk.py:296-427 | after every prefix of a page, contexts and captures refer to open elements in depth order, so every closing tag finds the contexts it must close on top |
| KnbkPage.RunCategoriesGood | pricing_scrapper/knbk.py:399-422 | every category returned has a clean, non-empty name and at least one product; every product a clean name and, when present, a clean price |
| KnbkPage.StepEmitsAtMostOne | pricing_scrapper/knbk.py:412-422 | one event emits at most one category and never changes those emitted before |
| KnbkPage.RunCategoriesGrow | pricing_scrapper/knbk.py:412-427 | categories come out in document order: the result on a prefix of the page is a prefix of the result |
| KnbkPage.StartTagCapturesUnset | pricing_scrapper/knbk.py:306-355 | a start tag keeps the pending captures and registers new ones only on the innermost open contexts, only for fields still unset, and only for elements of the matching kind |
| KnbkPage.WriteCaptureExtends | pricing_scrapper/knbk.py:376-397 | a finished capture never overwrites a name or price already set |
| KnbkPage.WriteCaptureFills | pricing_scrapper/knbk.py:376-397 | a finished capture with non-empty text fills its field when that field is unset |
| KnbkPage.FinalizeCapturesExtends | pricing_scrapper/knbk.py:376-397 | finishing captures only fills fields that were unset |
| KnbkPage.FinalizeCapturesPops | pricing_scrapper/knbk.py:376-397 | finishing captures pops exactly those deeper than the element stack and keeps a prefix |
| KnbkPage.FinalizeProductEffect | pricing_scrapper/knbk.py:399-410 | closing a product drops it unless it has a non-empty name; a named product is appended to the innermost open category and nothing else changes |
| KnbkPage.FinalizeCategoryEffect | pricing_scrapper/knbk.py:412-422 | closing a category emits it exactly when it holds products, under its title or else `Category N` with N one more than the number emitted so far |
| KnbkPage.AddProductOk | pricing_scrapper/knbk.py:407-410 | appending a product to the innermost category keeps the category stack well formed and its depths |
| KnbkLinks.FirstDataLinkFirst | pricing_scrapper/knbk.py:530-542 | the first data attribute, in the listed order, holding a usable value wins; none usable means none; a usable value is never a placeholder |
| KnbkLinks.ExtractHrefCandidateSpec | pricing_scrapper/knbk.py:516-542 | a usable `href` wins, stripped; otherwise the first usable data attribute; nothing exactly when no attribute is usable; the result is never empty or a placeholder |
| KnbkLinks.LinkAttrsNextHrefSpec | pricing_scrapper/knbk.py:545-578 | an anchor names a "next" link exactly when it has a usable link and one of its attributes marks it as "next", and that link is never a placeholder |
| KnbkLinks.PaginationParser.constructor | pricing_scrapper/knbk.py:582-588 | the parser starts with no link found and no candidate |
| KnbkLinks.PaginationParser.HandleStartTag | pricing_scrapper/knbk.py:590-615 | the parser's state moves as the start-tag step says |
| KnbkLinks.PaginationParser.HandleEndTag | pricing_scrapper/knbk.py:617-635 | the parser's state moves as the end-tag step says |
| KnbkLinks.PaginationParser.HandleData | pricing_scrapper/knbk.py:641-645 | the parser's state moves as the data step says |
| KnbkLinks.PagFirstWins | pricing_scrapper/knbk.py:590-645 | once a "next" link is found, no later event changes the parser |
| KnbkLinks.PagRunSpec | pricing_scrapper/knbk.py:581-652 | the link found is never a placeholder, and the link found on a prefix of the page is the one found on the whole page |
| KnbkLinks.FindNextPageUrl | pricing_scrapper/knbk.py:654-675 | the next-page URL is the parser's link resolved against the page, without fragment, kept only for http, https or no scheme |
| KnbkLinks.NextPageUrlFromRealLink | pricing_scrapper/knbk.py:654-675 | a next-page URL is only ever built from a real, non-placeholder link the page marks as "next" |
| KnbkLinks.LastSegment | pricing_scrapper/knbk.py:678-694 | the last path segment is non-empty and holds no `/` |
| KnbkLinks.PathLooksLikeCategory | pricing_scrapper/knbk.py:678-694 | the digit-counting loop decides exactly that the last non-empty path segment, case-folded, starts with `g` or `c` and has a digit as its second character |
| KnbkLinks.RStripChar | pricing_scrapper/knbk.py:723-726 | `rstrip` leaves a prefix that does not end in the character, and removes only that character |
| KnbkLinks.CatalogParts | pricing_scrapper/knbk.py:697-738 | a normalised catalogue URL is http(s) with a host, the base host when there is one, no parameters, query or fragment, and a path that is `/` or has no trailing `/` |
| KnbkLinks.AnchorTargetAdmitted | pricing_scrapper/knbk.py:765-794 | an anchor is taken only with a non-empty normalised target on the base host, other than the base page, with a category-like path, inside a hinted and not excluded region |
| KnbkLinks.LinkName | pricing_scrapper/knbk.py:805-819 | a finished link always has a name |
| KnbkLinks.LinkRunOk | pricing_scrapper/knbk.py:746-856 | every link the parser records has a non-empty name and an admitted target |
| KnbkLinks.CategoryLinkParser.constructor | pricing_scrapper/knbk.py:747-763 | the parser is bound to the base URL's scheme, host and normal form and starts with no links |
| KnbkLinks.CategoryLinkParser.HandleStartTag | pricing_scrapper/knbk.py:765-794 | the parser's state moves as the start-tag step says |
| KnbkLinks.CategoryLinkParser.HandleEndTag | pricing_scrapper/knbk.py:796-828 | the parser's state moves as the end-tag step says |
| KnbkLinks.CategoryLinkParser.HandleData | pricing_scrapper/knbk.py:834-836 | the parser's state moves as the data step says |
| KnbkLinks.CategoryLinkParser.AnchorHasCategoryHint | pricing_scrapper/knbk.py:839-843 | the loop decides whether some open element carries a category-link hint |
| KnbkLinks.CategoryLinkParser.AnchorInExcludedRegion | pricing_scrapper/knbk.py:845-849 | the loop decides whether some open element lies in an excluded region |
| KnbkLinks.ParseSubcategoryLinks | pricing_scrapper/knbk.py:858-870 | the links are the first occurrence of every URL the parser records, in page order |
| KnbkLinks.SubcategoryLinksSpec | pricing_scrapper/knbk.py:858-870 | subcategory links have distinct URLs, non-empty names and admitted targets |
| KnbkMerge.MergeCategories | pricing_scrapper/knbk.py:889-905 | the loop over a page's categories performs the merge fold with the corrected keys |
| KnbkMerge.MergeAllAppend | pricing_scrapper/knbk.py:885-905 | merging page after page is merging all their categories at once |
| KnbkMerge.MergeFoldAt | pricing_scrapper/knbk.py:889-905 | the map holds an entry exactly for the keys met, named after the first category filed there and holding the products of all of them in order |
| KnbkMerge.MergeFoldOrder | pricing_scrapper/knbk.py:889-905 | the key order lists every key once, in order of first appearance, and each has an entry |
| KnbkMerge.MergedSpec | pricing_scrapper/knbk.py:889-910 | the merged list has one entry per key in order of first appearance, named after the first category filed there and holding all their products in order |
| KnbkMerge.CorrectKeyAt | pricing_scrapper/knbk.py:891-895 | with the corrected keys a category is filed under its own name unless that is a placeholder name, and placeholders are numbered in order |
| KnbkMerge.PlaceholdersNeverMerge | pricing_scrapper/knbk.py:891-895 | with the corrected keys a placeholder-named category never merges with another: its entry holds exactly its own name and products |
| KnbkMerge.NamedCategoriesMerge | pricing_scrapper/knbk.py:891-905 | categories with the same real name merge into one entry under that name holding all their products in order; there is one exactly when the name occurs |
| KnbkMerge.SourceKeysMergePlaceholder | pricing_scrapper/knbk.py:891-895 | with the keys as written, a category really named `__placeholder_0` lands in the first placeholder's entry |
| KnbkScrape.PagesFresh | pricing_scrapper/knbk.py:883-908 | the crawl fetches each URL at most once, only fetchable ones not fetched before |
| KnbkScrape.PagesChain | pricing_scrapper/knbk.py:883-908 | the crawl fetches something exactly when the start URL is set and not fetched before; it starts there, and each later page is the "next" link of the page before |
| KnbkScrape.PagesEnd | pricing_scrapper/knbk.py:883-908 | the crawl stops at a page whose "next" link is missing or already fetched |
| KnbkScrape.ScrapeFails | pricing_scrapper/knbk.py:883-887 | a page the crawl cannot fetch fails the whole scrape |
| KnbkScrape.ScrapePage | pricing_scrapper/knbk.py:886-907 | one page's categories are merged into the running state by the corrected category key `KnbkMerge.CorrectKey`, not the source's string key, and its "next" link found |
| KnbkScrape.ScrapeCategoryProducts | pricing_scrapper/knbk.py:873-910 | the loop yields the categories of the pages the "next" chain visits, merged by the corrected key `KnbkMerge.CorrectKey`, or the crawl's failure |
| KnbkScrape.NamePartsSpec | pricing_scrapper/knbk.py:931-933 | the category name comes last, after the whole path, and naming a second time after the same name adds nothing |
| KnbkScrape.FullNameEndsWithName | pricing_scrapper/knbk.py:931-934 | a non-empty category name ends its full name |
| KnbkScrape.UnvisitedShrinks | pricing_scrapper/knbk.py:922-925 | visiting a new key of a fetchable URL leaves strictly less to walk, so the walk ends |
| KnbkScrape.WalkOnce | pricing_scrapper/knbk.py:921-941 | every normalised URL is walked at most once, and the keys walked are exactly those added to `visited` |
| KnbkScrape.WalkSkips | pricing_scrapper/knbk.py:922-924 | a URL without a normal form or with a visited one is skipped and changes nothing |
| KnbkScrape.WalkFails | pricing_scrapper/knbk.py:925-929 | a new page that cannot be fetched or scraped fails the walk |
| KnbkScrape.WalkVisits | pricing_scrapper/knbk.py:925-941 | a new page's walk records its renamed categories and then walks its subcategory links |
| KnbkScrape.WalkLinksFirst | pricing_scrapper/knbk.py:939-941 | the link loop walks the first link, with the path extended by its name, and then the others |
| KnbkScrape.Walker.constructor | pricing_scrapper/knbk.py:918-919 | the walk starts with nothing visited and no results |
| KnbkScrape.Walker.WalkFrom | pricing_scrapper/knbk.py:921-941 | the recursive walk leaves `visited` and `results` as the pure walk says, and fails exactly when it fails |
| KnbkScrape.ScrapeCategoryHierarchyProducts | pricing_scrapper/knbk.py:913-945 | the result is the pure depth-first walk from the start URL with an empty path, each page scraped with the merge by the corrected key `KnbkMerge.CorrectKey` |
| Urls.SplitIsWellFormed | server.py:124-129 | every URL with a network location splits (as `urlsplit` does) into well-formed components: a lower-case scheme, a host free of delimiters, a path starting with `/` or empty, a query free of `#` |
| Urls.SplitUnsplit | server.py:124-129 | reassembling well-formed components with a network location and splitting them again gives the same components back |
| Urls.RejoinedParse | pricing_scrapper/knbk.py:709-738 | putting the parameters `urlparse` separates back after the path gives a well-formed URL with the scheme, host, query and fragment of `urlsplit`, and its path, or that path without a final `;` that had nothing after it |
| Urls.UnparseParse | pricing_scrapper/knbk.py:709-738 | `urlparse` followed by `geturl()` keeps the scheme, host, query and fragment of a URL with a network location |
| ServerLinks.PaginationLinkParser.constructor | server.py:49-54 | the collector starts with no links and no open anchor |
| ServerLinks.PaginationLinkParser.HandleStartTag | server.py:56-69 | the collector's state moves as the start-tag step says: an anchor with an `href` opens, one without discards the open anchor, other tags count as nesting inside one |
| ServerLinks.PaginationLinkParser.HandleEndTag | server.py:71-87 | the collector's state moves as the end-tag step says: only the anchor's own closing tag records it |
| ServerLinks.PaginationLinkParser.HandleData | server.py:89-91 | the collector's state moves as the data step says: text is kept only inside an open anchor |
| ServerLinks.CollectLinks | server.py:170-173 | feeding the page yields the links the collector run records |
| ServerLinks.AnchorLinksAreAnchors | server.py:46-96 | every collected link has a non-empty target equal to the `href` of an anchor start tag of the page, and text without edge whitespace |
| ServerLinks.PlainAnchor | server.py:56-91 | a plain anchor with an `href` and text yields exactly one link with its stripped text |
| ServerLinks.NestedTagInAnchor | server.py:56-91 | a tag nested in an anchor does not close it; the anchor's own `</a>` does, with the text from both sides of the nested element |
| ServerLinks.NormalizeUrlSpec | server.py:124-129 | for a URL with a network location, the normal form splits into the URL's own scheme, host and query, no fragment, and a non-empty path |
| ServerLinks.NormalizeUrlIdempotent | server.py:124-129 | normalising twice is normalising once |
| ServerLinks.NormalizeIgnoresFragment | server.py:124-129 | URLs that differ only in their fragment share a normal form |
| ServerLinks.TextHintSuffices | server.py:136-137 | a link whose text is a hint word is a pagination link |
| ServerLinks.HrefHintSuffices | server.py:144-146 | a link whose target carries a query or path marker is a pagination link, whatever its text |
| ServerLinks.NextAttributeSuffices | server.py:148-149 | `next` among the attribute words makes any link a pagination link |
| ServerLinks.HintsHoldNoDigit | server.py:99-121 | no hint word and no arrow holds a digit, and no arrow is a hint word, so the text tests do not overlap |
| ServerLinks.ArrowNeedsHint | server.py:139-149 | an arrow alone is not enough: without a pagination word among the attributes or a marker in the target it is not a pagination link |
| ServerLinks.ArrowWithHint | server.py:139-142 | an arrow with a pagination word among the attributes is a pagination link |
| ServerLinks.NumberNeedsContext | server.py:151-165 | a page number counts exactly when it has context: a marker in the target, `next`, `page` or `pagination` among the attributes, a path segment starting with `page`, or an all-digit query value of the resolved URL |
| ServerLinks.OrdinaryLinkIsNot | server.py:132-167 | a link whose text is no hint word, no arrow and no number, with no marker in its target and no `next` among its attributes, is not a pagination link |
| ServerLinks.CandidateSpec | server.py:182-204 | a candidate is an http(s) URL on the page's host (ignoring case), without fragment, other than the page, from a link that looks like pagination and whose target is neither empty, nor a fragment, nor a script, mail or phone link |
| ServerLinks.DiscoveredSpec | server.py:170-208 | the discovered URLs are pairwise distinct, each is some link's candidate, and every link's candidate is among them |
| ServerLinks.ResolveLink | server.py:182-198 | the filtering steps of the loop yield the resolved candidate target exactly as the pure filter does |
| ServerLinks.DiscoverPaginationUrls | server.py:170-208 | the loop discovers the links' candidates, first occurrence of each, in page order |
| ServerSite.NormalSetMeaning | server.py:211-240 | the visited set holds exactly the normal forms of the pages fetched |
| ServerSite.DistinctBySize | server.py:211-240 | as many normal forms as pages means no page was fetched twice |
| ServerSite.CrawlDone | server.py:211-240 | when the crawl stops it holds at most `limit` pages, no two with the same normal form, each the fetched text of its URL, the first being the start URL, taken from the queue in queue order, and every URL queued after the start is a link of a fetched page |
| ServerSite.EnqueueLinks | server.py:230-238 | the inner loop queues the links of the page as the offer function says: in order, each unless its normal form is visited or queued, or visited plus queued has reached the limit |
| ServerSite.VisitPage | server.py:221-238 | a new, fetchable URL at the head of the queue is recorded with its text and its normal form marked visited; its links are offered only while the limit is not reached |
| ServerSite.Crawler | server.py:211-240 | the loop computes the breadth-first crawl: the queue is popped from the front, duplicates by normal form skipped, and each page's links offered in order; its result ends in the state `CrawlDone` describes, or fails on a queued URL that cannot be fetched |
| ServerSite.CollectPaginatedPages | server.py:211-240 | `_collect_paginated_pages` is that crawl with `_normalize_url` and `_discover_pagination_urls`, with the same guarantees |
| ServerSite.SiteResults | server.py:247-254 | deduplicating the items of all pages leaves distinct keys, well-formed results and every price of every item |
| ServerSite.ScrapePages | server.py:247-254 | each page gets its own `extract_prices` results (well formed, one per key, exactly the page's visible prices); the loop's result is the first result of every key over those lists concatenated in page order, with distinct keys and all the prices of all pages |
| ServerSite.ScrapeSite | server.py:243-256 | the pages are exactly those of the crawl, or its failure; each crawled page gets its own `extract_prices` results; the results are the first of every (description, price) key over those lists in page order, with distinct keys and every price of every page, and the count is the number of pages |
| ServerSite.ReadFormatSummary | server.py:259-261 | the summary line states both counts, which read back from it |
| ServerSite.ReadSummaryOf | server.py:259-261 | a line of two digit runs around the middle text, ending with the word that agrees with the second count, reads back as the two counts |
| ServerSite.SummaryWord | server.py:259-261 | the line ends in `page` exactly for one page and in `pages` otherwise |
| ServerSite.HttpsPrefix | server.py:309-310 | `https://` in front gives the parse the scheme `https` |
| ServerSite.ValidateUrl | server.py:306-313 | a refused URL gets the source's error message |
| ServerSite.ValidateUrlSpec | server.py:306-313 | an accepted URL is http(s) with a host, keeps the host and query of what was judged, and one typed without a scheme comes back as https |
| ServerSite.ValidateUrlRefuses | server.py:311-312 | a URL whose judged parse is not http(s) or has no host is refused |

## Left out

- Network and browser I/O: `fetch` with urllib and Playwright, the request headers and timeouts. A fetcher is a finite map from URL to page text, and a URL outside it is a fetch error that ends the whole call, as the exception does in the source.
- The HTTP front end of `server.py`: `render_page`, the request handler, `run`, `main` and the argument parsing. They only format and serve what the modelled functions return.
- The HTML tokenizer of `html.parser`: pages are event sequences, and a function from text to events is a parameter wherever the source parses text.
- `handle_startendtag` is a start tag followed by an end tag. The server's anchor collector overrides it to ignore other self-closing tags, but a start and end pair of such a tag leaves its nesting count unchanged, so the effect is the same.
- `urljoin` is a parameter. `urlsplit` and `urlparse` leave out the removal of leading control characters, embedded tabs and newlines, the IPv6 bracket checks, and the `ValueError` raised when the NFKC normal form of a non-ASCII network location holds one of `/?#@:`.
- `parse_qs` only splits fields at `&` and keeps non-empty values; percent-decoding and `+` as a space are not modelled.
- `casefold` and `lower` are modelled as one character to one: the capitals `A`-`Z`, the Latin-1 capitals `À`-`Þ` and the Cyrillic capitals `Ѐ`-`Я` and `Ґ` become lower case, and every other character is left as it is. So the expansions of `casefold` (`ß` to `ss`), its other foldings (`µ` to `μ`) and the lower-casing of the rest of Unicode are not modelled. `isalpha` covers the ASCII and Latin-1 letters and the Cyrillic block, and `isdigit` only `0`-`9`, not digits such as `²` that Python also accepts. `isspace` is exact.
- `html.unescape` knows a small table of named entities, not the full HTML5 table or numeric references.
- The regular expressions `PRICE_PATTERN`, `_TAG_RE`, `_SCRIPT_STYLE_RE`, `_NOISE_PREFIX_RE` and `_PLACEHOLDER_CATEGORY_RE` are written out as recognisers on their grammars. The regex engine itself is not modelled.
- The limits `limit` and `context` are natural numbers. In the source a negative limit stops every loop at once, exactly as zero does.
- The crawl of `_collect_paginated_pages` and the hierarchy walk use the specification functions of their helpers: the links of a page are the discovered links, the scrape of a page is `KnbkScrape.ScrapeSpec`, and the subcategory links are the deduplicated link run. Each helper method is proved equal to that function.
- The walk of `scrape_category_hierarchy_products` takes the page text for links and the scrape from the same map, so its two fetches of one URL see the same page.
- The branch of `_discover_pagination_urls` that fills in a missing scheme is dead, because only http and https targets reach it. It is modelled as written.
- `_select_best_neighbor_description` gets each node's prepared text from a sequence computed once per page (`Selection.PreparedTexts`) rather than calling `_prepare_candidate_text` inside its loops. The function is pure, so the results are the same.
- Selection.SelectBestNeighbor: requires a non-empty price. Its only caller passes a stripped price match, which is never empty (`PricePattern.MatchStartsVisible`).
- Extract.DescribeMatch: states the bounds of the description, not which text is chosen. The choice is stated by `Selection.SelectBestNeighbor`, `Extract.RefineSnippetPrefers` and `Extract.Shorten`.
- Extract.ExtractPrices: states the set of prices reported and the well-formedness of the results, not each description.
- VisibleText.RunInv: the invariant does not say that a node's text is stripped, because unescaping can put whitespace back at its edges (`&nbsp;x` becomes a no-break space and `x`), nor that its path is the path of the open elements. `VisibleText.VisibleTextParser.HandleData` states both for each node it adds.
- KnbkClassify.PriceByDataQaid: treats a `data-qaid` written without a value as absent. In the source `dict(attrs)` keeps `None` for it and the `casefold()` of `_is_product_price` raises `AttributeError`, which aborts `parse_category_products` and every scrape above it; the model classifies such an element as not a price and goes on.
- KnbkClassify.IsProductPrice and KnbkPage.PageParser.HandleStartTag: the same valueless `data-qaid` inside a product raises in the source and does not in the model, because `Html.Attrs` has no place for a valueless attribute. The other attribute reads of the core treat a valueless attribute like a missing one, so this is the only place where the two differ.
- KnbkScrape.ScrapePage: merges the categories of a page by `KnbkMerge.CorrectKey`, which keeps untitled categories apart from every named one. The source's string keys (lines 891-895 of `pricing_scrapper/knbk.py`) would merge an untitled category with a category really named `__placeholder_N`; that behaviour is modelled separately as `KnbkMerge.SourceKeysMergePlaceholder` (see Findings).
- KnbkScrape.ScrapeCategoryProducts: uses the merge of `KnbkScrape.ScrapePage`, so on a page with a category really named `__placeholder_N` it returns the untitled category and that one separately, where the source returns one merged category.
- KnbkScrape.ScrapeCategoryHierarchyProducts: scrapes each category page with that same corrected merge, with the same difference from the source.
- ServerSite.Crawler: equal to the breadth-first crawl function, but no lemma proves that this crawl reaches every pagination page within the limit.
- KnbkScrape.ScrapeCategoryProducts: the source's loop has no page ceiling. It ends because the fetcher is finite and no URL is fetched twice.

## Findings

| source | as written | input that shows it | evidently intended | confidence | as-written member | corrected member |
|---|---|---|---|---|---|---|
| pricing_scrapper/knbk.py:891-895 | untitled categories are merged under the string key `__placeholder_N`, in the same key space as real category names | a page with an untitled category `Category 1` holding `p` followed by a category really named `__placeholder_0` holding `q` merges both into `Category 1` with `[p, q]` | an untitled category never merges with another category | not executed | KnbkMerge.SourceKeysMergePlaceholder | KnbkMerge.PlaceholdersNeverMerge |
