# Zoho update scrapers, modelled in Dafny

This project models the logic of the Zoho-Updates scrapers and dashboard:

- `netlify/functions/scraper-products.js`: the product scraper.
- `netlify/functions/scraper.js`: the debugging scraper.
- `netlify/functions/scraper-news.js`: the news scraper.
- `api/scraper.js`: the Vercel scraper.
- `script.js`: the pure parts of the dashboard.

Each scraper walks a list of configured sources and fetches pages. Only the debugging scraper and the Vercel scraper read robots.txt first; the product scraper skips it and the news scraper never fetches it. The three Netlify variants pull candidate headings out of the HTML with an ordered list of regular expressions; the Vercel scraper uses a single heading pattern. Each keeps the headings that pass a title filter and attaches a date, a summary and a link to each. The product and news scrapers also classify each item. The three Netlify variants then deduplicate by normalised title; the Vercel scraper does not. All four sort newest first, cap the list and report a status per source. The dashboard merges two functions' responses, retries failed calls, filters the products and derives CSS class names.

The network, the clock, the regular-expression engine and the host's date parser are parameters:

- a `Web` value answers GET and HEAD requests;
- an `Oracles` value supplies the structural templates (each an ordered list of matches), the date regexes, the date parser, the anchor-`href` regex and today's date;
- a `started` count stands for the number of sources begun before the time budget ran out.

Keyword classification, title filters, trimming, lower-casing, the summary text pipeline, deduplication, sorting, robots.txt reading, URL discovery and the fallback chain are modelled concretely.

Each run function returns the source's result together with the log of requests it made, in order. This lets contracts speak about which pages were fetched and probed.

Modules:

| module | file | models |
|---|---|---|
| `Strings` | strings.dfy | `trim`, ASCII `toLowerCase`, `includes`, `startsWith`, `split` on one character |
| `Model` | model.dfy | items, sources, results, statuses, the request log |
| `Urls` | urls.dfy | `getBaseUrl`, `extractLinkFromContext` |
| `Extract` | extract.dfy | the template loop, context window, date patterns, summary pipeline |
| `Classify` | classify.dfy | type and priority classification of both classifying variants |
| `Dedupe` | dedupe.dfy | `deduplicateUpdates` and its stable newest-first sort |
| `Robots` | robots.dfy | both robots.txt decisions |
| `Discovery` | discovery.dfy | `discoverUpdatesUrl` |
| `Pipeline` | pipeline.dfy | explicit page, then discovery, then homepage |
| `Report` | report.dfy | the handlers' counters |
| `Products`, `Debug`, `News`, `Api` | products.dfy, debug.dfy, news.dfy, api.dfy | one scraper each |
| `Dashboard` | dashboard.dfy | the dashboard pieces |

## Model

| member | source | states |
|---|---|---|
| Strings.TrimIdempotent | netlify/functions/scraper-products.js:268 | trimming a trimmed title changes nothing, so a pushed title equals its own trim |
| Strings.IndexOfIffContains | netlify/functions/scraper-products.js:308 | the first-occurrence search finds a position exactly when the text contains the pattern |
| Strings.SplitJoin | netlify/functions/scraper.js:394 | splitting on a separator loses nothing: joining the pieces back gives the text |
| Urls.GetBaseUrlPrefix | netlify/functions/scraper-products.js:474-477 | the base URL is a prefix of the URL: either the whole URL or a scheme with a non-empty host and no path |
| Urls.GetBaseUrlOfJoin | netlify/functions/scraper-products.js:474-477 | appending a path that starts with '/' to an origin gives back that origin |
| Urls.GetBaseUrlIdempotent | netlify/functions/scraper-products.js:474-477 | taking the base URL twice is the same as once |
| Urls.ExtractLink | netlify/functions/scraper-products.js:396-414 | a missing href, or one that neither starts with '/' nor with `http`, gives the fallback page; a root-relative href is joined to the fallback's origin and an `http` href is taken as it is, each kept exactly when it contains `zoho.com` and no `javascript:`; any result other than the fallback is the href itself or the href joined to the origin |
| Extract.DenylistIgnoresCase | netlify/functions/scraper-products.js:294-304 | a title containing any casing of a denylist term is rejected |
| Extract.ValidHitsSpec | netlify/functions/scraper-products.js:266-283 | accepted matches carry trimmed, valid titles; there are none exactly when no match is accepted |
| Extract.ValidHitsTitles | netlify/functions/scraper-products.js:266-268 | every accepted match carries a trimmed title that passes the filter |
| Extract.ValidHitsEmpty | netlify/functions/scraper-products.js:266-268 | there are no accepted matches exactly when no match is accepted |
| Extract.TakeHitsIsPrefix | netlify/functions/scraper-products.js:266 | the capped match loop takes exactly the first `cap` accepted matches |
| Extract.FirstProductiveSpec | netlify/functions/scraper-products.js:262-289 | the result comes from the first template with an accepted match, every earlier one has none, and the result is empty exactly when every template is barren |
| Extract.FirstProductiveTitles | netlify/functions/scraper-products.js:262-289 | at most `cap` hits, each with a trimmed valid title |
| Extract.WindowSlice | netlify/functions/scraper-products.js:270-272 | the context is the slice from `before` characters ahead of the match to `after` past it, clipped to the document |
| Extract.ExtractDateFirst | netlify/functions/scraper-products.js:372-394 | the date comes from the first pattern that both matches and parses; there is none exactly when every pattern fails |
| Extract.StripTagsPlain | netlify/functions/scraper-products.js:307 | text without '<' is left alone by tag stripping |
| Extract.CollapseSpaces | netlify/functions/scraper-products.js:307 | after collapsing, every white-space character is a space, no two spaces are adjacent, the result is no longer than the input and starts like it |
| Extract.CollapseSpacesKeepsText | netlify/functions/scraper-products.js:307 | collapsing changes only white space: with every white-space character deleted, the result and the input are the same text |
| Extract.SplitSentencesKeepsText | netlify/functions/scraper-products.js:311 | splitting at terminators loses only the terminators |
| Extract.FirstLongSpec | netlify/functions/scraper-products.js:311-313 | the first surviving sentence is the first whose trim is long enough; there is none exactly when no sentence is |
| Extract.Truncate | netlify/functions/scraper-products.js:315-317 | a summary no longer than the limit is unchanged; a longer one agrees with the input on its first `maxLen` characters and is exactly `maxLen` + 3 long, ending in `...` |
| Extract.SentenceSummarySpec | netlify/functions/scraper-products.js:306-319 | the summary is the first long sentence, trimmed and truncated, with its length bounds; absent exactly when no sentence is long enough |
| Classify.FirstMatchSpec | netlify/functions/scraper-products.js:342-352 | the first rule, in table order, whose words occur gives the outcome; the default exactly when none does |
| Classify.EmbeddedWordIsNoMatch | netlify/functions/scraper-products.js:53-57 | a keyword inside a longer word does not match |
| Classify.SeparatedWordMatches | netlify/functions/scraper-products.js:53-57 | a keyword surrounded by non-word characters matches |
| Classify.ScoreIsFirstMatch | netlify/functions/scraper-products.js:324-340 | the score-based choice equals the first matching rule, since every score is 0 or 1 |
| Classify.ClassifyUpdateTypeSpec | netlify/functions/scraper-products.js:324-340 | the product type is the first matching row of the table and `General` exactly when none matches |
| Classify.ClassifyPrioritySpec | netlify/functions/scraper-products.js:342-352 | Critical exactly when a critical word occurs; Major exactly when only a major word does |
| Classify.SecurityWordIsCritical | netlify/functions/scraper-products.js:60-63 | example: the word `security` makes the priority Critical |
| Classify.ClassifyNewsTypeSpec | netlify/functions/scraper-news.js:265-275 | the news type is `News` exactly when no row matches; otherwise it is the outcome of a matching row before which no row matches; never General or API Changes |
| Classify.ClassifyNewsPrioritySpec | netlify/functions/scraper-news.js:277-289 | Major exactly when a word of either list occurs in the title; otherwise Normal |
| Classify.ClassifyIgnoresCase | netlify/functions/scraper-products.js:325 | classification does not depend on the case of the title or summary |
| Dedupe.Normalize | netlify/functions/scraper-products.js:421 | the normalised title is no longer than the title and holds only `[a-z0-9]` |
| Dedupe.NormalizeIdempotent | netlify/functions/scraper-products.js:421 | normalising twice is the same as once |
| Dedupe.KeepFirstSound | netlify/functions/scraper-products.js:420-427 | every kept item is the first input item with its normalised title |
| Dedupe.KeepFirstComplete | netlify/functions/scraper-products.js:420-427 | every first item with a new normalised title longer than ten characters is kept |
| Dedupe.KeepFirstSubseq | netlify/functions/scraper-products.js:420-427 | the kept items are an order-preserving subsequence of the input |
| Dedupe.InsertSorted | netlify/functions/scraper-products.js:429 | inserting an item into a newest-first list keeps it newest first |
| Dedupe.SortFacts | netlify/functions/scraper-products.js:429 | the sort is a permutation, newest first, stable within a date, and keeps distinct keys distinct |
| Dedupe.DeduplicateSpec | netlify/functions/scraper-products.js:416-430 | the result is newest first with unique normalised titles longer than ten, each the first input item with its title, every such first item present, equal dates in input order |
| Dedupe.DeduplicatedPrefix | netlify/functions/scraper-products.js:218-219 | the first `n` deduplicated items are still newest first, unique, and first occurrences |
| Dedupe.DeduplicateIdempotent | netlify/functions/scraper-products.js:416-430 | deduplicating a deduplicated list changes nothing |
| Robots.AgentLine | netlify/functions/scraper.js:398-403 | a line that reads `user-agent:` once trimmed and lower-cased names its trimmed rest as the agent |
| Robots.DisallowLine | netlify/functions/scraper.js:398-405 | a line that reads `disallow:` once trimmed and lower-cased disallows its trimmed rest |
| Robots.ScanSpec | netlify/functions/scraper.js:397-411 | the line reader blocks exactly when a Disallow of `/` or nothing appears while the latest user-agent line names `*` |
| Robots.IsBlockedByRobotsSpec | netlify/functions/scraper.js:391-415 | a failed fetch never blocks; a fetched file blocks exactly when its lines do |
| Robots.OnlyStarSectionBlocks | netlify/functions/scraper.js:400-403 | a file with no `*` agent line never blocks |
| Robots.OtherAgentEndsSection | netlify/functions/scraper.js:400-402 | a user-agent line naming another agent ends the `*` section |
| Robots.EmptyDisallowBlocks | netlify/functions/scraper.js:404-406 | an empty Disallow in the `*` section blocks the site |
| Robots.WildcardRootBlocks | netlify/functions/scraper.js:391-415 | example: `User-agent: *` then `Disallow: /` blocks |
| Robots.ApiBlocksAnyDisallowPrefix | api/scraper.js:176-183 | any `disallow: /` substring, in any case and whatever follows it, blocks in the Vercel variant |
| Robots.BothFailOpen | api/scraper.js:180-182 | an unreadable robots.txt blocks nothing in either variant |
| Discovery.ProbeSpec | netlify/functions/scraper-products.js:354-370 | the probes are the candidates in order up to the first that exists; the result is that candidate or nothing when none exists |
| Discovery.DiscoverSpec | netlify/functions/scraper-products.js:354-370 | the discovered page is the first candidate path under the origin that exists; nothing exactly when none exists |
| Discovery.DiscoveredSameOrigin | netlify/functions/scraper-products.js:355-358 | a discovered page is on the homepage's origin |
| Discovery.PathsAreAbsolute | netlify/functions/scraper-products.js:50 | example: every configured candidate path starts with '/' |
| Discovery.ThirdCandidateWins | netlify/functions/scraper-products.js:354-370 | example: when only `/release-notes` exists, the two earlier paths are probed, it is returned and `/changelog` is never probed |
| Pipeline.FallbackPages | netlify/functions/scraper-products.js:180-207 | the fallback pages are one to three pages ending with the homepage, which appears only there |
| Pipeline.FirstStagesGets | netlify/functions/scraper-products.js:183-200 | the first two steps fetch the configured page and then the discovered page, each only when it is tried, and nothing else |
| Pipeline.FirstStagesHeads | netlify/functions/scraper-products.js:190-192 | the first two steps probe the discovery candidates exactly when there is no configured page or it gave nothing |
| Pipeline.FirstStagesItems | netlify/functions/scraper-products.js:183-200 | after the first two steps the items and `updates_url` are the last tried page's, and a configured page followed by a discovered one gave nothing |
| Pipeline.FirstStagesType | netlify/functions/scraper-products.js:190-196 | the source type becomes `discovered` exactly when there is no configured page or a discovered page is used |
| Pipeline.HomepageStep | netlify/functions/scraper-products.js:202-207 | the homepage is fetched, and its items and URL adopted, exactly when the earlier steps found nothing; otherwise nothing changes |
| Pipeline.GatherPages | netlify/functions/scraper-products.js:180-207 | the pages fetched are the fallback pages up to and including the first that yields items, and the items are that page's |
| Pipeline.GatherProbes | netlify/functions/scraper-products.js:190-200 | discovery probes are issued exactly when there is no configured page or it gave nothing |
| Pipeline.GatherHomepage | netlify/functions/scraper-products.js:202-207 | the homepage is fetched exactly when every earlier page gave nothing |
| Pipeline.GatheredStatus | netlify/functions/scraper-products.js:180-210 | the chain ends with items exactly when some fallback page yields any |
| Pipeline.NoRobotsFetch | netlify/functions/scraper-products.js:166-231 | the product chain never requests robots.txt |
| Report.WithUpdates | netlify/functions/scraper-products.js:113-116 | the number of results with updates is at most the number of results |
| Report.StepCounts | netlify/functions/scraper-products.js:113-124 | one statistics step keeps the non-empty count, the update total and the per-category counters equal to their definitions over the results so far |
| Report.NoUpdatesIffZeroTotal | netlify/functions/scraper-products.js:113-116 | no result has updates exactly when the update total is zero |
| Report.TotalUpdatesBound | netlify/functions/scraper-products.js:113-116 | with at most `cap` updates per result, the total is at most `cap` per result with updates |
| Report.CountersConcat | script.js:249-251 | the counters of two lists put together are the sums of their counters |
| Report.DistinctSpec | netlify/functions/scraper-products.js:87 | the category list holds each configured category once and nothing else |
| Report.DistinctOrder | netlify/functions/scraper-products.js:87 | the categories come in order of first occurrence: of any two, the earlier one occurs in the configuration before the later one first does |
| Products.ProductSummarySpec | netlify/functions/scraper-products.js:306-322 | the summary is the first sentence longer than 20 characters, cut to 160 plus an ellipsis, or `Update from <name>` when there is none |
| Products.ParseProductUpdatesSpec | netlify/functions/scraper-products.js:243-292 | at most eight items with trimmed titles passing the product filter, from the first template with any; empty exactly when every template is barren; links stay on the page or point at zoho.com |
| Products.ProductItemDate | netlify/functions/scraper-products.js:270-276 | an item's date is the first date pattern that matches and parses in the 300 characters before and 400 after the heading, otherwise today |
| Products.Classified | netlify/functions/scraper-products.js:211-216 | classification keeps every field but the tags and tags each item with the type and priority its own text calls for |
| Products.ProductUpdatesSpec | netlify/functions/scraper-products.js:218-219 | at most four updates, newest first, unique normalised titles, each tagged and each a first occurrence |
| Products.ProductRunStatus | netlify/functions/scraper-products.js:166-231 | `ok` exactly when a fallback page yields items, otherwise `no_updates_found` with its message; the pages fetched stop at the first productive one; `updates_url` is the last page fetched; robots.txt is not consulted |
| Products.ProductRunUpdates | netlify/functions/scraper-products.js:209-224 | the category is set; the updates are the capped, deduplicated, classified items of the chain, or none |
| Products.HandleProducts | netlify/functions/scraper-products.js:83-141 | the results are those of the sources begun before the budget ran out, in order, and every summary counter agrees with its definition |
| Products.ProductsHandler | netlify/functions/scraper-products.js:65-164 | as above for the real per-product scrape, with the update total at most four per product with updates |
| Products.ProductBound | netlify/functions/scraper-products.js:218-219 | every product result carries at most four updates |
| Debug.ParseUpdatesWithDebugSpec | netlify/functions/scraper.js:262-322 | at most ten items, newest first, unique titles, each passing the debug filter, with the fixed summary and the page as link; every item is the one built for an accepted heading of the first template that has any; nothing when every template is barren |
| Debug.ScrapeUrlWithDebugSpec | netlify/functions/scraper.js:235-259 | a page is already deduplicated; a page shorter than 100 characters or a failed fetch yields nothing |
| Debug.DebugRunRobots | netlify/functions/scraper.js:155-169 | robots.txt is fetched first; the source is blocked exactly when the line reader says so, and then nothing else is requested |
| Debug.DebugRunStatus | netlify/functions/scraper.js:172-224 | when allowed, `ok` exactly when a fallback page yields items, otherwise `no_updates_found` with its message; the category is never empty |
| Debug.DebugUpdatesSpec | netlify/functions/scraper.js:210-214 | at most five updates, newest first, unique, first occurrences; the first five of the page when it was already deduplicated |
| Debug.HandleDebug | netlify/functions/scraper.js:63-102 | every source is processed in order; successful counts results with updates and successful plus failed is the total |
| Debug.DebugHandler | netlify/functions/scraper.js:28-129 | as above for the real per-product scrape |
| News.NewsFallbackSpec | netlify/functions/scraper-news.js:255-262 | the fallback line is chosen by the first of Blog, Press, Community, News in the name, the default exactly when none occurs |
| News.NewsSummarySpec | netlify/functions/scraper-news.js:241-263 | the summary is the first sentence longer than 25 characters, cut to 180 plus an ellipsis, or the fallback line |
| News.ParseNewsContentSpec | netlify/functions/scraper-news.js:172-227 | at most ten items with trimmed titles passing the news filter, from the first template with any; empty exactly when every template is barren |
| News.NewsClassified | netlify/functions/scraper-news.js:142-147 | classification keeps every field but the tags and tags each item as news with its own type and priority |
| News.NewsUpdatesSpec | netlify/functions/scraper-news.js:149 | at most five updates, newest first, unique, tagged, first occurrences |
| News.NewsRunSpec | netlify/functions/scraper-news.js:126-160 | exactly one page is fetched, the configured one or else the homepage; `ok` exactly when it yields items; always explicit, category News, pointing at that page |
| News.HandleNews | netlify/functions/scraper-news.js:54-100 | the results of the sources begun before the budget ran out, in order, with `total_sources`, `sources_with_updates` and `total_updates` equal to their definitions |
| News.NewsHandler | netlify/functions/scraper-news.js:36-124 | as above for the real scrape, with at most five updates per source with updates |
| News.NewsBound | netlify/functions/scraper-news.js:149 | every news result carries at most five updates |
| Api.ApiItemsTitles | api/scraper.js:219-249 | the items come, in order, from the first three headings of 11 to 199 characters |
| Api.ApiItemsShape | api/scraper.js:219-247 | each item has a trimmed title of 11 to 199 characters, the fixed summary, the page as link and no classification |
| Api.ParseUpdatesFromHtmlSpec | api/scraper.js:212-254 | the result is a stable newest-first permutation of the items of the first three headings of 11 to 199 characters, with the fixed summary and the page as link; empty exactly when no heading qualifies |
| Api.ScrapeUpdatesFromUrlBound | api/scraper.js:203-210 | a page yields at most three updates |
| Api.ApiRunRobots | api/scraper.js:127-145 | robots.txt is fetched first; blocked exactly when the substring test says so, with no other request; never a category, an error message or status `error` |
| Api.ApiRunPage | api/scraper.js:147-167 | a configured page is fetched without probes; otherwise candidates are probed and, if none exists, `no_updates_found` with no page fetched; a fetched page is `updates_url`, its items are the updates, and `ok` exactly when it has any |
| Api.ApiRunBound | api/scraper.js:158-164 | a run reports no more updates than its page yields |
| Api.ApiBound | api/scraper.js:127-174 | every result carries at most three updates |
| Api.HandleApi | api/scraper.js:88-112 | the first eight configured products are processed, in order |
| Api.ApiHandler | api/scraper.js:63-125 | at most eight results, each with at most three updates and never status `error` |
| Dashboard.NamesAreDistinct | script.js:328-333 | distinct types and priorities have distinct names, none `All` |
| Dashboard.ApplyFilters | script.js:316-336 | the filtered list is an order-preserving subsequence of the input whose members are exactly the products that pass the search, category, type and priority filters |
| Dashboard.ApplyFiltersCounts | script.js:318-336 | every product that passes the filters is kept as many times as it occurs in the input, and every other product not at all |
| Dashboard.ApplyFiltersIdentity | script.js:318-336 | with all drop-downs at `All` and a blank query nothing is filtered out |
| Dashboard.ApplyFiltersIdempotent | script.js:318-336 | filtering twice is the same as once |
| Dashboard.SearchIgnoresCase | script.js:316-321 | a query finds the same products as its lower-case form |
| Dashboard.Merge | script.js:236-251 | the merged list is the news products followed by the product-function products; empty means failure with `No data from any function`; the summary counters are the sums of the two parts' counters |
| Dashboard.MergeSummaryConsistent | script.js:248-251 | no more products with updates than products, and none with updates exactly when there are no updates |
| Dashboard.FetchWithRetry | script.js:259-290 | one to `maxRetries + 1` attempts; every attempt before the last failed; the outcome is the last attempt's; a failure only after all attempts |
| Dashboard.FetchFromIndividualFunctions | script.js:212-254 | the response merges, for each function, the attempt the retry loop settles on: every earlier attempt failed, and that one succeeded or was the last allowed; a failure carries the no-data message |
| Dashboard.CategorySlug | script.js:378 | the class has the category's length and holds only `[a-z0-9-]` |
| Dashboard.CategorySlugSpec | script.js:378 | letters and digits survive lower-cased in place and everything else becomes '-'; the slug is idempotent and ignores case |
| Dashboard.DashboardSlugs | script.js:23-33 | example: `CRM & Sales` gives `crm---sales` and `HR` gives `hr` |

## Left out

- HTTP: `fetchUrl`, `testUrlExists` and their timeouts, redirects and the `http`/`https` modules. They are the `Web` parameter. The same URL is assumed to give the same answer within one run.
- `sleep`, `REQUEST_DELAY` and the retry back-off: they only delay.
- The wall-clock budget (`elapsed > 8500` and `elapsed > 8000`). It is the `started` count of sources begun before the budget ran out.
- The regular-expression engine. Each structural template is an ordered list of matches, each date regex is its first match, and the anchor regex is its first `href`. Backtracking and `lastIndex` are not modelled.
- JavaScript `Date` parsing and `toISOString`. They are the `parseDate` parameter, and the default date is the `today` parameter.
- Handler plumbing: CORS headers, OPTIONS and 405 answers, the JSON bodies, `fetched_at`, `source_type: 'products'`/`'news'` and console logging.
- The `debug_info` bookkeeping of the debugging scraper: `urls_tried`, `html_length`, `patterns_matched`, the robots flags and the `details` list. The request log carries the same information about URLs.
- The `catch` branches that would push a result with status `error`. Every fetch failure is already caught inside the page helpers and turned into an empty list, so those branches cannot run: a source whose fetches all fail is reported as `no_updates_found`, and one with another page that yields items as `ok`.
- The empty `Disallow:` line. Section 2.2.2 of RFC 9309 reads it as no restriction, but the debugging scraper's reader blocks on it; the model follows the code (`Robots.EmptyDisallowBlocks`).
- The dashboard's DOM rendering, event listeners, localStorage cache, the main aggregator endpoint and `Promise.all`. The two function calls are modelled one after the other, and their outcomes do not depend on the order.
- Dashboard.Merge: a response body without a `products` field contributes nothing in the source; the model takes every successful response to carry a list.
- Strings.LowerStr: lower-cases ASCII only. JavaScript's `toLowerCase` maps further characters (the Kelvin sign becomes `k`), which could change a denylist test, a normalised title or a slug for such input.
- Strings are sequences of Unicode scalar values, while JavaScript counts UTF-16 code units. Length limits therefore differ for characters outside the Basic Multilingual Plane.
- The configured source lists (`CONFIG.PRODUCTS`) and the structural template lists are parameters rather than constants. The path lists, denylists, keyword tables, caps and length limits are constants.
