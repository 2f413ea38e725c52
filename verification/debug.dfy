/** The debugging scraper (`netlify/functions/scraper.js`): robots.txt is read before
    anything else and a blocking file ends the source; otherwise the shared fallback
    chain runs over a longer path list, with pages under 100 characters ignored,
    every page deduplicated on its own and the whole result deduplicated again down to
    five items. */
module Debug {
  import opened Strings
  import opened Model
  import opened Urls
  import opened Dedupe
  import opened Extract
  import opened Robots
  import opened Discovery
  import opened Pipeline
  import opened Report

  /** `CONFIG.MAX_UPDATES_PER_PRODUCT` of this variant. */
  const MaxUpdatesPerSource: nat := 5

  /** The `updates.length < 10` bound of the parsing loop. */
  const DebugCap: nat := 10

  /** Pages shorter than this are taken for empty or error pages. */
  const MinHtmlLength: nat := 100

  /** The case-insensitive denylist of `isValidTitle`. */
  const DebugDenylist: seq<string> :=
    ["cookie", "privacy", "terms", "sign in", "sign up", "login", "register",
     "home", "about", "contact", "help", "support", "404", "error", "page not found"]

  const NoUpdatesMessage: string := "No updates found on any checked pages"

  /** `isValidTitle(title)`: 10 to 300 characters and no denylisted term. */
  predicate ValidTitle(title: string) {
    PassesDenylist(title, 10, 300, DebugDenylist)
  }

  /** `product.category || 'Other'`. */
  function CategoryOrOther(category: string): string {
    if category == "" then "Other" else category
  }

  /** The update object built for one accepted heading: the date from 300 characters
      either side of the match, a fixed summary and the page itself as the link. */
  function DebugItem(o: Oracles, html: string, baseUrl: string, productName: string,
                     h: Hit): UpdateItem {
    var context := Window(html, h.index, 300, 300);
    UpdateItem(h.title, ExtractDate(o.datePatterns, o.parseDate, context).GetOr(o.today),
               "Update from " + productName, baseUrl, None)
  }

  /** The accepted headings of a page: at most ten, from the first template with any. */
  function DebugHits(o: Oracles, html: string): seq<Hit> {
    FirstProductive(o.templates, html, ValidTitle, DebugCap)
  }

  /** `parseUpdatesWithDebug(html, baseUrl, productName, debugInfo)`: the items of the
      accepted headings, deduplicated. */
  function ParseUpdatesWithDebug(o: Oracles, html: string, baseUrl: string,
                                 productName: string): seq<UpdateItem> {
    var hits := DebugHits(o, html);
    Deduplicate(seq(|hits|, k requires 0 <= k < |hits| => DebugItem(o, html, baseUrl, productName, hits[k])))
  }

  /** A page yields at most ten items, newest first, no two with the same normalised
      title, each with an accepted trimmed title, the product's fixed summary and the
      page as its link; a page on which no template has an accepted match yields
      nothing. */
  lemma ParseUpdatesWithDebugSpec(o: Oracles, html: string, baseUrl: string, productName: string)
    ensures var r := ParseUpdatesWithDebug(o, html, baseUrl, productName);
            |r| <= DebugCap && NewestFirst(r) && UniqueKeys(r)
    ensures var r := ParseUpdatesWithDebug(o, html, baseUrl, productName);
            forall a :: 0 <= a < |r| ==>
              GoodTitle(r[a].title, ValidTitle) && r[a].summary == "Update from " + productName
              && r[a].link == baseUrl && r[a].tags.None?
    ensures (forall t :: 0 <= t < |o.templates| ==> Barren(o.templates, t, html, ValidTitle)) ==>
              ParseUpdatesWithDebug(o, html, baseUrl, productName) == []
    ensures ParseUpdatesWithDebug(o, html, baseUrl, productName) != [] ==>
              exists t :: 0 <= t < |o.templates|
                && ChosenTemplate(o.templates, t, html, ValidTitle, DebugCap, DebugHits(o, html))
    ensures var r := ParseUpdatesWithDebug(o, html, baseUrl, productName);
            var hits := DebugHits(o, html);
            forall a :: 0 <= a < |r| ==>
              exists k :: 0 <= k < |hits| && r[a] == DebugItem(o, html, baseUrl, productName, hits[k])
  {
    var hits := DebugHits(o, html);
    var items := seq(|hits|, k requires 0 <= k < |hits| => DebugItem(o, html, baseUrl, productName, hits[k]));
    FirstProductiveSpec(o.templates, html, ValidTitle, DebugCap);
    FirstProductiveTitles(o.templates, html, ValidTitle, DebugCap);
    DeduplicateSpec(items);
    var r := Deduplicate(items);
    forall a | 0 <= a < |r|
      ensures GoodTitle(r[a].title, ValidTitle) && r[a].summary == "Update from " + productName
              && r[a].link == baseUrl && r[a].tags.None?
      ensures exists k :: 0 <= k < |hits| && r[a] == DebugItem(o, html, baseUrl, productName, hits[k])
    {
      var i :| 0 <= i < |items| && items[i] == r[a] && FirstWithKey(items, i);
      assert r[a] == DebugItem(o, html, baseUrl, productName, hits[i]);
    }
  }

  /** `scrapeUrlWithDebug(url, productName, debugInfo)`: a failed fetch or a page under
      100 characters gives nothing. */
  function ScrapeUrlWithDebug(o: Oracles, web: Web, productName: string, url: string): seq<UpdateItem> {
    match web.get(url)
    case Failure(_) => []
    case Success(html) =>
      if |html| < MinHtmlLength then [] else ParseUpdatesWithDebug(o, html, url, productName)
  }

  /** The extraction the fallback chain applies to each page of a source. */
  function DebugScrape(o: Oracles, web: Web, productName: string): string -> seq<UpdateItem> {
    url => ScrapeUrlWithDebug(o, web, productName, url)
  }

  /** Every page's items are already deduplicated; a short page gives nothing. */
  lemma ScrapeUrlWithDebugSpec(o: Oracles, web: Web, productName: string, url: string)
    ensures var items := ScrapeUrlWithDebug(o, web, productName, url);
            Deduplicate(items) == items
    ensures web.get(url).Success? && |web.get(url).value| < MinHtmlLength ==>
              ScrapeUrlWithDebug(o, web, productName, url) == []
  {
    match web.get(url)
    case Failure(_) =>
    case Success(html) =>
      if |html| >= MinHtmlLength {
        var hits := DebugHits(o, html);
        DeduplicateIdempotent(seq(|hits|, k requires 0 <= k < |hits| => DebugItem(o, html, url, productName, hits[k])));
      }
  }

  /** `baseUrl + '/robots.txt'` for the homepage's origin. */
  function RobotsUrl(homepage: string): string {
    GetBaseUrl(homepage) + "/robots.txt"
  }

  /** The `updates_url` and `source_type` a result starts with. */
  function InitialUrl(product: Source): Option<string> {
    if HasExplicit(product) then Some(product.updatesUrl.value) else None
  }

  function InitialType(product: Source): SourceType {
    if HasExplicit(product) then Explicit else Discovered
  }

  /** The updates kept from the gathered items: deduplicated again, at most five. */
  function DebugUpdates(items: seq<UpdateItem>): seq<UpdateItem> {
    Take(Deduplicate(items), MaxUpdatesPerSource)
  }

  /** `scrapeProductWithDebug(product)` for a given network and per-page extraction
      `scrape`, with the requests it issues. */
  function DebugRun(product: Source, web: Web, scrape: string -> seq<UpdateItem>): Run {
    var robotsGet := Get(RobotsTxt, RobotsUrl(product.homepage));
    var category := Some(CategoryOrOther(product.category));
    if IsBlockedByRobots(web.get(RobotsUrl(product.homepage))) then
      Run(SourceResult(product.name, product.homepage, category, InitialUrl(product), [],
                       BlockedByRobots, None, InitialType(product)),
          [robotsGet])
    else
      var g := Gather(product, DebugPaths, web.head, scrape);
      var result :=
        if |g.items| > 0 then
          SourceResult(product.name, product.homepage, category, g.updatesUrl,
                       DebugUpdates(g.items), Ok, None, g.sourceType)
        else
          SourceResult(product.name, product.homepage, category, g.updatesUrl,
                       [], NoUpdatesFound, Some(NoUpdatesMessage), g.sourceType);
      Run(result, [robotsGet] + g.requests)
  }

  /** `scrapeProductWithDebug(product)`. */
  function ScrapeProductWithDebug(o: Oracles, web: Web, product: Source): Run {
    DebugRun(product, web, DebugScrape(o, web, product.name))
  }

  /** robots.txt is the first request. A source is reported blocked exactly when the
      line reader blocks on that file, and then nothing else is requested and the
      result keeps its initial `updates_url` and `source_type` with no updates;
      otherwise the fallback chain's requests follow. */
  lemma DebugRunRobots(product: Source, web: Web, scrape: string -> seq<UpdateItem>)
    ensures var run := DebugRun(product, web, scrape);
            |run.requests| > 0 && run.requests[0] == Get(RobotsTxt, RobotsUrl(product.homepage))
    ensures var run := DebugRun(product, web, scrape);
            (run.result.status == BlockedByRobots <==> IsBlockedByRobots(web.get(RobotsUrl(product.homepage))))
    ensures var run := DebugRun(product, web, scrape);
            run.result.status == BlockedByRobots ==>
              |run.requests| == 1 && run.result.updates == []
              && run.result.updatesUrl == InitialUrl(product)
              && run.result.sourceType == InitialType(product)
    ensures var run := DebugRun(product, web, scrape);
            run.result.status != BlockedByRobots ==>
              run.requests[1..] == Gather(product, DebugPaths, web.head, scrape).requests
  {
    var run := DebugRun(product, web, scrape);
    if !IsBlockedByRobots(web.get(RobotsUrl(product.homepage))) {
      var g := Gather(product, DebugPaths, web.head, scrape);
      assert run.requests == [Get(RobotsTxt, RobotsUrl(product.homepage))] + g.requests;
    }
  }

  /** When robots.txt allows the source, the status is `ok` exactly when one of the
      fallback pages yields an item and `no_updates_found`, with its message and no
      updates, otherwise; `error` never occurs. The category is never empty. */
  lemma DebugRunStatus(product: Source, web: Web, scrape: string -> seq<UpdateItem>)
    ensures var r := DebugRun(product, web, scrape).result;
            var pages := FallbackPages(product, DebugPaths, web.head, scrape);
            r.status != BlockedByRobots ==>
              (r.status == Ok <==> exists j :: 0 <= j < |pages| && scrape(pages[j].url) != [])
    ensures var r := DebugRun(product, web, scrape).result;
            r.status == Ok || r.status == BlockedByRobots
            || (r.status == NoUpdatesFound && r.updates == [] && r.errorMessage == Some(NoUpdatesMessage))
    ensures var r := DebugRun(product, web, scrape).result;
            r.category.Some? && r.category.value != ""
  {
    GatheredStatus(product, DebugPaths, web.head, scrape);
  }

  /** At most five updates, newest first, no two with the same normalised title, each
      the first of the gathered items with its normalised title. When every page is
      already deduplicated, as `ScrapeUrlWithDebugSpec` shows, the second deduplication
      changes nothing and the updates are the first five of the productive page. */
  lemma DebugUpdatesSpec(items: seq<UpdateItem>)
    ensures var r := DebugUpdates(items);
            |r| <= MaxUpdatesPerSource && NewestFirst(r) && UniqueKeys(r)
    ensures FirstOccurrences(DebugUpdates(items), items)
    ensures Deduplicate(items) == items ==> DebugUpdates(items) == Take(items, MaxUpdatesPerSource)
  {
    DeduplicatedPrefix(items, MaxUpdatesPerSource);
  }

  /** The debug handler's response: the results in order and the `debug_info`
      counters. */
  datatype DebugReport = DebugReport(products: seq<SourceResult>, totalProcessed: nat,
                                     successful: nat, failed: nat)

  /** The loop of `exports.handler` for a given `scrapeProductWithDebug`: every source
      is processed, one counted successful when it has updates and failed otherwise. */
  method HandleDebug(config: seq<Source>, scrapeOne: Source -> SourceResult)
    returns (rep: DebugReport)
    ensures |rep.products| == |config|
    ensures forall k :: 0 <= k < |config| ==> rep.products[k] == scrapeOne(config[k])
    ensures rep.totalProcessed == |config|
    ensures rep.successful == WithUpdates(rep.products)
    ensures rep.successful + rep.failed == rep.totalProcessed
  {
    var products: seq<SourceResult> := [];
    var successful, failed := 0, 0;
    var i := 0;
    while i < |config|
      invariant 0 <= i <= |config|
      invariant |products| == i
      invariant forall k :: 0 <= k < i ==> products[k] == scrapeOne(config[k])
      invariant successful == WithUpdates(products)
      invariant successful + failed == i
    {
      var r := scrapeOne(config[i]);
      assert (products + [r])[..i] == products;
      products := products + [r];
      if |r.updates| > 0 {
        successful := successful + 1;
      } else {
        failed := failed + 1;
      }
      i := i + 1;
    }
    rep := DebugReport(products, i, successful, failed);
  }

  /** `exports.handler` of the debugging scraper. */
  method DebugHandler(o: Oracles, web: Web, config: seq<Source>) returns (rep: DebugReport)
    ensures |rep.products| == |config|
    ensures forall k :: 0 <= k < |config| ==>
              rep.products[k] == ScrapeProductWithDebug(o, web, config[k]).result
    ensures rep.successful == WithUpdates(rep.products)
    ensures rep.successful + rep.failed == rep.totalProcessed == |config|
  {
    rep := HandleDebug(config, p => ScrapeProductWithDebug(o, web, p).result);
  }
}
