/** The Vercel scraper (`api/scraper.js`): the first eight configured products, each
    checked with a substring robots test, then its configured page or the first
    discovered one, with a single heading template, at most three updates sorted newest
    first and no deduplication or classification. */
module Api {
  import opened Strings
  import opened Model
  import opened Urls
  import opened Dedupe
  import opened Extract
  import opened Robots
  import opened Discovery
  import opened Pipeline

  /** `CONFIG.MAX_UPDATES_PER_PRODUCT` of this variant. */
  const MaxUpdatesPerProduct: nat := 3

  /** How many configured products one invocation processes. */
  const ProductsPerRun: nat := 8

  const ApiSummary: string := "Click to view details"

  /** The regular expressions and clock of this variant: the heading template, the one
      date regex, the host's date parser and today's date. */
  datatype ApiOracles = ApiOracles(heading: Template, datePattern: DatePattern,
                                   parseDate: string -> Option<Date>, today: Date)

  /** A trimmed heading is kept when it is longer than 10 and shorter than 200
      characters. */
  predicate ValidApiTitle(title: string) {
    10 < |title| < 200
  }

  /** The headings kept, in document order, until three have been kept. */
  function ApiHits(a: ApiOracles, html: string): seq<Hit> {
    TakeHits(a.heading(html), ValidApiTitle, MaxUpdatesPerProduct)
  }

  /** The update pushed for one kept heading: the date of the 500 characters before and
      1000 after it, or today, a fixed summary and the page itself as link. */
  function ApiItem(a: ApiOracles, html: string, baseUrl: string, h: Hit): UpdateItem {
    var context := Window(html, h.index, 500, 1000);
    UpdateItem(h.title, ExtractDate([a.datePattern], a.parseDate, context).GetOr(a.today),
               ApiSummary, baseUrl, None)
  }

  /** The updates in the order they were pushed. */
  function ApiItems(a: ApiOracles, html: string, baseUrl: string): (r: seq<UpdateItem>)
    ensures |r| == |ApiHits(a, html)|
  {
    var hits := ApiHits(a, html);
    seq(|hits|, k requires 0 <= k < |hits| => ApiItem(a, html, baseUrl, hits[k]))
  }

  /** `parseUpdatesFromHtml(html, baseUrl)`. */
  function ParseUpdatesFromHtml(a: ApiOracles, html: string, baseUrl: string): seq<UpdateItem> {
    SortNewestFirst(ApiItems(a, html, baseUrl))
  }

  /** The updates are built, in order, from the first three headings kept. */
  lemma ApiItemsTitles(a: ApiOracles, html: string, baseUrl: string)
    ensures var items := ApiItems(a, html, baseUrl);
            var kept := Take(ValidHits(a.heading(html), ValidApiTitle), MaxUpdatesPerProduct);
            |items| == |kept| <= MaxUpdatesPerProduct
            && forall k :: 0 <= k < |items| ==> items[k].title == kept[k].title
  {
    TakeHitsIsPrefix(a.heading(html), ValidApiTitle, MaxUpdatesPerProduct);
  }

  /** Every update built has a trimmed title of 11 to 199 characters, the fixed summary,
      the page as its link and no classification. */
  lemma ApiItemsShape(a: ApiOracles, html: string, baseUrl: string)
    ensures var items := ApiItems(a, html, baseUrl);
            forall k :: 0 <= k < |items| ==>
              GoodTitle(items[k].title, ValidApiTitle) && items[k].summary == ApiSummary
              && items[k].link == baseUrl && items[k].tags.None?
  {
    var ms := a.heading(html);
    var items := ApiItems(a, html, baseUrl);
    TakeHitsIsPrefix(ms, ValidApiTitle, MaxUpdatesPerProduct);
    ValidHitsSpec(ms, ValidApiTitle);
    forall k | 0 <= k < |items|
      ensures GoodTitle(items[k].title, ValidApiTitle)
    {
      assert ApiHits(a, html)[k] == ValidHits(ms, ValidApiTitle)[k];
    }
  }

  /** Sorting keeps the shape of every update. */
  lemma ParsedShape(a: ApiOracles, html: string, baseUrl: string)
    ensures var r := ParseUpdatesFromHtml(a, html, baseUrl);
            forall u :: u in r ==>
              GoodTitle(u.title, ValidApiTitle) && u.summary == ApiSummary
              && u.link == baseUrl && u.tags.None?
  {
    var items := ApiItems(a, html, baseUrl);
    var r := ParseUpdatesFromHtml(a, html, baseUrl);
    SortFacts(items);
    ApiItemsShape(a, html, baseUrl);
    forall u | u in r
      ensures GoodTitle(u.title, ValidApiTitle) && u.summary == ApiSummary
              && u.link == baseUrl && u.tags.None?
    {
      assert u in multiset(items);
    }
  }

  /** The page yields no update exactly when no heading is kept. */
  lemma ParsedEmpty(a: ApiOracles, html: string, baseUrl: string)
    ensures ParseUpdatesFromHtml(a, html, baseUrl) == [] <==>
              forall i :: 0 <= i < |a.heading(html)| ==> !Accepts(a.heading(html)[i], ValidApiTitle)
  {
    var items := ApiItems(a, html, baseUrl);
    var r := ParseUpdatesFromHtml(a, html, baseUrl);
    SortFacts(items);
    assert |r| == |items| by {
      assert |multiset(r)| == |multiset(items)|;
    }
    ApiItemsTitles(a, html, baseUrl);
    ValidHitsSpec(a.heading(html), ValidApiTitle);
  }

  /** The result is a newest-first rearrangement, stable within a date, of the updates
      built from the first three kept headings, each with a trimmed title of 11 to 199
      characters, the fixed summary and the page as its link; it is empty exactly when
      no heading is kept. */
  lemma ParseUpdatesFromHtmlSpec(a: ApiOracles, html: string, baseUrl: string)
    ensures var r := ParseUpdatesFromHtml(a, html, baseUrl);
            var items := ApiItems(a, html, baseUrl);
            multiset(r) == multiset(items) && NewestFirst(r)
            && forall d :: WithDate(r, d) == WithDate(items, d)
    ensures var r := ParseUpdatesFromHtml(a, html, baseUrl);
            forall u :: u in r ==>
              GoodTitle(u.title, ValidApiTitle) && u.summary == ApiSummary
              && u.link == baseUrl && u.tags.None?
    ensures ParseUpdatesFromHtml(a, html, baseUrl) == [] <==>
              forall i :: 0 <= i < |a.heading(html)| ==> !Accepts(a.heading(html)[i], ValidApiTitle)
  {
    SortFacts(ApiItems(a, html, baseUrl));
    ParsedShape(a, html, baseUrl);
    ParsedEmpty(a, html, baseUrl);
  }

  /** `scrapeUpdatesFromUrl(url)`: a failed fetch gives nothing. */
  function ScrapeUpdatesFromUrl(a: ApiOracles, web: Web, url: string): seq<UpdateItem> {
    match web.get(url)
    case Failure(_) => []
    case Success(html) => ParseUpdatesFromHtml(a, html, url)
  }

  function ApiRobotsUrl(homepage: string): string {
    GetBaseUrl(homepage) + "/robots.txt"
  }

  /** `product.updates_url || null`. */
  function ApiInitialUrl(product: Source): Option<string> {
    if HasExplicit(product) then product.updatesUrl else None
  }

  function ApiInitialType(product: Source): SourceType {
    if HasExplicit(product) then Explicit else Discovered
  }

  /** `scrapeProductUpdates(product)` for a given per-page extraction `scrape`. */
  function ApiRun(product: Source, web: Web, scrape: string -> seq<UpdateItem>): Run {
    var robotsGet := Get(RobotsTxt, ApiRobotsUrl(product.homepage));
    var initial := SourceResult(product.name, product.homepage, None, ApiInitialUrl(product), [],
                                Error, None, ApiInitialType(product));
    if ApiIsBlocked(web.get(ApiRobotsUrl(product.homepage))) then
      Run(initial.(status := BlockedByRobots), [robotsGet])
    else
      var found := if HasExplicit(product) then Found(product.updatesUrl, [])
                   else Discover(product.homepage, ApiPaths, web.head);
      var probed := [robotsGet] + Heads(found.probes);
      match found.url
      case None => Run(initial.(status := NoUpdatesFound), probed)
      case Some(url) =>
        var purpose := if HasExplicit(product) then ExplicitPage else DiscoveredPage;
        var items := scrape(url);
        var status := if |items| > 0 then Ok else NoUpdatesFound;
        Run(initial.(updatesUrl := Some(url), updates := items, status := status),
            probed + [Get(purpose, url)])
  }

  /** `scrapeProductUpdates(product)`. */
  function ScrapeProductUpdates(a: ApiOracles, web: Web, product: Source): Run {
    ApiRun(product, web, url => ScrapeUpdatesFromUrl(a, web, url))
  }

  /** robots.txt is fetched first, and the product is blocked exactly when the
      substring test finds `disallow: /` in it; a blocked product makes no other request
      and keeps its initial page and type. The result never has a category or an error
      message, and its status is never `error`. */
  lemma ApiRunRobots(product: Source, web: Web, scrape: string -> seq<UpdateItem>)
    ensures var run := ApiRun(product, web, scrape);
            |run.requests| > 0 && run.requests[0] == Get(RobotsTxt, ApiRobotsUrl(product.homepage))
    ensures var run := ApiRun(product, web, scrape);
            (run.result.status == BlockedByRobots <==> ApiIsBlocked(web.get(ApiRobotsUrl(product.homepage))))
    ensures var run := ApiRun(product, web, scrape);
            run.result.status == BlockedByRobots ==>
              |run.requests| == 1 && run.result.updates == []
              && run.result.updatesUrl == ApiInitialUrl(product)
    ensures var r := ApiRun(product, web, scrape).result;
            r.status != Error && r.category.None? && r.errorMessage.None?
            && r.sourceType == ApiInitialType(product)
            && r.name == product.name && r.homepage == product.homepage
  {
  }

  /** When robots.txt allows the product: a configured page is fetched without any
      probe; otherwise the candidate paths are probed in order and, when none exists,
      the status is `no_updates_found` with no page fetched. Whenever a page is fetched
      it becomes `updates_url`, the updates are exactly what it yields, and the status
      is `ok` exactly when it yields something. */
  lemma ApiRunPage(product: Source, web: Web, scrape: string -> seq<UpdateItem>)
    requires !ApiIsBlocked(web.get(ApiRobotsUrl(product.homepage)))
    ensures var run := ApiRun(product, web, scrape);
            HasExplicit(product) ==>
              run.requests == [Get(RobotsTxt, ApiRobotsUrl(product.homepage)),
                               Get(ExplicitPage, product.updatesUrl.value)]
    ensures var run := ApiRun(product, web, scrape);
            var f := Discover(product.homepage, ApiPaths, web.head);
            !HasExplicit(product) && f.url.None? ==>
              run.requests == [Get(RobotsTxt, ApiRobotsUrl(product.homepage))] + Heads(f.probes)
              && run.result.status == NoUpdatesFound && run.result.updates == []
              && run.result.updatesUrl.None?
    ensures var r := ApiRun(product, web, scrape).result;
            r.updatesUrl.Some? ==>
              r.updates == scrape(r.updatesUrl.value)
              && (r.status == Ok <==> scrape(r.updatesUrl.value) != [])
              && (r.status == Ok || r.status == NoUpdatesFound)
    ensures var run := ApiRun(product, web, scrape);
            var f := Discover(product.homepage, ApiPaths, web.head);
            !HasExplicit(product) && f.url.Some? ==>
              run.result.updatesUrl == f.url
              && run.requests == [Get(RobotsTxt, ApiRobotsUrl(product.homepage))] + Heads(f.probes)
                                 + [Get(DiscoveredPage, f.url.value)]
  {
  }

  /** A page yields at most three updates. */
  lemma ScrapeUpdatesFromUrlBound(a: ApiOracles, web: Web, url: string)
    ensures |ScrapeUpdatesFromUrl(a, web, url)| <= MaxUpdatesPerProduct
  {
    match web.get(url)
    case Failure(_) =>
    case Success(html) =>
      var items := ApiItems(a, html, url);
      TakeHitsIsPrefix(a.heading(html), ValidApiTitle, MaxUpdatesPerProduct);
      SortFacts(items);
      assert ScrapeUpdatesFromUrl(a, web, url) == SortNewestFirst(items);
      assert |SortNewestFirst(items)| == |multiset(items)| == |items| <= MaxUpdatesPerProduct;
  }

  /** A run reports no more updates than its extraction ever yields for one page. */
  lemma ApiRunBound(product: Source, web: Web, scrape: string -> seq<UpdateItem>, cap: nat)
    requires forall url :: |scrape(url)| <= cap
    ensures |ApiRun(product, web, scrape).result.updates| <= cap
  {
  }

  /** Every product's result has at most three updates. */
  lemma ApiBound(a: ApiOracles, web: Web, product: Source, r: SourceResult)
    requires r == ScrapeProductUpdates(a, web, product).result
    ensures |r.updates| <= MaxUpdatesPerProduct
  {
    var scrape := url => ScrapeUpdatesFromUrl(a, web, url);
    forall url ensures |scrape(url)| <= MaxUpdatesPerProduct {
      ScrapeUpdatesFromUrlBound(a, web, url);
    }
    ApiRunBound(product, web, scrape, MaxUpdatesPerProduct);
  }

  /** The loop of the Vercel handler for a given `scrapeProductUpdates`: the first
      eight products, in order. */
  method HandleApi(config: seq<Source>, scrapeOne: Source -> SourceResult)
    returns (products: seq<SourceResult>)
    ensures |products| == Min(ProductsPerRun, |config|)
    ensures forall k :: 0 <= k < |products| ==> products[k] == scrapeOne(config[k])
  {
    var todo := Take(config, ProductsPerRun);
    products := [];
    var i := 0;
    while i < |todo|
      invariant 0 <= i <= |todo|
      invariant |products| == i
      invariant forall k :: 0 <= k < i ==> products[k] == scrapeOne(todo[k])
    {
      products := products + [scrapeOne(todo[i])];
      i := i + 1;
    }
  }

  /** The Vercel handler: at most eight results, each with at most three updates and
      none with status `error`. */
  method ApiHandler(a: ApiOracles, web: Web, config: seq<Source>)
    returns (products: seq<SourceResult>)
    ensures |products| == Min(ProductsPerRun, |config|)
    ensures forall k :: 0 <= k < |products| ==>
              products[k] == ScrapeProductUpdates(a, web, config[k]).result
              && |products[k].updates| <= MaxUpdatesPerProduct
              && products[k].status != Error
  {
    products := HandleApi(config, p => ScrapeProductUpdates(a, web, p).result);
    forall k | 0 <= k < |products|
      ensures |products[k].updates| <= MaxUpdatesPerProduct && products[k].status != Error
    {
      ApiBound(a, web, config[k], products[k]);
      ApiRunRobots(config[k], web, u => ScrapeUpdatesFromUrl(a, web, u));
    }
  }
}
