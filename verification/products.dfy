/** The product scraper (`scraper-products.js`): for each configured product the
    fallback chain of update pages, the heading extractor with its title filter, date,
    summary and link, the keyword classification, and deduplication down to four items;
    then the handler's loop over the products with its time budget and counters. */
module Products {
  import opened Strings
  import opened Model
  import opened Urls
  import opened Dedupe
  import opened Extract
  import opened Classify
  import opened Discovery
  import opened Pipeline
  import opened Report

  /** `CONFIG.MAX_UPDATES_PER_PRODUCT`. */
  const MaxUpdatesPerProduct: nat := 4

  /** How many accepted matches one template may contribute. */
  const PatternCap: nat := 8

  /** The case-insensitive denylist of `isValidProductTitle`. */
  const ProductDenylist: seq<string> :=
    ["cookie", "privacy", "terms", "sign in", "sign up", "login", "register",
     "home", "about", "contact", "help", "support", "404", "error", "navigation"]

  const NoUpdatesMessage: string := "No updates found on any checked pages"

  /** `isValidProductTitle(title)`: 15 to 250 characters and no denylisted term. */
  predicate ValidProductTitle(title: string) {
    PassesDenylist(title, 15, 250, ProductDenylist)
  }

  /** The fallback summary `Update from {productName}`. */
  function ProductFallback(productName: string): string {
    "Update from " + productName
  }

  /** `extractProductSummary(context, title, productName)`. */
  function ProductSummary(context: string, title: string, productName: string): string {
    SentenceSummary(ContextSentences(context, title), 20, 160).GetOr(ProductFallback(productName))
  }

  /** The summary is the first sentence of the context (without the title) that is
      longer than 20 characters once trimmed, trimmed and cut to 160 characters plus an
      ellipsis; the product's fallback line when there is no such sentence. */
  lemma ProductSummarySpec(context: string, title: string, productName: string)
    ensures var sentences := ContextSentences(context, title);
            (forall k :: 0 <= k < |sentences| ==> !Long(sentences[k], 20)) ==>
              ProductSummary(context, title, productName) == ProductFallback(productName)
    ensures var sentences := ContextSentences(context, title);
            (exists k :: 0 <= k < |sentences| && Long(sentences[k], 20)) ==>
              var r := ProductSummary(context, title, productName);
              20 < |r| <= 163
              && exists k :: 0 <= k < |sentences|
                   && r == Truncate(Trim(sentences[k]), 160)
                   && Long(sentences[k], 20)
                   && forall j :: 0 <= j < k ==> !Long(sentences[j], 20)
  {
    SentenceSummarySpec(ContextSentences(context, title), 20, 160);
  }

  /** The accepted headings of a page: at most eight, from the first template with any. */
  function ProductHits(o: Oracles, html: string): seq<Hit> {
    FirstProductive(o.templates, html, ValidProductTitle, PatternCap)
  }

  /** The 300 characters before and 400 after a match. */
  function ProductContext(html: string, h: Hit): string {
    Window(html, h.index, 300, 400)
  }

  /** The update object built for one accepted heading. */
  function ProductItem(o: Oracles, html: string, baseUrl: string, productName: string,
                       h: Hit): UpdateItem {
    var context := ProductContext(html, h);
    UpdateItem(h.title, ExtractDate(o.datePatterns, o.parseDate, context).GetOr(o.today),
               ProductSummary(context, h.title, productName),
               ExtractLink(o.firstHref(context), baseUrl), None)
  }

  /** `parseProductUpdates(html, baseUrl, productName)`. */
  function ParseProductUpdates(o: Oracles, html: string, baseUrl: string,
                               productName: string): (r: seq<UpdateItem>)
    ensures |r| == |ProductHits(o, html)|
  {
    var hits := ProductHits(o, html);
    seq(|hits|, k requires 0 <= k < |hits| => ProductItem(o, html, baseUrl, productName, hits[k]))
  }

  /** A page yields at most eight items whose titles are trimmed, accepted by the
      product title filter, and come from the first template that has any accepted
      match; a page yields nothing exactly when no template has one. Links stay on the
      page or point at `zoho.com`. */
  lemma ParseProductUpdatesSpec(o: Oracles, html: string, baseUrl: string, productName: string)
    ensures var r := ParseProductUpdates(o, html, baseUrl, productName);
            |r| <= PatternCap
            && forall k :: 0 <= k < |r| ==>
                 GoodTitle(r[k].title, ValidProductTitle) && r[k].tags.None?
                 && (r[k].link == baseUrl
                     || (Contains(r[k].link, "zoho.com") && !Contains(r[k].link, "javascript:")))
    ensures ParseProductUpdates(o, html, baseUrl, productName) == [] <==>
              forall t :: 0 <= t < |o.templates| ==> Barren(o.templates, t, html, ValidProductTitle)
    ensures ParseProductUpdates(o, html, baseUrl, productName) != [] ==>
              exists t :: 0 <= t < |o.templates|
                && ChosenTemplate(o.templates, t, html, ValidProductTitle, PatternCap,
                                  ProductHits(o, html))
  {
    FirstProductiveSpec(o.templates, html, ValidProductTitle, PatternCap);
    FirstProductiveTitles(o.templates, html, ValidProductTitle, PatternCap);
  }

  /** An item's date is that of the first date pattern that matches its context and
      parses; today when none does. */
  lemma ProductItemDate(o: Oracles, html: string, baseUrl: string, productName: string, h: Hit)
    ensures var ctx := ProductContext(html, h);
            var d := ProductItem(o, html, baseUrl, productName, h).date;
            ((forall p :: 0 <= p < |o.datePatterns| ==> PatternFails(o.datePatterns, p, o.parseDate, ctx))
               ==> d == o.today)
            && (ExtractDate(o.datePatterns, o.parseDate, ctx).Some? ==>
                  exists p :: 0 <= p < |o.datePatterns|
                    && PatternGives(o.datePatterns, p, o.parseDate, ctx, d)
                    && forall j :: 0 <= j < p ==> PatternFails(o.datePatterns, j, o.parseDate, ctx))
  {
    ExtractDateFirst(o.datePatterns, o.parseDate, ProductContext(html, h));
  }

  /** `scrapeProductUrl(url, productName)`: a failed fetch gives nothing. */
  function ScrapeProductUrl(o: Oracles, web: Web, productName: string, url: string): seq<UpdateItem> {
    match web.get(url)
    case Failure(_) => []
    case Success(html) => ParseProductUpdates(o, html, url, productName)
  }

  /** The extraction the fallback chain applies to each page of a product. */
  function ProductScrape(o: Oracles, web: Web, productName: string): string -> seq<UpdateItem> {
    url => ScrapeProductUrl(o, web, productName, url)
  }

  /** An item carries the product tags its own title and summary call for. */
  predicate ProductTagged(u: UpdateItem, category: string) {
    u.tags == Some(Tags(ClassifyUpdateType(u.title, u.summary),
                        ClassifyPriority(u.title, u.summary), category))
  }

  /** The classification map: each item gains the keyword type and priority of its
      title and summary and the product's category; nothing else about it changes. */
  function Classified(items: seq<UpdateItem>, category: string): (r: seq<UpdateItem>)
    ensures |r| == |items|
    ensures forall k :: 0 <= k < |r| ==>
              ProductTagged(r[k], category) && r[k].(tags := items[k].tags) == items[k]
    decreases |items|
  {
    if |items| == 0 then []
    else
      var u := items[0];
      [u.(tags := Some(Tags(ClassifyUpdateType(u.title, u.summary),
                            ClassifyPriority(u.title, u.summary), category)))]
      + Classified(items[1..], category)
  }

  /** The updates kept from the gathered items: classified, deduplicated, sorted
      newest first, at most four. */
  function ProductUpdates(items: seq<UpdateItem>, category: string): seq<UpdateItem> {
    Take(Deduplicate(Classified(items, category)), MaxUpdatesPerProduct)
  }

  /** At most four updates, newest first, no two with the same normalised title, each
      tagged with the category and the type and priority its own text calls for, and
      each the first of the classified items with its normalised title. */
  lemma ProductUpdatesSpec(items: seq<UpdateItem>, category: string)
    ensures var r := ProductUpdates(items, category);
            |r| <= MaxUpdatesPerProduct && NewestFirst(r) && UniqueKeys(r)
            && forall a :: 0 <= a < |r| ==> ProductTagged(r[a], category)
    ensures FirstOccurrences(ProductUpdates(items, category), Classified(items, category))
  {
    var c := Classified(items, category);
    var r := ProductUpdates(items, category);
    DeduplicatedPrefix(c, MaxUpdatesPerProduct);
    forall a | 0 <= a < |r| ensures ProductTagged(r[a], category) {
      var i :| 0 <= i < |c| && c[i] == r[a] && FirstWithKey(c, i);
    }
  }

  /** `scrapeProduct(product)` for a given per-page extraction `scrape` and HEAD probe
      `head`, with the requests it issues. No robots.txt is read. */
  function ProductRun(product: Source, head: string -> bool, scrape: string -> seq<UpdateItem>): Run {
    var g := Gather(product, ProductPaths, head, scrape);
    var result :=
      if |g.items| > 0 then
        SourceResult(product.name, product.homepage, Some(product.category), g.updatesUrl,
                     ProductUpdates(g.items, product.category),
                     Ok, None, g.sourceType)
      else
        SourceResult(product.name, product.homepage, Some(product.category), g.updatesUrl,
                     [], NoUpdatesFound, Some(NoUpdatesMessage), g.sourceType);
    Run(result, g.requests)
  }

  /** `scrapeProduct(product)`. */
  function ScrapeProduct(o: Oracles, web: Web, product: Source): Run {
    ProductRun(product, web.head, ProductScrape(o, web, product.name))
  }

  /** The status is `ok` exactly when one of the fallback pages yields an item, and
      `no_updates_found`, with its message and no updates, otherwise; `error` and
      `blocked_by_robots` never occur. `updates_url` is the last page fetched, which
      is the first productive one, and no robots.txt is requested. */
  lemma ProductRunStatus(product: Source, head: string -> bool, scrape: string -> seq<UpdateItem>)
    ensures var run := ProductRun(product, head, scrape);
            var pages := FallbackPages(product, ProductPaths, head, scrape);
            (run.result.status == Ok <==> exists j :: 0 <= j < |pages| && scrape(pages[j].url) != [])
    ensures var r := ProductRun(product, head, scrape).result;
            r.status == Ok || (r.status == NoUpdatesFound && r.updates == []
                               && r.errorMessage == Some(NoUpdatesMessage))
    ensures var run := ProductRun(product, head, scrape);
            var fetched := GetsOf(run.requests);
            FetchedUpTo(FallbackPages(product, ProductPaths, head, scrape), fetched, scrape)
            && |fetched| > 0 && run.result.updatesUrl == Some(fetched[|fetched| - 1].url)
    ensures !Fetched(ProductRun(product, head, scrape).requests, RobotsTxt)
  {
    var g := Gather(product, ProductPaths, head, scrape);
    GatherPages(product, ProductPaths, head, scrape);
    GatheredStatus(product, ProductPaths, head, scrape);
    NoRobotsFetch(product, ProductPaths, head, scrape);
  }

  /** A product result carries the product's category, and its updates are those kept
      from the gathered items, or none when nothing was gathered. */
  lemma ProductRunUpdates(product: Source, head: string -> bool, scrape: string -> seq<UpdateItem>)
    ensures var g := Gather(product, ProductPaths, head, scrape);
            var r := ProductRun(product, head, scrape).result;
            r.category == Some(product.category)
            && r.updates == (if |g.items| > 0 then ProductUpdates(g.items, product.category) else [])
            && |r.updates| <= MaxUpdatesPerProduct
  {
    var g := Gather(product, ProductPaths, head, scrape);
    ProductUpdatesSpec(g.items, product.category);
  }

  /** The product handler's response body. */
  datatype ProductsReport = ProductsReport(products: seq<SourceResult>, categories: seq<string>,
                                           totalProducts: nat, tally: Tally)

  /** The categories of the configuration, in order. */
  function ConfigCategories(config: seq<Source>): (r: seq<string>)
    ensures |r| == |config|
  {
    seq(|config|, k requires 0 <= k < |config| => config[k].category)
  }

  /** The loop of `exports.handler` for a given `scrapeProduct`. `started` is how many
      products were begun before the 8.5-second budget ran out (the elapsed-time test
      at the top of each iteration). The counters follow each pushed result. */
  method HandleProducts(config: seq<Source>, started: nat, scrapeOne: Source -> SourceResult)
    returns (rep: ProductsReport)
    ensures |rep.products| == Min(started, |config|)
    ensures forall k :: 0 <= k < |rep.products| ==> rep.products[k] == scrapeOne(config[k])
    ensures rep.totalProducts == |config|
    ensures rep.categories == Distinct(ConfigCategories(config), {})
    ensures Counts(rep.tally, rep.products)
  {
    var products: seq<SourceResult> := [];
    var tally := Tally(0, 0, map[]);
    assert Categories([]) == {};
    var n := Min(started, |config|);
    var i := 0;
    while i < n
      invariant 0 <= i <= n
      invariant |products| == i
      invariant forall k :: 0 <= k < i ==> products[k] == scrapeOne(config[k])
      invariant Counts(tally, products)
    {
      var r := scrapeOne(config[i]);
      StepCounts(tally, products, r);
      products := products + [r];
      tally := Step(tally, r);
      i := i + 1;
    }
    rep := ProductsReport(products, Distinct(ConfigCategories(config), {}), |config|, tally);
  }

  /** `exports.handler` of the product scraper. */
  method ProductsHandler(o: Oracles, web: Web, config: seq<Source>, started: nat)
    returns (rep: ProductsReport)
    ensures |rep.products| == Min(started, |config|)
    ensures forall k :: 0 <= k < |rep.products| ==>
              rep.products[k] == ScrapeProduct(o, web, config[k]).result
    ensures rep.totalProducts == |config|
    ensures rep.categories == Distinct(ConfigCategories(config), {})
    ensures Counts(rep.tally, rep.products)
    ensures rep.tally.totalUpdates <= MaxUpdatesPerProduct * rep.tally.withUpdates
  {
    rep := HandleProducts(config, started, p => ScrapeProduct(o, web, p).result);
    forall k | 0 <= k < |rep.products| ensures |rep.products[k].updates| <= MaxUpdatesPerProduct {
      ProductBound(o, web, config[k], rep.products[k]);
    }
    TotalUpdatesBound(rep.products, MaxUpdatesPerProduct);
  }

  lemma ProductBound(o: Oracles, web: Web, product: Source, r: SourceResult)
    requires r == ScrapeProduct(o, web, product).result
    ensures |r.updates| <= MaxUpdatesPerProduct
  {
    ProductRunUpdates(product, web.head, ProductScrape(o, web, product.name));
  }
}
