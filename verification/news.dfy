/** The news scraper (`netlify/functions/scraper-news.js`): one page per source, the
    configured updates page or else the homepage, with its own title filter, wider
    context window, summary fallbacks chosen by the source's name, and the news
    classification; then the handler's loop with its time budget and counters. */
module News {
  import opened Strings
  import opened Model
  import opened Urls
  import opened Dedupe
  import opened Extract
  import opened Classify
  import opened Report

  /** `CONFIG.MAX_UPDATES_PER_PRODUCT` of this variant. */
  const MaxUpdatesPerSource: nat := 5

  /** How many accepted matches one template may contribute. */
  const NewsCap: nat := 10

  /** The case-insensitive denylist of `isValidNewsTitle`. */
  const NewsDenylist: seq<string> :=
    ["cookie", "privacy", "terms", "sign in", "sign up", "login", "register",
     "home", "about", "contact", "help", "support", "404", "error", "search"]

  /** `isValidNewsTitle(title)`: 15 to 300 characters and no denylisted term. */
  predicate ValidNewsTitle(title: string) {
    PassesDenylist(title, 15, 300, NewsDenylist)
  }

  const BlogLine: string := "Latest blog post from Zoho"
  const PressLine: string := "Official press release from Zoho"
  const CommunityLine: string := "Community discussion and updates"
  const NewsLine: string := "Zoho in the news coverage"
  const DefaultLine: string := "Recent news from Zoho"

  /** The fallback summary, chosen by case-sensitive words in the source's name, tested
      in the order Blog, Press, Community, News. */
  function NewsFallback(sourceName: string): string {
    if Contains(sourceName, "Blog") then BlogLine
    else if Contains(sourceName, "Press") then PressLine
    else if Contains(sourceName, "Community") then CommunityLine
    else if Contains(sourceName, "News") then NewsLine
    else DefaultLine
  }

  /** The fallback is one of five fixed lines; each of the first four is chosen exactly
      when its word is the first of Blog, Press, Community, News in the name, and the
      default exactly when the name contains none of them. */
  lemma NewsFallbackSpec(sourceName: string)
    ensures NewsFallback(sourceName) in [BlogLine, PressLine, CommunityLine, NewsLine, DefaultLine]
    ensures NewsFallback(sourceName) == BlogLine <==> Contains(sourceName, "Blog")
    ensures NewsFallback(sourceName) == PressLine <==>
              !Contains(sourceName, "Blog") && Contains(sourceName, "Press")
    ensures NewsFallback(sourceName) == CommunityLine <==>
              !Contains(sourceName, "Blog") && !Contains(sourceName, "Press")
              && Contains(sourceName, "Community")
    ensures NewsFallback(sourceName) == NewsLine <==>
              !Contains(sourceName, "Blog") && !Contains(sourceName, "Press")
              && !Contains(sourceName, "Community") && Contains(sourceName, "News")
    ensures NewsFallback(sourceName) == DefaultLine <==>
              !Contains(sourceName, "Blog") && !Contains(sourceName, "Press")
              && !Contains(sourceName, "Community") && !Contains(sourceName, "News")
  {
    assert BlogLine[0] != PressLine[0] && BlogLine[0] != CommunityLine[0];
    assert PressLine[0] != CommunityLine[0] && PressLine[0] != NewsLine[0];
    assert CommunityLine[0] != NewsLine[0] && CommunityLine[0] != DefaultLine[0];
    assert BlogLine[0] != DefaultLine[0] && PressLine[0] != DefaultLine[0];
    assert BlogLine[1] != NewsLine[1] && NewsLine[1] != DefaultLine[1];
  }

  /** `extractNewsySummary(context, title, sourceName)`. */
  function NewsSummary(context: string, title: string, sourceName: string): string {
    SentenceSummary(ContextSentences(context, title), 25, 180).GetOr(NewsFallback(sourceName))
  }

  /** The summary is the first sentence of the context (without the title) that is
      longer than 25 characters once trimmed, trimmed and cut to 180 characters plus an
      ellipsis; the source's fallback line when there is no such sentence. */
  lemma NewsSummarySpec(context: string, title: string, sourceName: string)
    ensures var sentences := ContextSentences(context, title);
            (forall k :: 0 <= k < |sentences| ==> !Long(sentences[k], 25)) ==>
              NewsSummary(context, title, sourceName) == NewsFallback(sourceName)
    ensures var sentences := ContextSentences(context, title);
            (exists k :: 0 <= k < |sentences| && Long(sentences[k], 25)) ==>
              var r := NewsSummary(context, title, sourceName);
              25 < |r| <= 183
              && exists k :: 0 <= k < |sentences|
                   && r == Truncate(Trim(sentences[k]), 180)
                   && Long(sentences[k], 25)
                   && forall j :: 0 <= j < k ==> !Long(sentences[j], 25)
  {
    SentenceSummarySpec(ContextSentences(context, title), 25, 180);
  }

  /** The accepted headings of a page: at most ten, from the first template with any. */
  function NewsHits(o: Oracles, html: string): seq<Hit> {
    FirstProductive(o.templates, html, ValidNewsTitle, NewsCap)
  }

  /** The 400 characters before and 600 after a match. */
  function NewsContext(html: string, h: Hit): string {
    Window(html, h.index, 400, 600)
  }

  /** The update object built for one accepted heading. */
  function NewsItem(o: Oracles, html: string, baseUrl: string, sourceName: string, h: Hit): UpdateItem {
    var context := NewsContext(html, h);
    UpdateItem(h.title, ExtractDate(o.datePatterns, o.parseDate, context).GetOr(o.today),
               NewsSummary(context, h.title, sourceName),
               ExtractLink(o.firstHref(context), baseUrl), None)
  }

  /** `parseNewsContent(html, baseUrl, sourceName)`. */
  function ParseNewsContent(o: Oracles, html: string, baseUrl: string, sourceName: string)
    : (r: seq<UpdateItem>)
    ensures |r| == |NewsHits(o, html)|
  {
    var hits := NewsHits(o, html);
    seq(|hits|, k requires 0 <= k < |hits| => NewsItem(o, html, baseUrl, sourceName, hits[k]))
  }

  /** A page yields at most ten items whose titles are trimmed, accepted by the news
      title filter, and come from the first template that has any accepted match; a
      page yields nothing exactly when no template has one. Links stay on the page or
      point at `zoho.com`. */
  lemma ParseNewsContentSpec(o: Oracles, html: string, baseUrl: string, sourceName: string)
    ensures var r := ParseNewsContent(o, html, baseUrl, sourceName);
            |r| <= NewsCap
            && forall k :: 0 <= k < |r| ==>
                 GoodTitle(r[k].title, ValidNewsTitle) && r[k].tags.None?
                 && (r[k].link == baseUrl
                     || (Contains(r[k].link, "zoho.com") && !Contains(r[k].link, "javascript:")))
    ensures ParseNewsContent(o, html, baseUrl, sourceName) == [] <==>
              forall t :: 0 <= t < |o.templates| ==> Barren(o.templates, t, html, ValidNewsTitle)
    ensures ParseNewsContent(o, html, baseUrl, sourceName) != [] ==>
              exists t :: 0 <= t < |o.templates|
                && ChosenTemplate(o.templates, t, html, ValidNewsTitle, NewsCap, NewsHits(o, html))
  {
    FirstProductiveSpec(o.templates, html, ValidNewsTitle, NewsCap);
    FirstProductiveTitles(o.templates, html, ValidNewsTitle, NewsCap);
  }

  /** `scrapeNewsUrl(url, sourceName)`: a failed fetch gives nothing. */
  function ScrapeNewsUrl(o: Oracles, web: Web, sourceName: string, url: string): seq<UpdateItem> {
    match web.get(url)
    case Failure(_) => []
    case Success(html) => ParseNewsContent(o, html, url, sourceName)
  }

  /** An item carries the news tags its own text calls for. */
  predicate NewsTagged(u: UpdateItem) {
    u.tags == Some(Tags(ClassifyNewsType(u.title, u.summary), ClassifyNewsPriority(u.title), "News"))
  }

  /** The classification map of the news scraper; nothing but the tags changes. */
  function NewsClassified(items: seq<UpdateItem>): (r: seq<UpdateItem>)
    ensures |r| == |items|
    ensures forall k :: 0 <= k < |r| ==> NewsTagged(r[k]) && r[k].(tags := items[k].tags) == items[k]
    decreases |items|
  {
    if |items| == 0 then []
    else
      var u := items[0];
      [u.(tags := Some(Tags(ClassifyNewsType(u.title, u.summary), ClassifyNewsPriority(u.title), "News")))]
      + NewsClassified(items[1..])
  }

  /** The updates kept from a page's items: classified, deduplicated, sorted newest
      first, at most five. */
  function NewsUpdates(items: seq<UpdateItem>): seq<UpdateItem> {
    Take(Deduplicate(NewsClassified(items)), MaxUpdatesPerSource)
  }

  /** At most five updates, newest first, no two with the same normalised title, each
      tagged as news with the type and priority its own text calls for, and each the
      first of the classified items with its normalised title. */
  lemma NewsUpdatesSpec(items: seq<UpdateItem>)
    ensures var r := NewsUpdates(items);
            |r| <= MaxUpdatesPerSource && NewestFirst(r) && UniqueKeys(r)
            && forall a :: 0 <= a < |r| ==> NewsTagged(r[a])
    ensures FirstOccurrences(NewsUpdates(items), NewsClassified(items))
  {
    var c := NewsClassified(items);
    var r := NewsUpdates(items);
    DeduplicatedPrefix(c, MaxUpdatesPerSource);
    forall a | 0 <= a < |r| ensures NewsTagged(r[a]) {
      var i :| 0 <= i < |c| && c[i] == r[a] && FirstWithKey(c, i);
    }
  }

  /** `product.updates_url || product.homepage`. */
  function NewsUrl(src: Source): string {
    if HasExplicit(src) then src.updatesUrl.value else src.homepage
  }

  /** `scrapeNewsSource(product)` for a given per-page extraction `scrape`. */
  function NewsRun(src: Source, scrape: string -> seq<UpdateItem>): Run {
    var url := NewsUrl(src);
    var items := scrape(url);
    var purpose := if HasExplicit(src) then ExplicitPage else HomePage;
    var result :=
      if |items| > 0 then
        SourceResult(src.name, src.homepage, Some("News"), Some(url), NewsUpdates(items),
                     Ok, None, Explicit)
      else
        SourceResult(src.name, src.homepage, Some("News"), Some(url), [],
                     NoUpdatesFound, None, Explicit);
    Run(result, [Get(purpose, url)])
  }

  /** `scrapeNewsSource(product)`. */
  function ScrapeNewsSource(o: Oracles, web: Web, src: Source): Run {
    NewsRun(src, url => ScrapeNewsUrl(o, web, src.name, url))
  }

  /** One page is fetched, the configured page when there is one and the homepage
      otherwise, and nothing is probed; the status is `ok` exactly when that page
      yields an item and `no_updates_found` otherwise, with no message; the result is
      always explicit, in category News, and points at that page. */
  lemma NewsRunSpec(src: Source, scrape: string -> seq<UpdateItem>)
    ensures var run := NewsRun(src, scrape);
            |run.requests| == 1 && run.requests[0].Get?
            && run.requests[0].url == (if HasExplicit(src) then src.updatesUrl.value else src.homepage)
    ensures var r := NewsRun(src, scrape).result;
            (r.status == Ok <==> scrape(NewsUrl(src)) != [])
            && (r.status == Ok || (r.status == NoUpdatesFound && r.updates == []))
            && r.errorMessage.None?
    ensures var r := NewsRun(src, scrape).result;
            r.sourceType == Explicit && r.category == Some("News")
            && r.updatesUrl == Some(NewsUrl(src))
    ensures var r := NewsRun(src, scrape).result;
            r.updates == (if scrape(NewsUrl(src)) == [] then [] else NewsUpdates(scrape(NewsUrl(src))))
            && |r.updates| <= MaxUpdatesPerSource
  {
    NewsUpdatesSpec(scrape(NewsUrl(src)));
  }

  /** The news handler's response: the results in order and the `summary` counters. */
  datatype NewsReport = NewsReport(products: seq<SourceResult>, totalSources: nat,
                                   sourcesWithUpdates: nat, totalUpdates: nat)

  /** The loop of `exports.handler` for a given `scrapeNewsSource`. `started` is how
      many sources were begun before the 8-second budget ran out. */
  method HandleNews(config: seq<Source>, started: nat, scrapeOne: Source -> SourceResult)
    returns (rep: NewsReport)
    ensures |rep.products| == Min(started, |config|)
    ensures forall k :: 0 <= k < |rep.products| ==> rep.products[k] == scrapeOne(config[k])
    ensures rep.totalSources == |config|
    ensures rep.sourcesWithUpdates == WithUpdates(rep.products)
    ensures rep.totalUpdates == TotalUpdates(rep.products)
  {
    var products: seq<SourceResult> := [];
    var withUpdates, total := 0, 0;
    var n := Min(started, |config|);
    var i := 0;
    while i < n
      invariant 0 <= i <= n
      invariant |products| == i
      invariant forall k :: 0 <= k < i ==> products[k] == scrapeOne(config[k])
      invariant withUpdates == WithUpdates(products)
      invariant total == TotalUpdates(products)
    {
      var r := scrapeOne(config[i]);
      assert (products + [r])[..i] == products;
      products := products + [r];
      if |r.updates| > 0 {
        withUpdates := withUpdates + 1;
        total := total + |r.updates|;
      }
      i := i + 1;
    }
    rep := NewsReport(products, |config|, withUpdates, total);
  }

  /** `exports.handler` of the news scraper: at most five news items per source with
      any. */
  method NewsHandler(o: Oracles, web: Web, config: seq<Source>, started: nat)
    returns (rep: NewsReport)
    ensures |rep.products| == Min(started, |config|)
    ensures forall k :: 0 <= k < |rep.products| ==>
              rep.products[k] == ScrapeNewsSource(o, web, config[k]).result
    ensures rep.totalSources == |config|
    ensures rep.sourcesWithUpdates == WithUpdates(rep.products)
    ensures rep.totalUpdates == TotalUpdates(rep.products)
    ensures rep.totalUpdates <= MaxUpdatesPerSource * rep.sourcesWithUpdates
  {
    rep := HandleNews(config, started, p => ScrapeNewsSource(o, web, p).result);
    forall k | 0 <= k < |rep.products| ensures |rep.products[k].updates| <= MaxUpdatesPerSource {
      NewsBound(o, web, config[k], rep.products[k]);
    }
    TotalUpdatesBound(rep.products, MaxUpdatesPerSource);
  }

  lemma NewsBound(o: Oracles, web: Web, src: Source, r: SourceResult)
    requires r == ScrapeNewsSource(o, web, src).result
    ensures |r.updates| <= MaxUpdatesPerSource
  {
    NewsRunSpec(src, url => ScrapeNewsUrl(o, web, src.name, url));
  }
}
