/** The fallback order shared by `scrapeProduct` and `scrapeProductWithDebug`: the
    configured updates page first; discovery when there is none or it gave nothing;
    the homepage when still nothing was found. `scrape` stands for the variant's
    per-page extraction (fetch, then parse; a failed fetch gives nothing). */
module Pipeline {
  import opened Strings
  import opened Model
  import opened Discovery

  /** A page fetched for extraction and why. */
  datatype Page = Page(purpose: Purpose, url: string)

  /** What the fallback chain produced: the items of the concatenated extractions, the
      `updates_url` and `source_type` it leaves in the result, and the requests issued. */
  datatype Gathered = Gathered(items: seq<UpdateItem>, updatesUrl: Option<string>,
                               sourceType: SourceType, requests: seq<Request>)

  /** One HEAD probe per discovery candidate tried. */
  function Heads(urls: seq<string>): (r: seq<Request>)
    ensures |r| == |urls|
    ensures forall k :: 0 <= k < |r| ==> r[k] == Head(urls[k])
  {
    seq(|urls|, k requires 0 <= k < |urls| => Head(urls[k]))
  }

  /** The pages fetched for extraction, in request order. */
  function GetsOf(requests: seq<Request>): seq<Page>
    decreases |requests|
  {
    if |requests| == 0 then []
    else (if requests[0].Get? then [Page(requests[0].purpose, requests[0].url)] else [])
         + GetsOf(requests[1..])
  }

  /** The URLs probed with HEAD, in request order. */
  function HeadsOf(requests: seq<Request>): seq<string>
    decreases |requests|
  {
    if |requests| == 0 then []
    else (if requests[0].Head? then [requests[0].url] else []) + HeadsOf(requests[1..])
  }

  lemma {:induction false} OfConcat(a: seq<Request>, b: seq<Request>)
    ensures GetsOf(a + b) == GetsOf(a) + GetsOf(b)
    ensures HeadsOf(a + b) == HeadsOf(a) + HeadsOf(b)
    decreases |a|
  {
    if |a| > 0 {
      OfConcat(a[1..], b);
      assert (a + b)[1..] == a[1..] + b;
    } else {
      assert a + b == b;
    }
  }

  lemma {:induction false} OfHeads(urls: seq<string>)
    ensures GetsOf(Heads(urls)) == []
    ensures HeadsOf(Heads(urls)) == urls
    decreases |urls|
  {
    if |urls| > 0 {
      OfHeads(urls[1..]);
      assert Heads(urls)[1..] == Heads(urls[1..]);
    }
  }

  /** Step 1: the configured updates page, when `updates_url` is truthy. */
  function ExplicitStage(src: Source, scrape: string -> seq<UpdateItem>): Gathered {
    if HasExplicit(src) then
      var url := src.updatesUrl.value;
      Gathered(scrape(url), Some(url), Explicit, [Get(ExplicitPage, url)])
    else Gathered([], None, Discovered, [])
  }

  /** Step 2: discovery, when there is no configured page or it gave nothing. */
  function DiscoveryStage(src: Source, paths: seq<string>, live: string -> bool,
                          scrape: string -> seq<UpdateItem>, s: Gathered): Gathered {
    if !HasExplicit(src) || |s.items| == 0 then
      var f := Discover(src.homepage, paths, live);
      match f.url
      case Some(u) =>
        Gathered(s.items + scrape(u), Some(u), Discovered,
                 s.requests + Heads(f.probes) + [Get(DiscoveredPage, u)])
      case None => s.(requests := s.requests + Heads(f.probes))
    else s
  }

  /** Step 3: the homepage itself, when nothing has been found. */
  function HomepageStage(src: Source, scrape: string -> seq<UpdateItem>, s: Gathered): Gathered {
    if |s.items| == 0 then
      Gathered(s.items + scrape(src.homepage), Some(src.homepage), s.sourceType,
               s.requests + [Get(HomePage, src.homepage)])
    else s
  }

  /** The whole chain. */
  function Gather(src: Source, paths: seq<string>, live: string -> bool,
                  scrape: string -> seq<UpdateItem>): Gathered {
    HomepageStage(src, scrape,
      DiscoveryStage(src, paths, live, scrape, ExplicitStage(src, scrape)))
  }

  /** Whether discovery runs: no configured page, or the configured page gave nothing. */
  predicate RunsDiscovery(src: Source, scrape: string -> seq<UpdateItem>) {
    !HasExplicit(src) || scrape(src.updatesUrl.value) == []
  }

  /** The configured page, when there is one. */
  function ExplicitPages(src: Source): seq<Page> {
    if HasExplicit(src) then [Page(ExplicitPage, src.updatesUrl.value)] else []
  }

  /** The discovered page, when discovery runs and finds one. */
  function DiscoveredPages(src: Source, paths: seq<string>, live: string -> bool,
                           scrape: string -> seq<UpdateItem>): seq<Page> {
    var f := Discover(src.homepage, paths, live);
    if RunsDiscovery(src, scrape) && f.url.Some? then [Page(DiscoveredPage, f.url.value)] else []
  }

  /** The fallback pages before the homepage: the configured page, then the discovered
      one. */
  function FrontPages(src: Source, paths: seq<string>, live: string -> bool,
                      scrape: string -> seq<UpdateItem>): (r: seq<Page>)
    ensures |r| <= 2
    ensures forall k :: 0 <= k < |r| ==> r[k].purpose == ExplicitPage || r[k].purpose == DiscoveredPage
  {
    ExplicitPages(src) + DiscoveredPages(src, paths, live, scrape)
  }

  /** Every page the chain may extract from, in fallback order: the configured page,
      the discovered page (only when discovery runs and finds one), the homepage. */
  function FallbackPages(src: Source, paths: seq<string>, live: string -> bool,
                         scrape: string -> seq<UpdateItem>): (r: seq<Page>)
    ensures 1 <= |r| <= 3 && r[|r| - 1] == Page(HomePage, src.homepage)
    ensures forall k :: 0 <= k < |r| - 1 ==> r[k].purpose != HomePage
  {
    FrontPages(src, paths, live, scrape) + [Page(HomePage, src.homepage)]
  }

  /** The pages fetched are the fallback pages up to and including the first one that
      gives any item (all of them when none does). */
  predicate FetchedUpTo(pages: seq<Page>, fetched: seq<Page>, scrape: string -> seq<UpdateItem>) {
    exists n :: 1 <= n <= |pages| && FetchedPrefix(pages, fetched, scrape, n)
  }

  /** The first `n` fallback pages were fetched: all but the last gave nothing, and the
      last gave something unless it is the homepage. */
  predicate FetchedPrefix(pages: seq<Page>, fetched: seq<Page>, scrape: string -> seq<UpdateItem>,
                          n: int)
    requires 1 <= n <= |pages|
  {
    fetched == pages[..n]
    && (forall j :: 0 <= j < n - 1 ==> scrape(pages[j].url) == [])
    && (n < |pages| ==> scrape(pages[n - 1].url) != [])
  }

  /** The first two steps fetch the configured page and the discovered page, each when
      it is tried, and nothing else. */
  lemma FirstStagesGets(src: Source, paths: seq<string>, live: string -> bool,
                        scrape: string -> seq<UpdateItem>)
    ensures var s := DiscoveryStage(src, paths, live, scrape, ExplicitStage(src, scrape));
            GetsOf(s.requests) == FrontPages(src, paths, live, scrape)
  {
    var f := Discover(src.homepage, paths, live);
    var s1 := ExplicitStage(src, scrape);
    OfHeads(f.probes);
    assert GetsOf(s1.requests) == ExplicitPages(src) by {
      if HasExplicit(src) {
        assert GetsOf(s1.requests) == [Page(ExplicitPage, src.updatesUrl.value)];
      }
    }
    if RunsDiscovery(src, scrape) {
      OfConcat(s1.requests, Heads(f.probes));
      if f.url.Some? {
        var u := f.url.value;
        OfConcat(s1.requests + Heads(f.probes), [Get(DiscoveredPage, u)]);
        assert GetsOf([Get(DiscoveredPage, u)]) == [Page(DiscoveredPage, u)];
      }
    }
  }

  /** The first two steps probe the discovery candidates exactly when discovery runs. */
  lemma FirstStagesHeads(src: Source, paths: seq<string>, live: string -> bool,
                         scrape: string -> seq<UpdateItem>)
    ensures var s := DiscoveryStage(src, paths, live, scrape, ExplicitStage(src, scrape));
            HeadsOf(s.requests)
            == (if RunsDiscovery(src, scrape) then Discover(src.homepage, paths, live).probes else [])
  {
    var f := Discover(src.homepage, paths, live);
    var s1 := ExplicitStage(src, scrape);
    OfHeads(f.probes);
    assert HeadsOf(s1.requests) == [] by {
      if HasExplicit(src) {
        assert HeadsOf(s1.requests) == HeadsOf([Get(ExplicitPage, src.updatesUrl.value)]);
      }
    }
    if RunsDiscovery(src, scrape) {
      OfConcat(s1.requests, Heads(f.probes));
      if f.url.Some? {
        var u := f.url.value;
        OfConcat(s1.requests + Heads(f.probes), [Get(DiscoveredPage, u)]);
        assert HeadsOf([Get(DiscoveredPage, u)]) == [];
      }
    }
  }

  /** After the first two steps the items and `updates_url` are those of the last page
      tried, and a configured page followed by a discovered one gave nothing. */
  lemma FirstStagesItems(src: Source, paths: seq<string>, live: string -> bool,
                         scrape: string -> seq<UpdateItem>)
    ensures var s := DiscoveryStage(src, paths, live, scrape, ExplicitStage(src, scrape));
            var front := FrontPages(src, paths, live, scrape);
            (|front| == 0 ==> s.items == [] && s.updatesUrl == None)
            && (|front| > 0 ==> s.items == scrape(front[|front| - 1].url)
                                && s.updatesUrl == Some(front[|front| - 1].url))
            && (|front| == 2 ==> scrape(front[0].url) == [])
  {
    var f := Discover(src.homepage, paths, live);
    var s1 := ExplicitStage(src, scrape);
    if RunsDiscovery(src, scrape) && f.url.Some? {
      assert s1.items == [];
      assert s1.items + scrape(f.url.value) == scrape(f.url.value);
    }
  }

  /** The source type turns `discovered` exactly when there is no configured page or a
      discovered page was used. */
  lemma FirstStagesType(src: Source, paths: seq<string>, live: string -> bool,
                        scrape: string -> seq<UpdateItem>)
    ensures var s := DiscoveryStage(src, paths, live, scrape, ExplicitStage(src, scrape));
            (s.sourceType == Discovered <==>
               !HasExplicit(src)
               || (RunsDiscovery(src, scrape) && Discover(src.homepage, paths, live).url.Some?))
  {
  }

  /** The homepage step fetches the homepage exactly when the first two steps found
      nothing, and then yields its items. */
  lemma HomepageStep(src: Source, scrape: string -> seq<UpdateItem>, s: Gathered)
    ensures var g := HomepageStage(src, scrape, s);
            (|s.items| == 0 ==>
               GetsOf(g.requests) == GetsOf(s.requests) + [Page(HomePage, src.homepage)]
               && HeadsOf(g.requests) == HeadsOf(s.requests)
               && g.items == scrape(src.homepage) && g.updatesUrl == Some(src.homepage))
            && (|s.items| > 0 ==> g == s)
            && g.sourceType == s.sourceType
  {
    if |s.items| == 0 {
      OfConcat(s.requests, [Get(HomePage, src.homepage)]);
      assert GetsOf([Get(HomePage, src.homepage)]) == [Page(HomePage, src.homepage)];
      assert HeadsOf([Get(HomePage, src.homepage)]) == [];
      assert s.items + scrape(src.homepage) == scrape(src.homepage);
    }
  }

  /** What the first two steps leave behind: they fetched `front`, and their items and
      `updates_url` are those of the last page of `front`, the only one that may have
      given anything. */
  predicate FrontOutcome(s: Gathered, front: seq<Page>, scrape: string -> seq<UpdateItem>) {
    |front| <= 2
    && (forall k :: 0 <= k < |front| ==> front[k].purpose != HomePage)
    && GetsOf(s.requests) == front
    && (|front| == 0 ==> s.items == [] && s.updatesUrl == None)
    && (|front| > 0 ==> s.items == scrape(front[|front| - 1].url)
                        && s.updatesUrl == Some(front[|front| - 1].url))
    && (|front| == 2 ==> scrape(front[0].url) == [])
  }

  lemma FirstStagesOutcome(src: Source, paths: seq<string>, live: string -> bool,
                           scrape: string -> seq<UpdateItem>)
    ensures FrontOutcome(DiscoveryStage(src, paths, live, scrape, ExplicitStage(src, scrape)),
                         FrontPages(src, paths, live, scrape), scrape)
  {
    FirstStagesGets(src, paths, live, scrape);
    FirstStagesItems(src, paths, live, scrape);
  }

  /** The homepage step completes the fetched prefix of `front` followed by the
      homepage. */
  lemma ChainPages(src: Source, scrape: string -> seq<UpdateItem>, s: Gathered, front: seq<Page>)
    requires FrontOutcome(s, front, scrape)
    ensures var g := HomepageStage(src, scrape, s);
            var fetched := GetsOf(g.requests);
            FetchedUpTo(front + [Page(HomePage, src.homepage)], fetched, scrape)
            && |fetched| > 0
            && g.items == scrape(fetched[|fetched| - 1].url)
            && g.updatesUrl == Some(fetched[|fetched| - 1].url)
  {
    var pages := front + [Page(HomePage, src.homepage)];
    var g := HomepageStage(src, scrape, s);
    HomepageStep(src, scrape, s);
    var fetched := GetsOf(g.requests);
    if |s.items| == 0 {
      assert fetched == pages;
      assert pages[..|pages|] == pages;
      assert FetchedPrefix(pages, fetched, scrape, |pages|);
    } else {
      assert fetched == front;
      assert front == pages[..|front|];
      assert FetchedPrefix(pages, fetched, scrape, |front|);
    }
  }

  /** The homepage step fetches the homepage exactly when every page of `front` gave
      nothing. */
  lemma ChainHomepage(src: Source, scrape: string -> seq<UpdateItem>, s: Gathered, front: seq<Page>)
    requires FrontOutcome(s, front, scrape)
    ensures var g := HomepageStage(src, scrape, s);
            (Page(HomePage, src.homepage) in GetsOf(g.requests) <==>
               forall j :: 0 <= j < |front| ==> scrape(front[j].url) == [])
  {
    var home := Page(HomePage, src.homepage);
    var g := HomepageStage(src, scrape, s);
    HomepageStep(src, scrape, s);
    if |s.items| == 0 {
      assert GetsOf(g.requests) == front + [home];
      assert home in GetsOf(g.requests);
    } else {
      assert GetsOf(g.requests) == front;
      assert home !in front;
      assert scrape(front[|front| - 1].url) != [];
    }
  }

  /** What the fallback chain promises: the pages fetched are the fallback pages up to
      the first productive one, and the items and `updates_url` are that last page's. */
  lemma GatherPages(src: Source, paths: seq<string>, live: string -> bool,
                    scrape: string -> seq<UpdateItem>)
    ensures var g := Gather(src, paths, live, scrape);
            var fetched := GetsOf(g.requests);
            FetchedUpTo(FallbackPages(src, paths, live, scrape), fetched, scrape)
            && |fetched| > 0
            && g.items == scrape(fetched[|fetched| - 1].url)
            && g.updatesUrl == Some(fetched[|fetched| - 1].url)
  {
    FirstStagesOutcome(src, paths, live, scrape);
    ChainPages(src, scrape, DiscoveryStage(src, paths, live, scrape, ExplicitStage(src, scrape)),
               FrontPages(src, paths, live, scrape));
  }

  /** Discovery probes are issued exactly when discovery runs, and the source type
      turns `discovered` exactly when there is no configured page or a discovered page
      was used. */
  lemma GatherProbes(src: Source, paths: seq<string>, live: string -> bool,
                     scrape: string -> seq<UpdateItem>)
    ensures var g := Gather(src, paths, live, scrape);
            HeadsOf(g.requests)
            == (if RunsDiscovery(src, scrape) then Discover(src.homepage, paths, live).probes else [])
    ensures var g := Gather(src, paths, live, scrape);
            (g.sourceType == Discovered <==>
               !HasExplicit(src)
               || (RunsDiscovery(src, scrape) && Discover(src.homepage, paths, live).url.Some?))
  {
    var s2 := DiscoveryStage(src, paths, live, scrape, ExplicitStage(src, scrape));
    FirstStagesHeads(src, paths, live, scrape);
    FirstStagesType(src, paths, live, scrape);
    HomepageStep(src, scrape, s2);
  }

  /** The homepage is fetched exactly when every earlier fallback page gave nothing. */
  lemma GatherHomepage(src: Source, paths: seq<string>, live: string -> bool,
                       scrape: string -> seq<UpdateItem>)
    ensures var g := Gather(src, paths, live, scrape);
            var pages := FallbackPages(src, paths, live, scrape);
            (Page(HomePage, src.homepage) in GetsOf(g.requests) <==>
               forall j :: 0 <= j < |pages| - 1 ==> scrape(pages[j].url) == [])
  {
    var front := FrontPages(src, paths, live, scrape);
    var pages := FallbackPages(src, paths, live, scrape);
    FirstStagesOutcome(src, paths, live, scrape);
    ChainHomepage(src, scrape, DiscoveryStage(src, paths, live, scrape, ExplicitStage(src, scrape)),
                  front);
    assert forall k :: 0 <= k < |front| ==> pages[k] == front[k];
  }

  /** A GET request in the log shows up among the fetched pages. */
  lemma {:induction false} GetsAreFetched(requests: seq<Request>, k: int)
    requires 0 <= k < |requests| && requests[k].Get?
    ensures Page(requests[k].purpose, requests[k].url) in GetsOf(requests)
    decreases |requests|
  {
    if k > 0 {
      GetsAreFetched(requests[1..], k - 1);
    }
  }

  /** The chain ends with items exactly when one of the fallback pages yields any. */
  lemma GatheredStatus(src: Source, paths: seq<string>, live: string -> bool,
                       scrape: string -> seq<UpdateItem>)
    ensures var pages := FallbackPages(src, paths, live, scrape);
            (|Gather(src, paths, live, scrape).items| > 0
             <==> exists j :: 0 <= j < |pages| && scrape(pages[j].url) != [])
  {
    var g := Gather(src, paths, live, scrape);
    var pages := FallbackPages(src, paths, live, scrape);
    GatherPages(src, paths, live, scrape);
    var fetched := GetsOf(g.requests);
    var n :| 1 <= n <= |pages| && FetchedPrefix(pages, fetched, scrape, n);
    assert fetched[n - 1] == pages[n - 1];
    if exists j :: 0 <= j < |pages| && scrape(pages[j].url) != [] {
      var j :| 0 <= j < |pages| && scrape(pages[j].url) != [];
      if n == |pages| {
        assert j == n - 1;
      }
    }
  }

  /** A purpose no fetched page has was never fetched. */
  lemma NotFetched(requests: seq<Request>, p: Purpose)
    requires forall q :: q in GetsOf(requests) ==> q.purpose != p
    ensures !Fetched(requests, p)
  {
    if Fetched(requests, p) {
      var k :| 0 <= k < |requests| && IsGet(requests[k], p);
      GetsAreFetched(requests, k);
    }
  }

  /** The chain requests no robots.txt: every page it fetches is an update page or the
      homepage. */
  lemma NoRobotsFetch(src: Source, paths: seq<string>, live: string -> bool,
                      scrape: string -> seq<UpdateItem>)
    ensures !Fetched(Gather(src, paths, live, scrape).requests, RobotsTxt)
  {
    var s2 := DiscoveryStage(src, paths, live, scrape, ExplicitStage(src, scrape));
    var g := HomepageStage(src, scrape, s2);
    var front := FrontPages(src, paths, live, scrape);
    FirstStagesGets(src, paths, live, scrape);
    HomepageStep(src, scrape, s2);
    assert GetsOf(g.requests) == front || GetsOf(g.requests) == front + [Page(HomePage, src.homepage)];
    NotFetched(g.requests, RobotsTxt);
  }
}
