/** The entities shared by the scraper variants and the dashboard: configured sources,
    update items, per-source results, and the oracles that stand for the network. */
module Model {
  import opened Strings

  /** A calendar date as produced by `toISOString().split('T')[0]`. */
  datatype Date = Date(year: int, month: int, day: int)

  /** Chronological order of dates: the order of their zero-padded `yyyy-mm-dd` forms. */
  predicate Later(a: Date, b: Date) {
    a.year > b.year
    || (a.year == b.year && a.month > b.month)
    || (a.year == b.year && a.month == b.month && a.day > b.day)
  }

  datatype UpdateType =
    NewFeatures | Improvements | BugFixes | Security | ApiChanges | PressRelease | News | General

  datatype Priority = Critical | Major | Normal

  /** The fields the classifying variants add to an item. */
  datatype Tags = Tags(kind: UpdateType, priority: Priority, category: string)

  /** One extracted update; `tags` is `None` in the variants that do not classify. */
  datatype UpdateItem = UpdateItem(title: string, date: Date, summary: string, link: string,
                                   tags: Option<Tags>)

  /** A configured product or news site. `updatesUrl` is the hand-configured updates page. */
  datatype Source = Source(name: string, homepage: string, updatesUrl: Option<string>,
                           category: string)

  /** JavaScript truthiness of `product.updates_url`: present and not the empty string. */
  predicate HasExplicit(src: Source) {
    src.updatesUrl.Some? && src.updatesUrl.value != ""
  }

  datatype Status = Ok | NoUpdatesFound | BlockedByRobots | Error

  datatype SourceType = Explicit | Discovered

  datatype SourceResult = SourceResult(
    name: string,
    homepage: string,
    category: Option<string>,
    updatesUrl: Option<string>,
    updates: seq<UpdateItem>,
    status: Status,
    errorMessage: Option<string>,
    sourceType: SourceType)

  datatype Result<+T> = Success(value: T) | Failure(error: string)

  /** Why a page was requested. */
  datatype Purpose = RobotsTxt | ExplicitPage | DiscoveredPage | HomePage

  /** One outbound request: a GET of a page or a HEAD probe of a candidate URL. */
  datatype Request = Get(purpose: Purpose, url: string) | Head(url: string)

  /** The network: `get` answers a GET with the body or a failure (timeout, HTTP status,
      connection error), `head` answers whether a HEAD probe saw a 2xx or 3xx status. */
  datatype Web = Web(get: string -> Result<string>, head: string -> bool)

  /** A source pipeline's result together with the requests it issued, in order. */
  datatype Run = Run(result: SourceResult, requests: seq<Request>)

  predicate IsGet(r: Request, p: Purpose) {
    r.Get? && r.purpose == p
  }

  /** Whether a run issued a GET for the given purpose. */
  predicate Fetched(requests: seq<Request>, p: Purpose) {
    exists k :: 0 <= k < |requests| && IsGet(requests[k], p)
  }

  function Take<T>(s: seq<T>, n: nat): (r: seq<T>)
    ensures |r| <= n && |r| <= |s|
    ensures r == s[..|r|]
    ensures |s| <= n ==> r == s
  {
    if |s| <= n then s else s[..n]
  }

  /** Taking `n` items of a list with a head takes the head and `n - 1` of the rest. */
  lemma TakeCons<T>(x: T, s: seq<T>, n: nat)
    requires n > 0
    ensures Take([x] + s, n) == [x] + Take(s, n - 1)
  {
    if |s| > n - 1 {
      assert ([x] + s)[..n] == [x] + s[..n - 1];
    }
  }

  /** `a` is an order-preserving subsequence of `b`. */
  predicate IsSubseq<T(==)>(a: seq<T>, b: seq<T>)
    decreases |b|
  {
    if |a| == 0 then true
    else if |b| == 0 then false
    else (a[0] == b[0] && IsSubseq(a[1..], b[1..])) || IsSubseq(a, b[1..])
  }

  function Max(a: int, b: int): int { if a < b then b else a }
  function Min(a: int, b: int): int { if a < b then a else b }
}
