/** `discoverUpdatesUrl`: candidate update pages under the homepage's origin are probed
    in a fixed order and the first that answers is taken. `live` stands for
    `testUrlExists`, a HEAD request that is true for a 2xx or 3xx status and false on an
    error or a timeout. */
module Discovery {
  import opened Strings
  import opened Model
  import opened Urls

  /** `UPDATE_PATHS` of the product scraper. */
  const ProductPaths: seq<string> := ["/whats-new", "/updates", "/release-notes", "/changelog"]

  /** `UPDATE_PATHS` of the debugging scraper. */
  const DebugPaths: seq<string> :=
    ["/whats-new", "/whatsnew", "/updates", "/release-notes", "/changelog", "/blog", "/news"]

  /** `UPDATE_PATHS` of the Vercel scraper. */
  const ApiPaths: seq<string> := ["/whats-new", "/whatsnew", "/updates", "/release-notes", "/changelog"]

  /** The outcome of a discovery: the page found, if any, and the URLs probed in order. */
  datatype Found = Found(url: Option<string>, probes: seq<string>)

  /** Every candidate URL, in probing order. */
  function Candidates(base: string, paths: seq<string>): (r: seq<string>)
    ensures |r| == |paths|
  {
    seq(|paths|, j requires 0 <= j < |paths| => base + paths[j])
  }

  /** The `for (const path of UPDATE_PATHS)` loop with its early return. */
  function Probe(base: string, paths: seq<string>, live: string -> bool): Found
    decreases |paths|
  {
    if |paths| == 0 then Found(None, [])
    else
      var url := base + paths[0];
      if live(url) then Found(Some(url), [url])
      else
        var rest := Probe(base, paths[1..], live);
        Found(rest.url, [url] + rest.probes)
  }

  /** `discoverUpdatesUrl(homepage)`. */
  function Discover(homepage: string, paths: seq<string>, live: string -> bool): Found {
    Probe(GetBaseUrl(homepage), paths, live)
  }

  /** The probes are the candidates in order, up to and including the first that exists
      and none after it; the result is that candidate, or nothing when every candidate
      was probed and none exists. */
  lemma {:induction false} ProbeSpec(base: string, paths: seq<string>, live: string -> bool)
    ensures var f := Probe(base, paths, live);
            |f.probes| <= |paths| && f.probes == Candidates(base, paths)[..|f.probes|]
    ensures var f := Probe(base, paths, live);
            forall j :: 0 <= j < |f.probes| - 1 ==> !live(f.probes[j])
    ensures var f := Probe(base, paths, live);
            f.url.Some? ==> |f.probes| > 0 && f.url.value == f.probes[|f.probes| - 1]
                            && live(f.url.value)
    ensures var f := Probe(base, paths, live);
            f.url.None? ==> f.probes == Candidates(base, paths)
                            && forall j :: 0 <= j < |paths| ==> !live(base + paths[j])
    decreases |paths|
  {
    if |paths| > 0 {
      var url := base + paths[0];
      var c := Candidates(base, paths);
      var c' := Candidates(base, paths[1..]);
      assert c == [url] + c';
      if !live(url) {
        ProbeSpec(base, paths[1..], live);
        var rest := Probe(base, paths[1..], live);
        assert ([url] + c')[..1 + |rest.probes|] == [url] + c'[..|rest.probes|];
        if rest.url.None? {
          forall j | 0 <= j < |paths| ensures !live(base + paths[j]) {
            if j > 0 { assert paths[j] == paths[1..][j - 1]; }
          }
        }
      }
    }
  }

  /** The discovered page, when there is one, is the first of the candidate paths that
      exists; nothing is discovered exactly when none of them exists. */
  lemma DiscoverSpec(homepage: string, paths: seq<string>, live: string -> bool)
    ensures var f := Discover(homepage, paths, live);
            f.url.None? <==> forall j :: 0 <= j < |paths| ==> !live(GetBaseUrl(homepage) + paths[j])
    ensures var f := Discover(homepage, paths, live);
            f.url.Some? ==> exists k :: 0 <= k < |paths|
                              && f.url.value == GetBaseUrl(homepage) + paths[k]
                              && live(f.url.value)
                              && forall j :: 0 <= j < k ==> !live(GetBaseUrl(homepage) + paths[j])
  {
    var base := GetBaseUrl(homepage);
    var f := Probe(base, paths, live);
    ProbeSpec(base, paths, live);
    var c := Candidates(base, paths);
    if f.url.Some? {
      var k := |f.probes| - 1;
      assert f.probes[k] == c[k];
      forall j | 0 <= j < k ensures !live(base + paths[j]) {
        assert f.probes[j] == c[j];
      }
      assert live(base + paths[k]);
    } else {
      assert forall j :: 0 <= j < |paths| ==> !live(base + paths[j]);
    }
  }

  /** Discovery stays on the homepage's origin: when the homepage has one, the base URL
      of any discovered page is that origin. */
  lemma DiscoveredSameOrigin(homepage: string, paths: seq<string>, live: string -> bool)
    requires IsOrigin(GetBaseUrl(homepage))
    requires forall j :: 0 <= j < |paths| ==> |paths[j]| > 0 && paths[j][0] == '/'
    ensures var f := Discover(homepage, paths, live);
            f.url.Some? ==> GetBaseUrl(f.url.value) == GetBaseUrl(homepage)
  {
    DiscoverSpec(homepage, paths, live);
    var f := Discover(homepage, paths, live);
    if f.url.Some? {
      var k :| 0 <= k < |paths| && f.url.value == GetBaseUrl(homepage) + paths[k];
      GetBaseUrlOfJoin(GetBaseUrl(homepage), paths[k]);
    }
  }

  /** Every configured path list starts each path with '/'. */
  lemma PathsAreAbsolute()
    ensures forall j :: 0 <= j < |ProductPaths| ==> |ProductPaths[j]| > 0 && ProductPaths[j][0] == '/'
    ensures forall j :: 0 <= j < |DebugPaths| ==> |DebugPaths[j]| > 0 && DebugPaths[j][0] == '/'
    ensures forall j :: 0 <= j < |ApiPaths| ==> |ApiPaths[j]| > 0 && ApiPaths[j][0] == '/'
  {
  }

  /** When only the third path of the product list exists, both earlier paths are
      probed, the third is returned and the fourth is never probed. */
  lemma ThirdCandidateWins(homepage: string, live: string -> bool)
    requires !live(GetBaseUrl(homepage) + "/whats-new")
    requires !live(GetBaseUrl(homepage) + "/updates")
    requires live(GetBaseUrl(homepage) + "/release-notes")
    ensures Discover(homepage, ProductPaths, live)
            == Found(Some(GetBaseUrl(homepage) + "/release-notes"),
                     [GetBaseUrl(homepage) + "/whats-new", GetBaseUrl(homepage) + "/updates",
                      GetBaseUrl(homepage) + "/release-notes"])
  {
    var base := GetBaseUrl(homepage);
    assert ProductPaths[1..] == ["/updates", "/release-notes", "/changelog"];
    assert ProductPaths[1..][1..] == ["/release-notes", "/changelog"];
  }
}
