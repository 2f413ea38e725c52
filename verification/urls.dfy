/** `getBaseUrl` and `extractLinkFromContext`, shared by the scraper variants. */
module Urls {
  import opened Strings

  /** The regex `^(https?:\/\/[^\/]+)` with the scheme already matched on `url[..n]`:
      one or more non-slash characters must follow. */
  function Authority(url: string, n: nat): string
    requires n <= |url|
  {
    var e := FindChar(url, '/', n);
    if e == n then url else url[..e]
  }

  /** `getBaseUrl(url)`: the scheme and host when `url` starts with `http://` or
      `https://` followed by a host, and `url` itself otherwise. */
  function GetBaseUrl(url: string): string {
    if StartsWith(url, "https://") then Authority(url, 8)
    else if StartsWith(url, "http://") then Authority(url, 7)
    else url
  }

  predicate NoSlashFrom(s: string, n: nat) {
    forall k :: n <= k < |s| ==> s[k] != '/'
  }

  /** An origin as `getBaseUrl` returns it: scheme, `://`, and a non-empty host without
      a slash. */
  predicate IsOrigin(b: string) {
    (StartsWith(b, "https://") && |b| > 8 && NoSlashFrom(b, 8))
    || (StartsWith(b, "http://") && |b| > 7 && NoSlashFrom(b, 7))
  }

  /** `getBaseUrl` returns a prefix of its argument, which is either the whole argument
      or an origin. */
  lemma GetBaseUrlPrefix(url: string)
    ensures StartsWith(url, GetBaseUrl(url))
    ensures GetBaseUrl(url) == url || IsOrigin(GetBaseUrl(url))
  {
    var r := GetBaseUrl(url);
    if StartsWith(url, "https://") {
      var e := FindChar(url, '/', 8);
      if e != 8 {
        assert r == url[..e];
        assert r[..8] == url[..8];
      }
    } else if StartsWith(url, "http://") {
      var e := FindChar(url, '/', 7);
      if e != 7 {
        assert r == url[..e];
        assert r[..7] == url[..7];
      }
    }
  }

  /** Appending a path that starts with '/' (or nothing) to an origin leaves its base
      unchanged: `getBaseUrl(origin + path) == origin`. */
  lemma GetBaseUrlOfJoin(b: string, path: string)
    requires IsOrigin(b)
    requires |path| == 0 || path[0] == '/'
    ensures GetBaseUrl(b + path) == b
  {
    var u := b + path;
    assert u[..|b|] == b;
    if StartsWith(b, "https://") {
      assert !StartsWith(b, "http://") by { assert b[4] == 's'; }
      assert u[..8] == b[..8];
      assert StartsWith(u, "https://");
      assert FindChar(u, '/', 8) == |b| by { FindCharAt(u, '/', 8, |b|); }
      assert Authority(u, 8) == u[..|b|];
    } else {
      assert u[..7] == b[..7];
      assert !StartsWith(u, "https://") by { assert u[4] == ':'; }
      assert FindChar(u, '/', 7) == |b| by { FindCharAt(u, '/', 7, |b|); }
      assert Authority(u, 7) == u[..|b|];
    }
  }

  /** `getBaseUrl` is idempotent. */
  lemma GetBaseUrlIdempotent(url: string)
    ensures GetBaseUrl(GetBaseUrl(url)) == GetBaseUrl(url)
  {
    GetBaseUrlPrefix(url);
    var b := GetBaseUrl(url);
    if b != url {
      GetBaseUrlOfJoin(b, "");
      assert b + "" == b;
    }
  }

  /** `extractLinkFromContext(context, fallbackUrl)`, given the first `href` value the
      anchor regex found in the context (`None` when it found none). A relative path is
      resolved against the fallback's origin; anything else not starting with `http`
      falls back; the link is kept only if it names `zoho.com` and not `javascript:`. */
  function ExtractLink(href: Option<string>, fallback: string): (r: string)
    ensures r == fallback || (Contains(r, "zoho.com") && !Contains(r, "javascript:"))
    ensures href.Some? && StartsWith(href.value, "/")
            && Contains(GetBaseUrl(fallback) + href.value, "zoho.com")
            && !Contains(GetBaseUrl(fallback) + href.value, "javascript:")
            ==> r == GetBaseUrl(fallback) + href.value
    ensures href.Some? && href.value != "" && !StartsWith(href.value, "/")
            && StartsWith(href.value, "http")
            && Contains(href.value, "zoho.com") && !Contains(href.value, "javascript:")
            ==> r == href.value
    ensures href.Some? && StartsWith(href.value, "/")
            && !(Contains(GetBaseUrl(fallback) + href.value, "zoho.com")
                 && !Contains(GetBaseUrl(fallback) + href.value, "javascript:"))
            ==> r == fallback
    ensures href.Some? && !StartsWith(href.value, "/") && StartsWith(href.value, "http")
            && !(Contains(href.value, "zoho.com") && !Contains(href.value, "javascript:"))
            ==> r == fallback
    ensures href.Some? && !StartsWith(href.value, "/") && !StartsWith(href.value, "http")
            ==> r == fallback
    ensures href.None? ==> r == fallback
    ensures r != fallback ==>
              href.Some? && (r == href.value || r == GetBaseUrl(fallback) + href.value)
  {
    match href
    case None => fallback
    case Some(h) =>
      if h == "" then fallback
      else
        var link := if StartsWith(h, "/") then GetBaseUrl(fallback) + h
                    else if !StartsWith(h, "http") then fallback
                    else h;
        if Contains(link, "zoho.com") && !Contains(link, "javascript:") then link else fallback
  }
}
