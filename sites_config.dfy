/**
 * Per-site scraping configuration (`SiteConfig`) and the registry of configured sites.
 */
module SitesConfig {
  import opened Wrappers

  type Headers = map<string, string>

  /** The six headers a configuration gets when it is given none. */
  const DefaultHeaders: Headers := map[
    "User-Agent" := "Mozilla/5.0 (Windows NT 10.0; Win64; x64) AppleWebKit/537.36 (KHTML, like Gecko) Chrome/91.0.4472.124 Safari/537.36",
    "Accept" := "text/html,application/xhtml+xml,application/xml;q=0.9,image/webp,*/*;q=0.8",
    "Accept-Language" := "en-US,en;q=0.5",
    "Accept-Encoding" := "gzip, deflate",
    "Connection" := "keep-alive",
    "Upgrade-Insecure-Requests" := "1"]

  /** A `(min, max)` delay in whole seconds. */
  datatype Delay = Delay(min: int, max: int)

  /** The headers after `__post_init__`: the supplied ones, or the defaults when none were given. */
  function ResolveHeaders(supplied: Option<Headers>): (h: Headers)
    ensures supplied.Some? ==> h == supplied.value
    ensures supplied.None? ==> |h.Keys| == 6 && "User-Agent" in h && "Accept" in h
  {
    match supplied
    case Some(s) => s
    case None => DefaultHeaders
  }

  /** The detail-page delay after `__post_init__`: the supplied one, or the page delay widened by 2 and 4 seconds. */
  function ResolveDetailDelay(supplied: Option<Delay>, page: Delay): (d: Delay)
    ensures supplied.Some? ==> d == supplied.value
    ensures supplied.None? ==> d.min == page.min + 2 && d.max == page.max + 4
    ensures supplied.None? && page.min <= page.max ==> d.min <= d.max && d.max - d.min == page.max - page.min + 2
  {
    match supplied
    case Some(s) => s
    case None => Delay(page.min + 2, page.max + 4)
  }

  /** Resolving twice changes nothing once a value is in place. */
  lemma ResolveIdempotent(h: Option<Headers>, d: Option<Delay>, page: Delay)
    ensures ResolveHeaders(Some(ResolveHeaders(h))) == ResolveHeaders(h)
    ensures ResolveDetailDelay(Some(ResolveDetailDelay(d, page)), page) == ResolveDetailDelay(d, page)
  {
  }

  /** Configuration of one job site; `__post_init__` fills in the headers and the detail delay. */
  class SiteConfig {
    const name: string
    const baseUrl: string
    const searchUrl: string
    const enabled: bool
    const maxPages: int
    const delayRange: Delay
    var detailDelayRange: Option<Delay>
    const detailBatchSize: int
    const maxRetries: int
    const timeout: int
    var headers: Option<Headers>
    const paginationParam: string
    const paginationStart: int

    /** The dataclass constructor followed by `__post_init__`, with the field defaults. */
    constructor (name: string, baseUrl: string, searchUrl: string,
                 enabled: bool := true, maxPages: int := 10, delayRange: Delay := Delay(2, 5),
                 detailDelayRange: Option<Delay> := None, detailBatchSize: int := 10,
                 maxRetries: int := 3, timeout: int := 30, headers: Option<Headers> := None,
                 paginationParam: string := "page", paginationStart: int := 1)
      ensures this.name == name && this.baseUrl == baseUrl && this.searchUrl == searchUrl
      ensures this.enabled == enabled && this.maxPages == maxPages && this.delayRange == delayRange
      ensures this.detailBatchSize == detailBatchSize && this.maxRetries == maxRetries && this.timeout == timeout
      ensures this.paginationParam == paginationParam && this.paginationStart == paginationStart
      ensures this.headers == Some(ResolveHeaders(headers))
      ensures this.detailDelayRange == Some(ResolveDetailDelay(detailDelayRange, delayRange))
    {
      this.name := name;
      this.baseUrl := baseUrl;
      this.searchUrl := searchUrl;
      this.enabled := enabled;
      this.maxPages := maxPages;
      this.delayRange := delayRange;
      this.detailDelayRange := detailDelayRange;
      this.detailBatchSize := detailBatchSize;
      this.maxRetries := maxRetries;
      this.timeout := timeout;
      this.headers := headers;
      this.paginationParam := paginationParam;
      this.paginationStart := paginationStart;
      new;
      PostInit();
    }

    /** `__post_init__`: replaces a missing header dict and a missing detail delay by their defaults. */
    method PostInit()
      modifies this
      ensures headers == Some(ResolveHeaders(old(headers)))
      ensures detailDelayRange == Some(ResolveDetailDelay(old(detailDelayRange), delayRange))
    {
      if headers.None? {
        headers := Some(DefaultHeaders);
      }
      if detailDelayRange.None? {
        detailDelayRange := Some(Delay(delayRange.min + 2, delayRange.max + 4));
      }
    }
  }

  const HirebaseSearchUrl: string :=
    "https://hirebase.org/search?page={page}&sort_by=relevance&search_type=resume&accuracy=0.7&score_threshold=0.3&top_k=100&include_yoe=true&job_title=Data+Scientist%2CMachine+Learning+Engineer%2CAI+Engineer&q=staff"

  /** `SITES_CONFIG`: the single configured site, hirebase. */
  method SitesRegistry() returns (registry: map<string, SiteConfig>)
    ensures registry.Keys == {"hirebase"}
    ensures fresh(registry["hirebase"])
    ensures var c := registry["hirebase"];
      c.name == "Hirebase" && c.baseUrl == "https://hirebase.org" && c.searchUrl == HirebaseSearchUrl &&
      c.enabled && c.maxPages == 20 && c.delayRange == Delay(3, 8) &&
      c.detailDelayRange == Some(Delay(5, 12)) && c.detailBatchSize == 5 && c.maxRetries == 3 &&
      c.timeout == 30 && c.headers == Some(DefaultHeaders) &&
      c.paginationParam == "page" && c.paginationStart == 1
  {
    var hirebase := new SiteConfig("Hirebase", "https://hirebase.org", HirebaseSearchUrl,
      enabled := true, maxPages := 20, delayRange := Delay(3, 8), detailDelayRange := Some(Delay(5, 12)),
      detailBatchSize := 5, maxRetries := 3, timeout := 30, paginationParam := "page", paginationStart := 1);
    registry := map["hirebase" := hirebase];
  }

  /** `get_enabled_sites`: exactly the enabled entries, under their own keys. */
  function GetEnabledSites(registry: map<string, SiteConfig>): (r: map<string, SiteConfig>)
    ensures forall k :: k in r <==> k in registry && registry[k].enabled
    ensures forall k :: k in r ==> r[k] == registry[k]
  {
    map k | k in registry && registry[k].enabled :: registry[k]
  }

  /** `get_site_config`: the entry for a known key, `None` for any other. */
  function GetSiteConfig(registry: map<string, SiteConfig>, siteName: string): (r: Option<SiteConfig>)
    ensures siteName in registry ==> r == Some(registry[siteName])
    ensures siteName !in registry ==> r.None?
  {
    if siteName in registry then Some(registry[siteName]) else None
  }
}
