/**
 * The request side of the scrapers: rotated identity headers, the classification of an
 * HTTP answer into a usable response or a soft failure, and the browser teardown.
 * The network, the `fake_useragent` generator and `random.choice` are inputs.
 */
module Fetch {
  import opened Wrappers
  import opened Text

  type Headers = map<string, string>

  const AgentPrefix: string := "Mozilla/5.0 ("

  /** The five fallback agents, each written as prefix, platform, browser name and version. */
  const FallbackAgents: seq<string> := [
    AgentPrefix + "Windows NT 10.0; Win64; x64) AppleWebKit/537.36 (KHTML, like Gecko) " + "Chrome" + "/91.0.4472.124 Safari/537.36",
    AgentPrefix + "Macintosh; Intel Mac OS X 10_15_7) AppleWebKit/537.36 (KHTML, like Gecko) " + "Chrome" + "/91.0.4472.124 Safari/537.36",
    AgentPrefix + "X11; Linux x86_64) AppleWebKit/537.36 (KHTML, like Gecko) " + "Chrome" + "/91.0.4472.124 Safari/537.36",
    AgentPrefix + "Windows NT 10.0; Win64; x64; rv:89.0) Gecko/20100101 " + "Firefox" + "/89.0",
    AgentPrefix + "Macintosh; Intel Mac OS X 10.15; rv:89.0) Gecko/20100101 " + "Firefox" + "/89.0"]

  const AcceptLanguages: seq<string> := [
    "en-US,en;q=0.9",
    "en-US,en;q=0.8,es;q=0.7",
    "en-GB,en;q=0.9",
    "en-US,en;q=0.5"]

  const AcceptEncodings: seq<string> := [
    "gzip, deflate, br",
    "gzip, deflate",
    "identity"]

  /** The header names `_get_random_headers` always overwrites. */
  const RotatedHeaders: set<string> := {"User-Agent", "Accept-Language", "Accept-Encoding"}

  /**
   * The random draws of one request: what the user-agent generator produced (`None`
   * when it raised), and the raw picks of the fallback agent, language and encoding.
   */
  datatype Draw = Draw(generated: Option<string>, agentPick: nat, languagePick: nat, encodingPick: nat)

  /** `_get_random_user_agent`: the generator's agent, or one of the five fallback agents when it fails. */
  function UserAgent(d: Draw): (ua: string)
    ensures d.generated.Some? ==> ua == d.generated.value
    ensures d.generated.None? ==> ua in FallbackAgents
  {
    match d.generated
    case Some(g) => g
    case None => FallbackAgents[d.agentPick % |FallbackAgents|]
  }

  /** An agent assembled as prefix, platform, browser name and version. */
  lemma AgentShape(platform: string, browser: string, version: string)
    ensures StartsWith(AgentPrefix + platform + browser + version, AgentPrefix)
    ensures Contains(AgentPrefix + platform + browser + version, browser)
  {
    var ua := AgentPrefix + platform + browser + version;
    assert ua[..|AgentPrefix|] == AgentPrefix;
    ContainsAt(browser, browser, 0);
    ContainsInConcat(AgentPrefix + platform, browser, version, browser);
  }

  /** Every fallback agent is a Mozilla agent string naming Chrome or Firefox. */
  lemma FallbackAgentsLookReal(ua: string)
    requires ua in FallbackAgents
    ensures StartsWith(ua, AgentPrefix)
    ensures Contains(ua, "Chrome") || Contains(ua, "Firefox")
  {
    if ua == FallbackAgents[0] {
      AgentShape("Windows NT 10.0; Win64; x64) AppleWebKit/537.36 (KHTML, like Gecko) ", "Chrome", "/91.0.4472.124 Safari/537.36");
    } else if ua == FallbackAgents[1] {
      AgentShape("Macintosh; Intel Mac OS X 10_15_7) AppleWebKit/537.36 (KHTML, like Gecko) ", "Chrome", "/91.0.4472.124 Safari/537.36");
    } else if ua == FallbackAgents[2] {
      AgentShape("X11; Linux x86_64) AppleWebKit/537.36 (KHTML, like Gecko) ", "Chrome", "/91.0.4472.124 Safari/537.36");
    } else if ua == FallbackAgents[3] {
      AgentShape("Windows NT 10.0; Win64; x64; rv:89.0) Gecko/20100101 ", "Firefox", "/89.0");
    } else {
      AgentShape("Macintosh; Intel Mac OS X 10.15; rv:89.0) Gecko/20100101 ", "Firefox", "/89.0");
    }
  }

  /** The headers `_get_random_headers` returns for base headers `base` and draws `d`. */
  function RandomHeaders(base: Option<Headers>, d: Draw): Headers {
    var start := if base.Some? && base.value != map[] then base.value else map[];
    start["User-Agent" := UserAgent(d)]
         ["Accept-Language" := AcceptLanguages[d.languagePick % |AcceptLanguages|]]
         ["Accept-Encoding" := AcceptEncodings[d.encodingPick % |AcceptEncodings|]]
  }

  /**
   * `_get_random_headers`: copies the caller's headers (the caller's value is not
   * changed), then sets the agent, a listed language and a listed encoding. Every other
   * base header survives unchanged and no other header is added.
   */
  method GetRandomHeaders(base: Option<Headers>, d: Draw) returns (headers: Headers)
    ensures headers == RandomHeaders(base, d)
    ensures RotatedHeaders <= headers.Keys
    ensures headers["User-Agent"] == UserAgent(d)
    ensures headers["Accept-Language"] in AcceptLanguages
    ensures headers["Accept-Encoding"] in AcceptEncodings
    ensures base.Some? ==> headers.Keys == base.value.Keys + RotatedHeaders
    ensures base.None? ==> headers.Keys == RotatedHeaders
    ensures base.Some? ==> forall k :: k in base.value && k !in RotatedHeaders ==> headers[k] == base.value[k]
  {
    headers := if base.Some? && base.value != map[] then base.value else map[];
    headers := headers["User-Agent" := UserAgent(d)];
    headers := headers["Accept-Language" := AcceptLanguages[d.languagePick % |AcceptLanguages|]];
    headers := headers["Accept-Encoding" := AcceptEncodings[d.encodingPick % |AcceptEncodings|]];
  }

  // ---------------------------------------------------------------------------
  // Requests

  /** What the HTTP session gave back for a GET (after its own retries). */
  datatype HttpOutcome =
    | Answered(status: int, content: string)   // a response arrived
    | RequestFailed                            // a `requests` exception: connection, timeout, redirects
    | Crashed                                  // any other exception, which `_make_request` does not catch

  /** A usable response. */
  datatype Response = Response(status: int, content: string)

  /** The result of `_make_request`: a response, `None`, or an exception that escapes it. */
  datatype RequestResult = Got(response: Response) | NoResponse | Escaped

  /** Statuses reported as blocking: forbidden, too many requests, service unavailable. */
  predicate BlockingStatus(status: int) {
    status == 403 || status == 429 || status == 503
  }

  /** Statuses on which `raise_for_status` raises: client and server errors. */
  predicate ErrorStatus(status: int) {
    400 <= status < 600
  }

  /** Only a rate-limited answer makes `_make_request` back off before returning. */
  predicate BacksOff(o: HttpOutcome) {
    o.Answered? && o.status == 429
  }

  /** The classification `_make_request` applies to an answer. */
  function Classify(o: HttpOutcome): (r: RequestResult)
    ensures r.Got? <==> o.Answered? && !ErrorStatus(o.status)
    ensures r.Got? ==> r.response == Response(o.status, o.content) && !BlockingStatus(r.response.status)
    ensures r.Escaped? <==> o.Crashed?
    ensures o.Answered? && BlockingStatus(o.status) ==> r == NoResponse
    ensures o.RequestFailed? ==> r == NoResponse
  {
    match o
    case Answered(status, content) =>
      if status == 429 then NoResponse
      else if BlockingStatus(status) then NoResponse
      else if ErrorStatus(status) then NoResponse
      else Got(Response(status, content))
    case RequestFailed => NoResponse
    case Crashed => Escaped
  }

  /** A back-off only happens on an answer that is then dropped. */
  lemma BackOffDropsAnswer(o: HttpOutcome)
    requires BacksOff(o)
    ensures Classify(o) == NoResponse
  {
  }

  /** The HTTP session: the outcome of a GET of `url` with these headers and timeout. */
  type Session = (string, Headers, int) -> HttpOutcome

  /**
   * `_make_request`: a GET with rotated headers, classified. Returns whether it slept
   * for the rate-limit back-off (the back-off length is random and not modelled).
   */
  method MakeRequest(session: Session, url: string, headers: Option<Headers>, timeout: int, d: Draw)
    returns (r: RequestResult, backedOff: bool)
    ensures var sent := RandomHeaders(headers, d); r == Classify(session(url, sent, timeout))
    ensures backedOff <==> BacksOff(session(url, RandomHeaders(headers, d), timeout))
    ensures backedOff ==> r == NoResponse
  {
    var sent := GetRandomHeaders(headers, d);
    var outcome := session(url, sent, timeout);
    backedOff := BacksOff(outcome);
    r := Classify(outcome);
  }

  /**
   * `_make_detail_request`: sleeps first when a delay range is given, then a plain
   * request with no base headers and the default 30-second timeout.
   */
  method MakeDetailRequest(session: Session, url: string, delayRange: Option<(int, int)>, d: Draw)
    returns (r: RequestResult, delayed: bool)
    ensures delayed <==> delayRange.Some?
    ensures r == Classify(session(url, RandomHeaders(None, d), 30))
  {
    delayed := delayRange.Some?;
    var backedOff;
    r, backedOff := MakeRequest(session, url, None, 30, d);
  }

  // ---------------------------------------------------------------------------
  // Browser teardown

  /** The browser handles: the driver and its wait helper (opaque handles). */
  datatype DriverState = DriverState(driver: Option<nat>, wait: Option<nat>)

  /** The state `close_driver` leaves: both handles cleared when there was a driver, nothing touched otherwise. */
  function AfterClose(s: DriverState): (r: DriverState)
    ensures s.driver.Some? ==> r.driver.None? && r.wait.None?
    ensures s.driver.None? ==> r == s
  {
    if s.driver.Some? then DriverState(None, None) else s
  }

  /** Closing twice is closing once. */
  lemma CloseIdempotent(s: DriverState)
    ensures AfterClose(AfterClose(s)) == AfterClose(s)
  {
  }

  /** The Selenium side of a scraper, reduced to its two handles. */
  class BrowserSession {
    var driver: Option<nat>
    var wait: Option<nat>

    constructor (driver: Option<nat>, wait: Option<nat>)
      ensures this.driver == driver && this.wait == wait
    {
      this.driver := driver;
      this.wait := wait;
    }

    function State(): DriverState
      reads this
    {
      DriverState(driver, wait)
    }

    /**
     * `close_driver`: when a driver exists its `quit` is called once; whether or not
     * `quit` raises, both handles end up cleared. With no driver nothing happens.
     */
    method CloseDriver(quitRaises: bool) returns (quitCalls: nat)
      modifies this
      ensures State() == AfterClose(old(State()))
      ensures quitCalls == if old(driver).Some? then 1 else 0
    {
      quitCalls := 0;
      if driver.Some? {
        quitCalls := 1;
        // the exception of a failing `quit` is logged and swallowed
        driver := None;
        wait := None;
      }
    }
  }
}
