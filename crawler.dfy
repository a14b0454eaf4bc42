/**
 * The generic crawler of the scrapers: page URLs, one page's batch of candidate jobs
 * with the scraper's counters, and the pagination loop. Site parsing is an injected
 * adapter; the HTTP session and the random draws are inputs.
 */
module Crawler {
  import opened Wrappers
  import opened Text
  import opened JobModel
  import opened Fetch
  import opened SitesConfig

  // ---------------------------------------------------------------------------
  // `str.format` with one keyword argument

  /** `str.format` failed: an unknown field, a lone `}` or an unclosed `{`. */
  datatype FormatError = FormatError

  function Cons(prefix: string, r: Result<string, FormatError>): Result<string, FormatError> {
    match r
    case Ok(s) => Ok(prefix + s)
    case Err(e) => Err(e)
  }

  /**
   * `template.format(name=value)`: `{name}` becomes `value`, `{{` and `}}` become single
   * braces, and any other replacement field (including one with a conversion or a
   * format spec) or an unmatched brace is an error.
   */
  function Format(t: string, name: string, value: string): Result<string, FormatError>
    decreases |t|
  {
    if t == [] then Ok([])
    else if t[0] == '{' then
      if |t| >= 2 && t[1] == '{' then Cons("{", Format(t[2..], name, value))
      else if '}' in t[1..] then
        var k := IndexOf(t[1..], '}');
        if t[1..1 + k] == name then Cons(value, Format(t[k + 2..], name, value)) else Err(FormatError)
      else Err(FormatError)
    else if t[0] == '}' then
      if |t| >= 2 && t[1] == '}' then Cons("}", Format(t[2..], name, value)) else Err(FormatError)
    else Cons([t[0]], Format(t[1..], name, value))
  }

  predicate BraceFree(s: string) {
    '{' !in s && '}' !in s
  }

  lemma ConsCons(p: string, q: string, r: Result<string, FormatError>)
    ensures Cons(p, Cons(q, r)) == Cons(p + q, r)
  {
    match r
    case Ok(s) => assert p + (q + s) == (p + q) + s;
    case Err(_) =>
  }

  /** Brace-free text passes through `format` unchanged, in front of anything. */
  lemma {:induction false} FormatBraceFreePrefix(a: string, rest: string, name: string, value: string)
    requires BraceFree(a)
    ensures Format(a + rest, name, value) == Cons(a, Format(rest, name, value))
    decreases |a|
  {
    if a != [] {
      var t := a + rest;
      assert a[0] in a;
      assert t[0] == a[0] && t[1..] == a[1..] + rest;
      assert Format(t, name, value) == Cons([a[0]], Format(a[1..] + rest, name, value));
      FormatBraceFreePrefix(a[1..], rest, name, value);
      ConsCons([a[0]], a[1..], Format(rest, name, value));
      assert [a[0]] + a[1..] == a;
    } else {
      assert a + rest == rest;
      match Format(rest, name, value)
      case Ok(s) => assert "" + s == s;
      case Err(_) =>
    }
  }

  /** A `{name}` field is replaced by the value. */
  lemma FormatField(rest: string, name: string, value: string)
    requires BraceFree(name)
    ensures Format("{" + name + "}" + rest, name, value) == Cons(value, Format(rest, name, value))
  {
    var t := "{" + name + "}" + rest;
    assert t[1..] == name + ['}'] + rest;
    IndexOfAfter(name, '}', rest);
    assert t[1..1 + |name|] == name;
    assert t[|name| + 2..] == rest;
  }

  /** Substituting into the pieces around `{name}` fields: `format` joins them with the value. */
  lemma {:induction false} FormatJoin(pieces: seq<string>, name: string, value: string)
    requires BraceFree(name)
    requires forall i :: 0 <= i < |pieces| ==> BraceFree(pieces[i])
    ensures Format(Join(pieces, "{" + name + "}"), name, value) == Ok(Join(pieces, value))
  {
    var field := "{" + name + "}";
    if pieces == [] {
    } else if |pieces| == 1 {
      FormatBraceFreePrefix(pieces[0], "", name, value);
      assert pieces[0] + "" == pieces[0];
    } else {
      var rest := Join(pieces[1..], field);
      FormatJoin(pieces[1..], name, value);
      assert Join(pieces, field) == pieces[0] + (field + rest);
      FormatBraceFreePrefix(pieces[0], field + rest, name, value);
      FormatField(rest, name, value);
      assert Join(pieces, value) == pieces[0] + (value + Join(pieces[1..], value));
    }
  }

  // ---------------------------------------------------------------------------
  // Page URLs

  /**
   * `get_page_url`: a `{page}` template is formatted with the page number, else a
   * `{start}` template with the offset `(page - 1) * 10`, else the pagination
   * parameter is appended as a query parameter. A failing `format` raises.
   */
  function GetPageUrl(template: string, param: string, page: int): Result<string, FormatError> {
    if Contains(template, "{page}") then Format(template, "page", IntToString(page))
    else if Contains(template, "{start}") then Format(template, "start", IntToString((page - 1) * 10))
    else
      var separator := if '?' in template then "&" else "?";
      Ok(template + separator + param + "=" + IntToString(page))
  }

  /** Two or more pieces joined by a separator contain it. */
  lemma JoinContainsSeparator(pieces: seq<string>, sep: string)
    requires |pieces| >= 2
    ensures Contains(Join(pieces, sep), sep)
  {
    assert Join(pieces, sep) == pieces[0] + sep + Join(pieces[1..], sep);
    ContainsAt(sep, sep, 0);
    ContainsInConcat(pieces[0], sep, Join(pieces[1..], sep), sep);
  }

  lemma PageBranch(t: string, param: string, page: int)
    requires Contains(t, "{page}")
    ensures GetPageUrl(t, param, page) == Format(t, "page", IntToString(page))
  {
  }

  lemma StartBranch(t: string, param: string, page: int)
    requires !Contains(t, "{page}") && Contains(t, "{start}")
    ensures GetPageUrl(t, param, page) == Format(t, "start", IntToString((page - 1) * 10))
  {
  }

  /** The two field names are brace-free and their fields are the names in braces. */
  lemma FieldNames()
    ensures BraceFree("page") && "{page}" == "{" + "page" + "}"
    ensures BraceFree("start") && "{start}" == "{" + "start" + "}"
  {
  }

  /** `FormatJoin` for a field written out. */
  lemma FormatJoinField(pieces: seq<string>, name: string, field: string, value: string)
    requires BraceFree(name) && field == "{" + name + "}"
    requires forall i :: 0 <= i < |pieces| ==> BraceFree(pieces[i])
    ensures Format(Join(pieces, field), name, value) == Ok(Join(pieces, value))
  {
    FormatJoin(pieces, name, value);
  }

  /** Pieces around at least one `{page}`: the page number is substituted for every field. */
  lemma PageTemplate(pieces: seq<string>, param: string, page: int)
    requires |pieces| >= 2
    requires forall i :: 0 <= i < |pieces| ==> BraceFree(pieces[i])
    ensures GetPageUrl(Join(pieces, "{page}"), param, page) == Ok(Join(pieces, IntToString(page)))
  {
    JoinContainsSeparator(pieces, "{page}");
    PageBranch(Join(pieces, "{page}"), param, page);
    FieldNames();
    FormatJoinField(pieces, "page", "{page}", IntToString(page));
  }

  /** Pieces around `{start}` fields and no `{page}`: the offset of the page is substituted. */
  lemma StartTemplate(pieces: seq<string>, param: string, page: int)
    requires |pieces| >= 2
    requires forall i :: 0 <= i < |pieces| ==> BraceFree(pieces[i])
    requires !Contains(Join(pieces, "{start}"), "{page}")
    ensures GetPageUrl(Join(pieces, "{start}"), param, page) == Ok(Join(pieces, IntToString((page - 1) * 10)))
  {
    JoinContainsSeparator(pieces, "{start}");
    StartBranch(Join(pieces, "{start}"), param, page);
    FieldNames();
    FormatJoinField(pieces, "start", "{start}", IntToString((page - 1) * 10));
  }

  /**
   * Without either placeholder the template is a prefix of the URL, followed by `&` when
   * the template already has a query and `?` otherwise, and the page number can be read
   * back from the end of the URL.
   */
  lemma AppendedPageParameter(template: string, param: string, page: int)
    requires !Contains(template, "{page}") && !Contains(template, "{start}")
    ensures GetPageUrl(template, param, page).Ok?
    ensures var url := GetPageUrl(template, param, page).value;
      StartsWith(url, template) &&
      url[|template|] == (if '?' in template then '&' else '?') &&
      url[|template| + 1..] == param + "=" + IntToString(page) &&
      ParseInt(url[|template| + 2 + |param|..]) == page
  {
    var separator := if '?' in template then "&" else "?";
    var digits := IntToString(page);
    var query := param + "=" + digits;
    AppendBranch(template, param, page);
    var url := template + separator + query;
    assert url == template + separator + param + "=" + digits;
    assert url[..|template|] == template;
    assert url[|template|] == separator[0];
    assert url[|template| + 1..] == query;
    assert query[|param| + 1..] == digits;
    assert url[|template| + 2 + |param|..] == digits;
    IntToStringRoundTrip(page);
  }

  lemma AppendBranch(t: string, param: string, page: int)
    requires !Contains(t, "{page}") && !Contains(t, "{start}")
    ensures GetPageUrl(t, param, page) == Ok(t + (if '?' in t then "&" else "?") + (param + "=" + IntToString(page)))
  {
    var separator := if '?' in t then "&" else "?";
    assert t + separator + param + "=" + IntToString(page) == t + separator + (param + "=" + IntToString(page));
  }

  // ---------------------------------------------------------------------------
  // One page

  /** What the site's element finder gives for a page body. */
  datatype ElementsOutcome<E> = Elements(items: seq<E>) | ElementsRaised

  /** What `parse_job_listing` gives for one element. */
  datatype Parsed = Listing(data: Candidate) | NoListing | ParseRaised

  /**
   * The site-specific part of a scraper: its element finder, its listing parser and its
   * detail-page support (`extract_job_details`, `None` when a detail page yields nothing).
   */
  datatype Adapter<!E> = Adapter(
    elements: string -> ElementsOutcome<E>,
    parse: (E, string) -> Parsed,
    supportsDetails: bool,
    details: Val -> Option<map<string, string>>)

  /** Everything a crawl depends on: the configuration, the session, the random draws per page and the adapter. */
  datatype Env<!E> = Env(
    name: string,
    searchUrl: string,
    param: string,
    timeout: int,
    headers: Option<Headers>,
    start: int,
    maxPages: int,
    session: Session,
    draws: int -> Draw,
    adapter: Adapter<E>)

  /**
   * A parsed listing made into a candidate: tagged with the lower-cased site name and
   * the page URL, and given the detail-page data when the site supports details, the
   * listing has a `job_url` and the details are non-empty.
   */
  function Enrich<E>(env: Env<E>, data: Candidate, url: string): (job: Candidate)
    ensures "job_website" in job && job["job_website"] == Str(Lower(env.name))
    ensures "scraped_from_url" in job && job["scraped_from_url"] == Str(url)
    ensures forall k :: k in data && k !in {"job_website", "scraped_from_url", "additional_data"} ==>
      k in job && job[k] == data[k]
    ensures job.Keys <= data.Keys + {"job_website", "scraped_from_url", "additional_data"}
    ensures var basic := data["job_website" := Str(Lower(env.name))]["scraped_from_url" := Str(url)];
      !(env.adapter.supportsDetails && "job_url" in basic && env.adapter.details(basic["job_url"]).Some?) ==>
        job == basic
    ensures var basic := data["job_website" := Str(Lower(env.name))]["scraped_from_url" := Str(url)];
      env.adapter.supportsDetails && "job_url" in basic && env.adapter.details(basic["job_url"]).Some? ==>
        var d := env.adapter.details(basic["job_url"]).value;
        job == if d != map[] then basic["additional_data" := Details(d)] else basic
  {
    var basic := data["job_website" := Str(Lower(env.name))]["scraped_from_url" := Str(url)];
    if env.adapter.supportsDetails && "job_url" in basic then
      match env.adapter.details(basic["job_url"])
      case Some(details) => if details != map[] then basic["additional_data" := Details(details)] else basic
      case None => basic
    else basic
  }

  /** The candidates of one element: none when it raises, yields nothing or yields an empty dict. */
  function Admit<E>(env: Env<E>, item: E, url: string): seq<Candidate> {
    match env.adapter.parse(item, url)
    case Listing(data) => if data == map[] then [] else [Enrich(env, data, url)]
    case _ => []
  }

  /** The batch assembled from a page's elements, in element order. */
  function Assemble<E>(env: Env<E>, items: seq<E>, url: string): (jobs: seq<Candidate>)
    ensures |jobs| <= |items|
    ensures forall i :: 0 <= i < |jobs| ==>
      "job_website" in jobs[i] && jobs[i]["job_website"] == Str(Lower(env.name)) &&
      "scraped_from_url" in jobs[i] && jobs[i]["scraped_from_url"] == Str(url)
  {
    if items == [] then []
    else Assemble(env, items[..|items| - 1], url) + Admit(env, items[|items| - 1], url)
  }

  /** How one call of `scrape_page` ends. */
  datatype PageOutcome =
    | PageRaised                     // an exception escapes: a bad template or an uncaught request error
    | PageFailed                     // no response, or the element finder raised: `[]`, one more error
    | PageDone(jobs: seq<Candidate>) // the batch; one more page scraped

  function PageSpec<E>(env: Env<E>, page: int): PageOutcome {
    match GetPageUrl(env.searchUrl, env.param, page)
    case Err(_) => PageRaised
    case Ok(url) =>
      match Classify(env.session(url, RandomHeaders(env.headers, env.draws(page)), env.timeout))
      case Escaped => PageRaised
      case NoResponse => PageFailed
      case Got(response) =>
        match env.adapter.elements(response.content)
        case ElementsRaised => PageFailed
        case Elements(items) => PageDone(Assemble(env, items, url))
  }

  /** The scraper's counters (`rate_limited` is never incremented by any scraper operation). */
  datatype Stats = Stats(pagesScraped: nat, jobsFound: nat, errors: nat, rateLimited: nat)

  /** The counters after a page that did not raise. */
  function AfterPage(st: Stats, o: PageOutcome): Stats {
    match o
    case PageRaised => st
    case PageFailed => st.(errors := st.errors + 1)
    case PageDone(jobs) => st.(pagesScraped := st.pagesScraped + 1, jobsFound := st.jobsFound + |jobs|)
  }

  // ---------------------------------------------------------------------------
  // The pagination loop

  datatype CrawlResult = CrawlResult(batches: seq<seq<Candidate>>, pages: seq<int>, stats: Stats)

  function Glue(batches: seq<seq<Candidate>>, pages: seq<int>, rest: CrawlResult): CrawlResult {
    CrawlResult(batches + rest.batches, pages + rest.pages, rest.stats)
  }

  /** The outcome of `scrape_page` for each page number of one crawl. */
  type Outcomes = int -> PageOutcome

  function PageOutcomes<E>(env: Env<E>): Outcomes {
    (p: int) => PageSpec(env, p)
  }

  /**
   * `scrape_all_pages` from page `page` with counters `st`, given each page's outcome:
   * the batches yielded, the pages they came from and the final counters. A raised page
   * counts an error and moves on, unless the cumulative errors now exceed 5; a page
   * that yields no jobs ends the crawl.
   */
  function Crawl(outcome: Outcomes, maxPages: int, page: int, st: Stats): CrawlResult
    decreases if page <= maxPages then maxPages - page + 1 else 0
  {
    if page > maxPages then CrawlResult([], [], st)
    else
      var o := outcome(page);
      if o.PageRaised? then
        var next := st.(errors := st.errors + 1);
        if next.errors > 5 then CrawlResult([], [], next) else Crawl(outcome, maxPages, page + 1, next)
      else
        var next := AfterPage(st, o);
        if !o.PageDone? || o.jobs == [] then CrawlResult([], [], next)
        else
          var rest := Crawl(outcome, maxPages, page + 1, next);
          CrawlResult([o.jobs] + rest.batches, [page] + rest.pages, rest.stats)
  }

  function TotalJobs(batches: seq<seq<Candidate>>): nat {
    if batches == [] then 0 else |batches[0]| + TotalJobs(batches[1..])
  }

  /**
   * The crawl visits pages in increasing order from its first page up to `max_pages`,
   * yields only non-empty batches, each the batch of its page, and so at most
   * `max_pages - first + 1` of them.
   */
  lemma {:induction false} CrawlShape(outcome: Outcomes, maxPages: int, page: int, st: Stats)
    ensures var c := Crawl(outcome, maxPages, page, st);
      |c.pages| == |c.batches| &&
      (forall i :: 0 <= i < |c.pages| ==> page <= c.pages[i] <= maxPages) &&
      (forall i, k :: 0 <= i < k < |c.pages| ==> c.pages[i] < c.pages[k]) &&
      (forall i :: 0 <= i < |c.batches| ==> c.batches[i] != [] && outcome(c.pages[i]) == PageDone(c.batches[i])) &&
      |c.batches| <= if page <= maxPages then maxPages - page + 1 else 0
    decreases if page <= maxPages then maxPages - page + 1 else 0
  {
    if page <= maxPages {
      var o := outcome(page);
      if o.PageRaised? {
        var next := st.(errors := st.errors + 1);
        if next.errors <= 5 {
          CrawlShape(outcome, maxPages, page + 1, next);
        }
      } else if o.PageDone? && o.jobs != [] {
        var next := AfterPage(st, o);
        CrawlShape(outcome, maxPages, page + 1, next);
        var rest := Crawl(outcome, maxPages, page + 1, next);
        PagesCons(outcome, maxPages, page, o.jobs, rest.pages, rest.batches);
      }
    }
  }

  /** Putting a page with its non-empty batch before a later crawl keeps the shape `CrawlShape` states. */
  lemma PagesCons(outcome: Outcomes, maxPages: int, page: int, jobs: seq<Candidate>,
                  pages: seq<int>, batches: seq<seq<Candidate>>)
    requires page <= maxPages && jobs != [] && outcome(page) == PageDone(jobs)
    requires |pages| == |batches|
    requires forall i :: 0 <= i < |pages| ==> page + 1 <= pages[i] <= maxPages
    requires forall i, k :: 0 <= i < k < |pages| ==> pages[i] < pages[k]
    requires forall i :: 0 <= i < |batches| ==> batches[i] != [] && outcome(pages[i]) == PageDone(batches[i])
    requires |batches| <= if page + 1 <= maxPages then maxPages - page else 0
    ensures var ps, bs := [page] + pages, [jobs] + batches;
      |ps| == |bs| &&
      (forall i :: 0 <= i < |ps| ==> page <= ps[i] <= maxPages) &&
      (forall i, k :: 0 <= i < k < |ps| ==> ps[i] < ps[k]) &&
      (forall i :: 0 <= i < |bs| ==> bs[i] != [] && outcome(ps[i]) == PageDone(bs[i])) &&
      |bs| <= maxPages - page + 1
  {
    var ps, bs := [page] + pages, [jobs] + batches;
    forall i | 0 < i < |ps| ensures ps[i] == pages[i - 1] && bs[i] == batches[i - 1] {}
  }

  /** A page that ends the crawl: no response, or a page without jobs. */
  predicate EndsCrawl(o: PageOutcome) {
    o.PageFailed? || o == PageDone([])
  }

  predicate PagesBelow(pages: seq<int>, q: int) {
    forall i :: 0 <= i < |pages| ==> pages[i] < q
  }

  /** The crawl stops at the first failed or empty page: no page from there on is yielded. */
  lemma {:induction false} StopsAtFirstEmpty(outcome: Outcomes, maxPages: int, page: int, st: Stats, q: int)
    requires page <= q && EndsCrawl(outcome(q))
    ensures PagesBelow(Crawl(outcome, maxPages, page, st).pages, q)
    decreases if page <= maxPages then maxPages - page + 1 else 0
  {
    if page <= maxPages && page < q {
      var o := outcome(page);
      if o.PageRaised? {
        var next := st.(errors := st.errors + 1);
        if next.errors <= 5 {
          StopsAtFirstEmpty(outcome, maxPages, page + 1, next, q);
          var rest := Crawl(outcome, maxPages, page + 1, next);
          var c := Crawl(outcome, maxPages, page, st);
          assert c == rest;
          forall i | 0 <= i < |c.pages| ensures c.pages[i] < q {
            assert c.pages[i] == rest.pages[i];
          }
        } else {
          assert Crawl(outcome, maxPages, page, st).pages == [];
        }
      } else if o.PageDone? && o.jobs != [] {
        var next := AfterPage(st, o);
        StopsAtFirstEmpty(outcome, maxPages, page + 1, next, q);
        var rest := Crawl(outcome, maxPages, page + 1, next);
        var c := Crawl(outcome, maxPages, page, st);
        assert c.pages == [page] + rest.pages;
        forall i | 0 < i < |c.pages| ensures c.pages[i] == rest.pages[i - 1] {}
      } else {
        assert Crawl(outcome, maxPages, page, st).pages == [];
      }
    } else if page <= maxPages {
      assert Crawl(outcome, maxPages, page, st).pages == [];
    }
  }

  /**
   * Full pages from the first up to page `q`, then a failed or empty page (or the
   * end of `max_pages`): the crawl yields exactly one batch per full page, page by
   * page. So three full pages give three batches, and an empty second page one.
   */
  lemma {:induction false} CrawlUntilEmpty(outcome: Outcomes, maxPages: int, page: int, st: Stats, q: int)
    requires page <= q <= maxPages + 1
    requires forall p :: page <= p < q ==> outcome(p).PageDone? && outcome(p).jobs != []
    requires q <= maxPages ==> EndsCrawl(outcome(q))
    ensures var c := Crawl(outcome, maxPages, page, st);
      |c.batches| == q - page && |c.pages| == q - page &&
      (forall i :: 0 <= i < |c.pages| ==> c.pages[i] == page + i && c.batches[i] == outcome(page + i).jobs)
    decreases q - page
  {
    if page < q {
      var o := outcome(page);
      var next := AfterPage(st, o);
      CrawlUntilEmpty(outcome, maxPages, page + 1, next, q);
      var rest := Crawl(outcome, maxPages, page + 1, next);
      var c := Crawl(outcome, maxPages, page, st);
      assert c.pages == [page] + rest.pages && c.batches == [o.jobs] + rest.batches;
      forall i | 0 < i < |c.pages| ensures c.pages[i] == page + i && c.batches[i] == outcome(page + i).jobs {
        assert c.pages[i] == rest.pages[i - 1] && c.batches[i] == rest.batches[i - 1];
      }
    }
  }

  /** Every page up to `max_pages` full: one batch per page. */
  lemma AllFullYieldsAll(outcome: Outcomes, maxPages: int, page: int, st: Stats)
    requires page <= maxPages + 1
    requires forall p :: page <= p <= maxPages ==> outcome(p).PageDone? && outcome(p).jobs != []
    ensures |Crawl(outcome, maxPages, page, st).batches| == maxPages - page + 1
  {
    CrawlUntilEmpty(outcome, maxPages, page, st, maxPages + 1);
  }

  /**
   * The counters over a crawl: errors never go down, `rate_limited` never changes,
   * `jobs_found` grows by exactly the number of jobs yielded, and every yielded batch
   * was a scraped page.
   */
  lemma {:induction false} CrawlCounters(outcome: Outcomes, maxPages: int, page: int, st: Stats)
    ensures var c := Crawl(outcome, maxPages, page, st);
      c.stats.errors >= st.errors && c.stats.rateLimited == st.rateLimited &&
      c.stats.jobsFound == st.jobsFound + TotalJobs(c.batches) &&
      c.stats.pagesScraped >= st.pagesScraped + |c.batches|
    decreases if page <= maxPages then maxPages - page + 1 else 0
  {
    if page <= maxPages {
      var o := outcome(page);
      if o.PageRaised? {
        var next := st.(errors := st.errors + 1);
        if next.errors <= 5 {
          CrawlCounters(outcome, maxPages, page + 1, next);
        }
      } else if o.PageDone? && o.jobs != [] {
        var next := AfterPage(st, o);
        CrawlCounters(outcome, maxPages, page + 1, next);
        var rest := Crawl(outcome, maxPages, page + 1, next);
        assert ([o.jobs] + rest.batches)[1..] == rest.batches;
      }
    }
  }

  /** A raised page when five errors are already counted ends the crawl. */
  lemma CrawlStopsOnSixthError(outcome: Outcomes, maxPages: int, page: int, st: Stats)
    requires page <= maxPages && outcome(page).PageRaised? && st.errors >= 5
    ensures Crawl(outcome, maxPages, page, st) == CrawlResult([], [], st.(errors := st.errors + 1))
  {
  }

  /** A raised page within the error budget hands the crawl on to the next page. */
  lemma GlueRaised(batches: seq<seq<Candidate>>, pages: seq<int>, outcome: Outcomes, maxPages: int, page: int, st: Stats)
    requires page <= maxPages && outcome(page).PageRaised? && st.errors + 1 <= 5
    ensures Glue(batches, pages, Crawl(outcome, maxPages, page, st)) ==
      Glue(batches, pages, Crawl(outcome, maxPages, page + 1, st.(errors := st.errors + 1)))
  {
  }

  /** A page with jobs contributes its batch and its number, then the crawl goes on. */
  lemma GlueDone(batches: seq<seq<Candidate>>, pages: seq<int>, outcome: Outcomes, maxPages: int, page: int, st: Stats)
    requires page <= maxPages && outcome(page).PageDone? && outcome(page).jobs != []
    ensures Glue(batches, pages, Crawl(outcome, maxPages, page, st)) ==
      Glue(batches + [outcome(page).jobs], pages + [page], Crawl(outcome, maxPages, page + 1, AfterPage(st, outcome(page))))
  {
    var rest := Crawl(outcome, maxPages, page + 1, AfterPage(st, outcome(page)));
    assert batches + ([outcome(page).jobs] + rest.batches) == (batches + [outcome(page).jobs]) + rest.batches;
    assert pages + ([page] + rest.pages) == (pages + [page]) + rest.pages;
  }

  /** Marks a page at which `OutcomesOf` is used; it holds of every page. */
  predicate Visited(page: int) {
    true
  }

  /**
   * `outcome` is what `scrape_page` does on each page for `env`. The quantifier is used only
   * where a `Visited` names the page, so that a page's fetch is unfolded only there.
   */
  ghost predicate OutcomesOf<E>(outcome: Outcomes, env: Env<E>) {
    forall p {:trigger Visited(p)} :: Visited(p) ==> outcome(p) == PageSpec(env, p)
  }

  /** `PageOutcomes` gives each page's outcome. */
  lemma PageOutcomesOf<E>(env: Env<E>)
    ensures OutcomesOf(PageOutcomes(env), env)
  {
  }

  /** A crawl that is over adds nothing to what was gathered. */
  lemma GlueEnd(batches: seq<seq<Candidate>>, pages: seq<int>, st: Stats)
    ensures Glue(batches, pages, CrawlResult([], [], st)) == CrawlResult(batches, pages, st)
  {
    assert batches + [] == batches && pages + [] == pages;
  }

  // ---------------------------------------------------------------------------
  // The scraper object

  /** A scraper: its site configuration, session, random draws, site adapter and counters. */
  class Scraper<E> {
    const config: SiteConfig
    const session: Session
    const draws: int -> Draw
    const adapter: Adapter<E>
    var pagesScraped: nat
    var jobsFound: nat
    var errors: nat

    constructor (config: SiteConfig, session: Session, draws: int -> Draw, adapter: Adapter<E>)
      ensures this.config == config && this.session == session && this.draws == draws && this.adapter == adapter
      ensures pagesScraped == 0 && jobsFound == 0 && errors == 0
    {
      this.config := config;
      this.session := session;
      this.draws := draws;
      this.adapter := adapter;
      pagesScraped := 0;
      jobsFound := 0;
      errors := 0;
    }

    /** `get_stats`: a copy of the counters; `rate_limited` is always 0. */
    function GetStats(): (s: Stats)
      reads this
      ensures s.rateLimited == 0
      ensures s.pagesScraped == pagesScraped && s.jobsFound == jobsFound && s.errors == errors
    {
      Stats(pagesScraped, jobsFound, errors, 0)
    }

    /** What a crawl of this scraper depends on. */
    function Snapshot(): Env<E>
      reads config
    {
      Env(config.name, config.searchUrl, config.paginationParam, config.timeout, config.headers,
          config.paginationStart, config.maxPages, session, draws, adapter)
    }

    /**
     * `scrape_page`: on a failed fetch or a raising element finder, one more error and no
     * jobs; otherwise the assembled batch, one more page and `|batch|` more jobs found.
     * When an exception escapes, `raised` is set and no counter has changed.
     */
    method ScrapePage(page: int) returns (jobs: seq<Candidate>, raised: bool)
      modifies this
      ensures raised <==> PageSpec(Snapshot(), page).PageRaised?
      ensures raised ==> jobs == [] && GetStats() == old(GetStats())
      ensures !raised ==> GetStats() == AfterPage(old(GetStats()), PageSpec(Snapshot(), page))
      ensures jobs == if PageSpec(Snapshot(), page).PageDone? then PageSpec(Snapshot(), page).jobs else []
    {
      var located := GetPageUrl(config.searchUrl, config.paginationParam, page);
      if located.Err? {
        return [], true;
      }
      var url := located.value;
      var response, backedOff := MakeRequest(session, url, config.headers, config.timeout, draws(page));
      if response.Escaped? {
        return [], true;
      }
      raised := false;
      if response.NoResponse? {
        errors := errors + 1;
        return [], false;
      }
      var found := adapter.elements(response.response.content);
      if found.ElementsRaised? {
        errors := errors + 1;
        return [], false;
      }
      jobs := CollectJobs(found.items, url);
      pagesScraped := pagesScraped + 1;
      jobsFound := jobsFound + |jobs|;
    }

    /** The element loop of `scrape_page`: the batch assembled from the page's elements. */
    method CollectJobs(items: seq<E>, url: string) returns (jobs: seq<Candidate>)
      ensures jobs == Assemble(Snapshot(), items, url)
    {
      jobs := [];
      var i := 0;
      while i < |items|
        invariant 0 <= i <= |items|
        invariant jobs == Assemble(Snapshot(), items[..i], url)
      {
        var parsed := adapter.parse(items[i], url);
        if parsed.Listing? && parsed.data != map[] {
          var jobData := parsed.data;
          jobData := jobData["job_website" := Str(Lower(config.name))];
          jobData := jobData["scraped_from_url" := Str(url)];
          if adapter.supportsDetails && "job_url" in jobData {
            var details := adapter.details(jobData["job_url"]);
            if details.Some? && details.value != map[] {
              jobData := jobData["additional_data" := Details(details.value)];
            }
          }
          jobs := jobs + [jobData];
        }
        assert items[..i + 1][..i] == items[..i];
        i := i + 1;
      }
      assert items[..i] == items;
    }

    /** `scrape_all_pages`: the batches of the crawl from `pagination_start`, in order, and its counters. */
    method ScrapeAllPages() returns (batches: seq<seq<Candidate>>)
      modifies this
      ensures var c := Crawl(PageOutcomes(Snapshot()), config.maxPages, config.paginationStart, old(GetStats()));
        batches == c.batches && GetStats() == c.stats
    {
      PageOutcomesOf(Snapshot());
      batches := CrawlPages(PageOutcomes(Snapshot()));
    }

    /**
     * The loop of `scrape_all_pages`, given each page's outcome: the batches and counters
     * are those of `Crawl` from `pagination_start`.
     */
    method CrawlPages(ghost outcome: Outcomes) returns (batches: seq<seq<Candidate>>)
      requires OutcomesOf(outcome, Snapshot())
      modifies this
      ensures var c := Crawl(outcome, config.maxPages, config.paginationStart, old(GetStats()));
        batches == c.batches && GetStats() == c.stats
    {
      var env := Snapshot();
      var page := config.paginationStart;
      batches := [];
      ghost var pages: seq<int> := [];
      ghost var start := old(GetStats());
      while page <= config.maxPages
        invariant env == Snapshot()
        invariant Crawl(outcome, config.maxPages, config.paginationStart, start) ==
          Glue(batches, pages, Crawl(outcome, config.maxPages, page, GetStats()))
        decreases config.maxPages - page
      {
        ghost var before := GetStats();
        var jobs, raised := ScrapePage(page);
        assert Visited(page);
        ghost var o := outcome(page);
        assert o == PageSpec(env, page);
        if raised {
          errors := errors + 1;
          if errors > 5 {
            GlueEnd(batches, pages, GetStats());
            return;
          }
          GlueRaised(batches, pages, outcome, config.maxPages, page, before);
          page := page + 1;
        } else {
          if jobs == [] {
            GlueEnd(batches, pages, GetStats());
            return;
          }
          GlueDone(batches, pages, outcome, config.maxPages, page, before);
          batches := batches + [jobs];
          pages := pages + [page];
          page := page + 1;
        }
      }
      GlueEnd(batches, pages, GetStats());
    }
  }
}
