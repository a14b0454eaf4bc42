/**
 * The hirebase.org scraper's string helpers and listing assembly. An HTML element
 * is reduced to the texts and attributes the helpers read from it; the CSS
 * selection, `get_text` and the regular-expression location and salary finders
 * are inputs.
 */
module Hirebase {
  import opened Wrappers
  import opened Text
  import opened JobModel
  import Crawler
  import Urls

  /** `hashlib.md5(...).hexdigest()` as an uninterpreted function of the text. */
  type Md5 = string -> string

  /**
   * A listing element as the helpers see it: its text three ways (`get_text(strip=True)`,
   * `get_text()`, `get_text(separator=' ', strip=True)`), the stripped text of the first
   * match of each title and company selector (`""` when nothing matches), the stripped
   * texts of its `strong`/`b` and `a` elements, the location and salary the pattern
   * finders report, and the `href` values of its links, in document order.
   */
  datatype ListingElement = ListingElement(
    strippedText: string,
    rawText: string,
    spacedText: string,
    titleTexts: seq<string>,
    strongTexts: seq<string>,
    linkTexts: seq<string>,
    companyTexts: seq<string>,
    location: Option<string>,
    salary: Option<string>,
    hrefs: seq<string>)

  // ---------------------------------------------------------------------------
  // First match

  /** The index of the first element satisfying `p`, or `|xs|` when there is none. */
  function FirstIndexWhere<T>(xs: seq<T>, p: T -> bool): (k: nat)
    ensures k <= |xs|
    ensures k < |xs| ==> p(xs[k])
    ensures forall j :: 0 <= j < k ==> !p(xs[j])
  {
    if xs == [] then 0
    else if p(xs[0]) then 0
    else 1 + FirstIndexWhere(xs[1..], p)
  }

  /** The first element satisfying `p`, if any. */
  function FirstWhere<T>(xs: seq<T>, p: T -> bool): (r: Option<T>)
    ensures r.None? <==> forall i :: 0 <= i < |xs| ==> !p(xs[i])
    ensures r.Some? ==>
      exists k :: 0 <= k < |xs| && xs[k] == r.value && p(r.value) && forall j :: 0 <= j < k ==> !p(xs[j])
  {
    var k := FirstIndexWhere(xs, p);
    if k < |xs| then Some(xs[k]) else None
  }

  /** `xs[a:b]` for `0 <= a <= b`. */
  function Slice<T>(xs: seq<T>, a: nat, b: nat): (r: seq<T>)
    requires a <= b
    ensures |r| <= b - a
    ensures forall i :: 0 <= i < |r| ==> a + i < |xs| && r[i] == xs[a + i]
  {
    if |xs| <= a then [] else if |xs| <= b then xs[a..] else xs[a..b]
  }

  // ---------------------------------------------------------------------------
  // Titles

  const JobKeywords: seq<string> := [
    "engineer", "scientist", "developer", "analyst", "manager", "director",
    "specialist", "consultant", "architect", "lead", "senior", "junior",
    "data", "machine learning", "ai", "artificial intelligence", "ml",
    "software", "backend", "frontend", "fullstack", "devops", "cloud"]

  /** `any(k in text for k in keywords)`. */
  function AnyContains(text: string, keywords: seq<string>): (r: bool)
    ensures r <==> exists i :: 0 <= i < |keywords| && Contains(text, keywords[i])
  {
    if keywords == [] then false
    else Contains(text, keywords[0]) || AnyContains(text, keywords[1..])
  }

  /**
   * `_looks_like_job_title`: false for text shorter than 5 or longer than 100
   * characters, otherwise true exactly when the lower-cased text contains a keyword.
   */
  function LooksLikeJobTitle(text: string): (r: bool)
    ensures r <==> 5 <= |text| <= 100 && exists i :: 0 <= i < |JobKeywords| && Contains(Lower(text), JobKeywords[i])
  {
    if text == [] || |text| < 5 || |text| > 100 then false
    else AnyContains(Lower(text), JobKeywords)
  }

  /** A title-like text is never empty and never longer than 100 characters. */
  lemma TitleLength(text: string)
    requires LooksLikeJobTitle(text)
    ensures text != [] && |text| <= 100
  {
  }

  /**
   * `_extract_job_title`: the first non-empty title-selector text; else the first
   * title-like bold text; else the first title-like link text; else the first title-like
   * line among the first five non-blank stripped lines of the element text.
   */
  function ExtractJobTitle(e: ListingElement): (r: Option<string>)
    ensures r.Some? ==> r.value != []
    ensures r.Some? && r.value !in e.titleTexts ==> LooksLikeJobTitle(r.value)
    ensures (exists i :: 0 <= i < |e.titleTexts| && e.titleTexts[i] != []) ==> r.Some? && r.value in e.titleTexts
    ensures r.None? ==> forall i :: 0 <= i < |e.strongTexts| ==> !LooksLikeJobTitle(e.strongTexts[i])
    ensures r.None? ==> forall i :: 0 <= i < |e.linkTexts| ==> !LooksLikeJobTitle(e.linkTexts[i])
  {
    var nonEmpty := (t: string) => t != [];
    var titleLike := (t: string) => t != [] && LooksLikeJobTitle(t);
    match FirstWhere(e.titleTexts, nonEmpty)
    case Some(t) => Some(t)
    case None =>
      match FirstWhere(e.strongTexts, titleLike)
      case Some(t) => Some(t)
      case None =>
        match FirstWhere(e.linkTexts, titleLike)
        case Some(t) => Some(t)
        case None => FirstWhere(Slice(StrippedLines(e.rawText), 0, 5), LooksLikeJobTitle)
  }

  /** The first non-empty title-selector text is the title. */
  lemma TitleFromSelector(e: ListingElement, k: nat)
    requires k < |e.titleTexts| && e.titleTexts[k] != []
    requires forall j :: 0 <= j < k ==> e.titleTexts[j] == []
    ensures ExtractJobTitle(e) == Some(e.titleTexts[k])
  {
  }

  /** With no title-selector text, the first title-like bold text is the title. */
  lemma TitleFromBold(e: ListingElement, k: nat)
    requires forall j :: 0 <= j < |e.titleTexts| ==> e.titleTexts[j] == []
    requires k < |e.strongTexts| && LooksLikeJobTitle(e.strongTexts[k])
    requires forall j :: 0 <= j < k ==> !LooksLikeJobTitle(e.strongTexts[j])
    ensures ExtractJobTitle(e) == Some(e.strongTexts[k])
  {
  }

  // ---------------------------------------------------------------------------
  // Company

  /** `re.match(r'^\$|^\d+|^[A-Z]{2,3}$', line)`: a salary, a number or a state code. */
  predicate LooksLikeSalaryNumberOrCode(line: string) {
    (line != [] && (line[0] == '$' || IsDigit(line[0]))) ||
    (2 <= |line| <= 3 && forall i :: 0 <= i < |line| ==> 'A' <= line[i] <= 'Z')
  }

  /** A line accepted as a company name by the text-pattern fallback. */
  predicate CompanyLine(line: string) {
    line != [] && !LooksLikeJobTitle(line) && |line| < 50 && !LooksLikeSalaryNumberOrCode(line)
  }

  const UnknownCompany: string := "Unknown Company"

  /**
   * `_extract_company_name`: the first non-empty company-selector text; else the first
   * acceptable line among the second to fourth non-blank stripped lines; else
   * "Unknown Company". It never yields `None` or an empty name.
   */
  function ExtractCompanyName(e: ListingElement): (r: string)
    ensures r != []
    ensures (exists i :: 0 <= i < |e.companyTexts| && e.companyTexts[i] != []) ==> r in e.companyTexts
    ensures r !in e.companyTexts && r != UnknownCompany ==>
      CompanyLine(r) && exists i :: 1 <= i < 4 && i < |StrippedLines(e.rawText)| && StrippedLines(e.rawText)[i] == r
  {
    match FirstWhere(e.companyTexts, (t: string) => t != [])
    case Some(t) => t
    case None =>
      var lines := StrippedLines(e.rawText);
      match FirstWhere(Slice(lines, 1, 4), CompanyLine)
      case Some(line) =>
        ghost var k :| 0 <= k < |Slice(lines, 1, 4)| && Slice(lines, 1, 4)[k] == line;
        assert lines[1 + k] == line;
        line
      case None => UnknownCompany
  }

  /** The first non-empty company-selector text is the company. */
  lemma CompanyFromSelector(e: ListingElement, k: nat)
    requires k < |e.companyTexts| && e.companyTexts[k] != []
    requires forall j :: 0 <= j < k ==> e.companyTexts[j] == []
    ensures ExtractCompanyName(e) == e.companyTexts[k]
  {
  }

  /** With no company text and fewer than two lines, the company is unknown. */
  lemma CompanyFallback(e: ListingElement)
    requires forall i :: 0 <= i < |e.companyTexts| ==> e.companyTexts[i] == []
    requires |StrippedLines(e.rawText)| < 2
    ensures ExtractCompanyName(e) == UnknownCompany
  {
  }

  // ---------------------------------------------------------------------------
  // Description

  /** `re.sub(r'\s+', ' ', text)`: every whitespace run becomes one space. */
  function CollapseSpaces(s: string): (r: string)
    ensures |r| <= |s|
    ensures forall i :: 0 <= i < |r| && IsSpace(r[i]) ==> r[i] == ' '
    ensures forall i :: 0 <= i < |r| - 1 ==> !(r[i] == ' ' && r[i + 1] == ' ')
    ensures s != [] && !IsSpace(s[0]) ==> r != [] && r[0] == s[0]
    ensures s != [] ==> r != []
    decreases |s|
  {
    if s == [] then []
    else if IsSpace(s[0]) then
      var k := LeadingSpaces(s);
      " " + CollapseSpaces(s[k..])
    else [s[0]] + CollapseSpaces(s[1..])
  }

  /** No whitespace other than single spaces. */
  predicate Collapsed(s: string) {
    (forall i :: 0 <= i < |s| && IsSpace(s[i]) ==> s[i] == ' ') &&
    (forall i :: 0 <= i < |s| - 1 ==> !(s[i] == ' ' && s[i + 1] == ' '))
  }

  /** Collapsed text is left as it is. */
  lemma {:induction false} CollapseCollapsed(s: string)
    requires Collapsed(s)
    ensures CollapseSpaces(s) == s
    decreases |s|
  {
    if s != [] {
      assert Collapsed(s[1..]);
      CollapseCollapsed(s[1..]);
      if IsSpace(s[0]) {
        assert LeadingSpaces(s) == 1 by {
          if |s| > 1 {
            assert !(s[0] == ' ' && s[1] == ' ');
          }
        }
      }
    }
  }

  /** Collapsing twice is collapsing once. */
  lemma CollapseIdempotent(s: string)
    ensures CollapseSpaces(CollapseSpaces(s)) == CollapseSpaces(s)
  {
    CollapseCollapsed(CollapseSpaces(s));
  }

  const DescriptionLimit: nat := 2000

  /**
   * `_extract_description`: the collapsed text when it has at most 2000 characters,
   * otherwise its first 2000 characters followed by "...". Never more than 2003
   * characters, and always a prefix of the collapsed text up to the ellipsis.
   */
  function ExtractDescription(text: string): (r: string)
    ensures var c := CollapseSpaces(text);
      |r| <= DescriptionLimit + 3 &&
      (|c| <= DescriptionLimit ==> r == c) &&
      (|c| > DescriptionLimit ==> |r| == DescriptionLimit + 3 && r[..DescriptionLimit] == c[..DescriptionLimit] &&
                                  r[DescriptionLimit..] == "...")
  {
    var collapsed := CollapseSpaces(text);
    if |collapsed| > DescriptionLimit then collapsed[..DescriptionLimit] + "..." else collapsed
  }

  /** The description of a description is the same description when it was not truncated. */
  lemma DescriptionStable(text: string)
    requires |CollapseSpaces(text)| <= DescriptionLimit
    ensures ExtractDescription(ExtractDescription(text)) == ExtractDescription(text)
  {
    CollapseIdempotent(text);
  }

  // ---------------------------------------------------------------------------
  // Job ids and URLs

  /**
   * `_generate_job_id`: the first 12 characters of the MD5 hex digest of the identifier
   * (a Python slice, so the whole digest if it were shorter).
   */
  function GenerateJobId(md5: Md5, identifier: string): (id: string)
    ensures StartsWith(md5(identifier), id)
    ensures |id| == if |md5(identifier)| < 12 then |md5(identifier)| else 12
  {
    if |md5(identifier)| < 12 then md5(identifier) else md5(identifier)[..12]
  }

  /** An href `_extract_job_url` accepts: non-empty, and site-relative or starting with `http`. */
  predicate UsableHref(href: string) {
    href != [] && (StartsWith(href, "/") || StartsWith(href, "http"))
  }

  /** A usable href as `_extract_job_url` returns it: joined to the base when it starts with `/`. */
  function ResolveHref(base: string, href: string): string {
    if StartsWith(href, "/") then Urls.UrlJoin(base, href) else href
  }

  /**
   * The URL `_extract_job_url` returns: the first usable href, joined to the base when
   * it is site-relative; `None` when no href is usable.
   */
  function JobUrl(hrefs: seq<string>, base: string): (r: Option<string>)
    ensures r.None? <==> forall i :: 0 <= i < |hrefs| ==> !UsableHref(hrefs[i])
    ensures r.Some? ==>
      exists k :: 0 <= k < |hrefs| && UsableHref(hrefs[k]) && r.value == ResolveHref(base, hrefs[k]) &&
        forall j :: 0 <= j < k ==> !UsableHref(hrefs[j])
  {
    var k := FirstIndexWhere(hrefs, UsableHref);
    if k < |hrefs| then Some(ResolveHref(base, hrefs[k])) else None
  }

  /** `_extract_job_url`: scans the hrefs and returns at the first usable one. */
  method ExtractJobUrl(hrefs: seq<string>, base: string) returns (url: Option<string>)
    ensures url == JobUrl(hrefs, base)
  {
    var i := 0;
    while i < |hrefs|
      invariant 0 <= i <= |hrefs|
      invariant forall j :: 0 <= j < i ==> !UsableHref(hrefs[j])
    {
      var href := hrefs[i];
      if href != [] {
        if StartsWith(href, "/") {
          assert FirstIndexWhere(hrefs, UsableHref) == i;
          return Some(Urls.UrlJoin(base, href));
        } else if StartsWith(href, "http") {
          assert FirstIndexWhere(hrefs, UsableHref) == i;
          return Some(href);
        }
      }
      i := i + 1;
    }
    return None;
  }

  /**
   * A site-relative href (one that, once tabs and line breaks are deleted, starts with a
   * single `/`) becomes a URL on hirebase.org: the result starts with `https://hirebase.org/`.
   */
  lemma HirebaseSiteLink(href: string)
    requires StartsWith(href, "/") && !StartsWith(Urls.Clean(href), "//")
    ensures StartsWith(ResolveHref(HirebaseBase, href), HirebaseBase + "/")
  {
    Urls.HirebaseOrigin();
    Urls.SiteLinkStaysOnSite("https", "hirebase.org", href);
  }

  /**
   * A plain site-relative href on hirebase.org, with no tab, line break, `?`, `#` or `;`
   * and no `.` or `..` segment, is the origin followed by the href.
   */
  lemma HirebaseRelativeLink(href: string)
    requires StartsWith(href, "/") && !StartsWith(href, "//") && Urls.PlainText(href)
    requires forall i :: 0 <= i < |SplitOn(href, '/')| ==> !Urls.IsDotSegment(SplitOn(href, '/')[i])
    ensures ResolveHref(HirebaseBase, href) == HirebaseBase + href
  {
    Urls.HirebaseOrigin();
    Urls.PlainSiteLink("https", "hirebase.org", href);
  }

  /** The configured base URL of the hirebase site. */
  const HirebaseBase := "https://hirebase.org"

  // ---------------------------------------------------------------------------
  // Pagination

  /** A pagination text mentioning "next" or the following page number. */
  predicate PageHint(text: string, currentPage: int) {
    Contains(Lower(text), "next") || Contains(Lower(text), IntToString(currentPage + 1))
  }

  function AnyHint(texts: seq<string>, currentPage: int): (r: bool)
    ensures r <==> exists i :: 0 <= i < |texts| && PageHint(texts[i], currentPage)
  {
    if texts == [] then false else PageHint(texts[0], currentPage) || AnyHint(texts[1..], currentPage)
  }

  /**
   * `has_next_page`, given the text of every element the pagination selectors match:
   * true on a hint, and otherwise exactly when the current page is below `max_pages`.
   */
  function HasNextPage(paginationTexts: seq<string>, currentPage: int, maxPages: int): (r: bool)
    ensures (exists i :: 0 <= i < |paginationTexts| && PageHint(paginationTexts[i], currentPage)) ==> r
    ensures (forall i :: 0 <= i < |paginationTexts| ==> !PageHint(paginationTexts[i], currentPage)) ==>
      (r <==> currentPage < maxPages)
  {
    AnyHint(paginationTexts, currentPage) || currentPage < maxPages
  }

  // ---------------------------------------------------------------------------
  // Elements

  const ListingKeywords: seq<string> := ["engineer", "scientist", "developer", "analyst", "manager"]

  /** The fallback test for a `div`: a job keyword, more than ten words and under 2000 characters. */
  predicate ListingDiv(div: ListingElement) {
    var text := Lower(div.rawText);
    AnyContains(text, ListingKeywords) && WordCount(text) > 10 && |text| < 2000
  }

  function FilterDivs(divs: seq<ListingElement>): (r: seq<ListingElement>)
    ensures |r| <= |divs|
    ensures forall d :: d in r <==> d in divs && ListingDiv(d)
  {
    if divs == [] then []
    else FilterDivs(divs[..|divs| - 1]) + (if ListingDiv(divs[|divs| - 1]) then [divs[|divs| - 1]] else [])
  }

  /**
   * The elements `get_job_elements` returns, given the matches of each job selector in
   * order and all `div`s of the page: the matches of the first selector that matches
   * anything, else the `div`s that pass the fallback test.
   */
  predicate HasMatches(m: seq<ListingElement>) { m != [] }

  function JobElements(selectorMatches: seq<seq<ListingElement>>, divs: seq<ListingElement>): (r: seq<ListingElement>)
    ensures forall i :: 0 <= i < |selectorMatches| && selectorMatches[i] != [] ==>
      exists k :: 0 <= k <= i && r == selectorMatches[k] && r != [] && forall j :: 0 <= j < k ==> selectorMatches[j] == []
    ensures (forall i :: 0 <= i < |selectorMatches| ==> selectorMatches[i] == []) ==> r == FilterDivs(divs)
  {
    var k := FirstIndexWhere(selectorMatches, HasMatches);
    if k < |selectorMatches| then selectorMatches[k] else FilterDivs(divs)
  }

  /** `get_job_elements`: stops at the first selector with matches, then falls back to the `div` scan. */
  method GetJobElements(selectorMatches: seq<seq<ListingElement>>, divs: seq<ListingElement>)
    returns (elements: seq<ListingElement>)
    ensures elements == JobElements(selectorMatches, divs)
  {
    elements := [];
    var i := 0;
    while i < |selectorMatches|
      invariant 0 <= i <= |selectorMatches|
      invariant forall j :: 0 <= j < i ==> selectorMatches[j] == []
      invariant elements == []
    {
      if selectorMatches[i] != [] {
        assert FirstIndexWhere(selectorMatches, HasMatches) == i;
        elements := elements + selectorMatches[i];
        return;
      }
      i := i + 1;
    }
    assert FirstIndexWhere(selectorMatches, HasMatches) == |selectorMatches|;
    elements := ScanDivs(divs);
  }

  /** The fallback of `get_job_elements`: every `div` whose lower-cased text passes the listing test. */
  method ScanDivs(divs: seq<ListingElement>) returns (elements: seq<ListingElement>)
    ensures elements == FilterDivs(divs)
  {
    elements := [];
    var n := 0;
    while n < |divs|
      invariant 0 <= n <= |divs|
      invariant elements == FilterDivs(divs[..n])
    {
      var text := Lower(divs[n].rawText);
      if AnyContains(text, ListingKeywords) {
        if WordCount(text) > 10 && |text| < 2000 {
          elements := elements + [divs[n]];
        }
      }
      FilterDivsStep(divs, n);
      n := n + 1;
    }
    assert divs[..n] == divs;
  }

  /** Extending the scanned prefix by one `div` appends it exactly when it passes the test. */
  lemma FilterDivsStep(divs: seq<ListingElement>, n: nat)
    requires n < |divs|
    ensures FilterDivs(divs[..n + 1]) == FilterDivs(divs[..n]) + (if ListingDiv(divs[n]) then [divs[n]] else [])
  {
    assert divs[..n + 1][..n] == divs[..n];
  }

  // ---------------------------------------------------------------------------
  // Listings

  /** The keys of a parsed listing. */
  const ListingKeys: set<string> := {"role_title", "company_name", "location", "job_url", "job_id",
                                     "job_description", "requirements", "salary_range"}

  /** What the job id is derived from: the job URL when there is one, else `"{company}_{title}"`. */
  function IdSource(url: Option<string>, company: string, title: string): string {
    if url.Some? && url.value != [] then url.value else company + "_" + title
  }

  /** The dict `parse_job_listing` returns for an element, or `None` for short text or no title. */
  function ListingData(e: ListingElement, base: string, md5: Md5): (r: Option<Candidate>)
    ensures r.None? <==> |e.strippedText| < 20 || ExtractJobTitle(e).None?
  {
    if e.strippedText == [] || |e.strippedText| < 20 then None
    else
      match ExtractJobTitle(e)
      case None => None
      case Some(title) =>
        var company := ExtractCompanyName(e);
        var url := JobUrl(e.hrefs, base);
        Some(ListingRecord(title, company, url, ExtractDescription(e.spacedText), e.location, e.salary,
                           GenerateJobId(md5, IdSource(url, company, title))))
  }

  /** The dict of a listing from its extracted parts. */
  function ListingRecord(title: string, company: string, url: Option<string>, description: string,
                         location: Option<string>, salary: Option<string>, jobId: string): Candidate
  {
    map[
      "role_title" := Str(title),
      "company_name" := Str(company),
      "location" := OptVal(location),
      "job_url" := OptVal(url),
      "job_id" := Str(jobId),
      "job_description" := Str(description),
      "requirements" := Str(description),
      "salary_range" := OptVal(salary)]
  }

  lemma RecordFields(title: string, company: string, url: Option<string>, description: string,
                     location: Option<string>, salary: Option<string>, jobId: string)
    ensures var d := ListingRecord(title, company, url, description, location, salary, jobId);
      d.Keys == ListingKeys &&
      d["role_title"] == Str(title) && d["company_name"] == Str(company) &&
      d["requirements"] == d["job_description"] == Str(description) &&
      d["job_url"] == OptVal(url) && d["job_id"] == Str(jobId) &&
      d["location"] == OptVal(location) && d["salary_range"] == OptVal(salary)
  {
  }

  /** The listing of an element that passes both checks, in terms of its extracted parts. */
  lemma ListingIsRecord(e: ListingElement, base: string, md5: Md5)
    requires ListingData(e, base, md5).Some?
    ensures var title := ExtractJobTitle(e).value;
      var company := ExtractCompanyName(e);
      var url := JobUrl(e.hrefs, base);
      ListingData(e, base, md5) == Some(ListingRecord(title, company, url, ExtractDescription(e.spacedText),
                                                  e.location, e.salary, GenerateJobId(md5, IdSource(url, company, title))))
  {
  }

  /**
   * A listing has exactly the eight listing keys; its title, company, location, URL and
   * salary are the extracted ones, and its requirements equal its description.
   */
  lemma ListingFields(e: ListingElement, base: string, md5: Md5)
    requires ListingData(e, base, md5).Some?
    ensures var d := ListingData(e, base, md5).value;
      d.Keys == ListingKeys &&
      d["role_title"] == Str(ExtractJobTitle(e).value) &&
      d["company_name"] == Str(ExtractCompanyName(e)) &&
      d["requirements"] == d["job_description"] == Str(ExtractDescription(e.spacedText)) &&
      d["job_url"] == OptVal(JobUrl(e.hrefs, base)) &&
      d["location"] == OptVal(e.location) && d["salary_range"] == OptVal(e.salary)
  {
    ListingIsRecord(e, base, md5);
    var title := ExtractJobTitle(e).value;
    var company := ExtractCompanyName(e);
    var url := JobUrl(e.hrefs, base);
    RecordFields(title, company, url, ExtractDescription(e.spacedText), e.location, e.salary,
                 GenerateJobId(md5, IdSource(url, company, title)));
  }

  /**
   * A listing's job id is taken from its job URL when that is present and non-empty
   * (`if job_url:`), else from `"{company}_{title}"`.
   */
  lemma ListingJobId(e: ListingElement, base: string, md5: Md5)
    requires ListingData(e, base, md5).Some?
    ensures var d := ListingData(e, base, md5).value;
      var url := JobUrl(e.hrefs, base);
      "job_id" in d && d["job_id"].Str? &&
      (url.Some? && url.value != [] ==> d["job_id"] == Str(GenerateJobId(md5, url.value))) &&
      (url.None? || url.value == [] ==>
        d["job_id"] == Str(GenerateJobId(md5, ExtractCompanyName(e) + "_" + ExtractJobTitle(e).value)))
  {
    ListingIsRecord(e, base, md5);
    var title := ExtractJobTitle(e).value;
    var company := ExtractCompanyName(e);
    var url := JobUrl(e.hrefs, base);
    RecordFields(title, company, url, ExtractDescription(e.spacedText), e.location, e.salary,
                 GenerateJobId(md5, IdSource(url, company, title)));
  }

  /** Against a base with a scheme, such as the configured `https://hirebase.org`, a found job URL is never empty. */
  lemma JobUrlNonEmpty(hrefs: seq<string>, base: string)
    requires base != "" && Urls.UrlParse(base, "").scheme != ""
    ensures JobUrl(hrefs, base).Some? ==> JobUrl(hrefs, base).value != []
  {
    var k := FirstIndexWhere(hrefs, UsableHref);
    if k < |hrefs| && StartsWith(hrefs[k], "/") {
      Urls.JoinNonEmpty(base, hrefs[k]);
    }
  }

  /** `parse_job_listing`: fills the dict field by field; `None` for short text or no title. */
  method ParseJobListing(e: ListingElement, pageUrl: string, base: string, md5: Md5)
    returns (r: Option<Candidate>)
    ensures r == ListingData(e, base, md5)
  {
    var jobData: Candidate := map[];
    var textContent := e.strippedText;
    if textContent == [] || |textContent| < 20 {
      return None;
    }
    var jobTitle := ExtractJobTitle(e);
    if jobTitle.None? {
      return None;
    }
    jobData := jobData["role_title" := Str(jobTitle.value)];
    var companyName := ExtractCompanyName(e);
    jobData := jobData["company_name" := Str(companyName)];
    jobData := jobData["location" := OptVal(e.location)];
    var jobUrl := ExtractJobUrl(e.hrefs, base);
    jobData := jobData["job_url" := OptVal(jobUrl)];
    if jobUrl.Some? && jobUrl.value != [] {
      jobData := jobData["job_id" := Str(GenerateJobId(md5, jobUrl.value))];
    } else {
      jobData := jobData["job_id" := Str(GenerateJobId(md5, companyName + "_" + jobTitle.value))];
    }
    var description := ExtractDescription(e.spacedText);
    jobData := jobData["job_description" := Str(description)];
    jobData := jobData["requirements" := Str(description)];
    jobData := jobData["salary_range" := OptVal(e.salary)];
    return Some(jobData);
  }

  // ---------------------------------------------------------------------------
  // The hirebase scraper as a crawler adapter

  /** What the page's soup offers the element finder: the matches of each job selector, in order, and every `div`. */
  datatype Soup = Soup(selectorMatches: seq<seq<ListingElement>>, divs: seq<ListingElement>)

  /**
   * The hirebase hooks of the generic crawler: `get_job_elements` over the parsed page,
   * `parse_job_listing` against the site's base URL, and no detail pages (the default
   * `supports_detail_pages`).
   */
  function HirebaseAdapter(base: string, soup: string -> Soup, md5: Md5): (a: Crawler.Adapter<ListingElement>)
    ensures !a.supportsDetails
  {
    Crawler.Adapter(
      (content: string) => Crawler.Elements(JobElements(soup(content).selectorMatches, soup(content).divs)),
      (e: ListingElement, url: string) =>
        match ListingData(e, base, md5)
        case Some(d) => Crawler.Listing(d)
        case None => Crawler.NoListing,
      false,
      (v: Val) => None)
  }
}
