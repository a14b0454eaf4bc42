# automated-job-search: the scrape, classify and store loop

This project is a Dafny model of the core of *automated-job-search*. That program crawls job
boards page by page and turns each listing into a candidate record. It then upserts the
candidates into a `jobs` table, keyed by `(job_id, job_website)` and fingerprinted by a
SHA-256 content hash, and reports per-site and overall counters. A small migration manager
keeps track of which schema migrations have been applied.

The modules follow the program's files:

| module | file | what it holds |
|---|---|---|
| `Wrappers`, `Text` | shared | `Option`/`Result`, and the string helpers: lower-casing, stripping, joining, integer rendering, lexicographic sort |
| `JobModel` | `src/database/models/job.py` | the `Job` record and its columns; the candidate dictionary (`Candidate`, a map from key to `Val`); attribute assignment; the content string and its hash |
| `Store` | `src/database/operations.py` | class `JobStore`, where `rows: seq<Job>` stands for the table; every `JobOperations` query and update over it |
| `SitesConfig` | `config/sites/sites_config.py` | class `SiteConfig` and its `__post_init__` defaults; the registry; the enabled-site filter and lookup |
| `Fetch` | `src/scrapers/base_scraper.py` | rotated identity headers, the fallback user agent, the response classification of `_make_request`, `close_driver` |
| `Crawler` | `src/scrapers/base_scraper.py` | `get_page_url` (including the `str.format` it relies on); the batch assembly and counters of `scrape_page`; the pagination loop of `scrape_all_pages`; class `Scraper` |
| `Urls` | CPython's `urllib.parse` (imported at `src/scrapers/sites/hirebase_scraper.py:9`) | `urlsplit`, `urlparse`, `urlunparse` and `urljoin` with its dot-segment removal, as far as `_extract_job_url` needs them |
| `Hirebase` | `src/scrapers/sites/hirebase_scraper.py` | the title check, company fallback, description normalisation, job-id derivation, URL absolutisation, pagination fallback, element selection and `parse_job_listing` |
| `Manager` | `src/scrapers/scraper_manager.py` | `_process_job` (new / updated / existing); `_scrape_site` and `scrape_all_sites` with their counters; class `ScraperManager` |
| `Migrations` | `src/database/migrations/__init__.py` | available, pending and applied migrations; apply, migrate and rollback; the status report; class `MigrationManager` |

Inputs the model cannot see are parameters:

- The clock is an integer number of seconds, `now`.
- SHA-256 is `sha: Sha256`, a function whose every result is 64 lowercase hex digits.
- MD5 is `md5: Md5`, an uninterpreted function.
- The HTTP session is `session: Session`, which maps a URL, headers and timeout to an answer, a
  `requests` exception or another exception.
- Random picks and the user-agent generator are a `Draw` per request.
- The HTML is pre-extracted into `ListingElement` values and a `Soup`.
- Whether a site's database session can be opened, and whether a site raises inside
  `scrape_all_sites`, are maps from site name to error message.

Each stateful operation is a method on a class: `rows` of `JobStore`, `applied` of
`MigrationManager`, the counters of `Scraper`, `stats` of `ScraperManager`. Each method is
proved against a specification function, such as `Process`, `Crawl`, `Drain`, `InsertRow`,
`RunAll` or `StatusReport`. The lemmas about those functions state the promised properties.

Quirks of the code that the model keeps:

- The content hash omits `additional_data`.
- `_process_job` compares the stored hash with one recomputed from the *existing* record's own fields.
- `scrape_page` tags every candidate with `scraped_from_url`, which is not a `Job` column. `Job(**data)`
  therefore refuses every candidate the crawler produces that does not match a stored row
  (`Manager.UnknownKeyRefused`, `Manager.CrawledCandidateIsRefused`).
- Only files named `???.py` are migration candidates. So `001_add_additional_data_field.py` is never
  listed (`Migrations.LongNamesNotListed`).

## Model

| member | source | states |
|---|---|---|
| Text.Lower | src/scrapers/base_scraper.py:661 | ASCII lower-casing: each `A`-`Z` becomes its lower-case letter, every other character is kept, and so is the length |
| Text.SplitOn | src/scrapers/sites/hirebase_scraper.py:137 | `split` gives at least one piece, none containing the separator |
| Text.JoinSplitOn | src/scrapers/sites/hirebase_scraper.py:137 | joining the pieces of a split with the separator gives back the text |
| Text.StrippedLines | src/scrapers/sites/hirebase_scraper.py:171 | the stripped non-empty lines are non-empty and contain no newline |
| Text.WordCount | src/scrapers/sites/hirebase_scraper.py:52 | the number of words of `split()` is at most the length, and is 0 exactly for all-whitespace text |
| Text.IntToStringRoundTrip | src/scrapers/base_scraper.py:491 | the rendered page number reads back as that number |
| Text.IntToStringInjective | src/scrapers/base_scraper.py:491 | distinct page numbers render differently |
| Text.SortStrings | src/database/migrations/__init__.py:57 | `sorted` gives an ordered permutation of its input |
| Hirebase.AnyContains | src/scrapers/sites/hirebase_scraper.py:157-158 | true exactly when the text contains one of the keywords |
| JobModel.ColumnOf | src/database/models/job.py:11-28 | a key names a column exactly when some column has that name, and the column found carries it |
| JobModel.NameInjective | src/database/models/job.py:11-28 | two columns with the same attribute name are the same column |
| JobModel.ColumnNamesAreColumns | src/database/models/job.py:11-28 | the set of attribute names holds exactly the keys that name a column; the model uses this set for `hasattr` |
| JobModel.ColumnsDetermineJob | src/database/models/job.py:11-28 | two records with the same `id` and the same value in every column are equal |
| JobModel.Assign | src/scrapers/scraper_manager.py:225 | `setattr` of one column never changes the primary key |
| JobModel.AssignFrame | src/scrapers/scraper_manager.py:225 | after `setattr` of column `c` to `v`, column `c` reads `v` and every other column is unchanged |
| JobModel.Overlay | src/database/operations.py:26 | building or updating a record from a dictionary keeps the base record's `id` |
| JobModel.OverlayColumn | src/database/operations.py:26 | after the overlay, each column holds the dictionary's value for it when the key is present and not skipped, else the base record's value |
| JobModel.DefaultRow | src/database/models/job.py:21-28 | a fresh record has `is_new` true, `is_relevant` and `is_processed` false, all four timestamps equal to now, and every optional text column NULL |
| JobModel.GenerateContentHash | src/database/models/job.py:40-43 | the fingerprint is always 64 lowercase hex digits, NULL fields included |
| JobModel.FingerprintIgnoresOtherFields | src/database/models/job.py:42-43 | records that agree on title, company, location, salary and description have equal fingerprints, whatever their other columns |
| JobModel.SingleFieldChangeChangesContent | src/database/models/job.py:42 | changing exactly one of the five hashed fields changes the content string |
| JobModel.ContentString | src/database/models/job.py:42 | the definition of the hashed content string; what it means is stated by `ContentIsJoin`, `SingleFieldChangeChangesContent` and `NullRendersLikeNoneText` |
| JobModel.ContentIsJoin | src/database/models/job.py:42 | the content string is the five rendered fields joined with `\|`, in order title, company, location, salary, description |
| JobModel.RenderInjective | src/database/models/job.py:42 | distinct field values render to distinct text, except the text "None", which collides with NULL |
| JobModel.NullRendersLikeNoneText | src/database/models/job.py:42-43 | a NULL company and the company text "None" give the same content string and the same fingerprint |
| Store.MaxId | src/database/models/job.py:11 | no stored id exceeds the maximum, and 0 is the maximum of an empty table |
| Store.NewId | src/database/models/job.py:11 | the autoincrement id is at least 1 and greater than every stored id |
| Store.FindKey | src/database/operations.py:47-49 | the index found matches both `job_id` and `job_website`; none is found exactly when no row matches both |
| Store.FindId | src/database/operations.py:125 | the index found has that primary key; none is found exactly when no row has it |
| Store.FindKeyUnique | src/database/models/job.py:31 | under the unique constraint, the lookup by key returns the one row with that key |
| Store.FindIdUnique | src/database/models/job.py:11 | under the primary key, the lookup by id returns the row that carries it |
| Store.NewJobsSince | src/database/operations.py:79-81 | exactly the rows with `is_new` set and `when_scraped >= since` |
| Store.JobsByWebsite | src/database/operations.py:95-98 | only rows of that website; exactly as many as the positive limit when there are more of them than it, and all of them otherwise |
| Store.UnprocessedRelevant | src/database/operations.py:165-167 | exactly the rows that are relevant and not processed |
| Store.Websites | src/database/operations.py:205 | each website with at least one row, listed once |
| Store.Stats | src/database/operations.py:200-213 | `total_jobs` is the row count; the new, relevant and processed counts are each at most that; `jobs_by_website` has exactly the websites with rows, each mapped to its row count (at least 1) |
| Store.WebsiteCountsSumToTotal | src/database/operations.py:200-212 | the per-website counts sum to `total_jobs` |
| Store.SumCountsIsCountIn | src/database/operations.py:205 | summing the counts of distinct websites counts the rows of any of them |
| Store.CountInUnion | src/database/operations.py:205 | counts over disjoint website sets add up |
| Store.FillHash | src/database/operations.py:27-28 | after the fill the hash is set and non-empty, and nothing else changed |
| Store.FillHashColumns | src/database/operations.py:27-28 | a supplied truthy hash is kept; otherwise the hash becomes the record's own fingerprint; no other column changes |
| Store.NewRow | src/database/operations.py:26-28 | the created record has the autoincrement id and a non-empty hash |
| Store.NewRowColumn | src/database/operations.py:26-28 | each column of a created record is the dictionary's value or the column default; the hash is the supplied truthy one or else the record's own fingerprint |
| Store.NewRowStamped | src/scrapers/scraper_manager.py:237-241 | a dictionary carrying `is_new` true and the two timestamps creates a record with exactly those |
| Store.NewRowOwnFingerprint | src/database/operations.py:27-28 | without a truthy supplied hash, the created record's hash is its own fingerprint |
| Store.NewRowKey | src/database/operations.py:26 | the created record's key is the dictionary's `job_id` and `job_website` |
| Store.InsertRow | src/database/operations.py:16-33 | a key that names no column gives `TypeError`; a missing or NULL required column or a taken key gives `IntegrityError`; otherwise the new record, under the next free `id` |
| Store.InsertValid | src/database/models/job.py:31 | inserting a record under an untaken key keeps ids and keys unique |
| Store.InsertRowValid | src/database/operations.py:16-33 | a successful insert keeps the table's primary key and unique constraint |
| Store.AppendValid | src/database/models/job.py:31 | appending a record with a fresh id and key keeps the table valid |
| Store.Touch | src/database/operations.py:62-63 | only `last_seen` and `updated_at` of that row change, both to now; every other row is unchanged |
| Store.ReplaceValid | src/database/models/job.py:31 | writing back a record with the same id and key keeps the table valid |
| Store.MarkNotNew | src/database/operations.py:108-110 | the rows whose id is listed get `is_new` false and `updated_at` now; every other row is unchanged |
| Store.MarkNotNewHidesRows | src/database/operations.py:108-110 | after the bulk update, no listed row is among the new jobs since any time, and every unlisted new job still is |
| Store.MarkNotNewValid | src/database/operations.py:108-110 | the bulk update keeps the table valid |
| Store.SetRelevant | src/database/operations.py:125-131 | only that row's `is_relevant` and `updated_at` change |
| Store.SetProcessed | src/database/operations.py:146-152 | only that row's `is_processed` and `updated_at` change |
| Store.RelevantThenProcessed | src/database/operations.py:125-167 | a job marked relevant is then among the unprocessed relevant jobs, and drops out of them once it is marked processed |
| Store.Survivors | src/database/operations.py:181-186 | the remaining rows are exactly those not scraped before the cutoff or relevant |
| Store.CleanupCount | src/database/operations.py:181-188 | the rows removed are exactly as many as the expired rows counted |
| Store.JobStore.constructor | src/database/operations.py:16-33 | an empty, valid table |
| Store.JobStore.GetJobByIdAndWebsite | src/database/operations.py:36-49 | the row found matches both keys; `None` exactly when no row matches both |
| Store.JobStore.CreateJob | src/database/operations.py:16-33 | the result is `InsertRow` of the old table; on success the row is appended, on failure the table is untouched; the table stays valid |
| Store.JobStore.UpdateJobLastSeen | src/database/operations.py:52-66 | the table becomes `Touch` of that row, and the refreshed row is returned |
| Store.JobStore.SaveJob | src/scrapers/scraper_manager.py:223-229 | committing an edited record replaces exactly that row; the key is unchanged, so the table stays valid |
| Store.JobStore.GetNewJobsSince | src/database/operations.py:69-81 | exactly the stored new jobs scraped at or after `since` |
| Store.JobStore.GetJobsByWebsite | src/database/operations.py:84-98 | only that website's rows; exactly as many as the positive limit when there are more of them than it, and all of them otherwise |
| Store.JobStore.MarkJobsAsNotNew | src/database/operations.py:101-111 | the table becomes `MarkNotNew` of the listed ids and stays valid |
| Store.JobStore.MarkJobAsRelevant | src/database/operations.py:114-132 | for an unknown id, `None` and the table unchanged; otherwise the row with only `is_relevant` and `updated_at` changed, which is also returned |
| Store.JobStore.MarkJobAsProcessed | src/database/operations.py:135-153 | for an unknown id, `None` and the table unchanged; otherwise the row with only `is_processed` and `updated_at` changed, which is also returned |
| Store.JobStore.GetUnprocessedRelevantJobs | src/database/operations.py:156-167 | exactly the relevant rows that are not processed |
| Store.JobStore.CleanupOldJobs | src/database/operations.py:170-188 | the table keeps exactly the rows that are not expired (scraped before now minus the days, and not relevant), and returns how many were removed |
| Store.JobStore.GetJobStats | src/database/operations.py:191-213 | `total_jobs` is the row count and each website maps to its row count |
| SitesConfig.ResolveHeaders | config/sites/sites_config.py:32-40 | supplied headers are kept; `None` becomes the six-entry default, with `User-Agent` and `Accept` among them |
| SitesConfig.ResolveDetailDelay | config/sites/sites_config.py:43-46 | a supplied detail delay is kept; `None` becomes `(min+2, max+4)` of the page delay, an ordered range 2 seconds wider when the page delay is ordered |
| SitesConfig.ResolveIdempotent | config/sites/sites_config.py:30-46 | running `__post_init__` again changes neither default |
| SitesConfig.SiteConfig.constructor | config/sites/sites_config.py:16-46 | every field is as given or its dataclass default (`enabled` true, 10 pages, delay (2, 5), 3 retries, 30 s timeout, "page", start 1), and headers and detail delay are resolved |
| SitesConfig.SiteConfig.PostInit | config/sites/sites_config.py:30-46 | headers and detail delay become their resolved values |
| SitesConfig.SitesRegistry | config/sites/sites_config.py:49-63 | the registry holds exactly the `hirebase` entry, with its URLs, 20 pages, delays (3, 8) and (5, 12), batch size 5 and default headers |
| SitesConfig.GetEnabledSites | config/sites/sites_config.py:76-82 | exactly the enabled entries, under their own keys and with their own configurations |
| SitesConfig.GetSiteConfig | config/sites/sites_config.py:84-93 | the entry for a known key, `None` for any other |
| Fetch.UserAgent | src/scrapers/base_scraper.py:337-350 | the generator's agent, or one of the five fallback agents when it fails |
| Fetch.FallbackAgentsLookReal | src/scrapers/base_scraper.py:343-349 | every fallback agent starts with the `Mozilla/5.0 (` prefix and names Chrome or Firefox |
| Fetch.RandomHeaders | src/scrapers/base_scraper.py:352-376 | the definition of the rotated headers for one draw; `GetRandomHeaders` states its keys, values and frame |
| Fetch.GetRandomHeaders | src/scrapers/base_scraper.py:352-376 | the result has the base headers' keys plus the three rotated ones; every other base header is kept; the agent is `UserAgent`; the language is one of the 4 values and the encoding one of the 3; the caller's map is a value and is not changed |
| Fetch.Classify | src/scrapers/base_scraper.py:396-413 | a response is returned exactly for an answer below 400 or from 600 up, never with status 403, 429 or 503; blocking statuses and `requests` exceptions give `None`; any other exception escapes |
| Fetch.BackOffDropsAnswer | src/scrapers/base_scraper.py:396-402 | the rate-limit back-off only happens on an answer that is then dropped |
| Fetch.MakeRequest | src/scrapers/base_scraper.py:385-413 | the result is the classification of the session's answer to the rotated headers; it backs off exactly on a 429, which then gives `None` |
| Fetch.MakeDetailRequest | src/scrapers/base_scraper.py:415-419 | it sleeps exactly when a delay range is given, then makes a plain request with no base headers and a 30-second timeout |
| Fetch.AfterClose | src/scrapers/base_scraper.py:296-306 | with a driver, teardown leaves driver and wait unset; without one, nothing changes |
| Fetch.CloseIdempotent | src/scrapers/base_scraper.py:296-306 | closing twice is the same as closing once |
| Fetch.BrowserSession.constructor | src/scrapers/base_scraper.py:38-43 | a session with the given driver and wait |
| Fetch.BrowserSession.CloseDriver | src/scrapers/base_scraper.py:296-306 | the state becomes `AfterClose` of the old state even when `quit` raises, and `quit` is called exactly once when there was a driver |
| Crawler.Format | src/scrapers/base_scraper.py:483-487 | the definition of `str.format` with one named field; `FormatBraceFreePrefix`, `FormatField` and `FormatJoin` state what it does |
| Crawler.GetPageUrl | src/scrapers/base_scraper.py:480-491 | the definition of `get_page_url`; `PageBranch`, `StartBranch`, `PageTemplate`, `StartTemplate` and `AppendedPageParameter` state its three branches |
| Crawler.FormatBraceFreePrefix | src/scrapers/base_scraper.py:483 | `str.format` copies a prefix without braces unchanged |
| Crawler.FormatField | src/scrapers/base_scraper.py:483 | `str.format` replaces a leading `{name}` field by its value |
| Crawler.FormatJoin | src/scrapers/base_scraper.py:483-487 | a template of brace-free pieces joined by `{name}` formats to the pieces joined by the value |
| Crawler.PageBranch | src/scrapers/base_scraper.py:482-483 | a template containing `{page}` is formatted with the page number |
| Crawler.StartBranch | src/scrapers/base_scraper.py:484-487 | a template with `{start}` but not `{page}` is formatted with the offset `(page-1)*10` |
| Crawler.PageTemplate | src/scrapers/base_scraper.py:482-483 | for a `{page}` template, the URL is the template with every `{page}` replaced by the page number |
| Crawler.StartTemplate | src/scrapers/base_scraper.py:484-487 | for a `{start}` template, the URL is the template with every `{start}` replaced by `(page-1)*10` |
| Crawler.AppendedPageParameter | src/scrapers/base_scraper.py:488-491 | with neither placeholder, the URL is the template, then `&` if it contains `?` (else `?`), then `param=page`; the number reads back as the page |
| Crawler.Enrich | src/scrapers/base_scraper.py:660-675 | each listing gets `job_website` as the lower-cased site name and `scraped_from_url` as the page URL; every other parsed key is kept; when the site supports details, the listing has a `job_url` and extraction returns non-empty details, the record is the basic one with `additional_data` set to those details; in every other case (no support, no `job_url`, extraction raising, empty details) it is exactly the basic record |
| Crawler.Assemble | src/scrapers/base_scraper.py:656-680 | a batch has at most one candidate per element, and each carries the site tag and the page URL |
| Crawler.PageSpec | src/scrapers/base_scraper.py:637-691 | the definition of how one `scrape_page` call ends (raised, failed or a batch); `Scraper.ScrapePage` is proved against it |
| Crawler.AfterPage | src/scrapers/base_scraper.py:637-691 | the definition of the counters after a page; `Scraper.ScrapePage` and `CrawlCounters` state its effect |
| Crawler.Crawl | src/scrapers/base_scraper.py:693-730 | the definition of the pagination loop; `CrawlShape`, `StopsAtFirstEmpty`, `CrawlUntilEmpty`, `AllFullYieldsAll`, `CrawlCounters` and `CrawlStopsOnSixthError` state its properties, and `Scraper.ScrapeAllPages` (through `Scraper.CrawlPages`) is proved against it |
| Crawler.CrawlShape | src/scrapers/base_scraper.py:697-715 | the yielded batches are non-empty; each is that page's result; the pages rise strictly from `pagination_start` and stay within `max_pages`; there are at most `max_pages - pagination_start + 1` of them |
| Crawler.StopsAtFirstEmpty | src/scrapers/base_scraper.py:697-715 | once a page comes back empty or fails, no page from there on is ever yielded |
| Crawler.CrawlUntilEmpty | src/scrapers/base_scraper.py:697-715 | when pages `pagination_start` .. `q-1` are all full and page `q` (if within `max_pages`) is empty or fails, exactly those pages are yielded, in order, each with its own jobs |
| Crawler.AllFullYieldsAll | src/scrapers/base_scraper.py:697-715 | when every page is full, exactly `max_pages - pagination_start + 1` batches are yielded |
| Crawler.CrawlCounters | src/scrapers/base_scraper.py:697-728 | over a crawl, `errors` never drop; `rate_limited` is unchanged; `jobs_found` grows by the jobs yielded; `pages_scraped` grows by at least the batches |
| Crawler.CrawlStopsOnSixthError | src/scrapers/base_scraper.py:720-728 | a raising page when 5 errors are already counted makes the sixth error, which ends the crawl with nothing more yielded |
| Crawler.Scraper.constructor | src/scrapers/base_scraper.py:424-435 | the scraper holds its configuration, session, draws and adapter, with all counters 0 |
| Crawler.Scraper.GetStats | src/scrapers/base_scraper.py:732-734 | a copy of the counters, with `rate_limited` always 0 |
| Crawler.Scraper.ScrapePage | src/scrapers/base_scraper.py:637-691 | a raising page changes no counter and yields nothing; a failed fetch or element search adds exactly one error and yields `[]`; a page with elements adds one page and its batch length to `jobs_found`, and returns the assembled batch |
| Crawler.Scraper.CollectJobs | src/scrapers/base_scraper.py:656-680 | the loop over elements builds the `Assemble` batch |
| Crawler.Scraper.ScrapeAllPages | src/scrapers/base_scraper.py:693-730 | the batches yielded and the final counters are those of `Crawl`, from `pagination_start` and the counters before |
| Crawler.Scraper.CrawlPages | src/scrapers/base_scraper.py:700-730 | the page loop, for any outcome function that agrees with `scrape_page` page by page: the batches and the final counters are those of `Crawl` over those outcomes, from `pagination_start` and the counters before |
| Hirebase.LooksLikeJobTitle | src/scrapers/sites/hirebase_scraper.py:144-158 | true exactly when the text is 5 to 100 characters long and its lower-cased form contains a listed keyword |
| Hirebase.TitleLength | src/scrapers/sites/hirebase_scraper.py:146-147 | an accepted title is non-empty and at most 100 characters |
| Hirebase.ExtractJobTitle | src/scrapers/sites/hirebase_scraper.py:110-142 | a found title is non-empty; when some title-selector text is non-empty, the title is one of them; a title from the later tiers passes `LooksLikeJobTitle`; `None` only when no bold or link text looks like a title |
| Hirebase.TitleFromSelector | src/scrapers/sites/hirebase_scraper.py:115-119 | the first non-empty title-selector text is the title |
| Hirebase.TitleFromBold | src/scrapers/sites/hirebase_scraper.py:121-126 | with no title-selector text, the first title-like bold text is the title |
| Hirebase.ExtractCompanyName | src/scrapers/sites/hirebase_scraper.py:160-180 | never empty; when some company-selector text is non-empty, the company is one of them; otherwise one of lines 2-4 that is short, not a title and not a salary, number or state code, or else "Unknown Company" |
| Hirebase.CompanyFromSelector | src/scrapers/sites/hirebase_scraper.py:163-167 | the first non-empty company-selector text is the company |
| Hirebase.CompanyFallback | src/scrapers/sites/hirebase_scraper.py:169-180 | with no company text and fewer than two lines, the company is "Unknown Company" |
| Hirebase.CollapseSpaces | src/scrapers/sites/hirebase_scraper.py:231 | the result is no longer than the input; every whitespace left is one space and no two spaces are adjacent; non-empty input stays non-empty |
| Hirebase.CollapseCollapsed | src/scrapers/sites/hirebase_scraper.py:231 | text without whitespace runs is left unchanged |
| Hirebase.CollapseIdempotent | src/scrapers/sites/hirebase_scraper.py:231 | collapsing twice equals collapsing once |
| Hirebase.ExtractDescription | src/scrapers/sites/hirebase_scraper.py:225-237 | the whitespace-collapsed text, at most 2003 characters; when it exceeds 2000, its first 2000 characters followed by "..." |
| Hirebase.DescriptionStable | src/scrapers/sites/hirebase_scraper.py:231-235 | a description that was not truncated is a fixed point |
| Hirebase.GenerateJobId | src/scrapers/sites/hirebase_scraper.py:258-262 | the id is the first 12 characters of the digest (all of it when shorter), so equal identifiers give equal ids |
| Urls.UrlSplit | src/scrapers/sites/hirebase_scraper.py:219 | the definition of `urlsplit`: scheme, network location, path, query and fragment after cleaning; `SplitOrigin` and `HirebaseOrigin` state concrete splits |
| Urls.UrlParse | src/scrapers/sites/hirebase_scraper.py:219 | the definition of `urlparse`: `urlsplit` plus the `;params` split for the schemes that use it; `SplitOrigin` and `HirebaseOrigin` state concrete parses |
| Urls.UrlUnsplit | src/scrapers/sites/hirebase_scraper.py:219 | the definition of `urlunsplit`, which drops an empty query or fragment; `EmptyQueryDropped` and `EmptyFragmentDropped` state the effect |
| Urls.UrlUnparse | src/scrapers/sites/hirebase_scraper.py:219 | the definition of `urlunparse`, which re-attaches non-empty params; `JoinNonEmpty` states it is non-empty with a scheme |
| Urls.JoinParts | src/scrapers/sites/hirebase_scraper.py:219 | the definition of `urljoin` on parsed parts: netloc, empty-path and path-merge branches; `PlainSiteLink`, `SiteLinkStaysOnSite` and `BareSlashesJoinToBase` state its results |
| Urls.UrlJoin | src/scrapers/sites/hirebase_scraper.py:219 | the definition of `urljoin(base, url)`, including the empty-argument cases, with dot segments removed; `ParentSegmentCancels`, `ResolvedHasNoDots` and `JoinNonEmpty` state its properties |
| Urls.ResolvedHasNoDots | src/scrapers/sites/hirebase_scraper.py:219 | resolving `.` and `..` segments leaves no dot segment |
| Urls.DotSegmentsRemoved | src/scrapers/sites/hirebase_scraper.py:219 | the segments `urljoin` rebuilds its path from contain no `.` or `..` |
| Urls.PlainSegmentsKept | src/scrapers/sites/hirebase_scraper.py:219 | segments without `.` or `..` resolve to themselves |
| Urls.ResolveFromConcat | src/scrapers/sites/hirebase_scraper.py:219 | resolving two runs of segments one after the other is resolving their concatenation |
| Urls.ParentUndoesSegment | src/scrapers/sites/hirebase_scraper.py:219 | a segment followed by `..` cancels out |
| Urls.SplitOrigin | src/scrapers/sites/hirebase_scraper.py:219 | `urlparse` of `scheme://host` gives that scheme lower-cased, that host and empty path, params, query and fragment |
| Urls.HirebaseOrigin | src/scrapers/sites/hirebase_scraper.py:219 | `https://hirebase.org` parses as scheme `https` and host `hirebase.org`, a scheme `urljoin` resolves against |
| Urls.SiteLinkStaysOnSite | src/scrapers/sites/hirebase_scraper.py:219 | a link that starts with one `/` (after cleaning), joined to `scheme://host`, starts with `scheme://host/`, whatever dots, query or fragment it carries |
| Urls.PlainSiteLink | src/scrapers/sites/hirebase_scraper.py:219 | a link `/...` without `//`, tab or newline, `?`, `#`, `;` or dot segments joins to `scheme://host` followed by the link itself |
| Urls.ParentSegmentCancels | src/scrapers/sites/hirebase_scraper.py:219 | `/a/../rest` joins to the same URL as `/rest` |
| Urls.EmptyQueryDropped | src/scrapers/sites/hirebase_scraper.py:219 | an empty query (a trailing `?`) is dropped by `urljoin` |
| Urls.EmptyFragmentDropped | src/scrapers/sites/hirebase_scraper.py:219 | an empty fragment (a trailing `#`) is dropped by `urljoin` |
| Urls.BareSlashesJoinToBase | src/scrapers/sites/hirebase_scraper.py:219 | the link `//` joined to `scheme://host` gives the base back |
| Urls.JoinNonEmpty | src/scrapers/sites/hirebase_scraper.py:219 | joining a non-empty link to a base with a scheme never gives the empty string |
| Hirebase.UsableHref | src/scrapers/sites/hirebase_scraper.py:215-221 | the definition of an href `_extract_job_url` returns: non-empty, and starting with `/` or `http`; `JobUrl` states that the first one is taken |
| Hirebase.ResolveHref | src/scrapers/sites/hirebase_scraper.py:218-221 | the definition of how a usable href is returned: joined to the base when it starts with `/`, otherwise as given; `HirebaseSiteLink` and `HirebaseRelativeLink` state the joined form |
| Hirebase.HirebaseSiteLink | src/scrapers/sites/hirebase_scraper.py:216-219 | every site-relative href (one leading `/`) resolves to a URL under `https://hirebase.org/` |
| Hirebase.HirebaseRelativeLink | src/scrapers/sites/hirebase_scraper.py:216-219 | a plain site-relative href (no `?`, `#`, `;`, tab, newline or dot segment) resolves to `https://hirebase.org` followed by the href |
| Hirebase.JobUrlNonEmpty | src/scrapers/sites/hirebase_scraper.py:212-223 | with a base that has a scheme, a found job URL is never empty |
| Hirebase.JobUrl | src/scrapers/sites/hirebase_scraper.py:212-223 | the first href that starts with `/` (joined to the base) or with `http` (kept as is); earlier hrefs are skipped; `None` exactly when no href qualifies |
| Hirebase.ExtractJobUrl | src/scrapers/sites/hirebase_scraper.py:209-223 | the early-return loop over links gives `JobUrl` |
| Hirebase.AnyHint | src/scrapers/sites/hirebase_scraper.py:277-284 | true exactly when some pagination text says "next" or names the next page |
| Hirebase.HasNextPage | src/scrapers/sites/hirebase_scraper.py:264-287 | a pagination hint means true; without one, the result is `current_page < max_pages` |
| Hirebase.FilterDivs | src/scrapers/sites/hirebase_scraper.py:44-53 | exactly the divs with a job keyword, more than 10 words and under 2000 characters, in order |
| Hirebase.JobElements | src/scrapers/sites/hirebase_scraper.py:21-56 | the elements of the first selector that matches anything; the keyword fallback only when no selector matches |
| Hirebase.GetJobElements | src/scrapers/sites/hirebase_scraper.py:21-56 | the selector loop with its `break` gives `JobElements` |
| Hirebase.ScanDivs | src/scrapers/sites/hirebase_scraper.py:47-53 | the fallback loop over all `div`s appends exactly the ones `FilterDivs` keeps, in order |
| Hirebase.FilterDivsStep | src/scrapers/sites/hirebase_scraper.py:48-53 | scanning one more `div` appends it exactly when it passes the keyword, word-count and length test |
| Hirebase.ListingData | src/scrapers/sites/hirebase_scraper.py:58-104 | no listing exactly when the stripped text is shorter than 20 characters or no title is found |
| Hirebase.RecordFields | src/scrapers/sites/hirebase_scraper.py:74-101 | the record has exactly the eight listing keys, with `requirements` equal to `job_description` |
| Hirebase.ListingIsRecord | src/scrapers/sites/hirebase_scraper.py:58-104 | a listing is the record of the extracted title, company, URL, description, location, salary and derived id |
| Hirebase.ListingFields | src/scrapers/sites/hirebase_scraper.py:74-101 | each field of a listing is the corresponding extractor's result |
| Hirebase.ListingJobId | src/scrapers/sites/hirebase_scraper.py:88-92 | `job_id` derives from `job_url` when there is one and it is non-empty, else from `"{company}_{title}"` |
| Hirebase.ParseJobListing | src/scrapers/sites/hirebase_scraper.py:58-108 | the step-by-step filling of the dictionary gives `ListingData` |
| Hirebase.HirebaseAdapter | src/scrapers/sites/hirebase_scraper.py:14-19 | the Hirebase scraper does not fetch detail pages |
| Manager.SkipNames | src/scrapers/scraper_manager.py:224 | the names `id` and `created_at` are exactly the keys of the skipped columns |
| Manager.FindCandidate | src/scrapers/scraper_manager.py:204-213 | the row found matches the candidate's `job_id` and `job_website`; none is found exactly when no row matches both |
| Manager.Seen | src/scrapers/scraper_manager.py:219-234 | handling a known job never yields "new" or changes the row count; its only error is the commit's `IntegrityError` |
| Manager.Fresh | src/scrapers/scraper_manager.py:236-244 | handling an unknown job yields "new" exactly when `create_job` succeeds, which adds one row; otherwise a database error |
| Manager.Process | src/scrapers/scraper_manager.py:204-244 | the result is `ValueError` exactly when `job_id` or `job_website` is missing or empty, and then the table is untouched; the table grows by one row exactly on "new" |
| Manager.ProcessSeen | src/scrapers/scraper_manager.py:215-234 | a known job is first touched, then compared with the fingerprint of the touched record |
| Manager.ProcessFresh | src/scrapers/scraper_manager.py:235-244 | an unknown job goes to creation |
| Manager.NewOutcome | src/scrapers/scraper_manager.py:236-244 | "new" exactly when the keys are present, no row matches and the insert succeeds; a candidate with a key that is not a column is refused with `TypeError` |
| Manager.RefreshedKeepsKeys | src/scrapers/scraper_manager.py:223-227 | copying a candidate that matches the row keeps its id and key |
| Manager.SeenValid | src/scrapers/scraper_manager.py:215-234 | handling a known job keeps the table valid |
| Manager.FreshValid | src/scrapers/scraper_manager.py:236-244 | handling an unknown job keeps the table valid |
| Manager.ProcessValid | src/scrapers/scraper_manager.py:194-244 | `_process_job` keeps ids and keys unique |
| Manager.TouchKeepsFingerprint | src/scrapers/scraper_manager.py:217-220 | refreshing `last_seen` does not change the recomputed fingerprint |
| Manager.SeenOutcome | src/scrapers/scraper_manager.py:219-234 | for a known job: "existing" exactly when the stored hash equals the recomputed one; "updated" exactly when it differs and every copied value fits its column; otherwise the commit fails |
| Manager.RefreshedColumn | src/scrapers/scraper_manager.py:223-228 | every column but `id`, `content_hash` and `updated_at` takes the candidate's value when the candidate has that key and it is not skipped, else keeps the row's |
| Manager.RefreshedKeepsCreation | src/scrapers/scraper_manager.py:224 | `created_at` is never copied |
| Manager.RefreshedFrame | src/scrapers/scraper_manager.py:223-228 | the update keeps `id` and `created_at`, and `last_seen` is the candidate's when it has one |
| Manager.SeenFrame | src/scrapers/scraper_manager.py:215-234 | only the matched row changes; it keeps `id` and `created_at`; without an update the table is just the touched one |
| Manager.SeenRowIsTouched | src/scrapers/scraper_manager.py:215-217 | a known job's `last_seen` is now on every outcome, unless the candidate itself supplies one on an update; nothing else moves without an update |
| Manager.SeenUpdateCopies | src/scrapers/scraper_manager.py:223-228 | on "updated", every copyable column is the candidate's value or the old one, and the hash is set to the recomputed value, which differs from the stored one |
| Manager.UpdateCopiesCandidate | src/scrapers/scraper_manager.py:219-229 | on "updated", every copyable column is the candidate's value or the touched row's, the hash is the fingerprint of the existing record, and `updated_at` is now |
| Manager.NewCandidateKeys | src/scrapers/scraper_manager.py:237-239 | the dictionary for a new job keeps its keys and any hash, and sets `is_new` true and `when_scraped` and `last_seen` to now |
| Manager.NewCandidateKey | src/scrapers/scraper_manager.py:237-241 | the created record carries the candidate's key |
| Manager.FreshRow | src/scrapers/scraper_manager.py:236-244 | a created job is appended with the next id, the candidate's key, `is_new` set and both timestamps now, and its own fingerprint when no hash was supplied |
| Manager.NewRowIsFresh | src/scrapers/scraper_manager.py:236-244 | on "new", the old rows are kept and the appended row is new, stamped now and keyed by the candidate |
| Manager.RescrapedJobIsExisting | src/scrapers/scraper_manager.py:215-234 | a job just created without a supplied hash is "existing" when it is seen again, and is only touched |
| Manager.RefoundIsExisting | src/scrapers/scraper_manager.py:219-234 | a row whose stored hash is its own fingerprint is only touched and reported "existing" |
| Manager.UnknownKeyRefused | src/database/operations.py:26 | an unmatched candidate carrying `scraped_from_url` is never stored |
| Manager.CrawledCandidateIsRefused | src/scrapers/base_scraper.py:661-662 | every candidate the crawler assembles that does not match a stored row is refused, and the table is unchanged |
| Manager.FoundIsCandidate | src/scrapers/scraper_manager.py:211-213 | a stored row with the candidate's key is the row the lookup finds |
| Manager.CopyStep | src/scrapers/scraper_manager.py:223-225 | one `setattr` of a new copyable key extends the copied set by that key |
| Manager.CopySkip | src/scrapers/scraper_manager.py:224 | a key that is not an attribute, or is skipped, changes nothing |
| Manager.CopiedIsOverlay | src/scrapers/scraper_manager.py:223-225 | once every key has been visited, the record is the overlay of the candidate |
| Manager.KeysFitIffAllFit | src/scrapers/scraper_manager.py:223-225 | the loop's fit check over every key agrees with the overlay's precondition |
| Manager.CopyAttributes | src/scrapers/scraper_manager.py:223-225 | the loop fails exactly when some copyable value does not fit its column, and otherwise yields the overlay |
| Manager.Drain | src/scrapers/scraper_manager.py:157-177 | the definition of the candidates processed one after the other with their counters; `DrainSnoc`, `DrainCounts` and `CrawlDrainedOnce` state its properties, and `ScraperManager.DrainBatches` is proved against it |
| Manager.TallyStep | src/scrapers/scraper_manager.py:163-177 | each candidate adds one to scraped or to failed; new and updated grow by at most scraped; new grows exactly on "new" |
| Manager.DrainSnoc | src/scrapers/scraper_manager.py:162-177 | draining one more candidate processes it on the table left so far |
| Manager.DrainCounts | src/scrapers/scraper_manager.py:157-177 | `new_jobs + updated_jobs <= jobs_scraped`; scraped plus failed is the number of candidates; the table grows by the new jobs and stays valid |
| Manager.TotalJobsSnoc | src/scrapers/scraper_manager.py:157-162 | one more batch adds its length to the total |
| Manager.FlattenCountsJobs | src/scrapers/scraper_manager.py:157-162 | the candidates drained are the jobs of all batches |
| Manager.CrawlDrainedOnce | src/scrapers/scraper_manager.py:157-177 | every job the crawl found is processed exactly once, as scraped or as failed |
| Manager.AccumulateCounts | src/scrapers/scraper_manager.py:90-111 | `sites_processed` grows by the completed sites only; each raising site adds at least one error; total new jobs grow no faster than total scraped |
| Manager.ResultsInOrderSnoc | src/scrapers/scraper_manager.py:94 | recording a new site appends its entry to the results in order |
| Manager.RecordSiteStep | src/scrapers/scraper_manager.py:90-111 | recording one more site keeps the results and totals in agreement |
| Manager.AccumulateSnoc | src/scrapers/scraper_manager.py:96-111 | the totals after one more site are that site's entry added to the totals before |
| Manager.ScraperKindFor | src/scrapers/scraper_manager.py:67-77 | there is a scraper class exactly for `hirebase` |
| Manager.Selected | src/scrapers/scraper_manager.py:40-51 | the initialized sites are exactly the enabled ones with a scraper class whose construction does not raise, each once |
| Manager.SelectedSnoc | src/scrapers/scraper_manager.py:42-51 | each registry entry in turn adds its site when enabled, implemented and constructible |
| Manager.ScraperManager.constructor | src/scrapers/scraper_manager.py:24-36 | zero totals, and a scraper for exactly the enabled, implemented, constructible sites, each new, on its own configuration, with the Hirebase adapter and zero counters |
| Manager.ScraperManager.InitializeScrapers | src/scrapers/scraper_manager.py:38-55 | the scrapers are exactly the selected sites, each freshly built on its configuration; the totals are untouched |
| Manager.ScraperManager.AddSite | src/scrapers/scraper_manager.py:42-55 | one registry entry extends the selection; earlier scrapers are kept and a new one is freshly built |
| Manager.ScraperManager.CreateScraper | src/scrapers/scraper_manager.py:57-77 | a scraper exactly when the site has a class, freshly built on the configuration |
| Manager.ScraperManager.GetScraperStats | src/scrapers/scraper_manager.py:246-252 | the current totals, as a value |
| Manager.ScraperManager.ProcessJob | src/scrapers/scraper_manager.py:194-244 | the outcome and new table are `Process` of the old table; the table stays valid |
| Manager.ScraperManager.ScrapeSite | src/scrapers/scraper_manager.py:132-192 | the new table and the statistics are `ScrapeRun` of the old table and the scraper's input; without a session: "failed" with the error, zero counters, nothing scraped; otherwise "success" with the drained crawl's counters, `errors` being failed candidates plus the scraper's errors, `pages_scraped` the scraper's; always new plus updated within scraped |
| Manager.ScraperManager.DrainBatches | src/scrapers/scraper_manager.py:157-177 | the nested loops over batches and candidates give `Drain` of the flattened batches |
| Manager.ScraperManager.ProcessBatch | src/scrapers/scraper_manager.py:162-177 | the inner loop extends the drain by one batch |
| Manager.ScraperManager.ScrapeEntry | src/scrapers/scraper_manager.py:91-111 | the new table and the entry are `RunSite` of the old table and the site's input: the exception message and the table untouched for a raising site, else its site statistics, failed exactly without a session |
| Manager.ScrapeRun | src/scrapers/scraper_manager.py:132-192 | the definition of `_scrape_site` on values: no session gives a failed entry and the table untouched, otherwise the crawl is drained into the table; `ScraperManager.ScrapeSite` is proved against it |
| Manager.RunSite | src/scrapers/scraper_manager.py:91-111 | the definition of one site of `scrape_all_sites`, with the raise path; `RunSiteAgrees` and `FailedSiteKeepsTable` state its properties, and `ScraperManager.ScrapeEntry` is proved against it |
| Manager.RunSiteAsWritten | src/scrapers/scraper_manager.py:91-111 | one site with the class hierarchy as written: a failed entry with the database error or the missing `scrape_all_pages` error, zero counters, the table untouched (see "## Findings") |
| Manager.AsWrittenFailsLikeSession | src/scrapers/scraper_manager.py:150-192 | as written, every site runs the session-failure path of `RunSite` with the `AttributeError` message, whatever the scraper's input |
| Manager.AsWrittenNeverScrapes | src/scrapers/scraper_manager.py:150-192 | a site with a session and no raise is a success under `RunSite`, but as written it is a failed entry with the `AttributeError` message, zero counters and the table untouched |
| Manager.RunSiteAgrees | src/scrapers/scraper_manager.py:91-111 | every site's entry is one `EntryAgrees` allows, and a valid table stays valid |
| Manager.FailedSiteKeepsTable | src/scrapers/scraper_manager.py:102-110 | a raising site, and one without a database session, leave the table as they found it, with an entry that does not depend on the table |
| Manager.RunSites | src/scrapers/scraper_manager.py:90-111 | the sites run one after the other, one entry per site |
| Manager.SiteStep | src/scrapers/scraper_manager.py:91-111 | the definition of the step `RunSites` takes in `scrape_all_sites`: `RunSite` with the site's input; `FailedStepKeepsTable`, `FailedSiteIsolated` and `RunSitesAgree` state its properties |
| Manager.RunSitesSnoc | src/scrapers/scraper_manager.py:90-111 | a run over one more site is the run before it followed by that site against the table it left |
| Manager.SiteIsolated | src/scrapers/scraper_manager.py:90-111 | a site that leaves the table alone does not change the table or the other sites' entries |
| Manager.RunSitesKeep | src/scrapers/scraper_manager.py:90-111 | a property every site keeps of the table holds after the run |
| Manager.RunSitesEvery | src/scrapers/scraper_manager.py:90-111 | a property every site's entry has, whatever the table, holds of every entry of the run |
| Manager.FailedStepKeepsTable | src/scrapers/scraper_manager.py:102-110 | a raising site and one without a session leave any table alone |
| Manager.FailedSiteIsolated | src/scrapers/scraper_manager.py:102-111 | the loop goes on past a failing site: the table at the end and the other sites' entries are as if it were not there |
| Manager.RunSitesAgree | src/scrapers/scraper_manager.py:90-111 | every entry of a run is one `EntryAgrees` allows, and a valid table stays valid |
| Manager.ScraperManager.ScrapeSites | src/scrapers/scraper_manager.py:90-111 | every site is recorded as `EntryAgrees` says, and the totals are the entries accumulated in order |
| Manager.ScraperManager.VisitSite | src/scrapers/scraper_manager.py:90-111 | one loop iteration records one more site and keeps the results and totals in agreement |
| Manager.ScraperManager.ScrapeAllSites | src/scrapers/scraper_manager.py:79-130 | the summary's site results and overall stats agree with the per-site entries accumulated from the old totals; the duration is end minus start; later sites still run after a raising one |
| Migrations.DirectoryEntries | src/database/migrations/__init__.py:57 | every directory entry comes from a file, and every file has an entry |
| Migrations.GlobNamesMembers | src/database/migrations/__init__.py:57 | the globbed names are exactly the directory names matching `???.py` |
| Migrations.Describe | src/database/migrations/__init__.py:65-71 | a listed migration keeps its filename; `id` defaults to the stem, `description` to "" and `depends_on` to `[]` |
| Migrations.SortedGlob | src/database/migrations/__init__.py:57 | sorting keeps exactly the globbed names |
| Migrations.LoadedListed | src/database/migrations/__init__.py:57-73 | every loaded migration is a globbed file that does not start with `__` and imports, described from its module |
| Migrations.LoadedComplete | src/database/migrations/__init__.py:57-73 | every such file is loaded |
| Migrations.LoadedOrdered | src/database/migrations/__init__.py:57 | loaded migrations are in filename order |
| Migrations.Available | src/database/migrations/__init__.py:54-75 | the definition of `get_available_migrations`; `AvailableEntries`, `LoadedListed`, `LoadedComplete` and `LoadedOrdered` state its entries, and `MigrationManager.GetAvailableMigrations` is proved against it |
| Migrations.AvailableEntries | src/database/migrations/__init__.py:54-75 | the available list holds exactly the listed files, each described from its module, in sorted filename order |
| Migrations.LongNamesNotListed | src/database/migrations/__init__.py:57 | a name whose stem is not three characters is never listed, so `001_add_additional_data_field.py` is not |
| Migrations.Pending | src/database/migrations/__init__.py:77-81 | the definition of `get_pending_migrations`; `PendingMembers`, `PendingAppend` and `NothingPendingIff` state its properties |
| Migrations.PendingMembers | src/database/migrations/__init__.py:79-81 | a migration is pending exactly when it is available and its id is not applied |
| Migrations.PendingAppend | src/database/migrations/__init__.py:81 | pending keeps the available order |
| Migrations.NothingPendingIff | src/database/migrations/__init__.py:79-81 | nothing is pending exactly when every available id is applied |
| Migrations.Apply | src/database/migrations/__init__.py:83-106 | the definition of `apply_migration`: `upgrade`, then the insert; `ApplyRecordsOnSuccess` and `ApplyThenRollback` state its properties |
| Migrations.ApplyRecordsOnSuccess | src/database/migrations/__init__.py:83-106 | success exactly when `upgrade` returns and the id is not yet recorded, and then the id is appended; on failure nothing is recorded |
| Migrations.RunAll | src/database/migrations/__init__.py:135-148 | the definition of `migrate`'s loop, which stops at the first failure; `RunAllRecords`, `RunAllStops` and `MigrateLeavesNothingPending` state its properties |
| Migrations.RunAllRecords | src/database/migrations/__init__.py:145-146 | a successful run records every pending id, in order |
| Migrations.RunAllStops | src/database/migrations/__init__.py:145-146 | a failing run stops at the first failing migration, with exactly the ids before it recorded |
| Migrations.MigrateLeavesNothingPending | src/database/migrations/__init__.py:135-148 | after a successful migrate, nothing is pending |
| Migrations.WithoutMembers | src/database/migrations/__init__.py:122-126 | the delete removes exactly the rows with that id |
| Migrations.WithoutAbsent | src/database/migrations/__init__.py:122-126 | deleting an id that is not recorded changes nothing |
| Migrations.ByIdEntries | src/database/migrations/__init__.py:111 | the id map holds exactly the ids of available migrations, each mapped to one with that id |
| Migrations.ByIdLast | src/database/migrations/__init__.py:111 | for a repeated id, the dictionary comprehension keeps the last migration with it |
| Migrations.ByIdEmpty | src/database/migrations/__init__.py:111 | the id map is empty exactly when nothing is available |
| Migrations.Rollback | src/database/migrations/__init__.py:108-133 | the definition of `rollback_migration`; `RollbackOutcomes`, `ApplyThenRollback` and `RollbackMakesPending` state its properties |
| Migrations.RollbackOutcomes | src/database/migrations/__init__.py:108-133 | `ValueError` exactly for an id that is not available, raised before any downgrade; on any error nothing changes; on success exactly that id is removed |
| Migrations.ApplyThenRollback | src/database/migrations/__init__.py:83-133 | rolling back a migration just applied restores the applied list |
| Migrations.RollbackMakesPending | src/database/migrations/__init__.py:108-133 | after a rollback, the migration is pending again |
| Migrations.PadRight | src/database/migrations/__init__.py:161 | the padded text keeps the original and fills with spaces up to the width |
| Migrations.StatusLineShowsState | src/database/migrations/__init__.py:160-161 | the status column reads "Applied" exactly when the id is applied, and "Pending" exactly when it is not |
| Migrations.DistinctIdsOnce | src/database/migrations/__init__.py:153 | each available id appears exactly once among the keys |
| Migrations.SortedIds | src/database/migrations/__init__.py:158 | the reported ids are sorted, are exactly the keys of the id map, and each appears once |
| Migrations.StatusLinesAt | src/database/migrations/__init__.py:158-161 | one line per id, in order |
| Migrations.ReportLines | src/database/migrations/__init__.py:155-164 | the two header lines, one line per id, then "No migrations found" exactly when there are none |
| Migrations.StatusReport | src/database/migrations/__init__.py:150-164 | the definition of the lines `status` prints; `StatusReportShape`, `StatusReportRows` and `StatusLineShowsState` state their contents |
| Migrations.StatusReportShape | src/database/migrations/__init__.py:150-164 | the report is the header, one line per distinct id, and "No migrations found" exactly when nothing is available |
| Migrations.StatusReportRows | src/database/migrations/__init__.py:158-161 | line `2+i` reports the `i`-th id in sorted order, with its status and description |
| Migrations.MigrationManager.constructor | src/database/migrations/__init__.py:20-39 | the manager over the given files and the recorded ids |
| Migrations.MigrationManager.GetAppliedMigrations | src/database/migrations/__init__.py:41-52 | the recorded ids in insertion order, or `[]` when the query fails |
| Migrations.MigrationManager.GetAvailableMigrations | src/database/migrations/__init__.py:54-75 | the loop over the sorted glob gives `Available` |
| Migrations.MigrationManager.GetPendingMigrations | src/database/migrations/__init__.py:77-81 | the available list with the applied ids removed |
| Migrations.MigrationManager.ApplyMigration | src/database/migrations/__init__.py:83-106 | the outcome and the new record are `Apply` of the old one |
| Migrations.MigrationManager.Migrate | src/database/migrations/__init__.py:135-148 | the outcome and the new record are `RunAll` over the pending migrations; nothing is done when none are pending |
| Migrations.MigrationManager.RollbackMigration | src/database/migrations/__init__.py:108-133 | the outcome and the new record are `Rollback` of the old one |
| Migrations.MigrationManager.Status | src/database/migrations/__init__.py:150-164 | the printed lines are `StatusReport` of the applied ids and the available migrations |

## Left out

- Text.Lower: ASCII only. Python's `str.lower` is full Unicode. For example, it maps the Kelvin sign
  `\u212A` to `k`, and `"\u0130".lower()` has two code points, so there the length is not kept.
- Hirebase.LooksLikeJobTitle: the keyword test lower-cases with `Text.Lower`, so a title whose keyword
  needs Unicode lower-casing (such as `"BAC\u212AEND ENGINEER"`) is refused here and accepted in Python.
- Hirebase.ExtractCompanyName: the regex `\d` is read as an ASCII digit. Python's `re` also matches
  other Unicode decimal digits, such as `"\u0663\u0660\u0660"`.
- Urls.UrlJoin: `urllib.parse` is modelled as CPython 3.11/3.12 writes it, scheme tables included.
  The `ValueError` that `urlsplit` raises is not modelled, so such hosts are joined like any other.
  It is raised for a network location with unbalanced brackets, an invalid bracketed host, or
  non-ASCII characters that NFKC-normalise to delimiters. `parse_job_listing` would then catch it and
  give no listing. The split cache and `bytes` arguments are not modelled either.
- Hirebase.JobUrl: it does not promise a non-empty URL for every base. `urljoin("#", "//")` is empty.
  `Hirebase.JobUrlNonEmpty` gives a non-empty URL for any base with a scheme, such as the configured one.
- Store.InsertRow: a supplied `id` key is ignored, and the record always takes the next free `id`.
  Python's `Job(id=...)` would use the supplied value. Candidate values have no integer kind, and
  no caller in the modelled core supplies an `id`. Also, keys that name class attributes other than
  columns (`metadata`, `registry`, `generate_content_hash`, ...) are refused here with `TypeError`.
  `hasattr` accepts them in Python, and SQLAlchemy's constructor assigns them.
- Selenium is not modelled: driver setup, stealth scripts, waits, scrolling, `_selenium_get_page`, and
  the Selenium copies of `scrape_page` and `scrape_all_pages`. This is browser I/O. Of that code,
  only `close_driver` is modelled.
- The `requests` session and its `Retry` adapter are the `Session` parameter. Its retries happen
  inside that function.
- Randomness and sleeps are inputs. `random.choice` and the user-agent generator are a `Draw`. The
  lengths of the `time.sleep` calls (back-off, page delay, detail delay) are not modelled;
  `MakeRequest` and `MakeDetailRequest` only report whether they slept.
- The HTML and regex work is pre-extracted. This covers BeautifulSoup `select`, `find_all` and
  `get_text`, the CSS selectors, the location and salary regexes, and the company line regex. The
  model takes their results as fields of `ListingElement` and `Soup`. So the regex is a predicate,
  and `get_text(strip=True)`, with or without a separator, is a field.
- Hirebase.GenerateJobId: the MD5 digest is not assumed to be 32 hex digits, so the id length is
  stated as `min(|digest|, 12)`. With a real MD5 digest this is exactly 12.
- JobModel.GenerateContentHash: SHA-256 itself is not modelled. `Sha256` only guarantees 64
  lowercase hex digits, and nothing is assumed about collisions.
- SQLAlchemy is reduced to an in-memory sequence of rows. Sessions, `commit`/`refresh`, the
  engine and indexes are not modelled, and neither is SQLite type coercion. A candidate value whose
  kind does not fit its column is one failing commit (`IntegrityError`). A real database might
  instead store it or raise a different error.
- Store.JobsByWebsite: which rows fall within a positive limit is the first ones in table order,
  whereas SQL without `ORDER BY` promises no order. The contract states only that they are that
  website's rows and how many there are, not which ones.
- The clock is one integer `now` per operation, so two `datetime.now()` calls in the same operation
  read the same value.
- The crawler is generic over an injected `Adapter`, not through class inheritance. The Hirebase
  adapter gets the crawl that `SeleniumBaseScraper` defines last (`requests`-based, lines 603-734).
  The base class as written is recorded under "## Findings".
- `scrape_all_pages` is a generator. Its laziness is not modelled, because `_scrape_site` consumes
  it completely. `KeyboardInterrupt` is not modelled.
- `scrape_all_sites` takes as inputs whether a site's `_scrape_site` raises and whether it gets a
  database session. The modelled `_scrape_site` raises nothing else. `_scrape_site` catches every
  `Exception` (src/scrapers/scraper_manager.py:150-189). Only a `BaseException` or a failing logger
  call could reach the `except` at lines 102-111, so that branch is practically unreachable; `crashes`
  models it all the same. Two consequences:
  - a site that fails to open its session is counted in `sites_processed`, as the code does;
  - the entry recorded for a raising site is its message only, not the full dictionary of zero
    counters.
- Manager.ScraperManager.ScrapeSites: the contract does not state the table the loop leaves.
  Each site's table and entry are `RunSite` (`ScrapeEntry`), and the run over all sites is
  `RunSites` with `SiteStep` (`FailedSiteIsolated`, `RunSitesAgree`). The loop's contract is only
  that every site is recorded as `EntryAgrees` says and the totals add up; it does not say that the
  final table is `RunSites` over `order`, because stating it unfolds every site's crawl and drain
  inside the loop's proof, which then exceeds the verifier's resource limit.
- Manager.ScraperManager.VisitSite: the same gap for one iteration; its table is that of `ScrapeEntry`,
  which is not restated in its contract.
- Manager.ScraperManager.ScrapeAllSites: the same gap; the summary is stated, the table it leaves is not.
  Also, the summary's `overall_stats` is `self.stats` itself (line 120), the manager's live dictionary.
  The model returns a snapshot, so an earlier summary's `overall_stats` does not change when
  `scrape_all_sites` runs again, as it would in Python.
- A site that raises is modelled as raising before it changes the table. In Python, `_scrape_site`
  could raise after some commits, and those rows would stay.
- A candidate that fails does not stop the loop, and the `session` is not poisoned after a failed
  commit. A real SQLAlchemy session would need a rollback.
- `get_scraper_stats` returns the totals as a value, so the copy is implicit.
- `ScraperManager.get_new_jobs_since` and `get_all_sites` are not modelled. They are wrappers around
  `Store.NewJobsSince` and the registry.
- Migrations: `upgrade`/`downgrade` bodies and the DDL they run are not modelled. Only whether they
  raise is modelled. Module import is a `Module` value. A file whose import raises has
  `imports == false` and is skipped.
- Migrations: the ordering of `get_applied_migrations` by `applied_at` is modelled as insertion
  order. The `schema_migrations` primary key gives `AlreadyRecorded` for a second insert of an
  id. That case arises when the applied query fails: then every migration looks pending, and
  `migrate` re-runs an `upgrade` before its record fails.
- Migrations: `depends_on` is read but never enforced, as in the code.
- Migrations: `status` prints its lines, and the model returns them instead. Logging is not modelled.
- `print` and logging are left out throughout, as are the CLI pipeline in `src/__main__.py` and the
  schema scripts.
- The `str.format` model covers plain `{name}` fields and the `{{`/`}}` escapes. Any other field, a
  stray brace, or a format spec or conversion is an error. Python would give `KeyError`,
  `IndexError` or `ValueError`, or would format the value.

## Findings

| source | as written | input that shows it | evidently intended | confidence | as-written member | corrected member |
|---|---|---|---|---|---|---|
| src/scrapers/sites/hirebase_scraper.py:11-14 | `HirebaseScraper` extends `BaseScraper` (src/scrapers/base_scraper.py:421-435), which defines only `__init__`. So `scraper.scrape_all_pages()` at src/scrapers/scraper_manager.py:157 raises `AttributeError`, and lines 186-189 turn it into a failed site | any enabled `hirebase` site whose database session opens: its entry is `{"status": "failed", "error": "'HirebaseScraper' object has no attribute 'scrape_all_pages'"}` with zero counters, and nothing is stored | extending `SeleniumBaseScraper`, whose `__init__` the unit tests patch (tests/unit/scrapers/test_hirebase_scraper.py:16-18), so the crawl of lines 693-730 runs | high (not executed) | `Manager.RunSiteAsWritten`, with `Manager.AsWrittenFailsLikeSession` and `Manager.AsWrittenNeverScrapes` | `Manager.RunSite` (`Manager.ScrapeRun` over `Crawler.Crawl`), used by `Manager.ScraperManager.ScrapeEntry` |
