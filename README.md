# Quote scraper: hash key, job lifecycle and crawl

A Dafny model of the scraping core of a Django/Celery quote scraper. It covers three things:

- **The quote hash key** (`compute_quote_hash`). Text and author are normalised. The text has its whitespace runs collapsed, and both are stripped and lower-cased. They are joined as `"{text}|{author}"` and digested. The digest is a parameter `sha256: string -> string`.
- **The scrape-job lifecycle** (`ScrapeJob.mark_running`, `mark_finished`, `increment_counters`) and the hash-if-missing rule of `Quote.save`. `ScrapeJob` is a class that holds both the instance's attributes and the database row it saves into, because `increment_counters` writes the row through a different instance.
- **The crawl task** (`scrape_site`):
  - a bounded page loop over an abstract web (a map from URL to a fetch outcome);
  - author pairing for each quote node;
  - idempotent, hash-keyed creation of quotes and get-or-create of authors, each candidate with its own error guard;
  - a flush of the per-page deltas after every page;
  - the choice of the next page URL;
  - the fatal-error path.

  The imperative methods `Crawler.ScrapeSite`, `Crawler.ScrapeSiteAsWritten`, `Crawler.PageLoop`, `Crawler.VisitPage` and `Crawler.SaveCandidates` modify a `Jobs.ScrapeJob` and a `Crawler.Database`. Each is proved equal to a specification function: `Crawl`, `CrawlAsWritten`, `LoopExit`/`RunPages`, `PageStep` and `ProcessFrom`. The crawl's properties are proved about those functions for every key function (`KeyFn`). `QuoteKey(sha256)` binds the key to `compute_quote_hash`.

Files:

- `Wrappers.dfy`: `Option` and Python truthiness.
- `Hashing.dfy`: the normaliser and the key.
- `Jobs.dfy`: the job and the quote classes.
- `Crawler.dfy`: the web, the store, the specification of the crawl and its imperative version.
- `CrawlProperties.dfy`: accounting, deduplication and URL-chain theorems.
- `Scenarios.dfy`: concrete crawls.

The model follows the code, with one deliberate exception, the counter refresh listed under "## Findings":

- **Status at the end of a crawl.** As written, every flush goes through `increment_counters`, which updates the stored row through a second instance (models.py:115-121). The job object that `scrape_site` loaded at tasks.py:47 keeps its loaded counters, and `mark_finished` derives the status from those (models.py:102-107). The docstring of `mark_finished` (models.py:92-96) and the comments at tasks.py:118 and tasks.py:145 say the status should depend on the counters the crawl stored.
  - `Crawler.CrawlAsWritten` and `Crawler.ScrapeSiteAsWritten` model the code as written. `CrawlProperties.AsWrittenFreshJobFails` proves that a job that had saved nothing before ends FAILED whatever the crawl saved.
  - `Crawler.Crawl` and `Crawler.ScrapeSite` are the corrected crawl: the last flush reads the stored totals back into the instance before `mark_finished`. Every status the crawl lemmas and scenarios prove (`CrawlProperties.CrawlAccounting`, `Scenarios.TwoPagesSucceed`, `OnePageBudget`, `NoAuthorMatch`) is the corrected program's. Where nothing is saved (`Scenarios.FirstFetchTimesOut`, `SelfLinkIsRefetched`) both programs end FAILED. `CrawlProperties.AsWrittenOnlyStatusDiffers` proves that the two agree on everything else.
- **Fatal path.** The code flushes the residual `fetched` and `saved` with exactly `errors=1`, dropping any residual error count (tasks.py:154). At both fatal points modelled here the residual error count is already 0 (`CrawlProperties.RunPagesAccounts`).

## Model

| member | source | states |
|---|---|---|
| Wrappers.OrEmpty | scraper_api/models.py:14-15 | `(x or "")`: the result is non-empty exactly when the value is truthy, and then it is the value itself |
| Hashing.LowerChar | scraper_api/models.py:14-15 | lowering one character keeps every character that is not an upper-case ASCII letter, and maps `A`-`Z` to the letter 32 code points up (`a`-`z`); so no upper-case letter is left and whitespace, the space and `\|` are kept |
| Hashing.Lower | scraper_api/models.py:14-15 | `lower()` keeps the length and lowers each character in place |
| Hashing.IsSpace | scraper_api/models.py:14-15 | definition: the characters `str.split()` and `str.strip()` treat as whitespace, by code point |
| Hashing.TrimLeft | scraper_api/models.py:14-15 | lstrip: no longer than its input and does not start with whitespace |
| Hashing.TrimRight | scraper_api/models.py:14-15 | rstrip: a prefix of its input that does not end with whitespace |
| Hashing.Strip | scraper_api/models.py:14-15 | `strip()` is empty or starts and ends with non-whitespace |
| Hashing.TrimLeftExact | scraper_api/models.py:14-15 | lstrip drops exactly the leading whitespace: the result is a suffix of the input and the dropped prefix is whitespace only |
| Hashing.TrimRightExact | scraper_api/models.py:14-15 | rstrip drops exactly the trailing whitespace: the result is a prefix of the input and the dropped suffix is whitespace only |
| Hashing.StripExact | scraper_api/models.py:14-15 | strip keeps exactly a slice `s[a..b]` of its input, and everything outside it is whitespace |
| Hashing.LeadingWord | scraper_api/models.py:14 | the first word of a string is a whitespace-free prefix that ends at whitespace or at the end |
| Hashing.Split | scraper_api/models.py:14 | definition: `str.split()` with no separator, the maximal runs of non-whitespace in order; fixed on every string by SplitSingleWord, SplitAtRun and BlankTrimsAway |
| Hashing.Join | scraper_api/models.py:14 | definition: `" ".join(words)`; properties in JoinCollapsed and SplitJoinCollapsed |
| Hashing.NormText | scraper_api/models.py:14 | definition of `norm_text`; what it keeps in NormTextRunReplaced and NormTextOfCollapsed, its shape in NormTextShape, NormTextIdempotent and BlankTextIsAbsent |
| Hashing.NormAuthor | scraper_api/models.py:15 | definition of `norm_author`; properties in NormAuthorShape, NormAuthorIdempotent and BlankAuthorIsAbsent |
| Hashing.Payload | scraper_api/models.py:16 | definition: `f"{norm_text}\|{norm_author}"`; see BlankAuthorIsAbsent |
| Hashing.ComputeQuoteHash | scraper_api/models.py:9-17 | definition: the digest of the payload; properties in HashInvariantUnderNormalisation, KeyIgnoresCase, BlankTextIsAbsent and BlankAuthorIsAbsent |
| Hashing.SplitSingleWord | scraper_api/models.py:14 | a non-empty string without whitespace splits to itself as the only word |
| Hashing.SplitAtRun | scraper_api/models.py:14 | any non-empty whitespace run separates words: `(a + g + b).split() == a.split() + b.split()` |
| Hashing.SplitStrip | scraper_api/models.py:14 | stripping before splitting changes nothing |
| Hashing.NormTextRunReplaced | scraper_api/models.py:11-14 | replacing one whitespace run of the text by any other non-empty run keeps `norm_text` |
| Hashing.NormTextOfCollapsed | scraper_api/models.py:11-14 | a text already in collapsed form is only lower-cased: `norm_text` keeps every character up to case |
| Hashing.SplitWords | scraper_api/models.py:14 | every word of `split()` is non-empty and holds no whitespace |
| Hashing.JoinCollapsed | scraper_api/models.py:14 | `" ".join` of such words has single inner spaces and no outer whitespace, and is empty iff there are no words |
| Hashing.SplitCollapses | scraper_api/models.py:14 | `" ".join(s.split())` is collapsed: no leading, trailing or doubled whitespace |
| Hashing.LowerCollapsed | scraper_api/models.py:14 | lowering a collapsed string keeps it collapsed and makes it lower-case |
| Hashing.NormTextShape | scraper_api/models.py:14 | the normalised text is collapsed and lower-case, including for a `None` text |
| Hashing.NormAuthorShape | scraper_api/models.py:15 | the normalised author has no outer whitespace and is lower-case |
| Hashing.SplitJoinCollapsed | scraper_api/models.py:14 | a collapsed string splits and re-joins to itself |
| Hashing.LowerLower | scraper_api/models.py:14-15 | lowering is idempotent |
| Hashing.NormTextIdempotent | scraper_api/models.py:14 | normalising normalised text changes nothing |
| Hashing.NormAuthorIdempotent | scraper_api/models.py:15 | normalising a normalised author changes nothing |
| Hashing.HashInvariantUnderNormalisation | scraper_api/models.py:9-17 | the key of a pair equals the key of its normalised pair |
| Hashing.BlankTrimsAway | scraper_api/models.py:14-15 | an all-whitespace string strips and splits to nothing |
| Hashing.BlankTextIsAbsent | scraper_api/models.py:14-17 | blank (or empty) text normalises to `""` and has the key of `None` text |
| Hashing.BlankAuthorIsAbsent | scraper_api/models.py:15-17 | a blank or empty author has the key of `None`; the payload is then the normalised text followed by `|` |
| Hashing.KeyIgnoresCase | scraper_api/models.py:14-17 | lower-casing text and author beforehand does not change the key |
| Jobs.FinishedStatus | scraper_api/models.py:97-107 | terminal; FAILED when not successful; with success, PARTIAL iff errors>0 and saved>0, SUCCESS iff saved>0 and errors<=0, FAILED iff saved<=0 |
| Jobs.Incremented | scraper_api/models.py:115-121 | the counters grow by exactly the deltas; status and timestamps are untouched |
| Jobs.Started | scraper_api/models.py:86-89 | RUNNING with a start time, counters and finish time untouched |
| Jobs.Finished | scraper_api/models.py:91-108 | finished, terminal, status from success and the row's counters, all else untouched |
| Jobs.FinishedSeeing | scraper_api/models.py:97-108 | the row mark_finished saves from an instance whose counters are another row's: finished, terminal, status from those counters, the row's counters untouched; equal to `Finished` when the counters agree |
| Jobs.IncrementedMonotone | scraper_api/models.py:110-121 | with non-negative deltas no counter decreases |
| Jobs.IncrementedTwice | scraper_api/models.py:110-121 | two flushes equal one flush of the summed deltas |
| Jobs.FinishedIgnoresPreviousStatus | scraper_api/models.py:97-107 | the finished row does not depend on the previous status |
| Jobs.ScrapeJob.Load | scraper_api/tasks.py:47 | a loaded instance agrees with its row |
| Jobs.ScrapeJob.MarkRunning | scraper_api/models.py:86-89 | from any status: RUNNING and started; only those two are saved; an in-step job stays in step |
| Jobs.ScrapeJob.MarkFinished | scraper_api/models.py:91-108 | finished, with the status derived from the instance's own counters; counters unchanged; only status and finish time are saved, so the row becomes `FinishedSeeing` of the instance's attributes |
| Jobs.ScrapeJob.IncrementCounters | scraper_api/models.py:110-121 | as written: the row's counters grow by the deltas and the instance's attributes are unchanged |
| Jobs.ScrapeJob.IncrementCountersAndRefresh | scraper_api/models.py:110-121 | the row grows by the deltas and the instance's counters are then read back from it; an in-step job stays in step |
| Jobs.StaleCountersExample | scraper_api/tasks.py:119-148 | as written, a fresh job that flushed three saved quotes and finished with success has saved==3 and status FAILED |
| Jobs.RefreshedCountersExample | scraper_api/tasks.py:119-148 | with the refresh, the same run ends SUCCESS with saved==3 |
| Jobs.Quote.constructor | scraper_api/models.py:147-152 | a quote holds the given text, author and hash |
| Jobs.Quote.Save | scraper_api/models.py:161-166 | a preset hash is kept; an empty one becomes the key of the text and the author's name (`""` without an author) |
| Jobs.SaveKeepsOwnKey | scraper_api/models.py:163-165 | the key with no author equals the key with the empty name that save uses |
| Crawler.StartUrl | scraper_api/tasks.py:59 | definition: `urljoin(base_url, start_path or "/")`; see CrawlFollowsLinks |
| Crawler.FetchUrl | scraper_api/tasks.py:67-74 | a known URL yields its fetch outcome; an unknown one fails |
| Crawler.ResolveAuthor | scraper_api/tasks.py:88-95 | no author without an author selector; else the i-th author match if there is one, else the match inside the quote node |
| Crawler.IsNextLabel | scraper_api/tasks.py:136 | definition: a truthy `.string` that lowers and strips to "next", `›` or `»` |
| Crawler.FirstNextFrom | scraper_api/tasks.py:136 | the first anchor from `i` on labelled next, `›` or `»`, with none before it |
| Crawler.FirstNextLabelled | scraper_api/tasks.py:136 | none iff no anchor is so labelled; otherwise the first such anchor |
| Crawler.NextUrl | scraper_api/tasks.py:125-138 | with a pagination selector: first match's href, else data-href, else none; otherwise `a[rel=next]`'s href, or, only without such an anchor, the first next-labelled anchor's href; empty hrefs give none; hrefs are joined to the base URL |
| Crawler.WithAuthor | scraper_api/tasks.py:100-101 | get-or-create: the name is present afterwards, nothing is removed, at most one row is added, none if it already existed, and names stay unique |
| Crawler.QuoteKey | scraper_api/tasks.py:102 | the crawl's key is compute_quote_hash of the text and the resolved author |
| Crawler.SaveCandidate | scraper_api/tasks.py:86-115 | a failing candidate adds one "parse" error and nothing else; otherwise exactly one quote is created if its key is not stored and none (quotes unchanged, saved 0) if it is, the new one being the row of its text, its author (none for a falsy name), the page URL and its key; the author is created iff named, non-empty and new |
| Crawler.SaveCandidateStore | scraper_api/tasks.py:98-112 | a candidate adds its key to the stored keys unless it fails, and keeps hashes and names unique |
| Crawler.ProcessFrom | scraper_api/tasks.py:85-116 | the candidate loop only appends rows, and its saved and errors deltas equal the rows it appended |
| Crawler.ProcessFromStore | scraper_api/tasks.py:85-116 | the candidate loop stores exactly the keys of the candidates that do not fail, and keeps the unique constraints |
| Crawler.PageStep | scraper_api/tasks.py:62-143 | definition of one iteration: GET, network break, parse, candidate loop, flush and reset, next URL; properties in PageStepAccounts, PageStepKeys, PageStepChain and PageStepBreak |
| Crawler.RunPages | scraper_api/tasks.py:61-143 | definition of the loop: at most `k` iterations while a URL is pending |
| Crawler.LoopExit | scraper_api/tasks.py:61-143 | how the loop ends; properties in RunPagesAccounts, RunPagesKeys, RunPagesChain and RunPagesBreak |
| Crawler.InitialState | scraper_api/tasks.py:50-60 | definition: the job marked running, zero deltas, the start URL pending |
| Crawler.Crawl | scraper_api/tasks.py:40-157 | definition of the corrected crawl; properties in CrawlAccounting, CrawlKeys, CrawlSavesNewKeys, CrawlTwiceAddsNothing, CrawlFollowsLinks and CrawlNetworkBreak |
| Crawler.CrawlAsWritten | scraper_api/tasks.py:40-157 | definition of the crawl as written, finishing from the loaded counters; properties in AsWrittenOnlyStatusDiffers and AsWrittenFreshJobFails |
| Crawler.RunPagesDone | scraper_api/tasks.py:61-63 | the loop ends at once when the budget is spent or no URL is pending |
| Crawler.RunPagesStep | scraper_api/tasks.py:61-143 | one iteration: continue with the rest of the budget, or end on a network break or a fatal error |
| Crawler.Database.constructor | scraper_api/models.py:141-152 | a database holds the given tables |
| Crawler.Database.QuoteExists | scraper_api/tasks.py:103 | true iff some stored quote has the hash |
| Crawler.Database.GetOrCreateAuthor | scraper_api/tasks.py:101 | the author table becomes get-or-create of the name |
| Crawler.Database.CreateQuote | scraper_api/tasks.py:104-111 | appends the quote, for a hash not yet stored |
| Crawler.Database.RecordError | scraper_api/tasks.py:72 | appends the error row |
| Crawler.SaveCandidateAt | scraper_api/tasks.py:86-115 | the guarded body for quote `i` leaves the database and the page totals as the candidate specification says |
| Crawler.SaveCandidates | scraper_api/tasks.py:85-116 | the imperative candidate loop ends in the state of the candidate-loop specification |
| Crawler.VisitPage | scraper_api/tasks.py:62-143 | one imperative iteration, flushing through increment_counters as written, ends in the outcome of the page-step specification: network break, fatal error or next URL, with the tables, the stored job row and the locals as specified |
| Crawler.PageLoop | scraper_api/tasks.py:58-143 | the imperative page loop ends as the page-loop specification says, with at most `max_pages` iterations |
| Crawler.ScrapeSite | scraper_api/tasks.py:40-157 | corrected scrape_site (the last flush refreshes the instance) leaves the tables, the job row, the re-raised error, the requested URLs and `pages_scraped` as `Crawl` says, and the job in step with its row |
| Crawler.ScrapeSiteAsWritten | scraper_api/tasks.py:40-157 | scrape_site as written leaves the tables, the job row, the re-raised error, the requested URLs and `pages_scraped` as `CrawlAsWritten` says |
| CrawlProperties.PageStepAccounts | scraper_api/tasks.py:67-123 | one page keeps the counter accounting and issues exactly one GET; after a page that continues, nothing is pending |
| CrawlProperties.RunPagesAccounts | scraper_api/tasks.py:61-143 | the page loop keeps the accounting and issues at most one GET per iteration; at a fatal error no saved or error delta is pending |
| CrawlProperties.CrawlAccounting | scraper_api/tasks.py:40-157 | the job is started and finished; its counters grew by the pages fetched and the quote and error rows written; FAILED when raised, else (with the corrected refresh) the status derived from the stored counters; at most `max_pages` GETs; a raised error is the last error row |
| CrawlProperties.PageStepKeys | scraper_api/tasks.py:67-116 | one page stores exactly the keys of its non-failing candidates |
| CrawlProperties.PageStepValid | scraper_api/tasks.py:98-112 | one page keeps hashes and author names unique |
| CrawlProperties.VisitKeysStep | scraper_api/tasks.py:61-138 | the visited keys are those of the first page plus, when the loop continues, those of the rest |
| CrawlProperties.RunPagesKeys | scraper_api/tasks.py:61-143 | the page loop stores exactly the visited keys on top of the stored ones |
| CrawlProperties.RunPagesValid | scraper_api/tasks.py:61-143 | the page loop keeps hashes and author names unique |
| CrawlProperties.CrawlKeys | scraper_api/tasks.py:40-157 | the stored hashes only grow, by exactly the keys the crawl visits; the unique constraints hold afterwards |
| CrawlProperties.UniqueHashesCount | scraper_api/models.py:151 | with unique hashes there are as many stored keys as quotes |
| CrawlProperties.CrawlSavesNewKeys | scraper_api/tasks.py:98-112 | quotes_saved grows by exactly the number of visited keys that were not stored before |
| CrawlProperties.CrawlTwiceAddsNothing | scraper_api/tasks.py:97-112 | the same crawl rerun on what it stored adds no quote and saves 0 |
| CrawlProperties.ChainExtend | scraper_api/tasks.py:125-138 | a chain of next links extends by a URL the last page links to |
| CrawlProperties.PageStepChain | scraper_api/tasks.py:61-138 | one page requests the pending URL and, when it continues, its next link becomes pending; a network break happens only on a page that is not clean |
| CrawlProperties.RunPagesChain | scraper_api/tasks.py:61-138 | the loop only extends its requests, along next links, and requests the pending URL if budget is left; an early stop on a clean page means that page had no next link |
| CrawlProperties.CrawlFollowsLinks | scraper_api/tasks.py:58-143 | a crawl requests nothing iff `max_pages` is 0 or the start URL is empty; otherwise the start URL first, then each next link in turn; ending early on a clean page means no next link |
| CrawlProperties.PageStepBreak | scraper_api/tasks.py:67-74 | a page breaks the loop iff its GET fails, and then adds exactly one "network" error row for its URL with the failure's message, counts it, and changes nothing else but the requested URLs |
| CrawlProperties.RunPagesBreak | scraper_api/tasks.py:61-74 | a failed GET is the loop's last request: the loop then completes without raising, its last error row being that URL's "network" error |
| CrawlProperties.CrawlNetworkBreak | scraper_api/tasks.py:67-74 | when the last URL a crawl requested could not be fetched, the crawl did not raise and its last error row is that URL's "network" error |
| CrawlProperties.AsWrittenOnlyStatusDiffers | scraper_api/tasks.py:40-157 | the crawl as written and the corrected crawl agree on tables, requests, pages and the raised error, and their rows differ only in a status derived from the loaded counters |
| CrawlProperties.AsWrittenFreshJobFails | scraper_api/models.py:97-121 | as written, a job that had saved nothing before ends FAILED, although its stored saved counter grew by the quote rows the crawl wrote |
| Scenarios.TwoPagesSucceed | scraper_api/tasks.py:40-157 | two pages with three quotes (one without an author): with the corrected refresh SUCCESS, fetched 2, saved 3, errors 0, the three rows and the two authors |
| Scenarios.TwoPagesFailAsWritten | scraper_api/tasks.py:40-157 | the same two pages as written: the three rows are stored and counted, yet the job ends FAILED |
| Scenarios.RerunSavesNothing | scraper_api/tasks.py:97-112 | rerunning that crawl keeps the same three rows and saves 0 |
| Scenarios.OnePageBudget | scraper_api/tasks.py:61 | with `max_pages=1` only page 1 is requested although it links to page 2; with the corrected refresh the job ends SUCCESS |
| Scenarios.FirstFetchTimesOut | scraper_api/tasks.py:67-74 | a timeout on page 1 records one network error; fetched 0, saved 0, errors 1, FAILED, nothing raised |
| Scenarios.NoAuthorMatch | scraper_api/tasks.py:88-101 | a quote with no author match is stored without an author and no Author row is created; with the corrected refresh the job ends SUCCESS |
| Scenarios.Repeat | scraper_api/tasks.py:140-143 | `k` copies of a URL |
| Scenarios.SelfLinkLoop | scraper_api/tasks.py:140-143 | from a self-linked page, the loop spends its whole budget re-fetching that page |
| Scenarios.SelfLinkIsRefetched | scraper_api/tasks.py:140-143 | the same-page guard does nothing: a self-linked page is requested `max_pages` times, and with nothing saved the job ends FAILED |
| Scenarios.DoubleSpacedPair | scraper_api/models.py:14 | two one-letter words with a double space between them normalise to the two lowered letters with one space |
| Scenarios.WhitespaceRunCollapses | scraper_api/models.py:11-16 | `"A  b"` normalises to `"a b"`, and `"a  b"` and `"c  d"` give different payloads |
| Scenarios.CaseVariantKeys | scraper_api/models.py:15 | author names that differ only in letter case give the same key |
| Scenarios.CaseVariantAuthors | scraper_api/tasks.py:99-103 | the same quote credited to two case variants is stored once, while both names become Author rows |

## Left out

- HTTP. `requests.get`, the headers, the 10-second timeout, `raise_for_status` and the `time.sleep` rate limit are not modelled. A GET is a lookup in the `Web` map: a page, or a failure with its message. A URL the map does not hold fails with an empty message.
- HTML parsing and CSS selection (BeautifulSoup/lxml). A page is given as the results of the site's selectors. `get_text(separator=" ", strip=True)` is not modelled: quote and author texts are given as its results.
- Exceptions are modelled only at three points:
  - inside a candidate (the per-candidate guard);
  - while parsing the page or applying the quote and author selectors;
  - while looking for the next link.

  An exception from `urljoin`, from a database write or from the counter flush is not modelled.
- URL resolution (`urljoin`, section 5.2 of RFC 3986) is a function parameter. The same-page guard compares a path with itself and does nothing, so it has no counterpart beyond `Scenarios.SelfLinkIsRefetched`.
- SHA-256 (FIPS 180-4) is a function parameter. Its 64-character hex output is not modelled.
- Hashing.Lower: lowers ASCII letters only. Python's full Unicode `lower()` (for example `'É'` to `'é'`) is not modelled. The whitespace set is Python's, by code point.
- Transactions, `select_for_update` and concurrent workers. Each database call is one atomic step.
- Crawler.Database.CreateQuote: requires the hash to be new, because the crawl checks first. The IntegrityError of a race between two workers is not modelled.
- The site and `saved_by_job` columns of a Quote are left implicit: they are the same for every row one crawl writes. `created_at`/`updated_at` are not modelled. The start and finish timestamps are modelled as set or not set.
- `pages_scraped` is returned by `Crawler.ScrapeSite` but, as in the code, not persisted. The job's `meta` column is not modelled.
- Logging, the returned status dictionary, the Celery retry base class, `enqueue_scrape_job`, serializers, views, admin and URL routing are not modelled.
- `quote_selector` is not a field of `Crawler.Site`: its matches are given as the page's quote nodes.
- The job counters `quotes_fetched`, `quotes_saved` and `errors_count` are `int`, unbounded. The database's integer column width (models.py:78-80) is not modelled, and neither is a counter overflowing it.
- `max_pages` is a `nat`. The `MinValueValidator(1)` on it is not assumed, so a budget of 0 is allowed and requests nothing.

## Findings

| source | as written | input that shows it | evidently intended | confidence | as-written member | corrected member |
|---|---|---|---|---|---|---|
| scraper_api/models.py:115-121 | increment_counters adds the deltas to a freshly fetched copy of the job and saves that copy. The job object held by scrape_site keeps the counters it was loaded with, and mark_finished (models.py:102-107) derives the status from those stale counters. | A new job whose first page stores three quotes: the flush writes saved=3, and mark_finished(success=True) then sees quotes_saved=0 and writes FAILED. | The status reflects the stored totals: SUCCESS for that job. | not executed | Crawler.ScrapeSiteAsWritten (with Jobs.StaleCountersExample, Scenarios.TwoPagesFailAsWritten and CrawlProperties.AsWrittenFreshJobFails) | Crawler.ScrapeSite (whose last flush is Jobs.ScrapeJob.IncrementCountersAndRefresh; with Jobs.RefreshedCountersExample and Scenarios.TwoPagesSucceed) |
