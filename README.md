# broken-link: a verified model of the crawler core

broken-link crawls a website from a base URL and reports every link it finds.
Each page of the site is checked, and so is each external link. Each result
is appended to a per-task result list. The model covers five pieces of the
repository:

- **URL normalisation.** `normalize_url` (app/utils/url_utils.py, copied in
  tasks.py) is modelled on top of Python's `urlparse`.
  - The parser is modelled after CPython 3.12: scheme, `//netloc`, `#fragment`,
    `?query`, and `;params` for the `uses_params` schemes.
  - `NormalizeUrl` returns `None` exactly where `urlparse` raises
    "Invalid IPv6 URL".
  - Module `UrlUtils` holds the definitions and module `UrlProperties` the
    proofs.
- **The three-tier link check.** `check_link` and `check_link_with_selenium`
  (module `LinkCheck`): HEAD, then GET, then a headless browser. They are
  functions over what each attempt returned or raised.
- **The full crawler's traversal.** `fetch_and_process_url`,
  `check_external_link`, `store_error` and `async_crawl_website` in
  app/services/crawler.py.
  - Module `Crawler` has specification functions over a crawl state. That state
    is `visited_urls`, `to_visit`, `checked_external` and the result list.
  - Its class `Crawler.Crawler` keeps the same state in fields. Its methods are
    proved to leave the state the functions give.
  - A batch runs as `asyncio.gather` starts it: every entry's visited check
    and mark first, then the pages of the entries that passed, one after
    another.
  - Termination is proved on a finite web.
  - Module `CrawlerProofs` proves three results:
    - the crawl stays on the base URL's host;
    - each external URL is recorded once;
    - every page reachable from the seed through internal links is visited
      once the crawl has finished.
- **The job.** `crawl_website` in app/services/crawler.py (module `CrawlJob`),
  as one trace of events in order:
  - the STARTED, SUCCESS and FAILURE states;
  - the records pushed, the fatal error record among them;
  - closing the browser registry.
- **The GET-only crawler of tasks.py.** Module `Tasks`, with specification
  functions, class `Tasks.TaskCrawler` and its own termination proof.
- **The per-process WebDriver registry.** `SeleniumManager` in
  app/utils/selenium_manager.py (module `DriverRegistry`), as specification
  functions and the class `DriverRegistry.Registry`.

Everything that cannot be modelled is given to the model as a value:
- The network is a finite web: a map from URL to the HEAD, GET and browser
  outcome of the page and to its text. Text is its list of hrefs in document
  order, or the exception reading it raised. URLs outside the map raise on
  every attempt.
- `urljoin` is an uninterpreted function carried by the web.
- The browser is the outcome of loading the page.
- The Redis list is a `seq` of records.
- Driver creation is the outcome of each attempt and the time it used.
- The liveness probe is a predicate on drivers.
- The browser installation check is the output of the version command.

Behaviours of the code that the model keeps:
- Normalisation accepts every scheme. A `mailto:` address becomes
  `mailto://…` and is then checked as an external link.
- Every trailing `/` is stripped, not just one.
- The browser registry is closed only after a crawl that completed. It is not
  closed on the failure path.
- A rendered page's details are "Page loaded successfully".

## Model

| member | source | states |
|---|---|---|
| UrlUtils.NormalizeUrl | app/utils/url_utils.py:3-6 | the normal form is never empty, never ends with '/' and holds no upper-case letter |
| UrlProperties.ParseCompose | app/utils/url_utils.py:5 | urlparse returns the components of any well-formed URL unchanged (compose, then parse, is the identity) |
| UrlProperties.UrlParseLower | app/utils/url_utils.py:5 | upper-case letters never decide where urlparse splits: parsing the lower-cased URL succeeds exactly when parsing the URL does, and gives the lower-cased components |
| UrlProperties.NormalizeComposed | app/utils/url_utils.py:5-6 | only scheme, "://", netloc and path reach the output; params, query and fragment never do |
| UrlProperties.NormalFormStripsPath | app/utils/url_utils.py:6 | the output depends on the path only through the path with its trailing slashes stripped |
| UrlProperties.NormalizeIgnoresCase | app/utils/url_utils.py:6 | lower-casing the input first gives the same result, or the same failure |
| UrlProperties.NormalizeIgnoresSlashesQueryFragment | app/utils/url_utils.py:3-6 | URLs that differ only in trailing slashes, params, query or fragment have the same normal form |
| UrlProperties.NormalizeIgnoresTrailingSlashes | app/utils/url_utils.py:6 | appending any number of '/' to the path leaves the normal form unchanged |
| UrlProperties.NormalizeFailsOnlyOnBrackets | app/utils/url_utils.py:5 | normalisation fails if and only if the netloc has an unbalanced '[' or ']', so no scheme is rejected |
| UrlProperties.OpaqueUrlGetsSlashes | app/utils/url_utils.py:5-6 | a lower-case `scheme:rest` whose `rest` holds no '/', '?', '#' or ';' (a `mailto:` address) comes out as `scheme://rest` |
| UrlProperties.NormalizeIdempotent | app/utils/url_utils.py:3-6 | for a URL with a scheme, a host and no ';' in its path, normalising twice equals normalising once |
| UrlProperties.NormalizeNotIdempotentWithSemicolon | app/utils/url_utils.py:5-6 | for an http-like scheme, `s://h/x;y/` normalises to `s://h/x;y`, which normalises to `s://h/x`: idempotence needs the ';' hypothesis |
| LinkCheck.CheckWithBrowser | app/services/crawler.py:189-212 | status 200 if and only if the browser rendered a non-empty URL, "error" otherwise; the final URL is the browser's; an exception gives the requested URL and the Selenium message; "Page loaded successfully" if and only if 200 |
| LinkCheck.CheckLink | app/services/crawler.py:165-187 | a HEAD status outside {400, 403, 405} is final ("Checked with HEAD"); otherwise a GET status outside the set is final ("Checked with GET"); a raised HEAD or GET, or a GET in the set, gives exactly the browser check's result |
| LinkCheck.DetailsNameTheTier | app/services/crawler.py:165-187 | the details string tells which tier decided, each in both directions: HEAD settled, GET settled after a refused HEAD, or the browser |
| LinkCheck.BrowserDetailsDistinct | app/services/crawler.py:204-212 | the browser's details strings differ from both HTTP details strings |
| LinkCheck.NeverRetryStatus | app/services/crawler.py:172-183 | no status in {400, 403, 405} ever comes out of the check |
| LinkCheck.HeadSettledIgnoresLaterTiers | app/services/crawler.py:169-173 | when HEAD settles, the GET and browser outcomes do not affect the verdict |
| LinkCheck.HeadRaisedSkipsGet | app/services/crawler.py:185-187 | when HEAD raised, the GET outcome does not affect the verdict |
| LinkCheck.BrowserStatusMatchesUrl | app/services/crawler.py:202-204 | when the browser decides and the page rendered, the final URL is the browser's, and the status is 200 exactly when it is non-empty |
| Types.BatchLength | app/services/crawler.py:97-98 | a batch takes at most 10 entries, at least one from a non-empty frontier, and all of them when fewer than 10 remain |
| Crawler.Classify | app/services/crawler.py:144-153 | a resolved link is internal if and only if it normalises and its netloc equals the netloc of the un-normalised base URL; external links have a different netloc; a link that fails to normalise is an error |
| Crawler.InternalTargets | app/services/crawler.py:147-149 | every internal link of a page is among its internal targets |
| Crawler.AfterLink | app/services/crawler.py:143-156 | a link leaves the visited set alone and only appends to the frontier and result list, and only adds to the external set |
| Crawler.AfterPage | app/services/crawler.py:122-159 | once its URL is marked, a page leaves the visited set alone, and the frontier, external set and result list only grow by appending |
| Crawler.AfterFetch | app/services/crawler.py:115-163 | a frontier entry adds exactly its URL to the visited set, and everything else only grows by appending |
| Crawler.PageRecords | app/services/crawler.py:124-159 | a page's first record is its check's final URL, status and details, with type internal and the entry's parent; a status other than 200 adds nothing more; a page text that raised adds exactly the HTML error record; otherwise its links are processed |
| Crawler.LinkEffects | app/services/crawler.py:143-156 | a link that fails to resolve appends exactly its error record with the page as parent; an internal link not visited is queued with the page as parent, and a visited one changes nothing; an external link not checked is added to the external set and its record appended, and a checked one changes nothing |
| Crawler.LinksNameTheirPage | app/services/crawler.py:142-156 | every record a page's links append and every entry they queue names the page as parent, and no queued URL was visited |
| Types.Claimed | app/services/crawler.py:118-120 | the entries of a batch that pass the visited check, in batch order: their URLs are exactly the batch's unvisited ones, each once |
| Types.FirstEntryIsClaimed | app/services/crawler.py:118-120 | the first entry of a batch for an unvisited URL passes the check |
| Crawler.AfterBatch | app/services/crawler.py:100-103 | a batch adds exactly its URLs to the visited set, and everything else only grows by appending |
| Crawler.SingleEntryBatch | app/services/crawler.py:100-120 | a batch of one entry does what that entry's `fetch_and_process_url` run on its own does |
| Crawler.BatchQueuesNoneOfItsOwn | app/services/crawler.py:118-149 | a batch queues no URL visited before it and none of its own, since all of them are marked before any page is read |
| Crawler.VisitedBatchIsSkipped | app/services/crawler.py:118-119 | a batch whose URLs are all visited changes nothing |
| Crawler.RoundProgress | app/services/crawler.py:96-101 | each round keeps the frontier inside the finite set of known URLs and shrinks the measure: fewer unvisited known URLs, or the same and a shorter frontier |
| Crawler.AfterRun | app/services/crawler.py:96-108 | the loop terminates with an empty frontier; every URL visited or queued at the start is visited at the end; the external set and result list only grow |
| Crawler.Crawl | app/services/crawler.py:89-113 | the crawl raises if and only if the base URL does not normalise (with "Invalid IPv6 URL"); otherwise the frontier ends empty and the seed is visited |
| Crawler.Crawler.StoreError | app/services/crawler.py:19-29 | one error record with the given url, parent, details and type is appended, and nothing else changes |
| Crawler.Crawler.CheckExternalLink | app/services/crawler.py:214-228 | one "external" record with the link check's verdict is appended, and nothing else changes |
| Crawler.Crawler.ProcessLink | app/services/crawler.py:143-156 | the new state is `AfterLink` of the old one, whose three cases `LinkEffects` states |
| Crawler.Crawler.ClaimUrl | app/services/crawler.py:118-120 | the task goes on exactly when the URL was not visited, and the URL is marked visited either way |
| Crawler.Crawler.ProcessPage | app/services/crawler.py:122-159 | the new state is `AfterPage` of the old one, whose records `PageRecords` states |
| Crawler.Crawler.FetchAndProcessUrl | app/services/crawler.py:115-163 | the new state is `AfterFetch` of the old one: the claim, then the page |
| Crawler.Crawler.GatherBatch | app/services/crawler.py:100-103 | the new state is `AfterBatch` of the old one: all claims first, then the pages of the claimed entries |
| Crawler.Crawler.AsyncCrawlWebsite | app/services/crawler.py:89-113 | the loop ends in the state `Crawl` gives, or raises exactly the exception `Crawl` gives and leaves the state fresh |
| CrawlerProofs.RunSound | app/services/crawler.py:96-108 | the loop keeps this invariant: visited and queued URLs are the seed or internal, checked URLs are external, and there is one external record per checked URL |
| CrawlerProofs.CrawlStaysOnHost | app/services/crawler.py:144-153 | after a finished crawl, every visited URL is the seed or on the base URL's host, every checked URL is external, and the number of external records equals the number of distinct external URLs |
| CrawlerProofs.CrawlIsClosed | app/services/crawler.py:138-153 | after a finished crawl, every internal link of every page that answered 200 is visited, and every external link is checked |
| CrawlerProofs.ReachableIsVisited | app/services/crawler.py:89-163 | every page reachable from the seed through internal links of pages that answered 200 is visited |
| CrawlerProofs.FetchIsOnce | app/services/crawler.py:118-120 | once an entry has been fetched, alone or as a batch, a later entry for the same URL, from any parent, changes nothing, so each URL is checked at most once |
| CrawlJob.InstallError | app/services/crawler.py:48-50 | the check leads to an exception if and only if it did not report "installed"; "not installed" gives "Firefox is not properly installed" |
| CrawlJob.RunJob | app/services/crawler.py:31-87 | the first event is STARTED and no later one is; the states reported are STARTED then exactly one of SUCCESS or FAILURE, which is the last event; the job completes if and only if the browser is installed and the base URL normalises; the registry is closed if and only if it completed, after every record of the crawl and just before SUCCESS, and the records pushed are the crawl's; on failure the only record pushed is the fatal error for the base URL with the exception's message, just before FAILURE |
| CrawlJob.CompletedJobStaysOnHost | app/services/crawler.py:52-68 | a completed job's result list has one external record per distinct external URL, and every visited page is the seed or on the host |
| CrawlJob.JobAsWrittenAlwaysFails | app/services/crawler.py:48-87 | as written, every job fails before any page is fetched, with the AttributeError as its only record |
| CrawlJob.CorrectedJobRunsTheCrawl | app/services/crawler.py:48-68 | with the defined check and the browser installed, the job completes exactly when the base URL normalises, and its result list is the crawl's, and it closes the registry; without the browser it fails with the installation message |
| CrawlJob.CrawlWebsite | app/services/crawler.py:31-87 | the job, run with the installation check the manager defines (the corrected job of the finding below), leaves the outcome `RunJob` gives; the registry is closed for this process exactly when the trace holds the close, and is untouched otherwise |
| Tasks.ExternalRecord | tasks.py:67-77 | one "external" record for the requested URL, with the parent page and no details; status "error" if and only if the GET raised |
| Tasks.AfterTaskLink | tasks.py:51-62 | a link only appends to the frontier and result list; the external records keep pace with the external set; the page's handling is aborted if and only if the link fails to resolve, and then nothing changes; its exact effects are stated by `TaskLinkEffects` |
| Tasks.TaskLinkEffects | tasks.py:51-62 | a link that fails to resolve aborts with nothing changed; an unvisited internal link is queued as `(abs_url, url)` with the page as parent, a visited one changes nothing; an external link not yet checked is added to the checked set with one external record naming the page, a checked one changes nothing |
| Tasks.TaskLinksNameTheirPage | tasks.py:50-62 | every record and frontier entry a page's links append names the page as parent, and no queued URL was visited |
| Tasks.TaskLinksCoverTheirTargets | tasks.py:50-62 | when no link raises, every internal target of the page ends visited or queued and every external target ends in the checked set |
| Tasks.LinksRaiseIffOneIsBroken | tasks.py:50-65 | handling a page's links raises if and only if one of them fails to resolve |
| Tasks.RaisedLinkEndsThePage | tasks.py:50-65 | once a link has raised, the links after it change nothing |
| Tasks.AfterBody | tasks.py:48-65 | handling a page's text leaves the visited set alone, only appends to the frontier and result list, queues only the page's own internal targets, and keeps the external records in pace with the external set; `BodyEffects` states the lower bound |
| Tasks.BodyEffects | tasks.py:48-62 | with no broken link, every internal target of the page is visited or queued, every external target checked, everything appended names the page, and only unvisited URLs are queued |
| Tasks.AfterResponse | tasks.py:39-48 | a GET that answered adds exactly the normalised final URL to the visited set |
| Tasks.AfterTaskPage | tasks.py:38-65 | once its URL is marked, a page adds exactly its normalised redirect target, if any, to the visited set; the frontier gains only the page's internal targets; the external records keep pace with the external set |
| Tasks.AfterTaskFetch | tasks.py:32-65 | an unvisited entry adds its URL and the normalised redirect target to the visited set; a visited one changes nothing; the frontier gains only the page's internal targets |
| Tasks.FetchRecords | tasks.py:38-65 | a raised GET, or a final URL that does not normalise, appends only the error record for the URL; otherwise the final URL is marked and its record comes first; a status other than 200 adds nothing more, so no link is looked at, and 200 goes on to the page's text |
| Tasks.BodyRecords | tasks.py:48-65 | a text that raised appends only the error record for the URL; otherwise the page's links are processed, and the error record comes last exactly when one of them fails to resolve |
| Tasks.AfterTaskBatch | tasks.py:27-30 | a batch visits all its URLs, and the result list and frontier only grow by appending |
| Tasks.RedirectTargetIsSkipped | tasks.py:34-42 | a redirect target is marked visited, so an entry for it dequeued in a later batch is skipped |
| Tasks.SameBatchTargetIsFetched | tasks.py:29-46 | when `a` redirects to `b` and both are in one batch, `b` is fetched anyway, and the result list gets two records for `b` |
| Tasks.TaskRoundProgress | tasks.py:24-30 | each round keeps the frontier inside the known URLs, redirect targets included, and shrinks the measure |
| Tasks.AfterTaskRun | tasks.py:24-30 | the loop terminates with an empty frontier; every URL visited or queued at the start is visited at the end; the external records keep pace with the external set |
| Tasks.TaskCrawl | tasks.py:18-30 | the crawl raises if and only if the base URL does not normalise; otherwise the frontier ends empty, the seed is visited, and the number of external records is the number of distinct external URLs |
| Tasks.TaskCrawler.CheckExternalLink | tasks.py:67-77 | appends `ExternalRecord` and changes nothing else |
| Tasks.TaskCrawler.ProcessLink | tasks.py:51-62 | the new state and the abort flag are what `AfterTaskLink` gives, whose cases `TaskLinkEffects` states |
| Tasks.TaskCrawler.ProcessLinks | tasks.py:50-62 | the loop stops at the first link that raises, leaving what `AfterTaskLinks` gives, whose appended entries `TaskLinksNameTheirPage` and `TaskLinksCoverTheirTargets` state |
| Tasks.TaskCrawler.ClaimUrl | tasks.py:34-36 | the task goes on exactly when the URL was not visited, and the URL is marked visited either way |
| Tasks.TaskCrawler.ProcessPage | tasks.py:38-65 | the new state is `AfterTaskPage` of the old one, whose records `FetchRecords` and `BodyRecords` state |
| Tasks.TaskCrawler.FetchAndProcessUrl | tasks.py:32-65 | the new state is `AfterTaskFetch` of the old one |
| Tasks.TaskCrawler.GatherBatch | tasks.py:29-30 | the new state is `AfterTaskBatch` of the old one: all claims first, then the pages of the claimed entries |
| Tasks.TaskCrawler.AsyncCrawlWebsite | tasks.py:18-30 | the loop ends in the state `TaskCrawl` gives, or raises its exception |
| Tasks.CrawlWebsite | tasks.py:12-16 | the task's outcome is `TaskCrawl` |
| DriverRegistry.Retry | app/utils/selenium_manager.py:60-74 | the loop stops on the first success, whose driver is kept, after only failed attempts; it makes at most 30 failed attempts because each costs at least the 1-second pause |
| DriverRegistry.InstantFailuresTimeOutAfterThirty | app/utils/selenium_manager.py:60-74 | when every attempt fails at once, exactly 30 attempts are made before the timeout |
| DriverRegistry.FirstSuccessWins | app/utils/selenium_manager.py:61-64 | the first attempt that succeeds within the budget gives the driver |
| DriverRegistry.AfterNew | app/utils/selenium_manager.py:18-25 | `__new__` returns the stored instance for the pid unchanged, or creates one without a driver; other pids are untouched |
| DriverRegistry.IsDriverAlive | app/utils/selenium_manager.py:37-46 | alive if and only if there is a driver and its window-handle probe succeeds |
| DriverRegistry.AfterCreate | app/utils/selenium_manager.py:48-74 | the old driver, if any, is quit first; the pid then holds the first successful driver, or no driver together with the timeout message; other pids are untouched |
| DriverRegistry.AfterGetInstance | app/utils/selenium_manager.py:30-35 | on normal return the driver handed out is the one the instance holds |
| DriverRegistry.AfterClose | app/utils/selenium_manager.py:176-191 | a pid holding a driver gets it quit and its entry deleted; a missing pid, or a pid without a driver, changes nothing |
| DriverRegistry.NewIsIdempotent | app/utils/selenium_manager.py:18-25 | one instance per process: asking again returns the same instance and keeps its driver |
| DriverRegistry.LiveDriverIsReused | app/utils/selenium_manager.py:33-35 | a live driver is handed back unchanged, nothing is quit, and the creation attempts are never consulted |
| DriverRegistry.DeadDriverIsQuit | app/utils/selenium_manager.py:33-57 | a dead driver is quit before it is replaced; the call succeeds if and only if creation succeeds, with the new driver stored; otherwise the timeout message and no driver |
| DriverRegistry.MissingDriverIsCreated | app/utils/selenium_manager.py:30-35 | a process without an instance, or whose driver is None, gets a new one: nothing is quit; it succeeds if and only if creation succeeds, with the new driver stored; otherwise the timeout message and no driver |
| DriverRegistry.OtherProcessesUntouched | app/utils/selenium_manager.py:18-191 | `get_instance` and `close` in one process leave every other process's instance as it was |
| DriverRegistry.CloseIsIdempotent | app/utils/selenium_manager.py:176-191 | closing twice equals closing once |
| DriverRegistry.CloseQuitsAcquiredDriver | app/utils/selenium_manager.py:30-191 | after a successful `get_instance`, `close` quits exactly the driver it handed out and deletes the entry |
| DriverRegistry.Registry.New | app/utils/selenium_manager.py:18-25 | the new state is `AfterNew` of the old one |
| DriverRegistry.Registry.CreateNewDriver | app/utils/selenium_manager.py:48-74 | the retry loop leaves the state and the message `AfterCreate` gives |
| DriverRegistry.Registry.GetInstance | app/utils/selenium_manager.py:30-35 | the registry and the driver or error are what `AfterGetInstance` gives, whose three cases `LiveDriverIsReused`, `DeadDriverIsQuit` and `MissingDriverIsCreated` state |
| DriverRegistry.Registry.Close | app/utils/selenium_manager.py:176-191 | the new state is `AfterClose` of the old one |

## Left out

- Concurrency: `asyncio.gather` starts the tasks of a batch in order, and each runs up to its first `await`: `check_link` at app/services/crawler.py:124, the GET at tasks.py:39. So every visited check and mark of a batch comes first, and the model does this.
- Interleavings after the first `await`: the model runs the claimed tasks to the end one after another, in batch order. That is one schedule the program can take. Other completion orders are not modelled. They can reorder the result list. They can decide whether a link is queued, when another task's redirect target is marked at tasks.py:42. They can change which page the single check of a shared external link names as parent.
- The lock in `SeleniumManager` is not modelled.
- I/O: HTTP requests, the browser, Redis, subprocesses, the clock and logging are parameters or are left out. Redis, logging and JSON encoding are taken never to raise. The handlers that only such failures reach are not modelled: app/services/crawler.py:109-113, app/services/crawler.py:160-163 and app/services/crawler.py:229-232.
- `urljoin` is an uninterpreted function of the web. Resolution by section 5.2 of RFC 3986 is not modelled.
- urlparse omissions:
  - stripping of surrounding whitespace and control characters;
  - removal of tab and newline;
  - validation inside brackets and of the port;
  - the NFKC netloc check.
- `lower()` maps only ASCII letters.
- HTML parsing: each page's text is its list of hrefs, or the exception reading it raised. In app/services/crawler.py this text comes from a second GET (line 140). In tasks.py it comes from the same response.
- Browser checks: the full crawler's browser check is the outcome of loading the page. It does not go through the registry's `get_instance`. A job's registry is therefore touched only by `close`.
- Task states: Celery's `update_state` metadata (task id, result, traceback, timestamps) is left out. Only the sequence of states is kept.
- Not modelled at all:
  - `get_headers`, a constant dictionary;
  - `_create_driver`, which is browser option plumbing;
  - the FastAPI routes, schemas and Celery configuration.
- `quit()` raising: the model records a quit attempt for every quit call, whether or not it raised. The source swallows the error, so the state change is the same.
- One code path inside the retry loop can never run: quitting the driver in its `except` branch (app/utils/selenium_manager.py:67-71). The driver is always `None` there, and the loop invariant states this.
- Wall-clock time: the retry loop's elapsed time is the sum of each failed attempt's cost plus one second per pause. Clock drift is not modelled.

## Findings

| source | as written | input that shows it | evidently intended | confidence | as-written member | corrected member |
|---|---|---|---|---|---|---|
| app/services/crawler.py:48-50 | the job calls `SeleniumManager.check_firefox_installation`, which the class does not define, so an AttributeError is raised before the crawl | any job, for example `crawl_website(task_id, "https://example.com")` | check the browser the manager drives with `check_chrome_installation` (app/utils/selenium_manager.py:76-89), then crawl | not executed | CrawlJob.JobAsWrittenAlwaysFails | CrawlJob.CorrectedJobRunsTheCrawl |
