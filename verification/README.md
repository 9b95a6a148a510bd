# Breadth-first crawl frontier, modelled in Dafny

This project models the frontier engine of a breadth-first web crawler
(`legacy-phantomjs-crawler-scraper/src/crawler.js`). It covers four parts:

- **Seed reading (`readInputUrls`).** The contents of the seed file are split into lines. Each line
  is trimmed. Blank lines and lines that start with `#` are dropped. If nothing is left, or the
  file cannot be read, a copy of `options.startUrls` is used when it is an array (a missing or
  falsy value counts as the empty array); any other value gives the empty list.
- **Link filter (`filterDiscoveredUrls`).** It turns the links discovered on one page into child
  jobs. It applies a depth gate on the parent's depth and trims every entry. It skips non-strings
  and blanks, and it skips URLs that are visited or already emitted from the same page. It stops
  at a per-page cap, which defaults to 10.
- **Option merge (`createCrawler`).** The settings are copied key by key, then the caller's
  options are copied over them.
- **Orchestrator (`run`).** It aborts when there are no seeds. Otherwise it seeds a FIFO queue with
  START jobs at depth 0, then loops until the queue is empty:
  - it dequeues the head job;
  - it skips the job if its URL is visited;
  - otherwise it marks the URL visited and executes the job;
  - on failure it counts one failure and continues;
  - on success it records the page, counts it, and pushes the filtered children at the tail,
    counting each one as queued.

Page execution (`crawlSingle` with its headless browser) is an oracle. The model takes a
`map<string, Fetch>` from URL to outcome: `Threw`, or `Loaded(links)`. A URL the map does not hold
throws. The map is finite, so the URLs a run can ever see form a finite universe, which gives the
crawl loop its termination measure without fuel.

Modules:

- `Wrappers`: `Option` and `Result`.
- `Text`: an ASCII `trim` and line splitting.
- `Config`: option values, the merge and the option readers.
- `Seeds`: seed parsing.
- `LinkFilter`: the filter, its specification function `Children` and its properties.
- `Crawler`: the loop state, one turn as a function (`Turn`) and as a method (`Step`), the loop
  invariant and `Run`.
- `Scenarios`: concrete instances.

A URL can be enqueued twice before its first dequeue: a seed listed twice, or a link found on two
pages. The second copy is then dequeued and skipped. So the model proves that no URL is
*executed* twice (`DistinctUrls` of the executed jobs), and that the number of executed jobs
equals the number of distinct dequeued URLs.

## Model

| member | source | states |
|---|---|---|
| Text.Trim | legacy-phantomjs-crawler-scraper/src/crawler.js:23 | The result has no whitespace at either end, and an already trimmed string is returned unchanged |
| Text.TrimIsSlice | legacy-phantomjs-crawler-scraper/src/crawler.js:23 | Trimming keeps one contiguous slice of the input and drops only whitespace before and after it |
| Text.TrimEmpty | legacy-phantomjs-crawler-scraper/src/crawler.js:70-71 | Trimming gives "" exactly when the input is all whitespace, which is when the filter skips a blank entry |
| Text.TrimIdempotent | legacy-phantomjs-crawler-scraper/src/crawler.js:23 | Trimming twice equals trimming once |
| Text.SplitLines | legacy-phantomjs-crawler-scraper/src/crawler.js:21 | Splitting gives at least one piece, and no piece contains a line feed |
| Text.JoinSplitLines | legacy-phantomjs-crawler-scraper/src/crawler.js:21 | Splitting loses nothing: joining the pieces with line feeds gives back the input |
| Text.SplitLinesCrLf | legacy-phantomjs-crawler-scraper/src/crawler.js:21 | Splitting at `\r?\n` gives as many pieces as splitting at `\n`, none contains a line feed, and the last piece is left as it is |
| Text.SplitLinesCrLfRoundTrip | legacy-phantomjs-crawler-scraper/src/crawler.js:21 | Round trip of `split(/\r?\n/)`: the pieces joined with the matched separators give back the input. Each separator is `\n` or `\r\n`, and a bare `\n` never follows a piece ending in a carriage return, as the leftmost match requires; this fixes the pieces uniquely |
| Config.Merge | legacy-phantomjs-crawler-scraper/src/crawler.js:211-223 | The merged keys are the settings keys plus the custom keys. A custom key takes the custom value; any other key keeps the settings value. The result is the right-biased map union |
| Config.MaxDepthOf | legacy-phantomjs-crawler-scraper/src/crawler.js:47-50 | A non-negative numeric `maxDepth` is the limit; anything else gives 0, meaning no limit |
| Config.MaxLinksPerPageOf | legacy-phantomjs-crawler-scraper/src/crawler.js:56-59 | The cap is at least 1: a positive numeric `maxLinksPerPage` is used as given, anything else gives 10 |
| Config.Truthy | legacy-phantomjs-crawler-scraper/src/crawler.js:233 | JavaScript truthiness, which decides whether `startUrls` falls back to the empty list: arrays and objects are truthy, `undefined` and `null` are not |
| Config.StartUrlsFallback | legacy-phantomjs-crawler-scraper/src/crawler.js:233 | For `startUrls` or the empty list, a falsy value gives the empty list, an array gives its items, and any other truthy value is not an array |
| Seeds.KeepLine | legacy-phantomjs-crawler-scraper/src/crawler.js:26 | An empty trimmed line and a line starting with `#` are dropped |
| Seeds.ParseSeedLines | legacy-phantomjs-crawler-scraper/src/crawler.js:22-27 | Every kept line is trimmed, non-empty and does not start with `#`, and there are never more of them than lines |
| Seeds.ParseSeedLinesAppend | legacy-phantomjs-crawler-scraper/src/crawler.js:22-27 | Parsing distributes over concatenation of lines, so kept lines stay in file order |
| Seeds.ParseSeedLinesMembership | legacy-phantomjs-crawler-scraper/src/crawler.js:22-27 | A URL is kept exactly when it is a usable line and some line trims to it |
| Seeds.FileSeeds | legacy-phantomjs-crawler-scraper/src/crawler.js:19-27 | The URLs a file's contents yield: no more than its lines, each trimmed, non-empty and not a comment |
| Seeds.ReadInputUrls | legacy-phantomjs-crawler-scraper/src/crawler.js:16-37 | A non-empty parse of the file wins. A missing or fruitless file gives the fallback when it is an array, and `[]` otherwise. An empty result means the file gave nothing and the fallback is empty or not an array |
| Seeds.ReadInputUrlsFromFile | legacy-phantomjs-crawler-scraper/src/crawler.js:19-27 | URLs taken from the file are trimmed, non-empty, not comments, and each comes from a line of the file |
| Seeds.ReadInputUrlsFallback | legacy-phantomjs-crawler-scraper/src/crawler.js:32-34 | With no file, or a file without a usable line, the result is the fallback list unchanged |
| LinkFilter.Normalized | legacy-phantomjs-crawler-scraper/src/crawler.js:67-70 | A discovered entry normalises to a trimmed string, and an entry that is not a string to "", which is skipped |
| LinkFilter.Eligible | legacy-phantomjs-crawler-scraper/src/crawler.js:64-76 | The uncapped filter output is pairwise distinct, non-empty, trimmed and unvisited, and no longer than the input |
| LinkFilter.EligibleMembership | legacy-phantomjs-crawler-scraper/src/crawler.js:67-76 | A URL is emitted exactly when it is non-empty, unvisited and some entry normalises to it |
| LinkFilter.EligiblePrefix | legacy-phantomjs-crawler-scraper/src/crawler.js:64-83 | Filtering a prefix of the entries gives a prefix of the output, so later entries never displace earlier ones |
| LinkFilter.EligibleOrder | legacy-phantomjs-crawler-scraper/src/crawler.js:64-83 | URLs come out in input order of their first occurrences |
| LinkFilter.Children | legacy-phantomjs-crawler-scraper/src/crawler.js:47-86 | The specification of `filterDiscoveredUrls`: never more children than the cap or than discovered entries. Its full characterisation is in the `Children*` and `Eligible*` lemmas |
| LinkFilter.ChildrenShape | legacy-phantomjs-crawler-scraper/src/crawler.js:47-83 | Depth gate: nothing at or past a positive limit. Branch bound: at most the cap. Each child is one level deeper and FOLLOWED, so within a positive limit. Child URLs are trimmed, non-empty, unvisited and distinct |
| LinkFilter.ChildrenComplete | legacy-phantomjs-crawler-scraper/src/crawler.js:64-83 | Every child comes from an entry and is unvisited. When the eligible URLs fit under the cap, every eligible entry yields a child |
| LinkFilter.ChildrenCapOne | legacy-phantomjs-crawler-scraper/src/crawler.js:56-83 | With a cap of 1, the output is exactly the first eligible entry |
| LinkFilter.FilterDiscoveredUrls | legacy-phantomjs-crawler-scraper/src/crawler.js:43-86 | The loop with its `seen` set and early stop at the cap computes `Children`: the first `maxPerPage` eligible URLs as FOLLOWED jobs one level deeper, or none past the depth gate |
| Crawler.Execute | legacy-phantomjs-crawler-scraper/src/crawler.js:266-273 | The page executor as an oracle: a page loads only for a URL the oracle knows, with the links the oracle gives; any other URL throws |
| Crawler.Pages | legacy-phantomjs-crawler-scraper/src/crawler.js:266-276 | There is at most one page record per executed job |
| Crawler.PagesMembership | legacy-phantomjs-crawler-scraper/src/crawler.js:266-297 | Failure isolation: a page record exists exactly for the executed jobs that did not throw, carrying their URL and label |
| Crawler.Turn | legacy-phantomjs-crawler-scraper/src/crawler.js:259-297 | One turn of the loop as a function: after it the head's URL is always visited, and at most one page record is added. TurnFacts and TurnPreserves state the rest |
| Crawler.TurnFacts | legacy-phantomjs-crawler-scraper/src/crawler.js:258-297 | One turn removes the head and appends behind the rest (FIFO). A visited job changes nothing. An executed job is marked visited. A throwing job adds one failure, no record and no children. A loaded page adds one record and at most the cap of children, one level deeper and FOLLOWED |
| Crawler.Step | legacy-phantomjs-crawler-scraper/src/crawler.js:259-297 | The loop body computes exactly `Turn`, the turn specification |
| Crawler.Enqueue | legacy-phantomjs-crawler-scraper/src/crawler.js:285-288 | Pushing children one by one appends them all at the tail and adds their number to `queued` |
| Crawler.TurnPreserves | legacy-phantomjs-crawler-scraper/src/crawler.js:258-302 | A turn keeps the loop invariant and either visits one more URL of the finite universe, or keeps the visited set and shortens the queue |
| Crawler.TurnKeepsQueue | legacy-phantomjs-crawler-scraper/src/crawler.js:259-288 | A turn keeps the frontier's shape: dequeued jobs followed by the queue are all jobs ever enqueued, seeds first, with nondecreasing depths; `queued` counts them |
| Crawler.TurnKeepsUniverse | legacy-phantomjs-crawler-scraper/src/crawler.js:259-288 | Queued and visited URLs stay within the seeds and the oracle's link targets, and the termination measure decreases |
| Crawler.Crawl | legacy-phantomjs-crawler-scraper/src/crawler.js:258-302 | The loop as a function: turns are taken until the queue is empty, and it terminates because every turn either visits a new URL of the finite universe or shortens the queue. Visited URLs and results only grow |
| Crawler.CrawlKeepsInv | legacy-phantomjs-crawler-scraper/src/crawler.js:258-302 | Every turn of the crawl keeps the loop invariant, so the final state satisfies it |
| Crawler.RunFinalCompleted | legacy-phantomjs-crawler-scraper/src/crawler.js:241-302 | A crawl from the seeded state ends in a completed run: the seeding shape, every queued job dequeued, breadth-first depths and the depth limit, no URL executed twice, every dequeued URL executed, the results those of the non-throwing executions, and counters that agree |
| Crawler.Run | legacy-phantomjs-crawler-scraper/src/crawler.js:231-322 | The run fails with NoStartUrls exactly when there are no seeds, before any job executes. Otherwise its results and counters are those of the crawl from the seeded state (`RunFinal`), and its dequeued and executed jobs are that crawl's. It completes: the seeding shape (START, depth 0, in order, then only FOLLOWED), `queued` counts every dequeued job, depths are nondecreasing (breadth-first) and within the limit, no URL is executed twice, every dequeued URL is executed, the results are the pages of the non-throwing executions, `results.length == crawled`, and `crawled + failed` is the number of distinct URLs |
| Crawler.SeedQueue | legacy-phantomjs-crawler-scraper/src/crawler.js:241-249 | The seeding loop makes one START job at depth 0 per start URL, in order |
| Crawler.RunOutcome | legacy-phantomjs-crawler-scraper/src/crawler.js:258-322 | When the queue is empty, the loop invariant gives everything a completed run promises |
| Crawler.QueueInvInit | legacy-phantomjs-crawler-scraper/src/crawler.js:241-256 | The seeded queue has the frontier's shape |
| Crawler.RunInvInit | legacy-phantomjs-crawler-scraper/src/crawler.js:241-256 | The seeded state, with nothing visited, no results and `queued` equal to the seed count, satisfies the loop invariant |
| Crawler.QueueInvStep | legacy-phantomjs-crawler-scraper/src/crawler.js:259-288 | Dequeuing the head and appending children one level deeper keeps depths nondecreasing, and keeps the queue within two adjacent depths |
| Crawler.ExecInvSkip | legacy-phantomjs-crawler-scraper/src/crawler.js:260-262 | Skipping a visited job keeps the accounting of records, counters and visited URLs |
| Crawler.ExecInvExecute | legacy-phantomjs-crawler-scraper/src/crawler.js:264-297 | Executing a job records it once. It gets a page record exactly when it does not throw, and crawled plus failed still equals the number of visited URLs |
| Crawler.PagesAppend | legacy-phantomjs-crawler-scraper/src/crawler.js:275 | One more execution adds a record exactly when it does not throw |
| Crawler.ChildrenInTargets | legacy-phantomjs-crawler-scraper/src/crawler.js:278-283 | Every child of a loaded page is one of the oracle's normalised link targets |
| Scenarios.DuplicateLinksOnSeedPage | legacy-phantomjs-crawler-scraper/src/crawler.js:43-86 | With links b, b, c, a depth limit of 1 and the default cap, the seed page yields exactly b and c at depth 1, and a page at depth 1 yields nothing |
| Scenarios.CapOneKeepsFirstLink | legacy-phantomjs-crawler-scraper/src/crawler.js:56-83 | With a cap of 1 and five links, the only child is the first link |
| Scenarios.ThrowingJobIsIsolated | legacy-phantomjs-crawler-scraper/src/crawler.js:266-297 | A throwing job adds one failure and no record, and the next queued job is still executed and recorded |
| Scenarios.LinkFromSeedIsCrawled | legacy-phantomjs-crawler-scraper/src/crawler.js:258-297 | A run from seed a, whose page links to b, crawls a and then b: two records, b one level deeper and FOLLOWED, counters (2, 2, 0), and a then b dequeued |

## Left out

- `crawlSingle` (the headless browser session, page settings, cookies, request interception, the page function and cleanup) is replaced by the deterministic `map<string, Fetch>` oracle. Any exception it raises is `Threw`, and the links it returns are `Loaded(links)`. A `discoveredUrls` that is a non-array truthy value is not modelled.
- The page record keeps only `loadedUrl` and `label`. `requestedAt` (a clock), `pageFunctionResult`, `responseStatus`, `method` and `proxy` come from the browser and the proxy rotation, which are not part of this model.
- `ProxyHandler`, `CookieManager`, `interceptRequest`, `pageFunction` and `settings.json` are not part of this model. The settings are a parameter of `Config.Merge`.
- File I/O: the seed file's contents are an `Option<string>` parameter (`None` when reading throws). Writing the results file, `path.resolve` and JSON serialisation are not modelled.
- `delay`, the `setTimeout` between jobs, logging and the `require.main` entry point have no effect on the modelled state and are left out.
- `visited` and `seen` are plain objects in the code, so keys inherited from the object prototype (such as `constructor`) read as present there. The model uses sets and does not reproduce this.
- Text.Trim: removes ASCII whitespace only, not the full Unicode whitespace set of `String.prototype.trim`.
- Option values are integers: a fractional `maxDepth` or `maxLinksPerPage` is not modelled. An array option is a list of strings: arrays holding other values are not modelled, and discovered entries that are not strings are `None`.
- Crawler.Run: `trace` and `executed` are ghost outputs that name the dequeued and executed jobs. The real `run` returns only `{results, stats}`, and those are the non-ghost result; all three are tied to the ghost `RunFinal`, the crawl applied turn by turn.
- The async scheduling of `run` is left out. The model executes jobs one at a time, in dequeue order, which is the order the code awaits them.
