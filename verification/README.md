# Links service model

A Dafny model of the core of the Codefi links service. The service takes a list of page URLs and fetches each page. It counts the page's `<a href>` links as internal (same host as the page, or relative) or external. It then stores the per-page results under a fresh batch ID, and they can be read back by that ID.

Modules, one per source concern:

- `Wrappers`: `Option` and `Result`.
- `Web`: the library values the core reads: a parsed URL (scheme, host, hostname, path, printed form) and an HTML tree. The URL parser is a parameter `Parser = string -> Option<Url>`.
- `LinksCounter` (pkg/scraper/links_counter.go): the recursive walk as a method `Walk` with the source's `break`/`continue`. It has a reference definition `NodeKind`/`ForestKind` and an independent count of anchor hrefs (`TreeHrefs`, `CountableHrefs`), and the walk is proved against both.
- `LinksCounterFixtures`: the two cases of pkg/scraper/links_counter_test.go on representative trees.
- `Helpers` (pkg/helpers/urls.go): line-by-line URL validation. The first bad line fails the whole list.
- `Scraper` (pkg/scraper/scraper.go): how `startScrapingWorker` maps the outcome of one page fetch to a result record.
- `Links` (services/links/entity.go): the stored `Result` record.
- `Repository` (services/links/repository/inmemory_db.go): the in-memory store as a map from batch ID to results.
- `Domain` (services/links/domain/links_processor.go): `ProcessBatch` and `GetBatch`.

Foreign inputs are parameters:

- The network exchange and the HTML parse outcome arrive as an `Exchange`.
- `url.Parse` is the `Parser`.
- The UUID generator is `uuid: nat -> string`. The n-th draw of a call is `uuid(n)`, and the batch ID is draw 0.
- The clock is `clock: nat -> Instant`. Result i is stamped `clock(2i)` and `clock(2i+1)`.

## Model

| member | source | states |
|---|---|---|
| LinksCounter.CountLinks | pkg/scraper/links_counter.go:11-39 | the error result is always nil; the two counts are the walk's reference counts of the document; their sum is the number of anchor hrefs the scan reaches, which is at most the number of anchor hrefs in the tree |
| LinksCounter.Walk | pkg/scraper/links_counter.go:14-35 | the closure with its `break`/`continue` adds exactly the reference counts of the node and its whole subtree to what was counted before |
| LinksCounter.ScanCountsReachedHrefs | pkg/scraper/links_counter.go:16-30 | every non-empty href of an anchor before its first malformed one is counted exactly once, as internal or external |
| LinksCounter.TotalIsCountable | pkg/scraper/links_counter.go:14-35 | the internal and external counts of a tree add up to the number of anchor hrefs the walk reaches |
| LinksCounter.CountableBelowHrefs | pkg/scraper/links_counter.go:14-35 | the walk never counts more links than the tree has anchor hrefs |
| LinksCounter.AllHrefsCountedWhenWellFormed | pkg/scraper/links_counter.go:16-30 | when every href value parses, every non-empty href on every anchor is counted |
| LinksCounter.NoHrefNoCount | pkg/scraper/links_counter.go:17 | attributes that are not href, or are href with an empty value, count nothing |
| LinksCounter.ScanStopsAtMalformed | pkg/scraper/links_counter.go:18-22 | a malformed href ends the scan of its anchor: the anchor counts only what comes before it |
| LinksCounter.MalformedKeepsChildren | pkg/scraper/links_counter.go:18-22 | a malformed href stops only its own anchor's attribute loop; the anchor's subtree is still counted in full |
| LinksCounter.NonAnchorCountsChildren | pkg/scraper/links_counter.go:15 | nodes other than `<a>` elements add nothing themselves, but their children are still visited |
| LinksCounter.NoAnchorsNoLinks | pkg/scraper/links_counter.go:15-17 | a tree with no anchor hrefs has zero links of either kind |
| LinksCounter.SingleAnchor | pkg/scraper/links_counter.go:23-28 | one anchor with one href counts nothing if the value does not parse. Otherwise it counts exactly one link, internal iff its hostname is the page's or it has no hostname and a non-empty path |
| LinksCounter.FragmentOnlyIsExternal | pkg/scraper/links_counter.go:23-28 | a reference with neither hostname nor path (fragment or query only) is external on a page with a hostname |
| LinksCounter.ForestAppend | pkg/scraper/links_counter.go:32-34 | the counts of a sibling list are the sum of the counts of its two halves |
| LinksCounter.ForestKindPermutation | pkg/scraper/links_counter.go:32-34 | the counts of a list of siblings do not depend on their order |
| LinksCounter.ReorderChildren | pkg/scraper/links_counter.go:32-34 | reordering a node's children leaves its counts unchanged |
| LinksCounterFixtures.SuccessPageCounts | pkg/scraper/links_counter_test.go:21-26 | a page at localhost.com with three foreign links, one relative link and one same-host link counts 3 external and 2 internal |
| LinksCounterFixtures.MalformedPageCounts | pkg/scraper/links_counter_test.go:47-52 | on a page at localhost, malformed, empty and missing hrefs count nothing, and a malformed href hides a later href on the same anchor: 2 external, 1 internal |
| Helpers.ValidateUrl | pkg/helpers/urls.go:31-41 | a line is accepted iff it parses with a non-empty scheme and host; the parsed URL is returned unchanged; every error carries the line number and is a parse failure exactly when the parser rejected the line |
| Helpers.GatherUrls | pkg/helpers/urls.go:13-29 | success iff every line validates. On success there is one absolute URL per line, in line order. On failure the error is that of the first failing line, and all earlier lines validate |
| Helpers.LaterLinesIgnored | pkg/helpers/urls.go:19-23 | lines after the first failing one are never examined: replacing them changes nothing |
| Helpers.OneBadLineFails | pkg/helpers/urls.go:19-23 | one bad line anywhere fails the whole list, with an error at or before that line |
| Helpers.EmptyInput | pkg/helpers/urls.go:14-28 | an input with no lines gives the empty list and no error |
| Helpers.NotAnUrl | pkg/helpers/urls_test.go:30-35 | a single line that parses to a URL without scheme and host fails at line 1, quoting the parsed URL's printed form |
| Scraper.StartScrapingWorker | pkg/scraper/scraper.go:64-106 | the result is a success iff a response arrived with status below 400 and a parsable body, and a success carries the document's link counts. A failure carries the request, transport or parse error, or "bad status code" for a status of 400 or more, with zero counts. Success and error exclude each other |
| Scraper.Settle | pkg/scraper/scraper.go:93-105 | a counting error keeps the counts and marks the page failed with that error; no error marks it successful |
| Repository.CreateResults | services/links/repository/inmemory_db.go:31-43 | an empty list is refused with "no results were passed" and the store unchanged. Otherwise the store gains exactly the first result's batch ID, which maps to the whole list, and every other batch is unchanged |
| Repository.GetBatchResults | services/links/repository/inmemory_db.go:47-57 | a batch is found iff its ID is stored, and then it is the stored list; otherwise the error is `ErrBatchNotFound` |
| Repository.CreateThenGet | services/links/repository/inmemory_db.go:31-57 | a non-empty list that was created reads back unchanged under its batch ID |
| Repository.CreateKeepsOthers | services/links/repository/inmemory_db.go:40 | creating one batch does not change what any other batch ID reads |
| Repository.FailedCreateInvisible | services/links/repository/inmemory_db.go:35-37 | a refused create changes neither lookups nor the listing |
| Repository.ListAfterFirstCreate | services/links/repository/inmemory_db.go:26-28 | after one create on a fresh store, the listing is exactly that one batch |
| Repository.EmptyStoreFindsNothing | services/links/repository/inmemory_db.go:21-23 | a fresh store finds no batch |
| Repository.CreateOverwrites | services/links/repository/inmemory_db.go:40 | a second create under the same batch ID replaces the first |
| Repository.ReplayLastWriterWins | services/links/repository/inmemory_db.go:31-57 | after any sequence of creates, a batch reads as its latest non-empty write, and a batch never written reads as before |
| Domain.ProcessBatch | services/links/domain/links_processor.go:24-50 | one result per scraper outcome, in order, each copying the outcome's URL, counts, success and error, and stamped with its own UUID and two clock readings. All results share one batch ID. IDs are distinct when the UUIDs are, and success/error consistency is kept. The stored batch reads back as the returned list and other batches are untouched. No outcomes means the create is refused, wrapped as "failed to create results", and nothing is stored |
| Domain.GetBatch | services/links/domain/links_processor.go:53-60 | found iff the repository finds the batch, with the same list; otherwise the repository's error wrapped as "failed to get batch", still identifiable as `ErrBatchNotFound` |
| Domain.WrappedMessages | services/links/domain/links_processor_test.go:66-100 | the wrapped messages are the orchestrator's prefix followed by the repository's message |

## Left out

- The `Scrape` fan-out (one goroutine per URL, a `WaitGroup` and an unbuffered channel) is not modelled. Its results arrive in completion order, which the model takes as an arbitrary given sequence of outcomes.
- The HTTP request is foreign I/O. This covers building it, the User-Agent header, the `cleanhttp` client and closing the body. Its outcome is the `Exchange` parameter.
- `html.Parse` and `url.Parse` are foreign libraries. They appear as the parse outcome in `Exchange` and as the `Parser` oracle. The `Url` keeps only scheme, host, hostname, path and printed form.
- The HTML attribute namespace is not modelled, and neither is the HTML tree's sibling and parent links. Children are an ordered sequence.
- `uuid.NewString` and `time.Now().UTC()` are oracles indexed by draw order. Real UUID uniqueness is not assumed; distinct IDs are stated under the hypothesis that the draws differ.
- The `RWMutex` of the in-memory store only orders concurrent calls, so calls are applied one at a time.
- `ListResults` returns the live map, so a caller could alias it. The model returns the store as a value.
- The request context is not modelled.
- Logging of malformed hrefs is not modelled.
- The HTTP handler and `main` are not modelled.
- The file defining `scraper.Result` is not part of this model. Its fields are those scraper.go and entity.go use.
- The HTML fixture files of the link counter tests are not part of this model. The fixture trees are written to give the counts those tests expect.
- Helpers.GatherUrls: takes the input already split into lines. `bufio.Scanner` tokenisation, its 64 KiB line limit and its read error are not modelled. The source never checks `scanner.Err()`, so a read error ends the list early without an error.
- Helpers.ValidateUrl: the error's message text (`bad url at line N ...`) is not built; the error keeps its line number and the parsed URL's printed form.
- LinksCounter.CountLinks: counts are unbounded naturals, so the source's `uint` wrap-around is not modelled. It cannot occur, because the counts are bounded by the number of href attributes in the tree.
- Domain.ProcessBatch: uses the in-memory repository. Errors of other repository implementations exist only as `Repository.Failure`. The source returns a nil slice with the error, which the model gives as `Err`.
