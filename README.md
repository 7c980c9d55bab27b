# Content index populator

This project models `ContentIndexPopulator` from Umbraco's Examine integration and
proves what it does. The populator rebuilds a content index by walking the content
tree below a configured node. It works in pages of 10000 items, starting at page 0.
Each page that holds items becomes value sets, and the same batch goes to every
index it was given. The walk stops at the first page that is not exactly full.

The collaborators are reduced to what the populator relies on:

- The content service holds a fixed store of content items. `GetPagedDescendants`
  returns page `i` of the descendants of a node, optionally filtered to published
  items and ordered by path. The service records every request it receives.
- The value-set builder turns each content item into one value set, in order.
- Each indexer records the batches it is given.

Modules:

- `Wrappers`: `Option` and `Result`.
- `Paging`: pages of a sequence and the batches a walk delivers. It also covers the
  fan-out of batches to a list of targets that may repeat. Everything in it is
  generic in the page size.
- `ContentStore`: content items, path order, descendant queries, and the three
  collaborator classes.
- `UmbracoExamine`: the `ContentIndexPopulator` class, its construction with
  argument checks, and `Populate`.

`Populate` is proved against specification functions:

- `Scope()` is everything the walk pages through.
- `Fetches(P, n)` is the first `n` page requests.
- `Delivered(P)` is the list of batches. It is defined page by page from `Scope()`.

The lemmas in `Paging` state what these functions mean. The walk makes
`N / P + 1` fetches (floor division). Every page before the last is full. No
delivered batch is empty. The batches, concatenated, are the builder applied to
every item exactly once and in order. An index listed once receives exactly the
batches.

The model keeps one flaw of the constructor visible. The published-only query is
guarded by a test that is inverted, so that query is never built. See "Findings".
The populator class itself uses the intended guard.

## Model

| member | source | states |
|---|---|---|
| UmbracoExamine.ContentIndexPopulator.Create | src/Umbraco.Examine/ContentIndexPopulator.cs:48-57 | Construction succeeds exactly when the query context, content service and value-set builder are all present. Otherwise it fails with an argument-null error naming the first missing one, in that order. On success the new populator holds exactly the arguments given and the published query. |
| UmbracoExamine.ContentIndexPopulator.CreateDefault | src/Umbraco.Examine/ContentIndexPopulator.cs:35-38 | The default construction applies the same argument checks. It yields a populator that includes unpublished content and has no parent id, so it walks from the root (-1). |
| UmbracoExamine.ContentIndexPopulator.constructor | src/Umbraco.Examine/ContentIndexPopulator.cs:48-57 | The fields hold the flags and collaborators given, and the published query is present. |
| UmbracoExamine.EffectiveParentId | src/Umbraco.Examine/ContentIndexPopulator.cs:64-68 | The walked node is the configured parent id exactly when one is given and it is positive. In every other case it is the root id -1. |
| UmbracoExamine.PageRequestsInOrder | src/Umbraco.Examine/ContentIndexPopulator.cs:71-94 | The i-th request of a walk asks for page i of the same node, with the same page size, filter and ordering. So pages 0, 1, 2, ... are requested in order, each once. |
| UmbracoExamine.ContentIndexPopulator.Populate | src/Umbraco.Examine/ContentIndexPopulator.cs:59-95 | The walk terminates. The service receives exactly `N / 10000 + 1` requests, for pages 0, 1, 2, ... in order, where N is the number of items walked. Each index gains `Fanout(Delivered, m)`, where m is the number of times it is listed: every non-empty page's batch, in page order, m times over. Nothing else changes. |
| UmbracoExamine.ContentIndexPopulator.PopulatePass | src/Umbraco.Examine/ContentIndexPopulator.cs:71-94 | One pass of the do-while loop keeps the invariant. After the pages before `pageIndex` were requested and delivered, this pass requests page `pageIndex` and delivers its batch only if the page is non-empty. A full page continues the walk, with less left to read. A short page is page `N / 10000` and completes the delivery. |
| UmbracoExamine.ContentIndexPopulator.FetchPage | src/Umbraco.Examine/ContentIndexPopulator.cs:75-91 | The fetched content is the slice `[i*P, min((i+1)*P, N))` of the scope. Exactly one request is appended, with no filter and no ordering when unpublished content is included, and with the published query and path ordering otherwise. Index logs grow only when the page is non-empty. |
| UmbracoExamine.ContentIndexPopulator.IndexAll | src/Umbraco.Examine/ContentIndexPopulator.cs:87-91 | The foreach over the indexes: an index listed m times receives the page's value sets m times, and the logs of indexes not listed are unchanged. |
| UmbracoExamine.ContentIndexPopulator.PublishedOnlyScope | src/Umbraco.Examine/ContentIndexPopulator.cs:80-85 | Without unpublished content, the walk covers exactly the published descendants of the node, in path order. |
| UmbracoExamine.ContentIndexPopulator.AllContentScope | src/Umbraco.Examine/ContentIndexPopulator.cs:75-78 | With unpublished content, the walk is the store filtered to the node's descendants, with no publish test. By `FilterCounts` and `FilterAppend`, that keeps every descendant occurrence, in store order. |
| Paging.PageOf | src/Umbraco.Examine/ContentIndexPopulator.cs:77 | A page never exceeds the page size. It is empty from the end of the source on. Otherwise it holds `min(P, N - i*P)` items, namely the source's items from `i*P` on. |
| Paging.PagesFullUntilLast | src/Umbraco.Examine/ContentIndexPopulator.cs:94 | Every page before page `N / P` is full. Page `N / P` holds `N % P < P` items, so the loop stops there. It is empty exactly when N is a multiple of P. |
| Paging.FetchesBeyondBatches | src/Umbraco.Examine/ContentIndexPopulator.cs:71-94 | The `N / P + 1` fetches are one per delivered batch, plus one empty fetch exactly when N is a multiple of P. For an empty source, the single fetch delivers nothing. |
| Paging.PageStep | src/Umbraco.Examine/ContentIndexPopulator.cs:94 | For a page index reached by the walk: a non-empty page is a delivered page, a full page leaves room for the next one, and a short page is the last fetch. |
| Paging.DeliveryStep | src/Umbraco.Examine/ContentIndexPopulator.cs:87-94 | After i full pages were delivered as the first i batches, page i either extends the delivery by one batch and lets the walk go on, or completes it. |
| Paging.ChunkAt | src/Umbraco.Examine/ContentIndexPopulator.cs:77 | The k-th delivered page is page k of the source. |
| Paging.ChunkCount | src/Umbraco.Examine/ContentIndexPopulator.cs:87 | There are `ceil(N / P)` non-empty pages. |
| Paging.ChunksCover | src/Umbraco.Examine/ContentIndexPopulator.cs:71-94 | The non-empty pages, concatenated, are the whole source. |
| Paging.BatchesNonEmpty | src/Umbraco.Examine/ContentIndexPopulator.cs:87-91 | No delivered batch is empty, and none exceeds a page. |
| Paging.BatchesCoverAll | src/Umbraco.Examine/ContentIndexPopulator.cs:89-90 | The delivered batches, concatenated, are the builder applied to every item of the source, exactly once and in order. |
| Paging.MapSeqAppend | src/Umbraco.Examine/ContentIndexPopulator.cs:90 | Building value sets page by page gives the same result as building them for the pages joined together. |
| Paging.FanoutSnoc | src/Umbraco.Examine/ContentIndexPopulator.cs:89-90 | The unfolding step of `Fanout` at one more batch, used by `PopulatePass`: handing out one more batch appends its m copies to what each index received. |
| Paging.FanoutOnce | src/Umbraco.Examine/ContentIndexPopulator.cs:89-90 | An index listed once receives exactly the delivered batches, in order. So all indexes listed once receive identical batches, appended to whatever each log held before. |
| Paging.FanoutLength | src/Umbraco.Examine/ContentIndexPopulator.cs:89-90 | An index listed m times receives m times as many batches as were delivered. |
| ContentStore.ContentService.GetPagedDescendants | src/Umbraco.Examine/ContentIndexPopulator.cs:77-84 | Returns the requested page of the node's descendants, filtered and ordered as asked, and records the request. |
| ContentStore.Descendants | src/Umbraco.Examine/ContentIndexPopulator.cs:77-84 | The result holds exactly the store's items that lie below the node and pass the filter. It is in path order when path ordering is asked for. |
| ContentStore.DescendantsFromStore | src/Umbraco.Examine/ContentIndexPopulator.cs:77-84 | A query neither invents nor repeats items. |
| ContentStore.PublishedQueryInPathOrder | src/Umbraco.Examine/ContentIndexPopulator.cs:81-84 | The published query with path ordering yields the published descendants of the node, sorted by path. Each published descendant occurs exactly as often as in the store, and every other item occurs zero times. |
| ContentStore.Filter | src/Umbraco.Examine/ContentIndexPopulator.cs:54 | Filtering keeps exactly the items that satisfy the predicate. `FilterCounts`: each satisfying item is kept exactly as often as it occurs, and every other item is dropped. `FilterAppend`: filtering distributes over concatenation, so the kept items stay in store order. |
| ContentStore.FilterCounts | src/Umbraco.Examine/ContentIndexPopulator.cs:54 | Each item satisfying the predicate occurs in the result exactly as often as in the input. Every other item occurs zero times. |
| ContentStore.FilterAppend | src/Umbraco.Examine/ContentIndexPopulator.cs:54 | Filtering a concatenation is the concatenation of the filtered parts, so the order of kept items is the input's. |
| ContentStore.SortByPath | src/Umbraco.Examine/ContentIndexPopulator.cs:84 | Path ordering sorts ascending by path and is a permutation of its input. |
| ContentStore.InsertByPath | src/Umbraco.Examine/ContentIndexPopulator.cs:84 | Inserting into a sorted list keeps it sorted and adds exactly the one item. |
| ContentStore.PathLeTotal | src/Umbraco.Examine/ContentIndexPopulator.cs:84 | Any two paths are comparable. |
| ContentStore.ValueSetBuilder.GetValueSets | src/Umbraco.Examine/ContentIndexPopulator.cs:90 | One value set per content item, in the same order. |
| ContentStore.Indexer.IndexItems | src/Umbraco.Examine/ContentIndexPopulator.cs:90 | The indexer's log is extended by exactly the batch given. |
| UmbracoExamine.PublishedQueryGuard | src/Umbraco.Examine/ContentIndexPopulator.cs:53-54 | The intended guard: afterwards the published query is always present. The model has only one query value, so keeping a held query cannot be told apart from building a new one. |
| UmbracoExamine.CachedQuery | src/Umbraco.Examine/ContentIndexPopulator.cs:53-54 | The shared field after n constructions with the intended guard: absent before any construction (it starts null, line 24), and holding the published query after every construction from the first on. |
| UmbracoExamine.PublishedQueryGuardAsWritten | src/Umbraco.Examine/ContentIndexPopulator.cs:53-54 | The guard as written rebuilds the query only when one is already held, so it never changes the field: an absent query stays absent. |
| UmbracoExamine.CachedQueryAsWritten | src/Umbraco.Examine/ContentIndexPopulator.cs:53-54 | The shared field after n constructions with the guard as written: absent before any construction (line 24), and no construction changes it. |
| UmbracoExamine.AsWrittenQueryNeverBuilt | src/Umbraco.Examine/ContentIndexPopulator.cs:53-54 | With the guard as written, the shared query stays absent however many populators are constructed. |
| UmbracoExamine.AsWrittenFetchIncludesUnpublished | src/Umbraco.Examine/ContentIndexPopulator.cs:53-54 | With the guard as written, a published-only walk from the root passes no filter and so returns an unpublished item, which makes up the whole of page 0. |

## Left out

- The shared static query field (line 24) is modelled as a per-populator constant built with the intended guard. Repeated construction of the shared field is modelled separately, by `CachedQuery` and `CachedQueryAsWritten`.
- How the query is built through the query context (`Query<IContent>().Where(...)`) is abstracted to one query value, "published only".
- The `total` out-parameter of `GetPagedDescendants` (line 73) is never read and is not modelled.
- Exceptions thrown by the collaborators and concurrent calls to `Populate` are not modelled. The source has no handling for either.
- A null `indexes` array, or null entries in it, is not modelled. `indexes` is a sequence of indexers, and the same indexer may occur more than once.
- The laziness of `.ToArray()` is not modelled. Each page is a materialised sequence.
- The internals of the collaborators are not part of this model: database paging, field extraction into value sets, and writing to the search index. The service pages a fixed in-memory store, the builder is an arbitrary per-item function, and the indexer appends to a log.
- Path order is modelled as lexicographic order on the sequence of ancestor ids. The database orders the textual path column, whose collation can differ for ids of different lengths.
- Each index's log is modelled separately. The interleaving of calls across different indexes within one page is not recorded as a single trace.
- UmbracoExamine.ContentIndexPopulator.Populate: the loop is proved for the page size the source fixes, 10000, not for an arbitrary page size. The page facts it rests on are proved for every page size P > 0 in `Paging`.
- The page index is an unbounded natural number. The source's 32-bit `int` would overflow only after more than 2^31 pages.

## Findings

| source | as written | input that shows it | evidently intended | confidence | as-written member | corrected member |
|---|---|---|---|---|---|---|
| src/Umbraco.Examine/ContentIndexPopulator.cs:53-54 | The published query is assigned only when the static field is already non-null. It starts null, so it is never built, and a published-only walk passes a null filter. | A populator with `supportUnpublishedContent = false` over a store holding one unpublished item 1050 directly below the root: with the null filter, the path-ordered query for the root's descendants returns item 1050, and page 0 of that query, the first page the walk fetches, is exactly item 1050. | Build the query when the field is still null (`== null`). | not executed | UmbracoExamine.AsWrittenFetchIncludesUnpublished | UmbracoExamine.PublishedQueryGuard |
