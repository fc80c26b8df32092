# Wildberries seller tools: a Dafny model of the core

This project models the computational core of a Wildberries (and partly
Ozon) seller toolkit: the pieces under its dashboard and HTTP glue whose
behaviour can be stated exactly. Everything is written as immutable
datatypes and pure functions (a few loops are methods). Clocks, API answers
and upstream pages are parameters.

| module | file | what it models |
|---|---|---|
| `Common` | common.dfy | Python idioms shared by all modules: truthiness, `strip`/`lower`, slicing with negative bounds, `re.findall`-style runs, `round` and `int()` on reals, filters, sums, flattening |
| `OrderedDict` | ordered_dict.dfy | insertion-ordered dicts as association lists: get, put, grouping, counting and summing by key |
| `Sorting` | sorting.dfy | Python's stable `sorted(key=…, reverse=…)` as a stable insertion sort over a total preorder; string order |
| `Cache` | cache.dfy | the memory TTL cache (strict expiry), the SQLite TTL cache (inclusive expiry, purge, stats), `make_key` and the legacy cache key |
| `Inventory` | inventory.dfy | managers/inventory.py: stock batching and merge, FBS warehouses, the per-product totals, the 100-step `lastChangeDate` paginator of the FBO statistics, the FBO cache and fallback chain, per-warehouse grouping |
| `FboFallback` | fbo_fallback.dfy | the FBO report fallback: the card walk for an nmID → vendor code mapping, joined with the stock report's groups |
| `Products` | products.dfy | managers/products.py: the cursor walk over content cards, size ids and the size-id mapping, the photos-and-prices join, the price-update payload |
| `Legacy` | legacy.dfy | the shadowed single-file managers.py: its dict cache and `get_sales`, the FBO office report, the detailed FBO report |
| `Analytics` | analytics.dfy | managers/analytics.py: nmID normalisation, call spacing, cached `get_sales`, revenue folds, top products, the weekly sales loop, margins by product |
| `AvgOrders` | avg_orders.dfy | `get_avg_orders_by_nm_ids`: request batches, the max-over-stock-types merge, the fallback for ids still at zero |
| `Pricing` | pricing.dfy | pricing_strategy.py: the pricing context, `_make_action`, the five strategies, the first-match engine, batched upload, the stock-map merge |
| `PriceHistory` | price_history.dfy | price_history.py: the price-change journal as an in-memory table, queries, rollback of one product and bulk rollback, stats, purge |
| `Scheduler` | scheduler.dfy | scheduler.py: run results, the bounded run history, status, start/stop |
| `NlpEngine` | nlp_engine.dfy | nlp_engine.py: the first-match intent table and `analyze` |
| `AiAgent` | ai_agent.dfy | ai_agent.py: `_analyze_request`, `_extract_params` (digit runs, `\d+%`, D.M.Y dates, the `найди …` pattern) and the parameter checks of `_execute_action` |
| `Registry` | registry.dfy | api_registry.py and ozon_api_registry.py: scored top-5 method search, lookup by name and by category |
| `Dashboard` | dashboard.dfy | the computations embedded in dashboard.py (stock summary, pagination, discount percentage, submit filtering, per-warehouse counts) and `calculate_discount` of tests/e2e/helpers.py |

Numbers: prices and amounts are `real`. Python's `round(x, k)` is modelled
exactly, as round-half-even of `x · 10^k` (Common.RoundTo). `int()` of a
float truncates toward zero (Common.Trunc). Integers are unbounded, as in
Python. Python dicts whose order shows in a result are association lists
(`OrderedDict`); the others are Dafny maps.

Where the code and its comments disagree the model follows the code. For
example, the weekly loop reads as a paginated fetch, yet as written it can
repeat a request forever (see Findings).

The packaged `managers/analytics.py` and the legacy `managers.py` run the
same weekly loop, and `Analytics.Paginate` models both.

## Model

| member | source | states |
|---|---|---|
| Cache.MemGet | cache.py:23-29 | A fresh entry (younger than the ttl, strictly) is returned and the cache is unchanged; otherwise the answer is None and the key is removed. |
| Cache.MemSet | cache.py:31-32 | `set` stores the value stamped with the current time, keeps every other key, and adds exactly this key. |
| Cache.MemClear | cache.py:34-35 | `clear` empties the store and keeps the ttl. |
| Cache.MemSetGet | cache.py:23-35 | A value set at t is read back exactly while now - t < ttl, after which the key is gone; other keys are unaffected, and nothing is read after a clear. |
| Cache.MemGetOrFetch | cache.py:37-43 | The fetch runs iff there is no fresh non-None value; a hit returns it with the cache unchanged, and a miss returns and stores what was fetched. |
| Cache.MemNoneNeverServed | cache.py:37-43 | A fetched None is stored but never served: the next lookup of the key fetches again, at any time. |
| Cache.SqlGet | cache.py:124-134 | A row is served while now <= expires_at, as it was stored; an expired row is deleted and None returned; a missing key changes nothing. |
| Cache.SqlSet | cache.py:136-143 | `set` replaces the row with the value after its JSON round trip and expires_at = now + ttl, and keeps every other row. |
| Cache.SqlClear | cache.py:145-147 | `clear` deletes every row. |
| Cache.SqlSetGet | cache.py:124-147 | A value set at t is read back as its JSON round trip while now <= t + ttl, and not at all afterwards; other keys are unaffected, and nothing is read after a clear. |
| Cache.ExpiryBoundaryDiffers | cache.py:25-26 | At exactly ttl seconds the memory cache has expired while the SQLite cache still serves the value's JSON round trip, because one compares strictly and the other does not. |
| Cache.SqlGetOrFetch | cache.py:149-155 | The fetch runs iff there is no live non-None row; a miss stores and returns what was fetched. |
| Cache.SqlNoneNeverServed | cache.py:149-155 | A fetched None is stored but never served by the SQLite cache either. |
| Cache.AliveKeys | cache.py:177-179 | The alive rows are exactly those with expires_at >= now. |
| Cache.PurgeExpired | cache.py:165-171 | `purge_expired` keeps exactly the alive rows, unchanged, and returns the number of rows deleted. |
| Cache.Stats | cache.py:173-183 | Every row counts as alive or as expired: alive + expired = total, and expired >= 0. |
| Cache.PurgeThenStats | cache.py:165-183 | After a purge at the same instant nothing counts as expired, the alive count is unchanged, and the purge returned the former expired count. |
| Cache.LegacyKey | managers.py:705-709 | The legacy cache key starts with the method name and a colon. |
| Cache.SortedUnique | cache.py:19-21 | Two name-sorted arrangements of the same keyword arguments are identical. |
| Cache.RenderOrderIndependent | cache.py:19-21 | The canonical `sort_keys` rendering does not depend on the order the keyword arguments were given in. |
| Cache.MakeKeyOrderIndependent | cache.py:19-21 | `make_key`, and the legacy `_get_cache_key`, give the same key for any order of the same keyword arguments. |
| NlpEngine.SubAction | nlp_engine.py:68-71 | Inside a matching intent, the first subtype with a trigger in the query gives the action; with none, the intent's default. |
| NlpEngine.Route | nlp_engine.py:64-72 | The first intent with a trigger in the query answers, with that intent's type; no matching intent answers help/general. |
| NlpEngine.SubActionFirst | nlp_engine.py:68-70 | A matching subtype preceded only by non-matching ones decides the action. |
| NlpEngine.RouteAt | nlp_engine.py:66-71 | A matching intent preceded only by non-matching ones decides the whole answer. |
| NlpEngine.EarlierIntentWins | nlp_engine.py:66-71 | Once intent k matches, the answer's type comes from intent k or an earlier one, so later intents are shadowed. |
| NlpEngine.OrderWordNeverRoutesToOrders | nlp_engine.py:5-71 | A query containing "заказ" never reaches the orders intent: it is a trigger of analytics, which comes first, so the type is analytics or products. |
| NlpEngine.HelpIffNoMatch | nlp_engine.py:64-72 | For a table none of whose actions is "help", the answer is help exactly when no intent matches. |
| NlpEngine.AnalyzeHelpIffNoTrigger | nlp_engine.py:5-72 | `analyze` answers help exactly when the lower-cased query contains no trigger of any intent. |
| Scheduler.MakeResult | scheduler.py:220-250 | A finished engine run records its action count and the number applied; a raising run records zero counts, the message and no actions. |
| Scheduler.DryRunAppliesNothing | scheduler.py:220-237 | A dry run reports zero applied changes when the engine evaluates without applying. |
| Scheduler.NewScheduler | scheduler.py:102-117 | A new scheduler has no history, is not running and has no job. |
| Scheduler.AppendRunAsWritten | scheduler.py:252-256 | The history as written is a suffix of the old history plus the new run, and for a positive bound its length is min(old + 1, bound). |
| Scheduler.ZeroMaxHistoryKeepsAll | scheduler.py:255-256 | With max_history = 0 the trim keeps everything, because `h[-0:]` is the whole list. |
| Scheduler.AppendRun | scheduler.py:252-256 | The corrected history keeps exactly the last min(old + 1, max(bound, 0)) runs, ending with the new one. |
| Scheduler.AppendRunAgrees | scheduler.py:255-256 | The code as written and the corrected trim agree for every positive bound. |
| Scheduler.RunJob | scheduler.py:220-258 | One job records exactly one result and changes nothing but the history, which becomes a suffix of the old history plus that result: for a positive bound it is the newest entry and the history holds min(old + 1, bound) runs; a bound of 0 keeps every run. |
| Scheduler.RunJobCorrected | scheduler.py:220-258 | With the corrected trim the history holds exactly min(old + 1, bound) runs for every non-negative bound. |
| Scheduler.RunJobAgrees | scheduler.py:252-256 | For every positive bound the job as written and the corrected job leave the same scheduler. |
| Scheduler.GetHistory | scheduler.py:212-214 | `get_history(n)` gives the last n runs in order; n = 0 or n beyond the length gives the whole history, and the result is always a suffix. |
| Scheduler.GetStatus | scheduler.py:198-210 | The status counts the runs and shows the last run iff there is one; a job name is shown only while running. |
| Scheduler.Start | scheduler.py:169-179 | `start()` leaves the scheduler running, changes nothing else, and is a no-op when already running. |
| Scheduler.Stop | scheduler.py:181-187 | `stop()` leaves the scheduler stopped, changes nothing else, and is a no-op when not running. |
| Scheduler.StartStopIdempotent | scheduler.py:169-187 | Start and stop are idempotent, keep the history, and undo each other. |
| Inventory.Enrich | managers/inventory.py:81-92 | a stock whose truthy chrtId is in the size mapping takes that size's nmId, vendorCode, title, brand, techSize and wbSize; any other stock gets nmId None and empty vendorCode, title and brand and keeps its sizes; chrtId and amount never change |
| Inventory.EnrichAll | managers/inventory.py:82-92 | a dict answer's stocks are all enriched, one for one and in order |
| Inventory.MappingKeys | managers/inventory.py:57-58 | with no size ids given, the ids asked for are the size mapping's keys, in mapping order |
| Inventory.CollectBatches | managers/inventory.py:64-100 | the batches' stocks are lost altogether exactly when some batch request raised |
| Inventory.GetStocks | managers/inventory.py:41-100 | no size ids at all, or any raised batch request, gives an empty list |
| Inventory.CollectDictBatches | managers/inventory.py:67-96 | when every answer is a dict, the result is the answers' stocks enriched and concatenated in request order |
| Inventory.GetStocksBatches | managers/inventory.py:64-68 | the batches concatenate back to the size-id list, each holding between 1 and 1000 ids |
| Inventory.GetAllFbsStocks | managers/inventory.py:102-138 | `{}` with no warehouses or no size ids; every entry has a non-zero warehouse id and the non-empty stocks fetched for it; every truthy warehouse whose stocks are non-empty has its entry |
| Inventory.CollectWarehousesEntries | managers/inventory.py:124-134 | the warehouse loop stores only non-zero warehouse ids, each with its own non-empty stocks |
| Inventory.CollectWarehousesFound | managers/inventory.py:124-134 | every truthy warehouse id whose stocks are non-empty is stored with those stocks |
| Inventory.TotalStocksAsWrittenIsEmpty | managers/inventory.py:140-187 | as written, the per-product totals are `{}` whatever the stocks are, because reading `regions` from the FBO list raises |
| Inventory.TotalStocksAsWrittenLosesStock | managers/inventory.py:150-187 | five units of one product in one warehouse: the written code answers `{}`, the intended totals hold 5 for that product |
| Inventory.TotalStocksSum | managers/inventory.py:150-181 | intended totals: a product has an entry iff some FBS stock carries its nmId, its fbs is the sum of those amounts over all warehouses, and total = fbs + fbo |
| Inventory.Watermarks | managers/inventory.py:243-277 | the watermarks requested: at most the iteration budget, the first being the start watermark |
| Inventory.WatermarksChain | managers/inventory.py:258-277 | each next watermark is the previous page's last lastChangeDate and differs from the previous one; ending under budget means the last answer was a non-list, an empty page, or a missing or unchanged lastChangeDate |
| Inventory.FetchStatistics | managers/inventory.py:237-287 | paging starts at "2019-06-20T00:00:00", sends between 1 and 100 requests, and returns the concatenation of the pages fetched, in order |
| Inventory.FetchFrom | managers/inventory.py:247-285 | the loop sends exactly the requests of the watermark chain and collects their pages in order (a non-list or raised answer adds nothing) |
| Inventory.GetFboStocks | managers/inventory.py:193-235 | a cache hit is served (when use_cache and not force_refresh) without writing; otherwise statistics, then the fallback, are tried; only a non-empty result is cached, and both empty gives `[]` |
| Inventory.GetFboStocksServesCached | managers/inventory.py:204-218 | what a fetch cached is what the next cached call returns, with no further write |
| Inventory.FallbackRows | managers/inventory.py:364-382 | one row per report group, in order, with the group's nmID, its stock summed, and the mapped article or `''` |
| Inventory.ByWarehouseGroups | managers/inventory.py:396-412 | each record is filed under its warehouseName (default "Неизвестно") in input order, and a warehouse has a group iff some record names it |
| FboFallback.ArticleMappingByCard | managers/inventory.py:318-321 | an nmID is mapped iff it is non-zero and some card carries it, and it maps to the vendorCode of the last such card |
| FboFallback.MappingSizesAgree | managers/inventory.py:318-326 | the fallback's nmID→article mapping has the same keys, hence the same size, as the legacy detailed report's product mapping of the same cards |
| FboFallback.ArticleWalkIsProductWalk | managers/inventory.py:296-334 | the fallback's card loop (no error-flag check, stop on the mapping's size) sends the same requests and takes the same pages as the legacy detailed report's loop |
| FboFallback.Fallback | managers/inventory.py:289-385 | defined iff the card walk ends; then one row per report group, none when the report had no `data` |
| FboFallback.FallbackArticles | managers/inventory.py:364-382 | each row carries its group's nmID and summed stock and the vendorCode of the last walked card with that nmID, or `''` when no card carries it or the nmID is falsy |
| Products.CrawlWalked | managers/products.py:199-243 | a walk the loop returns is the loop's: every request but the last had its page taken (a dict, no error flag where the flag is checked, a non-empty card list) and went on (a full page of 100 and the stop test not met), the next request carrying the last card's updatedAt and nmID; the last request did not go on |
| Products.CrawlEnds | managers/products.py:223-236 | when the reported total never exceeds a bound, the loop ends within 1 + bound/100 requests, because every request that goes on adds a full page below the total |
| Products.CrawlSomeIffHalts | managers/products.py:199-243 | the loop returns a walk exactly when it stops within the requests allowed |
| Products.CardWalkEnds | managers/products.py:196-243 | the size-id walk from the first cursor ends within 1 + bound/100 requests against such a catalogue |
| Products.GetAllChrtIds | managers/products.py:187-246 | the chrtIDs of every card taken, in page, card and size order; defined exactly when the walk ends |
| Products.ChrtIdsMembers | managers/products.py:225-230 | an id is collected iff it is non-zero and some size of some card carries it |
| Products.ChrtIdsAppend | managers/products.py:223-230 | the ids of two runs of cards are the ids of each, one after the other, so the walk's ids are its pages' ids in page order |
| Products.GetChrtIdMapping | managers/products.py:364-432 | the mapping built from every card taken; defined exactly when the walk ends |
| Products.EntriesKeys | managers/products.py:400-417 | the assignments are keyed by exactly the collected ids, in order, and each records its size's card nmId, vendorCode, title, brand, techSize and wbSize |
| Products.ChrtMappingLast | managers/products.py:407-417 | the mapping holds exactly the collected ids, and each id maps to the last assignment made to it |
| Products.MappingLaterCardWins | managers/products.py:407-417 | two cards sharing a chrtID: the mapping keeps the later card's product |
| Products.PhotoUrlFallback | managers/products.py:326-329 | no photos gives None; otherwise the first photo's square URL, else its c246x328, else its big one, and a usable URL comes out iff one of the three is non-empty |
| Products.PriceOf | managers/products.py:332-340 | no sizes gives price and discounted price 0; the discounted price defaults to the price |
| Products.CollectContent | managers/products.py:297-314 | the content answers concatenated in batch order, lost exactly when some answer is not a dict |
| Products.ProductsWithPhotos | managers/products.py:285-358 | an empty price list gives an empty result without any content request |
| Products.ContentBatches | managers/products.py:289-298 | the content requests cover the distinct nmIDs of the price list, each once, in batches of 1 to 100 |
| Products.JoinMembers | managers/products.py:316-356 | one record per card found in the price list, in card order, and a record comes out iff some such card yields it |
| Products.JoinUsesLastGood | managers/products.py:289-323 | a card is joined with the price-list entry of the last good carrying its nmID |
| Products.PriceItemRoundTrip | managers/products.py:128-136 | the payload item reads back as the nmID, price and discount asked for, and carries the discount key iff a discount is given |
| Legacy.GetSales | managers.py:737-782 | a fresh cached value is served without calling the API and with the cache unchanged; otherwise the API's list (or `[]`) is returned and stored, stamped with the time the answer came back |
| Legacy.GetSalesCachesEverything | managers.py:759-782 | after a call that went to the API, a repeated call is served from the cache, with the first answer, exactly while it comes less than the ttl after that answer was stored |
| Legacy.EmptyAnswerServed | managers.py:777-782 | an empty answer is cached too: 599 seconds later the same call is served `[]` without calling the API |
| Legacy.FboStocks | managers.py:543-550 | the report's `data` when the answer is a dict carrying it, the `{"regions": []}` default otherwise or on error |
| Legacy.ProductPairsKeys | managers.py:586-595 | an assignment is made for an nmID iff it is non-zero and some card carries it |
| Legacy.ProductMappingKeys | managers.py:586-595 | a product is mapped iff some card carries its non-zero nmID, and it holds the fields of the last card carrying it |
| Legacy.RowOf | managers.py:653-683 | a row carries the group's nmID and stocks, the stock summed, and the mapped product's vendorCode, title, brand and subject, or empty strings for an unmapped nmID |
| Legacy.DetailedRowsPerGroup | managers.py:653-683 | one row per group with a truthy nmID, in group order |
| Legacy.FboStocksDetailed | managers.py:552-692 | defined exactly when the mapping walk ends; no rows when the report carried no `data` |
| Registry.Words | api_registry.py:719-726 | the query's words, lower-cased and split on whitespace, are never empty |
| Registry.UseCaseBonusOnce | api_registry.py:733-737 | the use cases add exactly 1 when at least one of them mentions a query word, however many do, and 0 otherwise |
| Registry.ScoresCompared | api_registry.py:722-740 | a method scores +2 for its description and +1 for its name, and on Wildberries +1 more for the use cases: 0..3 on Ozon, 0..4 on Wildberries; it scores above 0 iff some query word occurs in one of the scored texts |
| Registry.Scored | api_registry.py:739-740 | only methods of the registry with a positive score are kept, each with its score |
| Registry.ScoredComplete | api_registry.py:722-740 | a method is kept iff it is in the registry and scores above 0 |
| Registry.FindBy | api_registry.py:742-745 | at most five methods come back, each from the registry and with a positive score |
| Registry.FindMethod | api_registry.py:708-745 | the Wildberries search returns at most five registry methods, each mentioning a query word in its description, name or a use case |
| Registry.OzonFindMethod | ozon_api_registry.py:149-161 | the Ozon search returns at most five registry methods, each mentioning a query word in its description or name |
| Registry.FindBySorted | api_registry.py:743-745 | the methods returned are in non-increasing score order (both registries) |
| Registry.RankedStable | api_registry.py:743 | the ranking keeps registry order among methods of equal score (both registries) |
| Registry.FindByKeepsBest | api_registry.py:743-745 | a positive-scoring method left out scores no more than any method returned |
| Registry.FindByAllWhenFew | api_registry.py:745 | all positive hits come back when there are at most five, otherwise exactly five |
| Registry.MethodByName | api_registry.py:748-753 | the first method with exactly that name, or None iff no method has it |
| Registry.ListAllMethods | api_registry.py:756-758 | every method's name, one per method, in registry order |
| Registry.MethodsByCategoryExact | api_registry.py:761-763 | a method is listed iff it is in the registry with that category, and the list follows registry order |
| Dashboard.WarehouseCountsAddUp | dashboard.py:949-952 | the per-warehouse counts add up to the number of FBO records, and a warehouse's count is the number of records naming it (missing name: "Неизвестно"), with no entry when none does |
| Dashboard.UnionKeysMembers | dashboard.py:1099 | a key is enumerated for the summary iff the FBS or the FBO sums have it |
| Dashboard.DaysToCover | dashboard.py:1123-1127 | days-to-cover is None exactly when the order speed is not positive, and otherwise within 0.05 of total / speed |
| Dashboard.RowsCover | dashboard.py:1099-1111 | a key has a row iff it occurs on the FBS or the FBO side |
| Dashboard.RowValues | dashboard.py:1101-1111 | a row holds each side's total for its key, 0 for a side without it, and total = fbs + fbo |
| Dashboard.SummaryCovers | dashboard.py:1079-1129 | the table has a row for an (nmId, stripped article) key iff some FBS or some FBO record carries it |
| Dashboard.SummaryRowSums | dashboard.py:1079-1127 | each row's fbs is the sum of the FBS amounts of its key over all warehouses, its fbo the sum of the FBO quantities (missing as 0), total = fbs + fbo, and speed and days-to-cover follow from the average orders |
| Dashboard.SummaryLeTotalPreorder | dashboard.py:1129 | the sort order (total descending, then article ascending) is a total preorder |
| Dashboard.SummarySorted | dashboard.py:1129 | the table is sorted by total descending, then article ascending, and is a permutation of the unsorted rows |
| Dashboard.PageCountIsCeiling | dashboard.py:1698 | the page count is at least 1, exactly 1 for an empty table, and otherwise the ceiling of total / per page |
| Dashboard.PageOf | dashboard.py:1702-1704 | a page never holds more than per-page items, whatever the page number |
| Dashboard.PageOfSlice | dashboard.py:1702-1704 | page p (from 1) holds items (p - 1) * per page up to p * per page, cut at the end of the table |
| Dashboard.PagesUpToPrefix | dashboard.py:1698-1704 | the first n pages together are the table's first n * per page items, in order |
| Dashboard.PagesCoverAll | dashboard.py:1698-1704 | paging through every page shows each item exactly once, in order |
| Dashboard.NavigationStaysInRange | dashboard.py:1716-1725 | from a page within 1..total pages the buttons stay within it, "◀" moving iff not on the first page and "▶" iff not on the last |
| Dashboard.DiscountAgrees | dashboard.py:1821-1825 | the dashboard's discount cell and the test helper compute the same percentage |
| Dashboard.CalculateDiscountExact | tests/e2e/helpers.py:279-293 | 0 when the price is not positive or the discounted price is not below it; otherwise the whole part of 100 * (price - discounted) / price; never negative, and at most 100 for a non-negative discounted price |
| Dashboard.DiscountPercentMonotone | dashboard.py:1823 | for a fixed price, a higher discounted price never shows a larger discount |
| Dashboard.CalculateDiscountMonotone | tests/e2e/helpers.py:293 | for a fixed price, calculate_discount is non-increasing in the discounted price |
| Dashboard.SavedEdit | dashboard.py:1842-1846 | the saved entry holds the two inputs and the discount calculate_discount gives for them |
| Dashboard.ChangeFor | dashboard.py:1639-1649 | a selected product yields a change iff it has an edit with a positive price; the change carries its nmID, the price's whole part and the saved discount |
| Dashboard.ChangesExact | dashboard.py:1637-1649 | a change is sent exactly for each selected product with a positive edited price, at most one per selected product |
| Dashboard.SentPriceAtLeastOne | dashboard.py:1644-1647 | a price entered as at least 1 is sent as at least 1 |
| AvgOrders.ValidIds | managers/analytics.py:523 | the ids asked for are sorted ascending without repeats, and are exactly the positive ids given |
| AvgOrders.Requests | managers/analytics.py:553-555 | every stock type is asked for every batch, and every request is such a pair |
| AvgOrders.AnalyticsRequests | managers/analytics.py:544-571 | each analytics request carries 1 to 1000 ids under an allowed stock type; every stock type is asked for every batch; the batches are the ids in order |
| AvgOrders.MergeMaxValue | managers/analytics.py:592-610 | an id gets a speed iff some item carries it; the speed is at least 0, at least every speed reported for it, and when positive equal to one of them (the maximum over stock types and batches) |
| AvgOrders.Missing | managers/analytics.py:613 | the fallback covers exactly the requested ids whose speed is not positive |
| AvgOrders.Fill | managers/analytics.py:656-658 | a missing id with a positive fallback quantity gets round(qty / period_days, 4); every other entry is unchanged |
| AvgOrders.AvgOrdersByNmIds | managers/analytics.py:510-663 | no positive id gives `{}` with no request; a non-empty normalised cache entry is served; otherwise the endpoints are asked, and the result is cached iff some speed is positive |
| AvgOrders.SpeedsNonNegative | managers/analytics.py:602-658 | no speed computed is negative |
| AvgOrders.SpeedsKeepAnalytics | managers/analytics.py:613-658 | the fallback applies only to ids still at zero: a positive analytics speed is kept |
| AvgOrders.SpeedsFallback | managers/analytics.py:612-658 | a requested id at zero takes round(qty / period_days, 4) when its order (else, when no order helps any missing id, sales) quantity is positive, and stays as it was otherwise |
| Analytics.IntegralIsWhole | managers/analytics.py:60-62 | a parsed decimal counts as an integer exactly when its value is a whole number, and its integer is then that value |
| Analytics.ToIntNmIdCases | managers/analytics.py:37-62 | None and booleans give no id; an int is itself; a float gives an id iff it is whole, and then the same value; text gives an id iff its stripped form parses as a whole number |
| Analytics.ParseFloatBounded | managers/analytics.py:56-59 | a parsed decimal's fractional digits are below the power of ten of their count, so the value's fraction lies in [0, 1) |
| Analytics.ToIntNmIdOfTextIsWhole | managers/analytics.py:51-62 | text gives an id iff it parses to a whole number, and the id equals the number parsed |
| Analytics.ToIntNmIdOfDigits | managers/analytics.py:55 | the decimal digits of any n read back as the id n |
| Analytics.ToIntNmIdOfFloatText | managers/analytics.py:55-61 | "n.0" reads as the id n |
| Analytics.ToIntNmIdRejectsFraction | managers/analytics.py:55-62 | "n.5" is rejected as an id |
| Analytics.FloatOrZero | managers/analytics.py:76-79 | `float(v or 0)`: ints and floats keep their value, parseable text its numeric value, None and False read as 0 |
| Analytics.NormalizeEntriesKeys | managers/analytics.py:65-80 | the keys are exactly the ids that normalise from some raw key; nothing else appears |
| Analytics.NormalizeEntriesLast | managers/analytics.py:71-77 | for a key appearing several times the value of the last raw entry normalising to it wins |
| Analytics.Pause | managers/analytics.py:25-31 | the wait is never negative, ends no sooner than min_interval after the last call, and is exactly that long when it is positive |
| Analytics.CallsSpaced | managers/analytics.py:25-31 | after waiting, two consecutive calls are at least min_interval apart |
| Analytics.GetSales | managers/analytics.py:82-124 | a fresh cached answer is served without a call; otherwise the API answer (not a list reads as empty) is returned and stored only when non-empty |
| Analytics.GetSalesServesStored | managers/analytics.py:104-124 | a non-empty answer is served again, as its JSON round trip, without a call until it expires; an empty one makes the next call go to the API again |
| Analytics.CalculateRevenue | managers/analytics.py:200-226 | the count is of all rows, returns included; with no rows revenue and average check are 0 |
| Analytics.SalesPayAppend | managers/analytics.py:213-217 | the revenue of sales adds up over any split of the rows |
| Analytics.RevenueOfOneMore | managers/analytics.py:213-219 | one more row raises the count by one; a cancelled or returned row leaves the revenue unchanged and a sale adds its paid amount |
| Analytics.Accumulate | managers/analytics.py:266-284 | each row counts once, either as a sale or as a return/cancel, and the two counts add up to the row count |
| Analytics.AccumulateRevenue | managers/analytics.py:272-277 | the gross total is the retail amount summed over the sales only |
| Analytics.AccumulateReturned | managers/analytics.py:272-274 | the returns total is the retail amount summed over the returns and cancellations only |
| Analytics.AccumulateFees | managers/analytics.py:266-282 | net payout, commission, logistics, storage and penalties are summed over every row, sale or return |
| Analytics.Percent | managers/analytics.py:300 | a part of a positive whole, as a rounded percentage, lies between 0 and 100 |
| Analytics.CalculateRevenueDetailed | managers/analytics.py:228-301 | the all-zero answer iff the report is empty; otherwise sales and returns add up to the operations, which are the rows, and the return rate is a percentage |
| Analytics.ProductsTotals | managers/analytics.py:470-485 | a product entry exists iff some sale carries its nmId; it is named after its first sale and totals the quantity of all its rows (missing as 1) and the paid amount of its non-returned rows |
| Analytics.ProductsDistinct | managers/analytics.py:470-480 | every nmId has at most one entry |
| Analytics.TopProducts | managers/analytics.py:487-493 | the top `limit` products by revenue: exactly min(limit, products) entries (for a negative limit all but the last -limit), highest revenue first, and every product left out has no more revenue than every product listed |
| Analytics.TopProductsTotals | managers/analytics.py:470-493 | every product listed carries the quantity and sales revenue totalled over exactly its own rows |
| Analytics.Paginate | managers/analytics.py:326-343 | the requests form a chain: each next date_from is the previous batch's last date reformatted, the loop goes on exactly after full batches dated within the week, and the rows are the batches concatenated in order |
| Analytics.WeeklyLoopStuck | managers/analytics.py:329-343 | a full batch whose last date reformats to its own date_from makes the loop request forever: no request budget suffices |
| Analytics.WeeklyLoopNeverEnds | managers.py:1027-1043 | a thousand sales stamped 10:00 on the week's first day keep the loop from ever ending |
| Analytics.WeeklyLoopFixedEnds | managers/analytics.py:329-343 | with the advance check the same upstream takes exactly two requests |
| Analytics.FixedRequestsIncrease | managers/analytics.py:343 | with the advance check every request starts strictly after the previous ones, so none repeats |
| Analytics.AggregateTotals | managers/analytics.py:714-757 | an nmId has an accumulator iff some row normalises to it; its labels come from its first row and its totals cover exactly its rows |
| Analytics.AggregateDistinct | managers/analytics.py:719-734 | every nmId has at most one accumulator |
| Analytics.Derive | managers/analytics.py:765-788 | a product's entry keeps its nmId and its sale and return counts, and its return rate is a percentage |
| Analytics.DeriveAllMembers | managers/analytics.py:761-763 | exactly the accumulators with at least one sale are derived |
| Analytics.Margins | managers/analytics.py:699-794 | the result is ordered by gross revenue, highest first, and empty for an empty report |
| Analytics.MarginsEntries | managers/analytics.py:714-790 | every listed product has a sale; its counts cover exactly its rows and its gross revenue is the retail amount of its sales |
| Analytics.MarginsComplete | managers/analytics.py:759-790 | every nmId with at least one sale is listed |
| Analytics.MarginsSkipUnnormalised | managers/analytics.py:715-717 | a row whose nmId does not normalise leaves the result unchanged |
| Pricing.DaysOfStock | pricing_strategy.py:63-77 | no stock means 0 days, stock without orders an infinite cover, otherwise stock over daily orders to within the 0.1 rounding |
| Pricing.DiscountedPrice | pricing_strategy.py:57-60 | the buyer's price is the price less the discount, to within a kopeck |
| Pricing.ClampDiscount | pricing_strategy.py:131 | the discount always lands in 0..95, values inside the window are kept, those outside go to the nearer bound |
| Pricing.MakeAction | pricing_strategy.py:122-146 | no action exactly when the rounded price and the clamped discount both equal the current ones; an action carries the context's identity and old values, the rounded price, the clamped discount, and differs from the current state |
| Pricing.StockEvaluate | pricing_strategy.py:183-200 | scarce stock is checked first and marks up with the discount unchanged; surplus stock adds the discount with the price unchanged; stock in between proposes nothing |
| Pricing.TurnoverEvaluateAsWritten | pricing_strategy.py:247-251 | a cover that rounds to 0.0 days proposes nothing, even with stock left |
| Pricing.TurnoverDecide | pricing_strategy.py:253-271 | a cover below the understock days marks up; above the overstock days (an infinite cover included) it adds a discount capped at the maximum; otherwise nothing |
| Pricing.TurnoverEvaluate | pricing_strategy.py:247-271 | the corrected turnover rule: without stock nothing is proposed; with stock the turnover branches decide |
| Pricing.TurnoverAsWrittenSkipsNearlySoldOut | pricing_strategy.py:73-77 | one unit selling 100 a day rounds to 0.0 days: the source proposes nothing where the stock-based guard marks the price up to 1100 |
| Pricing.TurnoverInStockMarksUp | pricing_strategy.py:250-260 | with the stock-based guard a product in stock with a short cover is marked up, and both guards agree whenever the cover does not round to 0 |
| Pricing.ConversionEvaluate | pricing_strategy.py:310-327 | the no-sales branch needs stock, has priority and caps the discount; otherwise fast sellers are marked up; otherwise nothing |
| Pricing.MarginEvaluate | pricing_strategy.py:366-391 | nothing without a cost price or with a non-positive denominator; an action exactly when the target price deviates from the current one by more than the tolerance, and it proposes that target |
| Pricing.ParseMonthDay | pricing_strategy.py:434-435 | a parsed "MM-DD" names a real month and a day within that month of the year |
| Pricing.SeasonLastDayLost | pricing_strategy.py:440-441 | at 10:00 on the last day of a period the check as written says inactive where the whole-day check says active |
| Pricing.IsActiveWholeDays | pricing_strategy.py:427-444 | the whole-day check does not depend on the time of day and agrees with the source at midnight, year-wrapping periods included |
| Pricing.SeasonEvaluate | pricing_strategy.py:446-458 | under either reading of the activity check, the action of the first active period that changes something, or nothing when no active period does |
| Pricing.SeasonAsWrittenMissesLastDay | pricing_strategy.py:440-458 | at 10:00 on the last day of a period the season rule as written proposes nothing where the whole-day rule proposes the period's action |
| Pricing.SeasonRulesAgreeAtMidnight | pricing_strategy.py:427-458 | at midnight both readings of the season rule propose the same action for every period list |
| Pricing.Evaluate | pricing_strategy.py:112-146 | under the program's own rules (`AsWritten`) or the corrected ones, any action names the strategy that made it and the context's product, is not applied, and has a discount in 0..95 |
| Pricing.RulesAgree | pricing_strategy.py:247-271 | the program's rules and the corrected ones give the same outcome for every strategy at midnight on a product whose cover does not round to 0.0 days |
| Pricing.FirstAction | pricing_strategy.py:645-654 | the first strategy in list order that proposes a change wins; none when none does |
| Pricing.ProposalFor | pricing_strategy.py:642-654 | at most one action per context, none for a non-positive price, each for that product at its old price |
| Pricing.EvaluateAll | pricing_strategy.py:639-655 | at most one action per context, each unapplied, with a positive old price and a discount in 0..95 |
| Pricing.EvaluateAllAppend | pricing_strategy.py:642-655 | the actions for a concatenation of contexts are the actions for each part, in context order |
| Pricing.EvaluateAllIgnoresUnpriced | pricing_strategy.py:643-644 | contexts without a positive price make no difference to the outcome |
| Pricing.Payload | pricing_strategy.py:666-669 | one upload entry per action, carrying its product, new price and new discount |
| Pricing.Apply | pricing_strategy.py:661-685 | exactly the actions whose 1000-sized batch the upload accepted become applied; nothing else about any action changes |
| Pricing.BatchOfRange | pricing_strategy.py:671-673 | every action of a batch starting at a multiple of 1000 belongs to that batch |
| Pricing.Run | pricing_strategy.py:691-716 | no contexts give no actions; the actions are the evaluated ones up to the applied flag; a dry run applies none, and a live run marks applied exactly the actions whose batch upload was accepted |
| Pricing.FboStocksMapTotals | pricing_strategy.py:555-567 | the FBO map holds, per product, the quantity (or stock count) summed over its records; records without a truthy product id are skipped |
| Pricing.FbsStocksMapTotals | pricing_strategy.py:569-582 | the FBS map holds, per product, the amount summed over every warehouse's records |
| Pricing.TotalStocks | pricing_strategy.py:511-514 | the merged map's products are exactly those of either side |
| Pricing.StockTotalIsFboPlusFbs | pricing_strategy.py:508-514 | every product's merged stock is its FBO quantity plus its FBS amount, a missing side counting 0 |
| Pricing.BuildContexts | pricing_strategy.py:532-550 | one context per product in order, priced from the first size, with stock, discount and order speed defaulting to 0 |
| PriceHistory.Record | price_history.py:117-153 | exactly one row is appended, built from the action, not rolled back, stamped now, under a fresh id that is returned; the journal's invariant is kept |
| PriceHistory.RecordMany | price_history.py:155-169 | returns the number of actions (0 for none); the old rows are kept and one new row per action follows, in order, with its product, prices and applied flag |
| PriceHistory.Limit | price_history.py:192 | `LIMIT n` keeps the first min(n, length) rows |
| PriceHistory.Query | price_history.py:186-196 | only matching rows, newest first; with a limit exactly min(limit, matching) of them, and every matching row left out is no newer than every row returned; without a limit every matching row |
| PriceHistory.GetByNmId | price_history.py:175-196 | only the product's rows, newest first; with a limit exactly min(limit, the product's rows) of them, and every row of the product left out is no newer than every row returned |
| PriceHistory.GetAll | price_history.py:198-237 | only rows meeting every given filter, newest first; with a limit exactly min(limit, matching) of them, and every matching row left out is no newer than every row returned; without a limit all such rows |
| PriceHistory.DateToTakesWholeDay | price_history.py:223-225 | a row stamped at any time of the `date_to` day passes the upper bound |
| PriceHistory.GetLastApplied | price_history.py:239-254 | none iff the product has no applied, not rolled-back row; otherwise the newest such row |
| PriceHistory.MarkRolledBack | price_history.py:359-364 | only the flag of the row with that id is set; every other field and row is unchanged |
| PriceHistory.RollbackLast | price_history.py:260-295 | nothing to roll back gives false and no call; otherwise the old price and discount are sent, and the row is marked exactly when the call succeeds, which is the result |
| PriceHistory.RollbackLastAdvances | price_history.py:271-290 | after a successful rollback the product's next target is a different, older row, or there is none |
| PriceHistory.FirstPerNm | price_history.py:325-329 | every product appears at most once |
| PriceHistory.FirstPerNmFirst | price_history.py:325-329 | the row kept for a product is its first in the scan |
| PriceHistory.SeenIsNewest | price_history.py:308-329 | a product is rolled back iff it has a candidate in the window, and the row chosen is its newest candidate |
| PriceHistory.RollbackSince | price_history.py:297-357 | one call and one result per product, each with the newest candidate's old price; exactly the successful rows are marked, nothing else changes, and each product is reported once |
| PriceHistory.Extreme | price_history.py:395-401 | none iff the journal is empty; otherwise a timestamp present in it and no later (or earlier) than any |
| PriceHistory.Stats | price_history.py:370-420 | the totals count all, applied and rolled-back rows and distinct products; the per-strategy counts are a permutation of those of the rows, sorted most frequent first |
| PriceHistory.StatsStable | price_history.py:403-419 | the sort is stable: strategies with equal counts keep the order in which they were first met |
| PriceHistory.StatsByStrategySum | price_history.py:403-419 | the per-strategy counts add up to the total |
| PriceHistory.PurgeOld | price_history.py:422-436 | exactly the rows older than the cutoff are deleted and counted; the rest stay in order |
| AiAgent.AnalyzeRequestIsTableRoute | ai_agent.py:80-145 | the agent's if/elif chain chooses exactly what the first-match keyword table (NlpEngine.Route) chooses for the same six intents |
| AiAgent.ProductsCase | ai_agent.py:85-95 | a product query is a price update before a list, a search or a stock check, and a list by default |
| AiAgent.AnalyticsCase | ai_agent.py:98-108 | among analytics queries weekly wins over top, top over revenue, revenue over detailed, and the default is the sales report |
| AiAgent.AdvertisingCase | ai_agent.py:111-125 | the advertising subtypes are checked in the order start, pause, delete, create, bid, statistics, with the campaign list by default |
| AiAgent.OrdersCase | ai_agent.py:128-134 | order queries are new orders before cancellation, with the order list by default |
| AiAgent.AgentAndEngineDisagree | ai_agent.py:88-91 | a product query with a list word and a search word but no price word is a list here and a search in the NLP router |
| AiAgent.CatalogQueryDisagrees | ai_agent.py:85-91 | "каталог где nm" is routed to different actions by the agent and by the NLP router |
| AiAgent.Numbers | ai_agent.py:156 | every number found is a non-empty run of digits |
| AiAgent.PercentSearchFound | ai_agent.py:165-167 | a discount found is a digit run that the query has directly before a `%` |
| AiAgent.PercentSearchNotFound | ai_agent.py:165-166 | when nothing is found, no digit run in the query is followed by `%` |
| AiAgent.DateSearchFound | ai_agent.py:190-192 | the day, month and year found are a match of the date pattern in the query |
| AiAgent.DateSearchNotFound | ai_agent.py:190-191 | when nothing is found, the date pattern matches nowhere in the query |
| AiAgent.FormatDateShape | ai_agent.py:192-196 | the date is written YYYY-MM-DD, keeps the day and month values, and puts "20" before a two-digit year |
| AiAgent.ZFill2Value | ai_agent.py:196 | zero-padding to two digits keeps the value |
| AiAgent.LazyEndMeaning | ai_agent.py:172 | the lazy group ends at the first place the tail matches, never crossing a line break, and finds no end only when a line break precedes every place the tail could match |
| AiAgent.GroupAtMeaning | ai_agent.py:172 | a group is a non-empty piece of the query without line breaks, ending where the tail can follow and nowhere earlier |
| AiAgent.FindQueryMeaning | ai_agent.py:171-174 | a search text found follows "найди" and at least one space, and ends before " в " or at the end |
| AiAgent.FindQueryNone | ai_agent.py:172-173 | when nothing is found, the pattern matches nowhere |
| AiAgent.Words | ai_agent.py:176 | the words are non-empty and hold no whitespace |
| AiAgent.WordsKeepText | ai_agent.py:176 | splitting drops only whitespace: the words, concatenated, are the query's other characters in order |
| AiAgent.PeriodDays | ai_agent.py:199-207 | without a date the period is always one of 7, 30 or 365 days |
| AiAgent.BidNeverExtracted | ai_agent.py:178-186 | as written, no query ever yields a bid for update_bid |
| AiAgent.ExtractParams | ai_agent.py:147-215 | every action but update_bid gets exactly the parameters the source extracts |
| AiAgent.UpdatePriceParams | ai_agent.py:158-167 | article and price are the first two numbers, present exactly when there are two; the discount is the number before the first `%`, read only when "скидка" or `%` appears; nothing else is set |
| AiAgent.CampaignParams | ai_agent.py:178-186 | a campaign action's id is the first number, present iff there is one; with the bid read, update_bid's bid is the last of at least two numbers |
| AiAgent.ReportParamsMeaning | ai_agent.py:188-213 | a date found gives that day and one day; otherwise the keyword period; the limit is the first number when "топ" appears, else 10 |
| AiAgent.ExecuteAction | ai_agent.py:255-383 | an unknown action gives the error answer; a known one raises exactly when its required parameters are missing; every action's call is stated with its arguments: the extracted values or the source's defaults (limit 100 for products and new orders, 1000 for sales, orders and the detailed report, 30 days and 10 for the top, a dated revenue report for one day when a date was found) |
| AiAgent.Execute | ai_agent.py:217-253 | the program's pipeline: a routed `update_bid` always raises, and the answer is the unknown-action one exactly when the routed action has no branch |
| AiAgent.ExecuteCorrected | ai_agent.py:217-253 | the pipeline with the bid read: the answer is the unknown-action one exactly when the routed action has no branch |
| AiAgent.ExecuteAgrees | ai_agent.py:150-215 | the program's pipeline and the corrected one give the same outcome for every query not routed to `update_bid` |
| AiAgent.ExecuteDiffersOnBid | ai_agent.py:178-182 | a routed `update_bid` with two numbers raises in the program and sets the first number's campaign to the last number as bid in the corrected pipeline |
| AiAgent.UpdatePriceDispatch | ai_agent.py:268-276 | update_price raises exactly when the query has fewer than two numbers, and otherwise sends the first two |
| AiAgent.UpdateBidAlwaysRaises | ai_agent.py:365-367 | as written, update_bid always raises for lack of a bid |
| AiAgent.UpdateBidDispatch | ai_agent.py:365-371 | with the bid read, two or more numbers send the first as campaign and the last as bid; fewer raise |
| AiAgent.AnalyzeRequestRouted | ai_agent.py:85-145 | the chain only ever chooses one of its listed actions |
| AiAgent.RoutedButUnknown | ai_agent.py:119-134 | a query ends in the unknown-action answer exactly when it is routed to create_campaign, cancel_order, list_orders or list_feedbacks |

## Left out

- HTTP calls, the Wildberries and Ozon clients, and the SQLite files are not part of this model. Every API answer is a parameter, a datatype of the answer shapes the code distinguishes, or a function from request to answer. The cache tables and the price journal are in-memory maps and sequences.
- Clocks and sleeping (`time.time`, `datetime.now`, `time.sleep`) are parameters. `Analytics.Pause` returns how long to sleep instead of sleeping.
- Exceptions raised inside the card walks, the FBO fallback and the batch requests are not modelled one by one. A non-dict answer, a raised stock request and a raised statistics request are answer constructors. A network error in the middle of a walk is not.
- Products.Crawl, Products.CardWalk, Legacy.ProductWalk, FboFallback.ArticleWalk: the source loops are `while True`, so the model bounds them by `fuel` requests and answers `None` past it. Products.CardWalkEnds shows that a walk whose reported totals never exceed a bound ends within bound / 100 + 1 requests.
- Analytics.Paginate: the weekly loop is bounded by `fuel` for the same reason. As written it can need unbounded fuel (see Findings).
- The pandas group-bys of `get_weekly_sales_report`, and every other report formatting step, are left out. Only the pagination loop is modelled.
- Floating point: money and rates are exact `real`s. `round(x, k)` is exact round-half-even at k decimals (Common.RoundTo). `int()` of a float is truncation toward zero. Binary rounding error is not modelled.
- `float()` of text: decimal notation with an optional sign is modelled. Exponents, underscores, `inf` and `nan` are not.
- Python dict key equality of `1`, `1.0` and `True` is not modelled. The maps are keyed by normalised ints.
- `str.lower()` covers the basic Latin and Cyrillic capitals (Ё included), and `str.split()` the ASCII whitespace. Full Unicode case mapping and Unicode whitespace are not modelled.
- The regular expressions of `ai_agent.py` use `\d` and `\s`, which in Python match any Unicode decimal digit and any Unicode whitespace. The model's digit test (Common.IsDigit) accepts only `0`-`9`, and its space test (Common.IsSpace) accepts only ASCII whitespace. Queries with other digits or spaces are not modelled.
- A stock record whose `warehouseName` key is present with the value `None` is not modelled. The field is an `Option<string>`, so `None` means the key is missing. `stock.get('warehouseName', 'Неизвестно')` would give `None` for such a record, but Inventory.WarehouseOf and Dashboard.WarehouseCounts group it under "Неизвестно".
- The md5 hash in `make_key` and `_get_cache_key` is a function parameter. The key's canonical JSON preimage is modelled, but JSON string escaping is not.
- The contents of the `METHODS` tables in `api_registry.py` and `ozon_api_registry.py` are not modelled. The searches are generic over any table.
- The order of iteration over a Python set is left open. The dashboard's summary keys are enumerated as the FBS keys and then the FBO-only keys, and the table is sorted afterwards. The selected products are a sequence.
- SQL leaves tied rows in unspecified order. In the journal, `created_at` ties are broken by id, newest first. In `stats`, strategies with equal counts keep the order of first appearance.
- Reason strings, log messages, `print`, Streamlit widgets and the `_print_result` / search dispatch of the assistant are not modelled. Only the decisions they report are.
- APScheduler triggers, threads and signal handling in `scheduler.py` are left out. `start` and `stop` are modelled as flag updates.
- `_calc_days_without_sales` and `_calc_revenue_map` in `pricing_strategy.py` read the clock and parse sale dates. Their outputs are parameters of Pricing.BuildContexts.
- `clear_fbo_cache` and `export_fbo_stocks_to_csv` in `managers/inventory.py` are left out. The first only drops a cache key, and the FBO cache is a parameter of Inventory.GetFboStocks. The second is file output.
- Dashboard.ChangeFor: an edit whose price is `None` is not modelled. Edited prices are numbers.
- Pricing.MarginEvaluate: requires a non-zero current price. The engine skips contexts priced at or below 0 before any strategy runs. The strategy on its own would divide by zero.
- Pricing.DaysOfStock: states the rounding to one decimal as a result within 0.05 of stock / orders. It does not state which neighbour half-even rounding picks.
- Dashboard.DaysToCover: states the rounding to one decimal as a result within 0.05 of total / speed.

## Findings

| source | as written | input that shows it | evidently intended | confidence | as-written member | corrected member |
|---|---|---|---|---|---|---|
| managers/inventory.py:173-187 | `get_fbo_stocks()` returns a list, so `fbo_data.get('regions', [])` raises; the `except` returns `{}` | one FBS warehouse holding 5 units of nmId 42 | per-product totals with fbs = the summed FBS amounts and total = fbs + fbo | not executed | Inventory.TotalStocksAsWrittenLosesStock | Inventory.TotalStocksSum |
| pricing_strategy.py:440-441 | `today` carries the time of day while `d_to` is midnight, so `today <= d_to` fails on the period's last day | the period 11-20..12-05 at 10:00 on 5 December 2025 | a period is active on every day from its first to its last, inclusive | not executed | Pricing.SeasonAsWrittenMissesLastDay | Pricing.SeasonRulesAgreeAtMidnight |
| pricing_strategy.py:77 | `days_of_stock` is rounded to one decimal, and the turnover rule at lines 250-251 reads 0.0 as "no stock" | stock 1 with 100 orders a day | a product still in stock is treated as in stock, so a nearly sold-out product is marked up | not executed | Pricing.TurnoverAsWrittenSkipsNearlySoldOut | Pricing.TurnoverInStockMarksUp |
| scheduler.py:255-256 | `self._history[-self.max_history:]` with `max_history = 0` is `h[-0:]`, the whole list | max_history 0 and any run | a history of at most max_history runs, so none with 0 | not executed | Scheduler.ZeroMaxHistoryKeepsAll | Scheduler.RunJobCorrected |
| ai_agent.py:178-186 | the campaign branch matches `update_bid` first, so the branch extracting `bid` is never reached | action update_bid with the query "кампания 123 ставка 50" | campaign_id from the first number and bid from the last, here 123 and 50 | not executed | AiAgent.UpdateBidAlwaysRaises | AiAgent.UpdateBidDispatch |
| managers/analytics.py:329-343 | the next `date_from` is the last record's date, which can equal the current one, so the same request repeats | 1000 sales stamped 2024-01-01T10:00:00 for the week of 2024-01-01 | the loop advances or stops | not executed | Analytics.WeeklyLoopNeverEnds | Analytics.WeeklyLoopFixedEnds |
