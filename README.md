# CargoMind / CargoBloom market pipeline — a Dafny model

The repository collects freight offers from a transport exchange and turns
them into a market dashboard. This project models the sequential logic of
that pipeline and proves what it promises:

- **Page interceptor** (`interceptor.dfy`, module `Interceptor`). The
  CargoBloom extension's injected script classifies every JSON response by
  URL. It posts at most one message for each response: the offer rows, or
  one of five dictionaries. It keeps a counter per kind.
- **Sync worker** (`sync_engine.dfy`, module `SyncEngine`). The CargoMind
  extension's background worker takes offer batches. It applies a
  5-second rate limit, then drops a batch whose sampled fingerprint
  matches the last one, then normalises each offer into a `raw_offers`
  row. It also maps dictionary payloads to `dictionaries` rows and
  dispatches on the message type.
- **Route enrichment** (`market_utils.dfy`, module `MarketUtils`).
  `enrichRouteData` gives each route its rank, its 1h/24h/7d changes, a
  sparkline, its 24h volume and its market cap.
- **First dashboard page** (`dashboard_page.dfy`, module `DashboardPage`).
  This covers the global volumes, the per-country tally, the two-country
  dominance, the hourly lookup, `findRateAtTime` and the initial rows.
- **Interactive dashboard** (`dashboard_client.dfy`, module
  `DashboardClient`). This covers the realtime update reducers, the sort
  toggle and comparator, paging, the page-number strip and the effect of
  a data refresh.
- **Side panel** (`sidepanel.js`, module `SidePanel` in `sidepanel.dfy`).
  It chooses, for each route card, between the live snapshot and the
  smoothed history. It also resolves country codes and group icons.
- **Watchlists** (`watchlist.dfy`). Module `WatchlistCore` holds the list
  operations both sites share. `BloomWatchlist` is the optimistic provider
  with revert. `MindWatchlist` is the provider that updates only on
  success.
- **Articles** (`articles.dfy`). Module `ArticleCatalog` has the lookups,
  the related-articles list and the tag and keyword searches.
  `BloomArticles` and `MindArticles` hold the two sites' catalogues (slug,
  title, summary, tags and keywords of each article).

Module `Js` (`js.dfy`) models the part of JavaScript these scripts rely on:
- values as `JSON.parse` yields them, plus `undefined`;
- truthiness, `||` and property reads;
- `String(v)` (an array as its comma-joined elements) and `Number(v)`;
- `includes`, ASCII `toLowerCase` and `split('.').pop()`;
- `filter`, `find`, `some` and `slice`.

How the model represents the program:
- The clock, today's and yesterday's date strings, random UUIDs, the
  `temp-` id and every reply from the store are parameters.
- State that the code updates in place is a class: the interceptor's
  counters, the worker's sync state, the dashboard's React state, the
  side panel and both watchlist providers.
- Loops in the source are methods with loop invariants, proved against a
  specification function: `GlobalStats`, `BuildHourlyLookup`,
  `FindRateAtTime`, `GetPageNumbers`, `BuildLiveMap`, `BuildCards` and
  `LoadDictionaries`.

## Model

| member | source | states |
|---|---|---|
| Interceptor.MatchedKind | cargobloom-extension/injected.js:22-107 | Offers are chosen exactly for a `freight-search-offers` URL. Each dictionary kind is chosen exactly when its substrings occur and no earlier family's do, in the order offers, currencies, bodies, translations, countries, additional info. |
| Interceptor.IsRelevant | cargobloom-extension/injected.js:115-124 | The wrapper's relevance test holds exactly when some classifier branch matches the URL. |
| Interceptor.Classify | cargobloom-extension/injected.js:26-106 | Offers are posted only for a non-empty `filteredOfferRows` array, which is the payload. A dictionary message forwards the body unchanged with the caller's source tag. Nothing is posted for an unmatched URL. |
| Interceptor.BumpMatchedCounterOnly | cargobloom-extension/injected.js:29-99 | One call posts at most one message. An offers match adds the number of offers to the offers counter. Each dictionary match adds exactly one to its own kind's counter (currencies, bodies, translations, countries, additional info). No other counter moves, and an unmatched URL changes nothing. |
| Interceptor.OffersUrlNeverDictionary | cargobloom-extension/injected.js:26-56 | An offers URL with missing or empty rows posts nothing and never reaches a dictionary branch. |
| Interceptor.Agent.constructor | cargobloom-extension/injected.js:9-16 | All counters start at zero and nothing has been posted. |
| Interceptor.Agent.HandleInterceptedData | cargobloom-extension/injected.js:22-107 | The posted messages grow by exactly the classified message, and the counters become the bumped counters. |
| Interceptor.Agent.OnFetch | cargobloom-extension/injected.js:110-138 | The page gets the original response back. Every clone whose body parses as JSON is classified with source "fetch", whatever its URL; the relevance test only decides logging, and a URL that matches no kind posts nothing. |
| Interceptor.Agent.OnXhrLoad | cargobloom-extension/injected.js:141-178 | An empty URL and an unparsable body change nothing. Otherwise the body is classified with source "xhr". |
| SyncEngine.BatchHash | cargomind-extension/background.js:23-31 | The fingerprint is empty exactly for an empty batch. Otherwise it is the batch length, a bar, and the comma-joined ids of the sample. |
| SyncEngine.HashSampleIsFirstAndLastThree | cargomind-extension/background.js:27-28 | The sample is the first three offers followed by the last three. |
| SyncEngine.SampledIdsDecideHash | cargomind-extension/background.js:23-31 | Two batches of equal length whose first three and last three ids agree get the same fingerprint, whatever lies between. |
| SyncEngine.NormaliseBatchIsPointwise | cargomind-extension/background.js:132-176 | There is exactly one row per offer, in batch order. Each row is that offer's normalised row. |
| SyncEngine.IncompleteRowsAreKept | cargomind-extension/background.js:179-181 | Rows lacking a price or a distance are only counted. Valid and invalid rows together make up every row. |
| SyncEngine.NestedPriceWins | cargomind-extension/background.js:133-141 | With a nested price object, amount and currency come only from it. The flat fields do not matter. |
| SyncEngine.FlatPriceFallback | cargomind-extension/background.js:133-141 | Without a price object the flat fields are used, or null when they are nullish. |
| SyncEngine.DistanceInKilometres | cargomind-extension/background.js:168 | The distance is null exactly when the metres value is null or undefined. It is a number of kilometres exactly when the value converts to a number, and then it is that number divided by 1000. Any other value gives NaN. |
| SyncEngine.DistanceFromOtherValues | cargomind-extension/background.js:168 | A distance given as decimal text is read as its number, and `true` as 1 metre. An object gives NaN, which the validity count still sees as present. |
| Js.NatTextRoundTrip | cargomind-extension/background.js:168 | Converting the decimal text of a natural number back to a number gives that number. |
| Js.DigitsOfNatText | cargomind-extension/background.js:168 | The decimal text of a natural number is all digits, and those digits read back as the number. |
| SyncEngine.NormaliseOffer | cargomind-extension/background.js:132-176 | Builds the row for one offer. It has no contract of its own; NestedPriceWins through NormaliseExample state each column. |
| SyncEngine.NormaliseBatch | cargomind-extension/background.js:132-176 | This is `offers.map` of the row builder. NormaliseBatchIsPointwise states it. |
| SyncEngine.OriginIsFirstLoadingStop | cargomind-extension/background.js:143-151 | The origin country and zip come from the first LOADING stop. |
| SyncEngine.OriginFallsBackToFirstStop | cargomind-extension/background.js:143-151 | With no LOADING stop, the origin is the first stop. |
| SyncEngine.DestinationIsLastUnloadingStop | cargomind-extension/background.js:152-160 | The destination comes from the last UNLOADING stop. |
| SyncEngine.DestinationFallsBackToLastStop | cargomind-extension/background.js:152-160 | With no UNLOADING stop, the destination is the last stop. |
| SyncEngine.NoStopsGivesUnknown | cargomind-extension/background.js:143-160 | Without a stops array, both countries are "UNKNOWN" and both zips are null. |
| SyncEngine.ExampleStops | cargomind-extension/background.js:143-160 | A worked offer picks its loading and unloading stops. |
| SyncEngine.NormaliseExample | cargomind-extension/background.js:132-176 | A worked offer normalises to the expected row: id "A", EUR 100, 200 km, countries 1 and 2, and both zips. |
| SyncEngine.DictionaryRows | cargomind-extension/background.js:34-56 | Rows come out exactly when the store is configured (a non-empty store URL, the dictionary path's only test; the placeholder test belongs to the offer path), the payload is an array, and building the rows throws for no group and no item. Then there is one row per item to sync, in order, each of the given kind and carrying that item as payload. |
| SyncEngine.FlattenCountsChildren | cargomind-extension/background.js:41-46 | Flattening the groups gives as many items as they have children. |
| SyncEngine.BodyRowsAreAllChildren | cargomind-extension/background.js:41-56 | For vehicle-body groups there is exactly one row per child across all groups. |
| SyncEngine.DictCodeFallback | cargomind-extension/background.js:53 | The code is isoCode, then labelKey, then text. After those, for an item that does not throw, it is the dot-free tail of the i18n label string, and otherwise null. |
| SyncEngine.ItemsToSync | cargomind-extension/background.js:39-46 | Vehicle-body groups are flattened when the first group carries a child list. FlattenCountsChildren and BodyRowsAreAllChildren state it. |
| SyncEngine.DictCode | cargomind-extension/background.js:53 | The code chain of one item. DictCodeFallback states it. |
| Js.LastSegmentIsLastPart | cargomind-extension/background.js:53 | `split('.').pop()` is the dot-free suffix after the last dot, or the whole text. |
| SyncEngine.DispatchOfInterceptedKinds | cargomind-extension/background.js:243-266 | Each intercepted kind is dispatched to its own path, as iffs: offers to the offer sync; currencies, bodies, countries and additional info to the dictionary sync of kind `currency`, `body_type`, `country` and `additional_info`, with the payload unchanged. Translations, and only they, are ignored. |
| SyncEngine.Dispatch | cargomind-extension/background.js:243-266 | The message-type switch: each of the five handled types maps to its sync action and any other type is ignored. DispatchOfInterceptedKinds states this per kind, as iffs. |
| SyncEngine.Gate | cargomind-extension/background.js:88-115 | The skip reason, checked in the worker's order. RateLimitBeforeDedup and ResubmissionIsSkipped state it. |
| SyncEngine.Next | cargomind-extension/background.js:80-118 | The worker state after one call. CommitOnlyOnAcceptance states it. |
| SyncEngine.CommitOnlyOnAcceptance | cargomind-extension/background.js:80-118 | Every call counts one attempt. A skipped batch keeps the time and fingerprint. An accepted batch commits both before the write, whatever the write's outcome. |
| SyncEngine.RateLimitBeforeDedup | cargomind-extension/background.js:100-115 | A batch arriving within 5000 ms is rate-limited even when it is also a duplicate. |
| SyncEngine.ResubmissionIsSkipped | cargomind-extension/background.js:108-118 | After acceptance, the same batch is always skipped later and commits nothing. |
| SyncEngine.Worker.constructor | cargomind-extension/background.js:8-14 | The store is configured exactly when the URL is set and is not the placeholder. The state starts at zero. |
| SyncEngine.Worker.SyncToSupabase | cargomind-extension/background.js:80-231 | The new state is the state machine's step. A skip reports its reason. An accepted batch yields its normalised rows and the write's outcome. |
| MarketUtils.PercentChange | cargomind-web/lib/market-utils.ts:66-67 | The change is 0 for a zero reference, and the relative change in percent otherwise. |
| MarketUtils.RateOr | cargomind-web/lib/market-utils.ts:62-64 | A present non-zero rate is kept; a missing or zero rate gives the fallback. |
| MarketUtils.EnrichKeepsRows | cargomind-web/lib/market-utils.ts:20-83 | There is one row per base row, in order, with rank baseRank + i + 1. Every base field is kept. |
| MarketUtils.EnrichRouteData | cargomind-web/lib/market-utils.ts:20-83 | Maps each base row to its enriched row at rank baseRank + i + 1. EnrichKeepsRows and the lemmas below state its fields. It uses the corrected 24h volume (see Findings). |
| MarketUtils.EnrichRoute | cargomind-web/lib/market-utils.ts:30-41 | Narrows the history to the route's key, then enriches. OnlyMatchingHistoryCounts and ForeignHistoryIgnored state the narrowing. |
| MarketUtils.EnrichFromHistory | cargomind-web/lib/market-utils.ts:43-83 | Builds the augmented fields from the route's own history. ChangesFromPickedRates and RateFallbacks state the 24h and 7d changes, Change1hAgainstFirstRecent the 1h change, SparklineIsMatchedRates the sparkline, MarketCapIsYearlyVolume and Volume24hWithinWeek the volumes, NoHistoryGivesZeros the empty case. |
| MarketUtils.Change1h | cargomind-web/lib/market-utils.ts:44-50 | The 1h change. Change1hWithoutRecentPoint and Change1hAgainstFirstRecent state it. |
| MarketUtils.PickDays | cargomind-web/lib/market-utils.ts:56-58 | The rows taken for today, yesterday and last week: the first row dated that day, or else the first, second or last row. PickDaysChoices states this. |
| MarketUtils.ForeignHistoryIgnored | cargomind-web/lib/market-utils.ts:32-41 | Adding a history row whose key does not match leaves the enriched row unchanged. |
| MarketUtils.OnlyMatchingHistoryCounts | cargomind-web/lib/market-utils.ts:32-41 | Pre-filtering the history by origin, destination, group, and source when the route has one, gives the same row. |
| MarketUtils.SparklineIsMatchedRates | cargomind-web/lib/market-utils.ts:53 | An empty history gives an empty sparkline. Adding one hourly row appends its rate exactly when the row matches the route, so the sparkline is the matched rates in input order. Its length is the number of matched rows. |
| MarketUtils.Change1hWithoutRecentPoint | cargomind-web/lib/market-utils.ts:44-50 | With no matched point within the last hour, the 1h change is 0. |
| MarketUtils.Change1hAgainstFirstRecent | cargomind-web/lib/market-utils.ts:44-50 | Otherwise the 1h change is measured against the first such point. |
| MarketUtils.PickDaysChoices | cargomind-web/lib/market-utils.ts:56-58 | For each of today, yesterday and last week: when a row carries that date, the choice is the FIRST such row. Otherwise it is the first row (today), the second (yesterday) or the last (last week), absent when the route has too few rows. Each choice is absent exactly when both the dated search and the positional fallback find nothing, and each chosen row is one of the route's rows. |
| MarketUtils.DayChoice | cargomind-web/lib/market-utils.ts:56-58 | One day's `find(...) \|\| routeDaily[k]`: the first row with that date when there is one, otherwise the row at position k, or nothing when there is no such position. |
| MarketUtils.RateFallbacks | cargomind-web/lib/market-utils.ts:60-67 | With no rate for yesterday (or last week) the 24h (or 7d) change is 0. With no rate for today, today's rate is the route's current rate, and both changes compare it with yesterday's and last week's rates, each falling back to it. |
| MarketUtils.ChangesFromPickedRates | cargomind-web/lib/market-utils.ts:60-67 | When the rows picked for today and yesterday both give a non-zero rate, the 24h change is the percent change from yesterday's rate to today's; likewise the 7d change with last week's rate. |
| MarketUtils.ExampleChanges | cargomind-web/lib/market-utils.ts:60-67 | Today 1.20 against yesterday 1.00 gives a 24h change of 20; with no rate for yesterday and 1.50 last week, the 24h change is 0 and the 7d change is -20. |
| MarketUtils.NoHistoryGivesZeros | cargomind-web/lib/market-utils.ts:40-72 | With no matched history, every change, both volumes and the market cap are 0, and the sparkline is empty. |
| MarketUtils.UnsourcedHistoryIgnored | cargomind-web/lib/market-utils.ts:32-41 | A route with a non-empty source matches no history row without a source, so all its changes, its volume and its market cap are 0 and its sparkline is empty. |
| MarketUtils.MarketCapIsYearlyVolume | cargomind-web/lib/market-utils.ts:70-72 | The market cap is 52 times the 7-day volume, and is never negative for non-negative amounts. |
| MarketUtils.Volume24hWithinWeek | cargomind-web/lib/market-utils.ts:71 | With each daily row counted once, the 24h volume never exceeds the 7-day volume. |
| MarketUtils.Volume24hDoubleCounts | cargomind-web/lib/market-utils.ts:71 | As written, a route whose only row is yesterday's reports twice that amount, which exceeds its 7-day volume. |
| MarketUtils.Volume24hCorrectionIsNarrow | cargomind-web/lib/market-utils.ts:71 | The two 24h definitions differ only when the row taken for today is also yesterday's and is not dated today. |
| MarketUtils.Volume24hAsWritten | cargomind-web/lib/market-utils.ts:71 | The 24h volume as written. Volume24hDoubleCounts exhibits its double count. |
| MarketUtils.Volume24h | cargomind-web/lib/market-utils.ts:71 | The 24h volume with each row counted once. Volume24hWithinWeek states its bound. |
| DashboardPage.TallyStep | cargomind-web/app/page.tsx:53-54 | A tally step adds n to the total and to its code's entry, and to no other entry. |
| DashboardPage.Tally | cargomind-web/app/page.tsx:53-54 | One tally step. TallyStep, TallyNew, TallyExisting and TallyCodes state it. |
| DashboardPage.CountryTally | cargomind-web/app/page.tsx:46-56 | The tally over all daily rows. TallyCountsBothEnds and TallyEntriesAreCountries state it. |
| DashboardPage.TallyNew | cargomind-web/app/page.tsx:53-54 | A new code is appended with count n. |
| DashboardPage.TallyExisting | cargomind-web/app/page.tsx:53-54 | An existing code has n added in place. |
| DashboardPage.TallyCodes | cargomind-web/app/page.tsx:53-54 | A tally step adds exactly its code and keeps the codes distinct. |
| DashboardPage.TallyCountsBothEnds | cargomind-web/app/page.tsx:53-59 | Each country's entry counts every row once per end. The total activity is twice the offer total. |
| DashboardPage.TallyEntriesAreCountries | cargomind-web/app/page.tsx:46-56 | There is exactly one entry per country occurring as an origin or a destination. |
| DashboardPage.FilteredVolumeBelowTotal | cargomind-web/app/page.tsx:46-56 | A filtered volume is at most the whole volume for non-negative amounts. |
| DashboardPage.GlobalStats | cargomind-web/app/page.tsx:42-56 | The loop yields the sum of all amounts, the sum over today's and yesterday's rows, and the country tally. |
| DashboardPage.Vol24hWithinVol7d | cargomind-web/app/page.tsx:46-56 | The 24h volume is at most the 7-day volume for non-negative amounts. |
| DashboardPage.ArgMax | cargomind-web/app/page.tsx:58 | The result is the first position with the largest count, skipping one position, or -1 when there is none. |
| DashboardPage.DominanceIsTopTwo | cargomind-web/app/page.tsx:58-62 | The dominance is "N/A" exactly for an empty tally. Otherwise it names the one or two largest entries, largest first. |
| DashboardPage.TopTwo | cargomind-web/app/page.tsx:58 | The two largest tally entries. DominanceIsTopTwo states them. |
| DashboardPage.DominanceOf | cargomind-web/app/page.tsx:58-62 | The dominance entries, or "N/A". DominanceIsTopTwo states it. |
| DashboardPage.AddPointStep | cargomind-web/app/page.tsx:73-79 | Adding one row keeps the lookup a correct grouping of the rows seen so far. |
| DashboardPage.BuildHourlyLookup | cargomind-web/app/page.tsx:71-80 | The result holds a key exactly for each route in the history, and under it that route's points in input order. |
| DashboardPage.LookupKeys | cargomind-web/app/page.tsx:71-80 | A key is present exactly when some hourly row has that route. |
| DashboardPage.LookupGivesRouteHistory | cargomind-web/app/page.tsx:71-98 | The lookup, or [] when the key is absent, gives exactly the route's points in order. |
| DashboardPage.LastAtOrBeforeNone | cargomind-web/app/page.tsx:83-93 | No point is found exactly when every point is later than the target. |
| DashboardPage.LastAtOrBeforeAt | cargomind-web/app/page.tsx:83-93 | The point found is the last one at or before the target. |
| DashboardPage.LastAtOrBefore | cargomind-web/app/page.tsx:83-93 | The last point at or before a time. LastAtOrBeforeNone and LastAtOrBeforeAt state it. |
| DashboardPage.FindRateAtTime | cargomind-web/app/page.tsx:83-93 | The loop returns the rate of the last point at or before now minus hoursAgo, or nothing. |
| DashboardPage.GuardedChange | cargomind-web/app/page.tsx:112-114 | The change is 0 unless the reference is present and positive, and the relative change otherwise. |
| DashboardPage.GuardedChangeFollowsRule | cargomind-web/app/page.tsx:83-114 | The guarded change against the last point at or before a time follows the rule: 0 without such a point or when its rate is not positive, and the relative change otherwise. |
| DashboardPage.InitialDataKeepsRows | cargomind-web/app/page.tsx:96-124 | There is one row per route, ranked from 1. Every stored field is kept. |
| DashboardPage.InitialData | cargomind-web/app/page.tsx:96-124 | The first page's rows. InitialDataKeepsRows, SparklineIsLast24h, ChangesUseLastPointBefore and NoHistoryNoChange state them. |
| DashboardPage.InitialRow | cargomind-web/app/page.tsx:96-124 | The row for one route. The same lemmas state it. |
| DashboardPage.SparklineIsLast24h | cargomind-web/app/page.tsx:100-104 | An empty history gives an empty sparkline. Adding one point appends its rate exactly when it is at most 24 hours old, so the sparkline is the rates of the last 24 hours in order. Its length is the number of such points. |
| DashboardPage.ChangesUseLastPointBefore | cargomind-web/app/page.tsx:83-114 | The 1h, 24h and 7d changes each follow the rule for their horizon (now minus 1, 24 and 168 hours). With no point at or before the horizon the change is 0. Otherwise it is measured against the last such point, and is 0 when that point's rate is not positive. |
| DashboardPage.NoHistoryNoChange | cargomind-web/app/page.tsx:96-124 | A route without history has zero changes and an empty sparkline. |
| DashboardClient.AppendPoint | cargomind-web/app/dashboard-client.tsx:90 | The sparkline grows by exactly one point with the new rate. An absent sparkline starts over. |
| DashboardClient.RefreshChangesOnlyLiveFields | cargomind-web/app/dashboard-client.tsx:88-97 | An update sets the rate and the offer count and adds one sparkline point. Rank, changes and other fields stay. |
| DashboardClient.MainUpdateTouchesOnlyItsRoute | cargomind-web/app/dashboard-client.tsx:83-101 | An ALL update refreshes exactly the rows of its route. Order and other rows are unchanged. |
| DashboardClient.SubUpdateTouchesOnlyItsGroup | cargomind-web/app/dashboard-client.tsx:104-122 | A missing key leaves the cache unchanged. Otherwise only that key's rows of the update's body group change. |
| DashboardClient.ApplyMainUpdate | cargomind-web/app/dashboard-client.tsx:83-101 | The ALL-row reducer. MainUpdateTouchesOnlyItsRoute states it. |
| DashboardClient.ApplySubUpdate | cargomind-web/app/dashboard-client.tsx:104-122 | The sub-row cache reducer. SubUpdateTouchesOnlyItsGroup states it. |
| DashboardClient.SparklineGrowsPerUpdate | cargomind-web/app/dashboard-client.tsx:83-101 | n updates of a route grow its sparkline by n points. |
| DashboardClient.SortCycle | cargomind-web/app/dashboard-client.tsx:224-237 | On one column, clicks cycle through descending, ascending and unsorted, from any prior state. |
| DashboardClient.NextSort | cargomind-web/app/dashboard-client.tsx:224-237 | The sort toggle. SortCycle states it. |
| DashboardClient.InOrderTotal | cargomind-web/app/dashboard-client.tsx:254-268 | Any two rows are comparable one way or the other. |
| DashboardClient.InOrderTransitive | cargomind-web/app/dashboard-client.tsx:254-268 | The comparator's order is transitive. |
| DashboardClient.InsertSorted | cargomind-web/app/dashboard-client.tsx:254-268 | Inserting into a sorted page keeps it sorted and adds exactly that row. |
| DashboardClient.SortRowsIsSortedPermutation | cargomind-web/app/dashboard-client.tsx:254-268 | The client sort is a permutation of the page, ordered in the chosen direction, with rows lacking a value last. |
| DashboardClient.SortedRoutesContract | cargomind-web/app/dashboard-client.tsx:239-270 | With no sort or a server-side column, the rows are unchanged. Otherwise the result is a sorted permutation, with rows that have a value first. |
| DashboardClient.SortRows | cargomind-web/app/dashboard-client.tsx:254-268 | The client-side sort. SortRowsIsSortedPermutation states it. |
| DashboardClient.SortedRoutes | cargomind-web/app/dashboard-client.tsx:239-270 | The displayed order. SortedRoutesContract states it. |
| DashboardClient.TotalPages | cargomind-web/app/dashboard-client.tsx:328 | This is the least number of pages holding all rows. |
| DashboardClient.ShowingRangeOnAPage | cargomind-web/app/dashboard-client.tsx:329-330 | On an existing page, "Showing a - b" is a non-empty run of at most n items, ending at the total on the last page. |
| DashboardClient.PrevNextStayInRange | cargomind-web/app/dashboard-client.tsx:733-760 | Previous and next keep a page within 1..totalPages. |
| DashboardClient.PrevPage | cargomind-web/app/dashboard-client.tsx:733 | max(1, page - 1). PrevNextStayInRange states its range. |
| DashboardClient.NextPage | cargomind-web/app/dashboard-client.tsx:760 | min(totalPages, page + 1). PrevNextStayInRange states its range. |
| DashboardClient.QueryCoversOnePage | cargomind-web/app/dashboard-client.tsx:156-168 | The query asks for exactly n rows, those just before the next page's. It orders by the column the store can sort, else by offer count descending. |
| DashboardClient.QueryFor | cargomind-web/app/dashboard-client.tsx:156-168 | The page query. QueryCoversOnePage states it. |
| DashboardClient.GetPageNumbers | cargomind-web/app/dashboard-client.tsx:333-353 | The loop builds the page-number strip. |
| DashboardClient.PageNumbers | cargomind-web/app/dashboard-client.tsx:333-353 | The page-number strip. PageNumbersShape, EllipsisPlacement and PageNumbersWithoutRows state it. |
| DashboardClient.PageNumbersShape | cargomind-web/app/dashboard-client.tsx:333-353 | For a page in range, the strip starts at 1 and ends at the last page when there are several. Its numbers strictly increase and include the current page. |
| DashboardClient.EllipsisPlacement | cargomind-web/app/dashboard-client.tsx:340-345 | An ellipsis follows 1 exactly when page - 2 > 2. One precedes the last page exactly when page + 2 < totalPages - 1. |
| DashboardClient.PageNumbersWithoutRows | cargomind-web/app/dashboard-client.tsx:347-350 | With zero pages the strip shows page 1 and page 0. |
| DashboardClient.RankRestartsOnEveryPage | cargomind-web/app/dashboard-client.tsx:217 | As written, the first row of page 2 is ranked 1 although it is item n + 1. |
| DashboardClient.RankIsItemNumber | cargomind-web/lib/market-utils.ts:74-76 | Corrected, each refreshed row's rank is its item number, as the footer counts it. |
| DashboardClient.RefreshShowsNoHistory | cargomind-web/app/dashboard-client.tsx:172-184 | As written, with history rows that carry no source, every refreshed row of a route that has a source shows 0 for the 1h, 24h and 7d changes, an empty sparkline and 0 for the 24h volume and the market cap. |
| DashboardClient.RefreshShowsRouteHistory | cargomind-web/lib/market-utils.ts:32-53 | Corrected, with history taken together with its source, each refreshed row's sparkline is the rates of its own route's hourly rows in order, and it is non-empty whenever the route has such a row. |
| DashboardClient.RefreshedRowsAsWritten | cargomind-web/app/dashboard-client.tsx:217 | The refreshed rows as written: ranked from 1 on every page, from history rows that carry no source (the history queries do not select it). RankRestartsOnEveryPage and RefreshShowsNoHistory exhibit the two defects. |
| DashboardClient.RefreshedRows | cargomind-web/app/dashboard-client.tsx:217 | The refreshed rows, corrected: ranked by item number, from history rows taken with their source. RankIsItemNumber and RefreshShowsRouteHistory state it. |
| DashboardClient.Dashboard.constructor | cargomind-web/app/dashboard-client.tsx:41-52 | The dashboard starts with the initial rows, no sort, page 1 and 50 rows per page. |
| DashboardClient.Dashboard.OnRouteUpdate | cargomind-web/app/dashboard-client.tsx:79-124 | An ALL update goes through the main reducer, any other update through the sub-row reducer. Nothing else changes. |
| DashboardClient.Dashboard.HandleSort | cargomind-web/app/dashboard-client.tsx:224-237 | The sort becomes the toggle's next state. Nothing else changes. |
| DashboardClient.Dashboard.GoToPrevious | cargomind-web/app/dashboard-client.tsx:733 | The page becomes max(1, page - 1). |
| DashboardClient.Dashboard.GoToNext | cargomind-web/app/dashboard-client.tsx:760 | The page becomes min(totalPages, page + 1). |
| DashboardClient.Dashboard.GoToPage | cargomind-web/app/dashboard-client.tsx:740-752 | Clicking a numbered button of the current strip makes its number the page. Nothing else changes. |
| DashboardClient.Dashboard.SetRowsPerPage | cargomind-web/app/dashboard-client.tsx:778-781 | A new page size also returns to page 1. |
| DashboardClient.Dashboard.ApplyFetch | cargomind-web/app/dashboard-client.tsx:148-222 | A returned count is taken. Only with all three replies are the rows, both volumes and the dominance replaced. The rows are the corrected refreshed page: ranked by item number, with the history matched by source. |
| DashboardClient.Dashboard.ApplySubFetch | cargomind-web/app/dashboard-client.tsx:285-321 | A route already in the sub-row cache is not fetched again. Otherwise, only with all three replies, its key maps to its enriched body-group rows, ranked from 1. Nothing else changes. |
| SidePanel.AssignKeys | cargomind-extension/sidepanel.js:59-65 | A key is present exactly when it was before or some row carries it. Other keys keep their entries. |
| SidePanel.AssignLastWins | cargomind-extension/sidepanel.js:59-65 | A key's entry is the value of the last row carrying it. |
| SidePanel.CountryCode | cargomind-extension/sidepanel.js:31-33 | The result is the mapped code, else the raw id, else "?". It is always truthy. |
| SidePanel.GroupIcon | cargomind-extension/sidepanel.js:36-42 | TEMP gives a snowflake and EXPRESS a bolt. Anything else gives a truck. |
| SidePanel.MissingGroupMeansGeneral | cargomind-extension/sidepanel.js:75-81 | A row without a group looks up the GENERAL snapshot and shows the truck. |
| SidePanel.Cards | cargomind-extension/sidepanel.js:74-115 | There is one card per history row, in order. |
| SidePanel.CardUsesLatestSnapshot | cargomind-extension/sidepanel.js:87-95 | A card is live exactly when the last snapshot with its key has volume > 3. It then shows that snapshot's rate and volume, and otherwise the smoothed rate and offer count. |
| SidePanel.CardWithoutSnapshotIsHistorical | cargomind-extension/sidepanel.js:87-95 | With no snapshot for its key, a card shows the history's figures. |
| SidePanel.CardFor | cargomind-extension/sidepanel.js:74-95 | The card for one history row. CardUsesLatestSnapshot and CardWithoutSnapshotIsHistorical state it. |
| SidePanel.BusyEnough | cargomind-extension/sidepanel.js:87 | `live && live.volume > 3`. CardUsesLatestSnapshot uses it. |
| SidePanel.LiveMapOf | cargomind-extension/sidepanel.js:59-65 | The keyed snapshot map. AssignKeys and AssignLastWins state it. |
| SidePanel.BuildLiveMap | cargomind-extension/sidepanel.js:59-65 | The loop gives the keyed snapshot map, or an empty one without data. |
| SidePanel.BuildCards | cargomind-extension/sidepanel.js:74-115 | The loop gives one card per history row. |
| SidePanel.Panel.constructor | cargomind-extension/sidepanel.js:3 | The panel starts with an empty dictionary and no cards. |
| SidePanel.Panel.LoadDictionaries | cargomind-extension/sidepanel.js:22-29 | Each fetched entry sets its code under its external id, and later entries win. |
| SidePanel.Panel.LoadStats | cargomind-extension/sidepanel.js:44-116 | The dictionary loads only while empty. Missing or empty history shows the notice. Otherwise there is one card per row. |
| WatchlistCore.ReplaceId | cargobloom-web/components/watchlist-provider.tsx:124-126 | Only the items with that id are replaced, by the row. Length and order are kept. |
| WatchlistCore.ExistingIffInWatchlist | cargobloom-web/components/watchlist-provider.tsx:61-79 | A toggle finds an entry exactly when the pair is listed, and it is the first item for the pair. |
| WatchlistCore.WithoutKeepsOtherIds | cargobloom-web/components/watchlist-provider.tsx:82-83 | Removing an id keeps exactly the items with another id, in order. |
| WatchlistCore.RemovalClearsPair | cargobloom-web/components/watchlist-provider.tsx:81-84 | After removal, the pair stays listed only through an item with another id. |
| WatchlistCore.WithoutFreshIdIsIdentity | cargobloom-web/components/watchlist-provider.tsx:121 | Removing an id nobody has changes nothing. |
| WatchlistCore.WithoutThenRestore | cargobloom-web/components/watchlist-provider.tsx:90-94 | With distinct ids, removing an entry and putting it back restores the list's contents. |
| WatchlistCore.ReplaceAppended | cargobloom-web/components/watchlist-provider.tsx:122-126 | Appending a fresh-id item and then replacing it gives the list followed by the row. |
| WatchlistCore.WithoutAppended | cargobloom-web/components/watchlist-provider.tsx:119-121 | Appending a fresh-id item and then removing it gives the list back. |
| WatchlistCore.AppendedIsInWatchlist | cargobloom-web/components/watchlist-provider.tsx:96-104 | After appending an item, its pair is listed. |
| WatchlistCore.Existing | cargobloom-web/components/watchlist-provider.tsx:77-79 | The first item for a pair. ExistingIffInWatchlist states it. |
| WatchlistCore.Without | cargobloom-web/components/watchlist-provider.tsx:83 | The list without an id. WithoutKeepsOtherIds and RemovalClearsPair state it. |
| BloomWatchlist.AddThenReply | cargobloom-web/components/watchlist-provider.tsx:96-128 | Toggling an absent pair lists it at once. A failed insert restores the list. A stored row replaces the placeholder. |
| BloomWatchlist.RemoveThenReply | cargobloom-web/components/watchlist-provider.tsx:77-95 | Toggling a listed pair removes its first entry's id at once. A failed delete brings back the old contents when ids are distinct. |
| BloomWatchlist.OptimisticToggle | cargobloom-web/components/watchlist-provider.tsx:77-104 | The optimistic edit. AddThenReply and RemoveThenReply state it. |
| BloomWatchlist.AfterRemoval | cargobloom-web/components/watchlist-provider.tsx:90-94 | The list after a delete reply. RemoveThenReply states it. |
| BloomWatchlist.AfterAddition | cargobloom-web/components/watchlist-provider.tsx:118-128 | The list after an insert reply. AddThenReply states it. |
| BloomWatchlist.Provider.constructor | cargobloom-web/components/watchlist-provider.tsx:31-33 | The provider starts signed out, with an empty list and not loading. |
| BloomWatchlist.Provider.SetUser | cargobloom-web/components/watchlist-provider.tsx:38-44 | Signing out empties the list. Signing in leaves it to the fetch. |
| BloomWatchlist.Provider.FetchWatchlist | cargobloom-web/components/watchlist-provider.tsx:46-59 | A reply replaces the list wholesale, and an error keeps it. |
| BloomWatchlist.Provider.ToggleWatchlist | cargobloom-web/components/watchlist-provider.tsx:69-104 | Signed out, the sign-in dialog is requested and the list is unchanged. Without a client nothing changes. Otherwise the optimistic edit is applied. |
| BloomWatchlist.Provider.CompleteRemoval | cargobloom-web/components/watchlist-provider.tsx:90-94 | A failed delete appends the entry back. Success changes nothing. |
| BloomWatchlist.Provider.CompleteAddition | cargobloom-web/components/watchlist-provider.tsx:118-128 | A failed insert drops the placeholder. A stored row replaces it. |
| MindWatchlist.FailureChangesNothing | cargomind-web/components/watchlist-provider.tsx:68-93 | A failed delete or insert leaves the list unchanged. |
| MindWatchlist.AddThenRemoveRestores | cargomind-web/components/watchlist-provider.tsx:68-93 | Adding a pair and toggling it again, both accepted, gives the list back. |
| MindWatchlist.AcceptedRemovalUnlists | cargomind-web/components/watchlist-provider.tsx:68-77 | An accepted removal drops the entry's id. With one item per pair, the pair is gone. |
| MindWatchlist.Toggled | cargomind-web/components/watchlist-provider.tsx:57-94 | The list after an accepted toggle. AddThenRemoveRestores and AcceptedRemovalUnlists state it. |
| MindWatchlist.Provider.constructor | cargomind-web/components/watchlist-provider.tsx:23-25 | The provider starts with an empty list. |
| MindWatchlist.Provider.SetUser | cargomind-web/components/watchlist-provider.tsx:27-34 | Signing out empties the list. |
| MindWatchlist.Provider.FetchWatchlist | cargomind-web/components/watchlist-provider.tsx:36-49 | The list is replaced only by a successful reply. |
| MindWatchlist.Provider.ToggleWatchlist | cargomind-web/components/watchlist-provider.tsx:57-94 | Signed out, the dialog is requested and the list is unchanged. Otherwise the list becomes the accepted edit, or stays unchanged on error. |
| ArticleCatalog.BySlugFindsFirst | cargobloom-web/lib/articles-data.ts:230-232 | Nothing is found exactly when no article has the slug. Otherwise the result is the first article with it. |
| ArticleCatalog.BySlugFindsOwnArticle | cargobloom-web/lib/articles-data.ts:230-232 | With distinct slugs, each article is found by its own slug. |
| ArticleCatalog.RelatedContract | cargobloom-web/lib/articles-data.ts:234-236 | Related articles exclude the current one, keep catalogue order, and number min(limit, others). |
| ArticleCatalog.RelatedForUnknownSlug | cargomind-web/lib/articles-data.ts:167-169 | For an unknown slug, the result is the first `limit` articles. |
| ArticleCatalog.ByTagExactly | cargobloom-web/lib/articles-data.ts:238-242 | The result is exactly the articles with the tag up to letter case. |
| ArticleCatalog.ByKeywordExactly | cargobloom-web/lib/articles-data.ts:244-252 | An article is in the keyword search result exactly when it is in the list and the lower-cased keyword occurs, at some position, in one of its lower-cased keywords or tags, or in its lower-cased title or summary. |
| ArticleCatalog.MentionsIffOccurs | cargobloom-web/lib/articles-data.ts:247-251 | `text.toLowerCase().includes(k)` holds exactly when k occurs at some position of the lower-cased text. |
| ArticleCatalog.SomeMentionsIffOccurs | cargobloom-web/lib/articles-data.ts:247-248 | `list.some(x => x.toLowerCase().includes(k))` holds exactly when k occurs in some lower-cased element of the list. |
| ArticleCatalog.EmptyKeywordMatchesAll | cargobloom-web/lib/articles-data.ts:244-252 | An empty keyword returns every article. |
| ArticleCatalog.TagResultsAreKeywordResults | cargobloom-web/lib/articles-data.ts:238-252 | Every tag result is also a keyword result. |
| ArticleCatalog.BySlug | cargobloom-web/lib/articles-data.ts:230-232 | The slug lookup. BySlugFindsFirst states it. |
| ArticleCatalog.Related | cargobloom-web/lib/articles-data.ts:234-236 | The related articles. RelatedContract states them. |
| ArticleCatalog.ByTag | cargobloom-web/lib/articles-data.ts:238-242 | The tag search. ByTagExactly states it. |
| ArticleCatalog.ByKeyword | cargobloom-web/lib/articles-data.ts:244-252 | The keyword search. ByKeywordExactly characterises its result; EmptyKeywordMatchesAll and TagResultsAreKeywordResults are consequences worth naming. |
| BloomArticles.GetArticleBySlug | cargobloom-web/lib/articles-data.ts:230-232 | The catalogue's slug lookup, as ArticleCatalog.BySlug. |
| BloomArticles.GetRelatedArticles | cargobloom-web/lib/articles-data.ts:234-236 | The catalogue's related articles, as ArticleCatalog.Related. |
| BloomArticles.GetArticlesByTag | cargobloom-web/lib/articles-data.ts:238-242 | The catalogue's tag search, as ArticleCatalog.ByTag. |
| BloomArticles.GetArticlesByKeyword | cargobloom-web/lib/articles-data.ts:244-252 | The catalogue's keyword search: ArticleCatalog.ByKeyword applied to the catalogue, so by ArticleCatalog.ByKeywordExactly it returns exactly the catalogue's articles whose keywords, tags, title or summary contain the keyword up to letter case. |
| MindArticles.GetArticleBySlug | cargomind-web/lib/articles-data.ts:163-165 | The catalogue's slug lookup, as ArticleCatalog.BySlug. |
| MindArticles.GetRelatedArticles | cargomind-web/lib/articles-data.ts:167-169 | The catalogue's related articles, as ArticleCatalog.Related. |
| BloomArticles.EveryArticleHasItsOwnSlug | cargobloom-web/lib/articles-data.ts:14-228 | The seven slugs are distinct, and each article is found by its own. |
| MindArticles.EveryArticleHasItsOwnSlug | cargomind-web/lib/articles-data.ts:15-161 | The seven slugs are distinct, and each article is found by its own. |
| MindArticles.RelatedForUnknownSlugIsFirstThree | cargomind-web/lib/articles-data.ts:167-169 | Outside any article, the related list is the first three articles. |

## Left out

- Network and storage I/O is not modelled: Supabase queries, upserts and POSTs, `fetchFromSupabase`, auth calls and the realtime channel. A store reply is a parameter, and a write is an abstract outcome (ok, rejected with a status, or network error).
- Browser plumbing is not modelled beyond the handlers: patching `window.fetch` and `XMLHttpRequest`, the stats logger timer, `chrome.runtime` listeners and `cargomind-extension/content.js`. The handlers themselves are modelled.
- Every handler runs as one atomic step. Interleaved async replies are modelled only as the separate reply methods of the CargoBloom watchlist.
- Reading a property of `null` or `undefined` throws in JavaScript. Dictionary sync models this: `SyncEngine.DictionaryRows` gives no rows when a group or an item throws. Elsewhere the model reads `undefined` instead. For example, a null entry in an offers batch throws in the source, but gets a row here.
- `NaN` is not a `Js.Value`. `Number(x) || 0` treats a non-number amount as 0. The distance column has its own NaN state.
- `String(n)` is modelled for numbers with at most 20 decimal places.
- `Js.ToNumber`: string-to-number conversion covers blank text, an optional sign and plain decimal literals (`12`, `1.5`, `.5`, `3.`). Exponents, hexadecimal, binary and octal forms, `Infinity` and white space other than the six ASCII characters (space, tab, line feed, vertical tab, form feed, carriage return) give NaN here, where JavaScript also trims no-break space, the byte-order mark and the Unicode line and space separators.
- `SyncEngine.NormaliseOffer`: the distance column follows `Js.ToNumber`, so it is weaker than JavaScript exactly for the string forms just listed.
- `toLowerCase` is modelled on ASCII letters only.
- `toFixed`, percentage text, the dominance text and all DOM and React rendering are not modelled, nor is the flash of changed cells.
- `DashboardPage.Tally` keeps codes in insertion order. JavaScript lists integer-like object keys first.
- `SidePanel.BusyEnough`: a volume that is not a number is treated as not above 3. JavaScript would coerce a numeric string.
- Keys such as `__proto__` in `countryMap` and in the other JS objects are plain keys here.
- `SyncEngine.DictionaryRows`: an empty array still gives an (empty) upsert in the source. Here it is an empty row list.
- `stat_hour` and `stat_date` are integers (epoch milliseconds) and ISO date strings. Date parsing is not modelled.
- `MarketUtils.EnrichRouteData` samples "now" once per call. The source reads the clock per row.
- `MarketUtils.EnrichRouteData` uses the corrected 24h volume, `MarketUtils.Volume24h`. It does not reproduce the source's double count of yesterday's row when today's row is missing. That behaviour is `MarketUtils.Volume24hAsWritten`, and `MarketUtils.Volume24hDoubleCounts` exhibits it.
- `DashboardClient.Dashboard.ApplyFetch` installs the corrected `DashboardClient.RefreshedRows`, ranked by item number. It does not reproduce the source's ranking from 1 on every page. That behaviour is `DashboardClient.RefreshedRowsAsWritten`, and `DashboardClient.RankRestartsOnEveryPage` exhibits it.
- `DashboardClient.SortRows`: the source's comparator orders two rows without a value inconsistently, so the engine decides their order. The model keeps input order, as a stable sort does. For every other pair the order is the comparator's.
- `BloomWatchlist.Provider.CompleteRemoval`: a failed delete appends the entry at the end. Contents are proved restored, not position.
- `DashboardClient.Dashboard.ApplyFetch` and `DashboardClient.Dashboard.ApplySubFetch` take the history rows with their source, as if the hourly and daily queries selected it. As written those queries omit `source`, while the routes carry one, so every history row is rejected and each row shows no history. That behaviour is `DashboardClient.RefreshedRowsAsWritten` over `DashboardClient.Unsourced` history, and `DashboardClient.RefreshShowsNoHistory` exhibits it.
- The expanded-route set of `toggleRoute`, and collapsing a route, only decide what is displayed. `DashboardClient.Dashboard.ApplySubFetch` models the cache fill that follows an expansion.
- Article bodies, images, sources, ages and meta descriptions are not modelled. Only slug, title, summary, tags and keywords are.
- The remaining pages and components (layouts, FAQ, terms, modals, navbar, auth dialog) are not part of this model.

## Findings

| source | as written | input that shows it | evidently intended | confidence | as-written member | corrected member |
|---|---|---|---|---|---|---|
| cargomind-web/lib/market-utils.ts:71 | When today's daily row is missing, the row taken for today is the newest row. Yesterday's amount is then added again, and that row is the same row. | A route whose only daily row is dated yesterday, with amount 100: the 24h volume is 200 and the 7-day volume is 100. | Each daily row counts once, so the 24h volume never exceeds the 7-day volume. | not executed | MarketUtils.Volume24hDoubleCounts | MarketUtils.Volume24hWithinWeek |
| cargomind-web/app/dashboard-client.tsx:217 | The refresh calls `enrichRouteData` without `baseRank`, so every page is ranked from 1. | Page 2 with 50 rows per page: the first row's `rank` is 1, but the footer counts it as item 51. The table shows `index + 1` (:551), not `rank`, so the wrong value stays in the row data and is not visible on screen. | The rank is (page - 1) * itemsPerPage + i + 1, matching the item number. | not executed | DashboardClient.RankRestartsOnEveryPage | DashboardClient.RankIsItemNumber |
| cargomind-web/app/dashboard-client.tsx:174 | The refresh's hourly and daily queries (also :181, and the sub-route queries at :302 and :311) do not select `source`, but the route rows do, and enrichment requires a route's source to equal the history row's. | A route with source "ALL" and an hourly row with the same origin, destination and body group: the row shows an empty sparkline and 0 changes. | Each row shows its own route's history, as the comment at :299-300 says the history is fetched for. | not executed | DashboardClient.RefreshShowsNoHistory | DashboardClient.RefreshShowsRouteHistory |
