# Finance analytics API: a verified model

This project models the parts of the finance analytics backend whose correctness depends on more
than one function, and proves what they promise for every input, every run or every interleaving.

* **Indicators** (`Series`, `Technical`, `TechnicalLaws`, `IndicatorLaws`). The accumulator loops
  of the technical indicators are methods over reals, each proved against a closed form. The
  exponential moving average and Wilder's smoothing are two instances of one closed form,
  `Series.Smooth`. `IndicatorLaws` states every indicator once more on the prices alone, by sums
  over slices, recurrences and cross-multiplied quotients.
* **Store and ingestion** (`Models`, `Ordering`, `Symbols`, `SymbolLaws`, `Store`, `Persistence`,
  `CacheStore`, `Ingestion`, `IngestionLaws`, `StoredRows`). A table is a map from its UNIQUE key
  to the other persisted columns. The repository, the cache and the ingestion service are classes
  whose methods are tied to functions on those maps; the laws are about sequences of calls in which
  any statement may fail. `StoredRows` says, column by column, which fetched rows a call leaves in
  the tables.
* **Queries and cache** (`Fundamentals`, `Query`, `QueryServices`, `CompareLaws`, `QueryLaws`,
  `QueryRows`, `Coherence`, `Staleness`, `Interleaving`, `PurgeRace`). `Query.Recompute` is the
  answer that the stored rows determine, and `QueryRows` spells it out on the stored columns; a
  page is stale when its cache entry holds something else. `Coherence` treats a call as one step
  and finds, for every stale page, the ingestion that left it behind. `Staleness` says on the rows
  when that happens. `Interleaving` makes every cache and store access a step of its own, with a
  clock and arbitrary writers, and `PurgeRace` says exactly when a purge is enough there.
* **Requests** (`RateLimiter`, `Auth`, `Middleware`, `KeyLifecycle`, `Concurrency`). Counters with
  expiry, the key table, and the middleware chain, over whole sequences of checks, operations and
  requests. `KeyLifecycle` lets the requests meet the key table as it changes, `Concurrency` lets
  them overlap.
* **Screener** (`Screener`, `ScreenerRows`). The SQL metrics, the generated WHERE clause under
  three-valued logic, their agreement with the metrics computed in Go, and what is listed in terms
  of the stored columns.
* **Failing inputs** (`Examples`). Runs from the empty database that break the promises about
  stored data which do not hold.

Statements that may fail, failing cache operations, clocks and random bytes are arguments of the
methods (`Attempt`, `Env`, `Check`, `Request`), so every result holds for all of them.

Five findings, each with its condition and a concrete failing input:

* A volatility window of 1 yields a not-a-number instead of the error that docs/DECISIONS.md:132
  promises for every zero divisor; no other window does
  (`TechnicalLaws.VolatilityIsNumberUnlessWindowOne`). The scatter of a single return is always 0,
  so the quotient is 0/0 and never an infinity (`TechnicalLaws.SingleReturnHasNoScatter`,
  `TechnicalLaws.VolatilityWindowOneExample`).
* `cmd/ingest` builds the ingestion service without a cache (cmd/ingest/main.go:45-49), so the
  purge that README.md:158-159 describes does not happen there, and a call that fails after writing
  does not purge either. The old answer that survives is right when every fetched row is already
  stored, and wrong when a newer price or another newest EPS came in
  (`Staleness.AnswerLeftInPlace`, `Examples.UnwiredIngestionLeavesStaleAnswer`,
  `Examples.FailedIngestionLeavesStaleAnswer`). The TTL still bounds the damage
  (`Interleaving.EventualCoherence`), provided it is positive.
* A purge with both deletions successful can still be followed by a stale answer, because a query
  that read the old rows may store its result after the deletions (`PurgeRace.LateSetDefeatsPurge`,
  `Examples.PurgeRaceLeavesStaleAnswer`). With both keys gone and the rows settled, every later
  query is right if and only if no query in flight holds what would become another answer than the
  truth (`PurgeRace.PurgeIsEnoughIff`); that is so when the queries begun before the last change
  have finished (`Interleaving.PurgeAfterDrain`).
* The P/E of the screener and of GetAnalytics agree exactly when the diluted EPS is not negative
  (`Screener.ScreenerAgrees`, `Examples.LossSplitsThePeRatio`).
* The company counter of a run reports 1 for an update too, so unlike the other counters it is the
  growth of its table only for a new company (`IngestionLaws.CompanyCounter`,
  `Examples.UpdateCountsAsInsert`).

## Model

| member | source | states |
|---|---|---|
| `Technical.CheckPositive` | internal/analytics/analytics.go:22-29 | answers whether every element is positive |
| `IndicatorLaws.GuardsOfIndicators` | internal/analytics/technical.go:8-160 | each indicator succeeds exactly on a positive window, enough prices and positive prices only, and which error otherwise |
| `Technical.DailyReturn` | internal/analytics/technical.go:7-19 | one return per adjacent pair of prices, or the guard's error |
| `IndicatorLaws.DailyReturnOnPrices` | internal/analytics/technical.go:14-17 | price i times 1 plus return i is price i+1 |
| `Technical.SMA` | internal/analytics/technical.go:24-46 | the sliding sum yields the naive mean of every window, aligned oldest first |
| `Technical.AverageVolume` | internal/analytics/technical.go:161-183 | the same means over volumes, so one zero volume anywhere is an error |
| `IndicatorLaws.SmaOnPrices` | internal/analytics/technical.go:33-45 | output i times the window is the sum of prices i to i+window-1 |
| `Technical.EMA` | internal/analytics/technical.go:51-63 | the recurrence yields the unrolled geometric-weight sum at every index |
| `IndicatorLaws.EmaOnPrices` | internal/analytics/technical.go:51-63 | w times the first output is the sum of w prices, and (w+1)e' = 2p + (w-1)e for each later price |
| `Technical.RSI` | internal/analytics/technical.go:71-112 | each output is 100G/(G+L) of the geometric-weight averages of gains and losses, 50 when nothing moved |
| `Technical.SmoothingLoop` | internal/analytics/technical.go:101-110 | the running averages follow the smoothing recurrence element by element |
| `Technical.RsiValueIsGainShare` | internal/analytics/technical.go:186-194 | the branching formula is the share of gains, for all non-negative averages |
| `IndicatorLaws.RsiOnPrices` | internal/analytics/technical.go:71-112 | with Wilder averages g, l of the rises and falls, started by a mean: reading r has r(g+l) = 100g, and is 50 when g+l = 0 |
| `IndicatorLaws.RsiOfMonotonePrices` | internal/analytics/technical.go:65-112 | strictly rising prices read 100, strictly falling ones 0 |
| `Technical.TwoPassVariance` | internal/analytics/technical.go:132-143 | the two passes give (S2 - S^2/n)/(n-1) |
| `Technical.TwoPassScatter` | internal/analytics/technical.go:132-142 | the two passes give the scatter S2 - S^2/n of a window |
| `Technical.VolatilitySeries` | internal/analytics/technical.go:117-146 | one root per window, of the scatter over window-1 under IEEE division, with no test of the window |
| `Technical.Volatility` | internal/analytics/technical.go:151-157 | the reading of the newest window |
| `IndicatorLaws.VolatilityOnPrices` | internal/analytics/technical.go:117-157 | window-1 times the radicand is the sum of squared distances of the relative moves from their mean, and Volatility is the newest reading |
| `Series.SmoothStep` | internal/analytics/technical.go:60 | the closed form obeys the one-step recurrence |
| `TechnicalLaws.SmaWithinWindow` | internal/analytics/technical.go:21-46 | length, and every output between the extremes of its own window |
| `TechnicalLaws.EmaWithinHistory` | internal/analytics/technical.go:48-63 | length, and every output between the extremes of the prices consumed so far |
| `TechnicalLaws.EmaOfWindowOne` | internal/analytics/technical.go:51-63 | window 1 returns the prices |
| `TechnicalLaws.EmaMeetsSma` | internal/analytics/technical.go:24-63 | on every arithmetic progression EMA and SMA coincide, errors included |
| `TechnicalLaws.RsiWithinRange` | internal/analytics/technical.go:65-112 | len(prices)-period outputs, each in [0,100] |
| `TechnicalLaws.RsiTransforms` | internal/analytics/technical.go:71-112 | invariant under positive scaling and shifting; a reflection turns r into 100-r |
| `TechnicalLaws.DailyReturnsTelescope` | internal/analytics/technical.go:5-19 | the product of 1+return over any range is the price ratio of its ends |
| `TechnicalLaws.VarianceVanishes` | internal/analytics/technical.go:131-143 | never negative, and zero exactly on windows of equal returns |
| `TechnicalLaws.VolatilityVanishes` | internal/analytics/technical.go:143 | the same for whatever non-negative root the square root returns |
| `TechnicalLaws.VolatilityScaleFree` | internal/analytics/technical.go:117-146 | scaling all prices changes neither returns nor volatility |
| `TechnicalLaws.SingleReturnHasNoScatter` | internal/analytics/technical.go:132-142 | the two passes over one return give exactly 0 |
| `TechnicalLaws.VolatilityIsNumberUnlessWindowOne` | internal/analytics/technical.go:117-143 | a successful call takes the root of a number if and only if the window is not 1, and of a not-a-number otherwise |
| `TechnicalLaws.VolatilityWindowOneExample` | internal/analytics/technical.go:143 | a concrete call that yields not-a-number |
| `Symbols.NormalizeIdempotent` | internal/service/ingestion.go:158-164 | valid symbols are fixed points, so normalizing twice is normalizing once |
| `SymbolLaws.NormalizeIff` | internal/service/ingestion.go:158-164 | an input is accepted as a symbol exactly when it spells it in any mixture of cases between white space |
| `Store.InsertAllFirstWins` | internal/repository/repository.go:63 | stored rows stay, a new key gets the first batch row that carries it |
| `Store.InsertAllIdempotent` | internal/repository/repository.go:12-14 | inserting a batch twice is inserting it once |
| `Store.PutCountIsGrowth` | internal/repository/repository.go:65-69 | counting the rows not yet stored and not seen earlier in the batch gives the growth of the table |
| `Persistence.BindRows` | internal/repository/repository.go:52-60 | resolving the numbered placeholders against the arguments gives back every row, cell by cell |
| `IngestionLaws.UpsertIdentity` | internal/repository/repository.go:24-44 | other companies stay, a known one keeps its id, a new one gets an id that no row carries |
| `IngestionLaws.IdsAreStable` | internal/repository/repository.go:22-44 | in every run a stored company stays stored under the same id |
| `Persistence.Repository.InsertPrices` | internal/repository/repository.go:48-70 | inserts the bound rows if absent and reports how many it put; a failure changes nothing |
| `Persistence.Repository.InsertIncomeStatements` | internal/repository/repository.go:73-95 | the same for the six income columns |
| `Persistence.Repository.InsertBalanceSheets` | internal/repository/repository.go:98-122 | the same for the ten balance columns |
| `Persistence.Repository.InsertCashFlows` | internal/repository/repository.go:125-148 | the same for the seven cash flow columns |
| `CacheStore.GetIsLastWrite` | internal/cache/cache.go:28-41 | a GET answers the last SET of its key unless deleted since or past its TTL, which a non-positive setting never is |
| `Query.KeyNames` | internal/cache/cache.go:18-26 | the Redis keys of the two cached endpoints |
| `CacheStore.RedisCache.Del` | internal/cache/cache.go:36-41 | prefixes the slice in place and removes exactly those keys |
| `Ingestion.ValidPrices` | internal/service/ingestion.go:169-184 | keeps exactly the dated rows with 0 < low <= open, close <= high and no negative volume, in order |
| `Ingestion.ValidIncomeStatements` | internal/service/ingestion.go:187-196 | keeps the dated rows of a known period, in order |
| `Ingestion.ValidBalanceSheets` | internal/service/ingestion.go:199-208 | keeps the dated rows of a known period, in order |
| `Ingestion.ValidCashFlows` | internal/service/ingestion.go:211-220 | keeps the dated rows of a known period, in order |
| `Ingestion.IngestionService.Ingest` | internal/service/ingestion.go:63-155 | database, run record, error and cache entries after every combination of failures |
| `StoredRows.ErrorOfCall` | internal/service/ingestion.go:63-133 | which error each combination of failing steps and ill-formed rows reports |
| `StoredRows.StoredOnRows` | internal/service/ingestion.go:84-128 | after any fetched snapshot, each table whose step completed holds its old rows and, for every key of a well-formed fetched row, the first such row column by column |
| `IngestionLaws.EveryRunIsSound` | migrations/000001_initial_schema.up.sql:6-71 | in every run ids are unique, rows belong to companies, stored prices passed validation |
| `IngestionLaws.SuccessStoresSnapshot` | internal/service/ingestion.go:84-128 | a success leaves the fetched company row, and each table has absorbed the validated rows, the first one of each new key, and nothing else |
| `StoredRows.PricesOnRows` | internal/service/ingestion.go:166-184 | a price is stored exactly when none of the three guards drops it |
| `IngestionLaws.OtherSymbolsUntouched` | internal/service/ingestion.go:84-128 | a call changes nothing that queries on another symbol can see |
| `IngestionLaws.CountersAreGrowth` | internal/service/ingestion.go:94-128 | the affected rows a call reports, at whatever stage it stops, are the growth of each table |
| `IngestionLaws.CountersConserveRows` | internal/service/ingestion.go:88-132 | summed over any run, failures included, each counter is the growth of its table |
| `IngestionLaws.AuditRowOfCall` | internal/repository/repository.go:151-159 | one audit row per valid call, with prices, income and balance but not cash flow |
| `IngestionLaws.CompanyCounter` | internal/service/ingestion.go:88 | the company counter is the table growth exactly when the company is new |
| `Examples.UpdateCountsAsInsert` | internal/service/ingestion.go:88 | a second ingestion reports one company and the table has not grown |
| `IngestionLaws.FailuresDoNotMatter` | internal/service/ingestion.go:60-62 | failed attempts at any stages followed by a success leave the rows of the success alone |
| `IngestionLaws.ReingestIsNoOp` | internal/service/ingestion.go:60-62 | re-ingesting a stored snapshot changes no row and reports none inserted |
| `QueryServices.QueryService.GetAnalytics` | internal/service/analytics.go:61-121 | answer and cache entries after a hit, a miss, each refusal and each cache failure |
| `QueryServices.QueryService.GetTechnical` | internal/service/analytics.go:127-177 | the same for the eight indicators over the full history |
| `QueryServices.QueryService.ValidateSymbols` | internal/service/query.go:146-163 | accepts exactly 1..max items that normalize to distinct valid symbols |
| `QueryServices.QueryService.Compare` | internal/service/query.go:145-175 | an invalid list fails before any lookup; otherwise the first failing symbol ends the call |
| `QueryLaws.HistoryEndsWithLatest` | internal/repository/read.go:53-106 | the history is strictly ordered by date and ends with the row GetLatestPrice returns |
| `QueryLaws.AnalyticsAnswer` | internal/service/analytics.go:75-117 | succeeds exactly on a company with annual income, annual balance and a price, else which error |
| `QueryLaws.TechnicalAnswer` | internal/service/analytics.go:141-172 | not found, insufficient data, or the indicators of the whole history |
| `QueryRows.TechnicalOnRows` | internal/service/analytics.go:141-172 | the eight indicators and the last date on the stored days, closes and volumes of the company |
| `QueryRows.AnalyticsOnRows` | internal/service/analytics.go:75-117 | the price and the nine metrics as guarded quotients of the newest and second newest annual rows |
| `QueryRows.RefusalOnRows` | internal/service/analytics.go:75-145 | not found, insufficient or an answer, by which rows are stored |
| `QueryRows.UncachedAnswers` | internal/service/analytics.go:61-177 | without a cache both endpoints answer what the rows determine |
| `QueryLaws.NullPattern` | internal/service/analytics.go:157-171 | which indicator is present, by the number of rows, and the average volume also by zero volumes |
| `Coherence.EveryRunIsCoherent` | internal/service/analytics.go:61-201 | in every run of queries, comparisons, ingestions and evictions, a stale entry was left in place by an ingestion that changed its rows, and was not written since |
| `Coherence.CleanPagesAnswerTruth` | internal/service/analytics.go:68-73 | after every run a call answers the truth or a store error of its own, unless such an entry is there and has not expired |
| `Coherence.AnswerAfterIngest` | internal/service/ingestion.go:134-146 | after an ingestion a cached answer is right if and only if its entry was deleted or the rows still determine it |
| `Staleness.AnswerLeftInPlace` | internal/service/ingestion.go:94-146 | an entry left in place is right when every fetched key was stored, wrong when a newer price came in, or for analytics another newest EPS at the same close |
| `Examples.UnwiredIngestionLeavesStaleAnswer` | cmd/ingest/main.go:45-49 | a run of three successful calls from the empty database after which the technical page answers the old rows |
| `Examples.FailedIngestionLeavesStaleAnswer` | internal/service/ingestion.go:99-112 | the same with the cache attached, when the income stage fails after the prices are written |
| `Coherence.SuccessCleans` | internal/service/ingestion.go:137-146 | after a success with both deletions neither page of the symbol is stale, whatever it was before |
| `Coherence.StaleOnlySinceRemoval` | internal/service/ingestion.go:134-146 | in every run, once a purge or an eviction removed an entry, only an ingestion after it can be to blame for a stale one |
| `Coherence.BecomesStaleOnly` | internal/service/ingestion.go:69-81 | a page becomes stale only in a call that changed its rows and did not delete its entry |
| `Coherence.OtherAnswersUntouched` | internal/service/ingestion.go:141 | ingesting one company leaves the answers of every other symbol alone |
| `CompareLaws.CompareAllOrNothing` | internal/service/query.go:140-175 | for any rows, cache and failures: success exactly on 1..max valid distinct symbols whose every lookup succeeds, result i from lookup i, else the first error |
| `CompareLaws.LookupsAreIndependent` | internal/service/query.go:165-174 | looking up distinct symbols one after the other answers what each lookup answers on its own |
| `Coherence.CompareAnswersTruth` | internal/service/query.go:140-175 | over pages that are not stale the results are the truth of every symbol |
| `Interleaving.EventualCoherence` | README.md:158-160 | in every interleaving, a TTL after the last old reader finished every new call answers the truth |
| `Interleaving.UndisturbedIsReadThrough` | internal/service/analytics.go:61-177 | with no other step in between, the steps of a call answer and cache what the services do in one go, with any failures |
| `Interleaving.StoreErrorHasCause` | internal/service/analytics.go:75-92 | a call answers a store error only if one of its own reads failed |
| `PurgeRace.RightIffClean` | internal/service/analytics.go:61-201 | from any state of the calls in flight, all later calls are right in every continuation that leaves the rows alone if and only if no live entry is wrong and no call is about to store a wrong one |
| `PurgeRace.PurgeIsEnoughIff` | internal/service/ingestion.go:134-146 | at any step of any run, after both deletions, the same with the condition on the calls in flight alone |
| `PurgeRace.LateSetDefeatsPurge` | internal/service/ingestion.go:134-146 | a call begun after the write and both deletions is answered by the old rows |
| `Interleaving.PurgeAfterDrain` | internal/service/ingestion.go:137-146 | deletions after the old readers finished make every later call right, with no TTL; the exact condition is in `PurgeRace.PurgeIsEnoughIff` |
| `Examples.PurgeRaceLeavesStaleAnswer` | internal/service/ingestion.go:134-146 | that late store on a concrete company and its second trading day |
| `RateLimiter.RedisLimiter.Allow` | internal/rate/rate.go:39-52 | verdict and counter of the one rendered key; no other counter moves |
| `RateLimiter.WindowAdmitsFirst` | internal/rate/rate.go:23-52 | a window admits exactly its first min(count, limit) counted checks, less those whose reply was lost |
| `RateLimiter.NextWindowOpens` | internal/rate/rate.go:23-25 | the first check after a window's end opens the next one |
| `RateLimiter.UnarmedKeyFreezes` | internal/rate/rate.go:41-50 | after a lost EXPIRE, or a first INCR that is applied but not answered, a key admits at most its limit for ever |
| `RateLimiter.AtMostTwiceTheLimit` | internal/rate/rate.go:30-52 | any interval of one window length admits at most twice the limit, with commands or replies lost |
| `RateLimiter.RacingCallsAtMostTwiceTheLimit` | internal/rate/rate.go:39-52 | the same bound when INCR and EXPIRE are separate round trips of concurrent calls, in every interleaving |
| `RateLimiter.ExpireFindsNoTtl` | internal/rate/rate.go:45-50 | in every interleaving an EXPIRE finds its counter alive and without TTL, so it never moves the end of a window |
| `RateLimiter.UnheardIncrFreezes` | internal/rate/rate.go:41-50 | in every interleaving a counter whose first reply was lost never gets a TTL |
| `RateLimiter.TwoTripsAreACheck` | internal/rate/rate.go:41-49 | with nothing in between, the two round trips are one check |
| `RateLimiter.NoWindowNoLimit` | internal/rate/rate.go:49 | with a window that is not positive nothing is limited |
| `RateLimiter.KeysDoNotInteract` | internal/rate/rate.go:40-41 | the counter of a key depends on the checks of that key alone |
| `Auth.GeneratedKeysAreRaw` | internal/auth/auth.go:66-72 | every generated key passes the format check and keeps all its bits |
| `Auth.HexEncodesBytes` | internal/auth/auth.go:66-72 | characters 2i and 2i+1 are the hexadecimal digits of byte i |
| `Auth.CreationFacts` | internal/repository/keys.go:14-28 | a creation keeps the rows, adds one under a new highest id with a hash of its own, or none if it fails or the hash is taken |
| `Auth.CreatedFields` | internal/auth/auth.go:89-107 | a created row holds the digest, the first 8 characters, the label and the expiry, field by field, and is refused exactly when its digest is stored |
| `Auth.AlwaysWellFormed` | migrations/000003_api_keys.up.sql:16-24 | in every run ids and hashes are unique and every row stems from a raw key |
| `Auth.KeyStore.GetAPIKeysByPrefix` | internal/repository/keys.go:31-57 | the rows with that prefix, in id order, or the driver error |
| `Auth.RevocationFacts` | internal/repository/keys.go:86-99 | a revocation reports a row exactly when it changes one, leaves the id unusable for ever and other rows alone, and repeating it changes nothing |
| `Auth.AuthService.Create` | internal/auth/auth.go:89-107 | stores prefix and hash of the raw key it returns; without random bytes or storage there is no key |
| `Auth.AuthService.Validate` | internal/auth/auth.go:111-132 | the verdict on the first candidate with the right hash; a failing lookup is an error of its own |
| `Auth.AuthService.Revoke` | internal/auth/auth.go:135-137 | revokes through the store and reports whether there was an unrevoked row |
| `Auth.IndexedLookupIsFullScan` | internal/auth/auth.go:111-132 | in every reachable table the prefix lookup accepts exactly what a scan by hash accepts |
| `Auth.RowsAreCreated` | internal/auth/auth.go:89-107 | every row of a reachable table has the hash of a key that an earlier creation returned |
| `Auth.RowAfterCreation` | internal/repository/keys.go:86-90 | a created row changes only by its first revocation, whose timestamp stays |
| `Auth.AcceptedUntilRevokedOrExpired` | internal/auth/auth.go:118-132 | a created key is accepted exactly until revoked or past expiry, in every run |
| `Auth.NeverAcceptedAgain` | internal/auth/auth.go:126-128 | a key refused once is refused for ever under a monotone clock |
| `Middleware.BucketsApart` | internal/cache/cache.go:13-26 | rendered bucket names are injective and disjoint, also from the response cache's keys |
| `Middleware.BucketNames` | internal/handler/handler.go:92-119 | the Redis keys of the three kinds of bucket |
| `Middleware.Handler.AuthRequire` | internal/handler/handler.go:63-80 | passes the identity on, or answers 401 or 429 |
| `Middleware.Handler.BlockedByAuthFloodGuard` | internal/handler/handler.go:88-103 | blocks only on an explicit no of the guard |
| `Middleware.Handler.RateLimit` | internal/handler/handler.go:111-132 | ends the request only on an explicit no of the limiter |
| `Middleware.Handler.Serve` | internal/handler/handler.go:135-140 | response and counters of the whole chain |
| `Middleware.BucketAlone` | internal/handler/handler.go:92-119 | over any request sequence the counter of a bucket is that of a limiter which sees only the requests naming it |
| `Middleware.KeyQuota` | internal/handler/handler.go:105-132 | over any sequence of requests served one after the other a key gets at most twice its limit per window length, whatever others send |
| `Middleware.RejectionQuota` | internal/handler/handler.go:82-103 | the guard bounds the plain 401s of an address in the same way |
| `Concurrency.ConcurrentKeyQuota` | internal/handler/handler.go:105-132 | the bound per key when the steps of any number of requests interleave and commands or replies are lost |
| `Concurrency.ConcurrentRejectionQuota` | internal/handler/handler.go:82-103 | the bound per address likewise |
| `Concurrency.BucketRaces` | internal/rate/rate.go:39-52 | in every interleaving the counter of a bucket is that of the race of its own commands alone |
| `Concurrency.UndisturbedIsServe` | internal/handler/handler.go:63-132 | a request whose steps are not interrupted gets the response and leaves the counters of the middleware chain |
| `KeyLifecycle.HandledIff` | internal/handler/handler.go:63-132 | over any run of key operations and requests, a created key reaches the handler exactly when it is live, its lookup succeeds and the limiter fed by its own requests does not say no |
| `KeyLifecycle.RefusedWith` | internal/handler/handler.go:63-132 | 429 of the guard, 401 or 429 of the limiter for every other request, by the counter of its own bucket |
| `KeyLifecycle.OpenServiceAnswers` | internal/handler/handler.go:64-132 | without authentication the limiter counts the address and alone decides |
| `KeyLifecycle.OnlyLiveKeysHandled` | internal/handler/handler.go:60-80 | whatever reaches a handler carries a key that an earlier operation created and that is neither revoked nor expired |
| `KeyLifecycle.RefusedForGood` | internal/auth/auth.go:126-128 | a key once revoked or expired is handled at no later request |
| `Screener.BuildWhere` | internal/repository/screener.go:57-82 | the k-th condition names the k-th argument, and the clause is true exactly for rows that meet the filter |
| `Screener.RunScreener` | internal/repository/screener.go:15-99 | the base rows that meet the filter, or an error: of the query or a scan without rows, of the iteration with the rows read before it |
| `Screener.ServeScreener` | internal/service/screener.go:14-23 | a result is complete, and exactly a fault that occurs makes it an error |
| `Screener.ScreenedExactly` | internal/repository/screener.go:26-85 | exactly the companies with an annual income statement that meet every set criterion, once each, in symbol order |
| `ScreenerRows.ListedOnRows` | internal/repository/screener.go:15-85 | a row is listed exactly when its company has an annual income statement, it carries that name and sector and the quotients of the newest rows, and it meets every set criterion |
| `ScreenerRows.ListedInOrder` | internal/repository/screener.go:82 | stored companies only, each once, in code point order |
| `Screener.MoreCriteriaFewerRows` | internal/repository/screener.go:66-82 | adding criteria yields a subsequence |
| `Screener.NewestFirstAgrees` | internal/repository/screener.go:27-41 | the SQL newest and previous rows are the first two of the descending list |
| `Screener.ScreenerAgrees` | internal/repository/screener.go:18-24 | where GetAnalytics succeeds ROE and growth agree, and P/E exactly when the EPS is not negative |
| `Examples.LossSplitsThePeRatio` | internal/repository/screener.go:18-24 | an ingested company with a loss has a P/E of -10 in one answer and none in the other |

## Left out

- Technical.VolatilitySeries: names the quotient under the square root instead of the root itself, because reals have no square root function here; `TechnicalLaws.VolatilityVanishes` speaks about every non-negative root.
- Staleness.AnswerLeftInPlace: says nothing between its conditions, for example when only older days are filled in; there the exact condition is the equality of answers in `Coherence.AnswerAfterIngest`.
- Middleware.KeyQuota: requests are served one at a time; overlapping ones are in `Concurrency.ConcurrentKeyQuota`.
- Middleware.RejectionQuota: likewise, with `Concurrency.ConcurrentRejectionQuota` for overlapping requests.
- KeyLifecycle.HandledIff: each request meets one state of the key table; overlapping requests are in `Concurrency` only.
- Symbols.Normalize: upper-casing is exact only where its result can be an ASCII letter; other letters make a symbol invalid either way.
- Screener.Screened: symbol order is code point order, as under the C collation.
- Ingestion.IngestionService.Ingest: run timestamps, error message texts and the driver's limit on bound parameters are not modelled, and a statement that fails has changed nothing.
- Floating point: rounding, overflow and NUMERIC column rounding; all arithmetic is over exact reals.
- Bytes: cached values are the results themselves, so JSON encoding and decoding are taken to be inverse.
- SHA-256: any collision-free function stands for it; random bytes are an argument.
- SQL text, drivers and the Redis protocol: each statement is one atomic operation that either happens and is reported or does not happen; only an INCR can also happen unreported.
- Provider, command-line programs, HTTP routing and response rendering.
- The listing and history endpoints of QueryService and ListAPIKeys, which pass rows through.
- The period filter of statement queries other than annual, and LIMIT on histories.
- CurrentRatio, DebtToEquity, ROA, NetMargin, PriceToBook and earnings growth are computed but have no law of their own; each is one guarded division.
