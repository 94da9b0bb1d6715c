# TheBrokeAPI quote subsystem and portfolio valuation, in Dafny

This project models the back-end core of TheBrokeAPI, a personal-finance API, and proves properties of that model. The core is:

- **`DbQuoteLimiter`**: the daily quota for quote calls to the Alpha Vantage vendor. It keeps a table from UTC day to used count, offers a conditional one-step consume, and answers a remaining-budget query.
- **`DbQuoteCache`**: a per-asset log of prices. Saves append rows. A read returns the newest row inside a time window.
- **`DbTickerPriceCache`**: a per-ticker price table updated by upsert.
- **`DbTrackedTickers`**: groups asset rows by ticker, counts them, and joins each ticker's last cached time.
- **`AlphaVantageQuoteProvider.GetQuoteAsync`**: tries, in order:
  1. a fresh cache read;
  2. consuming one token of quota;
  3. the remote GLOBAL_QUOTE call;
  4. a 30-day stale read;
  5. a zero-price "unavailable" result.
- **`QuoteIngestionWorker`**:
  - a per-minute tick with OPEN, CLOSE and HOURLY triggers over the local date;
  - a batch that orders the tracked tickers by popularity and then staleness, and refreshes the first `min(remaining, count)` of them.
- **`InvestimentosService.GetCardsAsync`**: for each asset, a fold over its transactions that computes:
  - quantity;
  - weighted-average cost;
  - realized gain;
  - net invested.

  Each fold is combined with one quote into a rounded card.
- **`SymbolsController.Search`**:
  - query normalisation and the `"sym:"` cache key;
  - keeping at most ten usable vendor matches.
- **`MetasController`**: savings goals, which covers:
  - the progress percentage;
  - create;
  - a field-restricted update;
  - delete;
  - progress additions capped at the target.

## How things are represented

- **Instants**: `DateTime` values are integers counting .NET ticks since `DateTime.MinValue`. A minute is 600 000 000 ticks and a day is 864 000 000 000 ticks.
  - A date is `instant / TicksPerDay`.
  - A time of day is `instant % TicksPerDay`.
  - The clock is a parameter of every operation that reads it: `now`, `nowUtc`, `nowLocal`.
- **Decimals**: `decimal` is `real`. `Math.Round` rounds half to even (`Numerics.Round`).
- **Database tables**: each table is a Dafny value held by a class that mirrors the repository class.
  - The usage table is a `map` from day to count.
  - The price log is a `seq` of rows.
  - The ticker cache is a `seq` with one row per ticker.
  - Goals are a `map` keyed by id.
- **Class methods**: each method updates its fields in place. It is proved against a pure function of the old state, and the properties are lemmas about that function.
- **Vendor responses**: a response is an input datatype that keeps exactly the distinctions the code branches on.
  - A transport error, a non-2xx status or a body that is not JSON throws. This is `Threw`, not a fallback.
  - A `GetString()` on a non-string JSON value also throws.
  - A JSON body whose root is not an object also throws: `TryGetProperty` fails on it, and it is represented as `Fault`.
  - A `bestMatches` element that is not an object throws as well. It is represented as a match whose fields are `NotText`.
  - The batch takes the vendor's answers as a function from ticker to response.

## Model

| member | source | states |
|---|---|---|
| QuoteLimiter.EffectiveLimit | TheBrokeAPI/Infrastructure/Quotes/DbQuoteLimiter.cs:19 | The limit is never negative: a configured limit of 0 or more is kept, and a negative one becomes 0. |
| QuoteLimiter.DbQuoteLimiter.constructor | TheBrokeAPI/Infrastructure/Quotes/DbQuoteLimiter.cs:16-20 | The daily limit is EffectiveLimit of the configured DailyLimit. |
| QuoteLimiter.Remaining | TheBrokeAPI/Infrastructure/Quotes/DbQuoteLimiter.cs:47-55 | Remaining is never negative. It is 0 exactly when the used count has reached the limit; otherwise used + remaining = limit. A day with no row counts as 0 used. |
| QuoteLimiter.ConsumeOutcome | TheBrokeAPI/Infrastructure/Quotes/DbQuoteLimiter.cs:28-44 | A consume succeeds iff used + tokens <= limit. Afterwards the day's row exists, and its count has grown by exactly `tokens` on success and is unchanged on failure. |
| QuoteLimiter.ConsumeFrame | TheBrokeAPI/Infrastructure/Quotes/DbQuoteLimiter.cs:24-39 | Rows of other days are neither created nor changed. |
| QuoteLimiter.EnsureRowIdempotent | TheBrokeAPI/Infrastructure/Quotes/DbQuoteLimiter.cs:28-32 | Creating the day row is idempotent and leaves an existing row unchanged. |
| QuoteLimiter.ConsumeKeepsWithinLimit | TheBrokeAPI/Infrastructure/Quotes/DbQuoteLimiter.cs:36-41 | If every day is within a non-negative limit before a consume, every day is within it afterwards. |
| QuoteLimiter.ConsumeKeepsNonNegative | TheBrokeAPI/Infrastructure/Quotes/DbQuoteLimiter.cs:28-41 | With non-negative tokens, used counts stay non-negative. |
| QuoteLimiter.ZeroLimitRefusesAll | TheBrokeAPI/Infrastructure/Quotes/DbQuoteLimiter.cs:19-40 | With a limit of 0, every consume of one or more tokens fails. There is no unlimited mode. |
| QuoteLimiter.ConsumeOneIffRemaining | TheBrokeAPI/Infrastructure/Quotes/DbQuoteLimiter.cs:36-55 | A one-token consume succeeds iff the remaining budget is at least 1. |
| QuoteLimiter.ConsumeLowersRemaining | TheBrokeAPI/Infrastructure/Quotes/DbQuoteLimiter.cs:36-55 | A successful consume lowers the remaining budget by exactly `tokens`. |
| QuoteLimiter.GrantedWithinRemaining | TheBrokeAPI/Infrastructure/Quotes/DbQuoteLimiter.cs:36-55 | Over any series of non-negative requests on one day, the tokens granted: (1) are at least 0; (2) never exceed the budget reported before the first request; (3) equal the growth of the used count. |
| QuoteLimiter.DbQuoteLimiter.TryConsume | TheBrokeAPI/Infrastructure/Quotes/DbQuoteLimiter.cs:22-45 | Updates the table in place to Consume of the old table on the UTC day of `nowUtc`, and returns whether it consumed. |
| QuoteLimiter.DbQuoteLimiter.GetRemaining | TheBrokeAPI/Infrastructure/Quotes/DbQuoteLimiter.cs:47-55 | Returns Remaining for the UTC day of `nowUtc` and changes nothing. |
| QuoteCache.Newest | TheBrokeAPI/Infrastructure/Quotes/DbQuoteCache.cs:19-26 | The result is None iff no row of the asset has AsOf >= cutoff. A returned row is one of the rows, qualifies, and has the largest AsOf among qualifying rows. |
| QuoteCache.RowsOf | TheBrokeAPI/Infrastructure/Quotes/DbQuoteCache.cs:22 | Every row kept belongs to the asset. |
| QuoteCache.OtherAssetsIrrelevant | TheBrokeAPI/Infrastructure/Quotes/DbQuoteCache.cs:22 | Reading over only the asset's own rows gives the same result as reading over all rows. |
| QuoteCache.NewestIgnoresOthers | TheBrokeAPI/Infrastructure/Quotes/DbQuoteCache.cs:21-24 | Appending rows of other assets never changes what an asset reads. |
| QuoteCache.WindowMonotone | TheBrokeAPI/Infrastructure/Quotes/DbQuoteCache.cs:19-24 | A hit with ttl1 is also a hit with any ttl2 >= ttl1, and that hit is at least as new. |
| QuoteCache.SaveThenRecent | TheBrokeAPI/Infrastructure/Quotes/DbQuoteCache.cs:19-38 | After saving a row with AsOf >= now - ttl, the read hits with an AsOf at least that of the saved row. |
| QuoteCache.SaveAfterMissIsRead | TheBrokeAPI/Infrastructure/Quotes/DbQuoteCache.cs:19-38 | If the asset had no row in the window, then after a save any read whose cutoff lies between the old cutoff and the saved AsOf returns exactly the saved row. |
| QuoteCache.DbQuoteCache.TryGetRecent | TheBrokeAPI/Infrastructure/Quotes/DbQuoteCache.cs:16-27 | Returns Recent of the current rows and changes nothing. |
| QuoteCache.DbQuoteCache.Save | TheBrokeAPI/Infrastructure/Quotes/DbQuoteCache.cs:29-39 | Appends exactly one row. Existing rows are kept unchanged and in order. |
| TickerPriceCache.IndexOf | TheBrokeAPI/Infrastructure/Quotes/DbTickerPriceCache.cs:14 | Finds the first row with the ticker. It is None iff no row has the ticker. |
| TickerPriceCache.Lookup | TheBrokeAPI/Infrastructure/Quotes/DbTickerPriceCache.cs:12-17 | Returns a row with the ticker. It is None iff no row has the ticker. |
| TickerPriceCache.UpsertThenLookup | TheBrokeAPI/Infrastructure/Quotes/DbTickerPriceCache.cs:12-34 | After a save of (t, p, a, s), reading t gives exactly (t, p, a, s). Last write wins and there is no AsOf check. |
| TickerPriceCache.UpsertFrame | TheBrokeAPI/Infrastructure/Quotes/DbTickerPriceCache.cs:19-34 | Saving t leaves what every other ticker reads unchanged. |
| TickerPriceCache.UpsertSize | TheBrokeAPI/Infrastructure/Quotes/DbTickerPriceCache.cs:22-32 | An absent ticker adds one row. A present ticker is overwritten in place, keeping the row count. |
| TickerPriceCache.UpsertKeepsUnique | TheBrokeAPI/Infrastructure/Quotes/DbTickerPriceCache.cs:19-34 | Saving keeps at most one row per ticker. |
| TickerPriceCache.DbTickerPriceCache.TryGet | TheBrokeAPI/Infrastructure/Quotes/DbTickerPriceCache.cs:10-17 | Returns None iff the ticker has no row; otherwise returns that row's price, AsOf and source. |
| TickerPriceCache.DbTickerPriceCache.Save | TheBrokeAPI/Infrastructure/Quotes/DbTickerPriceCache.cs:19-34 | Updates the rows in place to Upsert of the old rows and keeps one row per ticker. |
| TrackedTickers.BumpEffect | TheBrokeAPI/Infrastructure/Quotes/DbTrackedTickers.cs:13-16 | Counting one more asset row adds its ticker to the keys, adds 1 to its count only, adds 1 to the total, and keeps keys distinct. |
| TrackedTickers.GroupsCorrect | TheBrokeAPI/Infrastructure/Quotes/DbTrackedTickers.cs:13-16 | The groups have distinct keys, and the keys are exactly the tickers of the asset rows. Each count equals the multiplicity of that ticker, and the counts sum to the number of rows. |
| TrackedTickers.SumMatchesTotal | TheBrokeAPI/Infrastructure/Quotes/DbTrackedTickers.cs:15-22 | Popularities copied from the group counts add up to the groups' total. |
| TrackedTickers.TrackedCorrect | TheBrokeAPI/Infrastructure/Quotes/DbTrackedTickers.cs:11-23 | There is one entry per distinct asset ticker; a ticker that has only a cache row does not appear. Each popularity is that ticker's number of asset rows, which is at least 1, and the popularities sum to the number of asset rows. lastAsOf is the ticker-cache AsOf when a row exists, and None otherwise. |
| QuoteProvider.InterpretCases | TheBrokeAPI/Infrastructure/Quotes/AlphaVantageQuoteProvider.cs:51-85 | A price comes only from a "05. price" string that parses. A transport fault or a non-string price throws. Every other body gives no price. |
| QuoteProvider.FreshHitShortCircuits | TheBrokeAPI/Infrastructure/Quotes/AlphaVantageQuoteProvider.cs:35-39 | A hit within CacheTtlMinutes returns (price, asof, fromCache, not stale), leaves the cache and usage unchanged, and does not depend on the vendor. |
| QuoteProvider.QuotaRefusedFallsBack | TheBrokeAPI/Infrastructure/Quotes/AlphaVantageQuoteProvider.cs:41-47 | When the quota is refused, the result does not depend on the vendor's response. It is the 30-day stale read if one exists, else (0, now, not from cache, stale). |
| QuoteProvider.UnusableResponseFallsBack | TheBrokeAPI/Infrastructure/Quotes/AlphaVantageQuoteProvider.cs:58-85 | A "Note"/"Information" notice, a missing or non-object "Global Quote", a missing or null "05. price", or an unparsable price all go to the stale fallback. The cache is unchanged and the token stays spent. |
| QuoteProvider.ParsedPriceIsSaved | TheBrokeAPI/Infrastructure/Quotes/AlphaVantageQuoteProvider.cs:79-91 | A parsed price is appended to the cache as (ativoId, price, now, "ALPHAVANTAGE") and returned as (price, now, not from cache, not stale). |
| QuoteProvider.TokenAccounting | TheBrokeAPI/Infrastructure/Quotes/AlphaVantageQuoteProvider.cs:37-91 | A fresh hit spends nothing. Otherwise the one-token consume is applied on every path: used grows by 1 exactly when it was granted, and is never refunded. The cache either stays the same or gains exactly the saved row. |
| QuoteProvider.ProvideKeepsWithinLimit | TheBrokeAPI/Infrastructure/Quotes/AlphaVantageQuoteProvider.cs:41 | A lookup keeps every day's usage within a non-negative limit. |
| QuoteProvider.QuoteInvariants | TheBrokeAPI/Infrastructure/Quotes/AlphaVantageQuoteProvider.cs:37-91 | A result that is stale and not from cache is (0, now). A result from cache carries the price and AsOf of one of the asset's rows. A result is not stale iff it is a fresh hit or a successful fetch that was saved. |
| QuoteProvider.FetchThenCachedWithinTtl | TheBrokeAPI/Infrastructure/Quotes/AlphaVantageQuoteProvider.cs:35-91 | After a successful fetch, a second lookup within the TTL returns the fetched price from cache and not stale. It spends no quota, whatever the vendor would answer. |
| QuoteProvider.AlphaVantageQuoteProvider.StaleOrUnavailable | TheBrokeAPI/Infrastructure/Quotes/AlphaVantageQuoteProvider.cs:43-46 | Returns the 30-day stale read, or the zero-price sentinel. |
| QuoteProvider.AlphaVantageQuoteProvider.GetQuote | TheBrokeAPI/Infrastructure/Quotes/AlphaVantageQuoteProvider.cs:32-92 | The outcome and the new cache and limiter state are Provide of the old state. |
| QuoteIngestion.NewDateStartsClean | TheBrokeAPI/Infrastructure/Quotes/QuoteIngestionWorker.cs:52-58 | On the first tick of a new local date the record holds that date. Its flags and hourly mark are exactly what this tick's batch sets; the hourly mark is MinValue unless HOURLY ran. |
| QuoteIngestion.OpenTakesPrecedence | TheBrokeAPI/Infrastructure/Quotes/QuoteIngestionWorker.cs:65-70 | Near the open with OPEN not yet run, OPEN runs and sets its flag. Nothing else runs on that tick. |
| QuoteIngestion.FirstInSessionTickRunsHourly | TheBrokeAPI/Infrastructure/Quotes/QuoteIngestionWorker.cs:52-83 | After a reset, an in-session tick away from the open and the close runs HOURLY and records its instant. |
| QuoteIngestion.HourlyNeedsSessionAndInterval | TheBrokeAPI/Infrastructure/Quotes/QuoteIngestionWorker.cs:63-83 | HOURLY runs only in session, and on the same date only at least HourlyMinutes after the last HOURLY. It sets lastHourly to now. |
| QuoteIngestion.NoRepeatWithinDate | TheBrokeAPI/Infrastructure/Quotes/QuoteIngestionWorker.cs:52-77 | Within one date a set flag stays set, so OPEN or CLOSE never runs again that date. |
| QuoteIngestion.OncePerDate | TheBrokeAPI/Infrastructure/Quotes/QuoteIngestionWorker.cs:52-77 | Over any series of ticks on one local date, OPEN runs at most once and CLOSE runs at most once. |
| QuoteIngestion.InsertPermutes | TheBrokeAPI/Infrastructure/Quotes/QuoteIngestionWorker.cs:106-109 | Insertion adds exactly the inserted entry. |
| QuoteIngestion.InsertOrdered | TheBrokeAPI/Infrastructure/Quotes/QuoteIngestionWorker.cs:106-109 | Insertion into an ordered list keeps it ordered. |
| QuoteIngestion.InsertStable | TheBrokeAPI/Infrastructure/Quotes/QuoteIngestionWorker.cs:106-109 | Insertion places the new entry after every entry with the same sort key. |
| QuoteIngestion.InsertDistinct | TheBrokeAPI/Infrastructure/Quotes/QuoteIngestionWorker.cs:106-109 | Inserting a new ticker keeps the tickers distinct. |
| QuoteIngestion.OrderCorrect | TheBrokeAPI/Infrastructure/Quotes/QuoteIngestionWorker.cs:106-109 | The ordering is by popularity descending, then by lastAsOf ascending with null counted as MinValue. It is a permutation, and it is stable: entries with equal keys keep their input order. |
| QuoteIngestion.OrderDistinct | TheBrokeAPI/Infrastructure/Quotes/QuoteIngestionWorker.cs:106-109 | Ordering distinct tickers keeps them distinct. |
| QuoteIngestion.OrderOfTracked | TheBrokeAPI/Infrastructure/Quotes/QuoteIngestionWorker.cs:105-109 | The ordered tracked list has the same entries and length as the tracked list. Its tickers are distinct asset tickers, each with its row count as popularity, and the list is ordered. |
| QuoteIngestion.NoQuotaNoCalls | TheBrokeAPI/Infrastructure/Quotes/QuoteIngestionWorker.cs:98-103 | Without remaining quota a batch calls no ticker and changes no store. |
| QuoteIngestion.SelectionCovers | TheBrokeAPI/Infrastructure/Quotes/QuoteIngestionWorker.cs:98-116 | A batch calls exactly min(remaining, count) distinct tickers, none when remaining <= 0. Each is an asset ticker, and all of them are called when the quota covers them. |
| QuoteIngestion.SelectionIsPrefix | TheBrokeAPI/Infrastructure/Quotes/QuoteIngestionWorker.cs:111-122 | The called tickers are the leading entries of the ordering, in order. |
| QuoteIngestion.SelectionMostPopular | TheBrokeAPI/Infrastructure/Quotes/QuoteIngestionWorker.cs:106-122 | No asset ticker left out of a batch has more asset rows than a ticker that was called. |
| QuoteIngestion.FetchOneSaves | TheBrokeAPI/Infrastructure/Quotes/QuoteIngestionWorker.cs:123-132 | Each iteration saves whatever the provider returned under the ticker, stale and zero results included. A throw saves nothing and the loop goes on. Other tickers are untouched. |
| QuoteIngestion.FetchAllInvariants | TheBrokeAPI/Infrastructure/Quotes/QuoteIngestionWorker.cs:120-133 | A batch keeps one cache row per ticker, keeps usage within the limit, and leaves tickers it did not call unchanged. |
| QuoteIngestion.FetchAllAppend | TheBrokeAPI/Infrastructure/Quotes/QuoteIngestionWorker.cs:120-133 | Refreshing xs then ys is refreshing xs + ys. |
| QuoteIngestion.FreshAssetZeroSharedByAll | TheBrokeAPI/Infrastructure/Quotes/QuoteIngestionWorker.cs:125-127 | Every call uses asset id 0, so while an asset-0 row is fresh the batch makes no remote call. It spends no quota and records that row's price for every ticker it calls. |
| QuoteIngestion.FirstFetchSaved | TheBrokeAPI/Infrastructure/Quotes/QuoteIngestionWorker.cs:125-127 | When no asset-0 row is fresh and quota is left, a first fetch that parses becomes the fresh asset-0 row, at its price and instant. |
| QuoteIngestion.FirstPriceLeaksToBatch | TheBrokeAPI/Infrastructure/Quotes/QuoteIngestionWorker.cs:125-127 | As written, the first successful fetch of a batch is saved under asset 0. Every later ticker in that batch then records the first ticker's price and instant. |
| QuoteIngestion.FetchOneOwnStep | TheBrokeAPI/Infrastructure/Quotes/QuoteIngestionWorker.cs:123-132 | Corrected iteration, looked up under the ticker's own key: on a miss with quota granted, it spends the token. It saves its own parsed price to the quote cache and records it under the ticker, and leaves other tickers unchanged. |
| QuoteIngestion.FetchAllOwnQuota | TheBrokeAPI/Infrastructure/Quotes/QuoteIngestionWorker.cs:120-133 | In a corrected run over tickers with distinct keys, none fresh, and quota for all, every call is granted. The used count grows by the number of tickers, and the quote cache gains exactly the parsed prices. |
| QuoteIngestion.FetchAllOwnFacts | TheBrokeAPI/Infrastructure/Quotes/QuoteIngestionWorker.cs:120-133 | In the same corrected run, each ticker whose response parses records its own price at `now`. |
| QuoteIngestion.BatchRecordsOwnPrices | TheBrokeAPI/Infrastructure/Quotes/QuoteIngestionWorker.cs:89-134 | Corrected batch, when the asset tickers have distinct keys and none is fresh: every called ticker whose own response parses records its own price, whatever the other tickers returned. |
| QuoteIngestion.QuoteIngestionWorker.constructor | TheBrokeAPI/Infrastructure/Quotes/QuoteIngestionWorker.cs:20-33 | A new worker has day 0, both flags clear, and lastHourly = MinValue. |
| QuoteIngestion.QuoteIngestionWorker.Tick | TheBrokeAPI/Infrastructure/Quotes/QuoteIngestionWorker.cs:46-84 | The batch reason and the new fields are Plan of the old fields. With no reason nothing else changes; with a reason the stores change as Batch prescribes. |
| QuoteIngestion.QuoteIngestionWorker.RefreshBatch | TheBrokeAPI/Infrastructure/Quotes/QuoteIngestionWorker.cs:89-134 | The loop calls the selected tickers in order, and the quote cache, usage and ticker cache end as Batch prescribes. |
| Investments.Accumulate | TheBrokeAPI/Services/InvestimentosService.cs:48-86 | The inner loop's accumulators equal Fold of the transactions, folded in the order given. |
| Investments.FoldSums | TheBrokeAPI/Services/InvestimentosService.cs:68-81 | Bought quantity and cost are sums over buys only. Quantity is bought minus sold, with no clamp. Gross buy and sell amounts are the sums of their Valor, so net invested is buys minus sells. |
| Investments.AverageOfBuys | TheBrokeAPI/Services/InvestimentosService.cs:68-88 | The final average cost is Σ(q·pu)/Σq over buys, and 0 when no quantity was bought. |
| Investments.OnlyBuysMoveAverage | TheBrokeAPI/Services/InvestimentosService.cs:75-88 | A sell, dividend or unclassified transaction leaves the cost sums and the average cost unchanged. |
| Investments.SellEffect | TheBrokeAPI/Services/InvestimentosService.cs:75-81 | A sell subtracts q from quantity with no clamp, adds (pu - current average)·q to realized gain, adds Valor to sells, and keeps the average. |
| Investments.DividendEffect | TheBrokeAPI/Services/InvestimentosService.cs:82-85 | A dividend adds Valor to realized gain and changes nothing else. |
| Investments.OtherHasNoEffect | TheBrokeAPI/Services/InvestimentosService.cs:54-85 | A category matching no keyword has no effect. |
| Investments.ResolvedPairMatchesValor | TheBrokeAPI/Services/InvestimentosService.cs:62-66 | When exactly one of Quantidade and PrecoUnit is positive (null is not), the resolved q·pu equals Valor. |
| Investments.UnresolvedIsZero | TheBrokeAPI/Services/InvestimentosService.cs:62-66 | When neither is positive, q and pu are both 0. |
| Investments.KindPrecedence | TheBrokeAPI/Services/InvestimentosService.cs:54-85 | On the lower-cased category, "compra"/"buy" means buy, in both directions. "venda"/"sell" wins over "divid". Unclassified means no keyword occurs. |
| Investments.BuyThenSellExample | TheBrokeAPI/Services/InvestimentosService.cs:68-89 | Buying 10 at 10 and then selling 4 at 15 leaves quantity 6, average 10, realized 20 and net invested 40. |
| Investments.ValuationRelations | TheBrokeAPI/Services/InvestimentosService.cs:93-95 | The unrealized gain is value minus average·quantity. With a positive average and quantity, percent·average·quantity = unrealized·100; otherwise the percent is 0. |
| Investments.CardFields | TheBrokeAPI/Services/InvestimentosService.cs:97-107 | Each rounded card field is within half a unit of its last kept place (4 or 2 decimals) of the exact value. The card carries the asset's id, name and ticker, and the quote's staleness flag. |
| Investments.OwnedBy | TheBrokeAPI/Services/InvestimentosService.cs:33-36 | The assets listed are exactly the user's. |
| Investments.TxsOf | TheBrokeAPI/Services/InvestimentosService.cs:43-46 | The transactions listed are exactly the user's on that asset. |
| Investments.CardsPerAsset | TheBrokeAPI/Services/InvestimentosService.cs:40-110 | A successful valuation has one card per asset, in asset order. Each card's quantity, average, net invested and realized gain are the rounded fold of that asset's own transactions. |
| Investments.FailureStops | TheBrokeAPI/Services/InvestimentosService.cs:91 | Once a quote lookup throws, no later asset is looked up and no store changes further. |
| Investments.InvestimentosService.GetCards | TheBrokeAPI/Services/InvestimentosService.cs:31-111 | The cards, and the quote cache and usage after them, are CardsFor of the user's assets over the old state. |
| Symbols.Usable | TheBrokeAPI/Controllers/SymbolsController.cs:47-54 | The list of usable matches is no longer than the array. |
| Symbols.ScanTakesFirstUsable | TheBrokeAPI/Controllers/SymbolsController.cs:44-56 | Without a throwing entry, the loop with its break yields the first ten usable matches in array order. |
| Symbols.ScanBounded | TheBrokeAPI/Controllers/SymbolsController.cs:44-56 | The loop never yields more than ten entries, and each has a non-blank symbol and name. |
| Symbols.IgnoredQuery | TheBrokeAPI/Controllers/SymbolsController.cs:27-28 | A null or blank query, or one shorter than 3 UTF-16 code units once trimmed, answers an empty list. It does not depend on the vendor and leaves the cache unchanged. |
| Symbols.QueryLengthInCodeUnits | TheBrokeAPI/Controllers/SymbolsController.cs:27-28 | The length test counts UTF-16 code units. Two characters outside the Basic Multilingual Plane (four units) are searched; "ab" is not. |
| Symbols.CacheHitNoFetch | TheBrokeAPI/Controllers/SymbolsController.cs:30-33 | A cached key answers the cached list whatever the vendor would answer. |
| Symbols.FetchedThenHit | TheBrokeAPI/Controllers/SymbolsController.cs:30-59 | A fetched list, even an empty one, is stored. The next query with the same normalised key gets it back without a call. |
| Symbols.NoArrayIsEmpty | TheBrokeAPI/Controllers/SymbolsController.cs:44-59 | A missing or non-array "bestMatches" yields an empty list, which is cached. |
| Symbols.CollectBounded | TheBrokeAPI/Controllers/SymbolsController.cs:44-56 | A fetched body yields at most ten matches, whether or not it has an array. |
| Symbols.SearchResultBounded | TheBrokeAPI/Controllers/SymbolsController.cs:44-59 | Answers and cached lists have at most ten entries. |
| Symbols.KeyIgnoresCase | TheBrokeAPI/Controllers/SymbolsController.cs:30-31 | Queries whose upper-cased forms agree share a cache key. |
| Symbols.KeyIgnoresPaddingAndCase | TheBrokeAPI/Controllers/SymbolsController.cs:30-31 | Surrounding white space and lower-casing do not change the key. |
| Symbols.SymbolsController.CollectMatches | TheBrokeAPI/Controllers/SymbolsController.cs:44-57 | The foreach with its break computes Scan of the array. |
| Symbols.SymbolsController.Search | TheBrokeAPI/Controllers/SymbolsController.cs:25-61 | The answer and the new cache are Answer of the old cache, the query and the vendor response. |
| Goals.PercentualNearest | TheBrokeAPI/Controllers/MetasController.cs:43-45 | For a non-zero target, the percentage is the integer nearest ValorAtual/ValorMeta·100, with exact ties going to the even integer. |
| Goals.PercentualInRange | TheBrokeAPI/Controllers/MetasController.cs:43-45 | Progress between 0 and a positive target gives a percentage between 0 and 100, and 100 when the target is reached. |
| Goals.MetasPorUsuarioCorrect | TheBrokeAPI/Controllers/MetasController.cs:29-49 | Exactly the user's goals are listed, each with its progress and its percentage. |
| Goals.AtualizarChangesOnlyThreeFields | TheBrokeAPI/Controllers/MetasController.cs:74-88 | A URL id differing from the body is BadRequest; a missing goal is NotFound; neither changes anything. Otherwise only Titulo, ValorMeta and DataLimite change, so ValorAtual, Categoria and Descricao are kept and no other goal is touched. |
| Goals.ExcluirRemovesOne | TheBrokeAPI/Controllers/MetasController.cs:91-99 | Delete removes exactly that goal. A missing id is NotFound and changes nothing. |
| Goals.ProgressCapped | TheBrokeAPI/Controllers/MetasController.cs:108-110 | Progress becomes min(old + Valor, ValorMeta): never above the target. Only ValorAtual changes. |
| Goals.ProgressAtTargetIsFixed | TheBrokeAPI/Controllers/MetasController.cs:108-110 | Once progress equals the target, adding a non-negative amount leaves the goal unchanged. |
| Goals.ProgressAdditive | TheBrokeAPI/Controllers/MetasController.cs:108-110 | From progress at or below the target, two non-negative additions equal one addition of their sum. |
| Goals.NegativeProgressUnbounded | TheBrokeAPI/Controllers/MetasController.cs:108-110 | A negative amount is subtracted in full, so progress can fall below zero. |
| Goals.MissingIdChangesNothing | TheBrokeAPI/Controllers/MetasController.cs:78-106 | A missing id gives NotFound from update, delete and progress, and no goal is modified or removed. |
| Goals.MetasController.GetMetasPorUsuario | TheBrokeAPI/Controllers/MetasController.cs:29-49 | Returns MetasPorUsuario of the goals and changes nothing. |
| Goals.MetasController.CriarMeta | TheBrokeAPI/Controllers/MetasController.cs:52-71 | Stores the goal under a fresh id with ValorAtual forced to 0, and reports it with Percentual 0. |
| Goals.MetasController.AtualizarMeta | TheBrokeAPI/Controllers/MetasController.cs:74-88 | The status and the new goals are Atualizar of the old goals. |
| Goals.MetasController.ExcluirMeta | TheBrokeAPI/Controllers/MetasController.cs:91-99 | The status and the new goals are Excluir of the old goals. |
| Goals.MetasController.AdicionarProgresso | TheBrokeAPI/Controllers/MetasController.cs:101-114 | The status and the new goals are Adicionar of the old goals. |
| Text.Utf16Length | TheBrokeAPI/Controllers/SymbolsController.cs:27 | `Length` counts between one and two UTF-16 code units per character. |
| Text.Utf16LengthBmp | TheBrokeAPI/Controllers/SymbolsController.cs:27 | On text within the Basic Multilingual Plane, `Length` is the character count. |
| Text.TrimStart | TheBrokeAPI/Controllers/SymbolsController.cs:27-30 | The result is a suffix of the input, with only white space removed and no white space left at its start. |
| Text.TrimEnd | TheBrokeAPI/Controllers/SymbolsController.cs:27-30 | The result is a prefix of the input, with only white space removed and no white space left at its end. |
| Text.TrimBounds | TheBrokeAPI/Controllers/SymbolsController.cs:27-30 | Trim keeps one contiguous slice of its input, with only white space on either side of it. |
| Text.TrimShape | TheBrokeAPI/Controllers/SymbolsController.cs:27-30 | The trimmed string is a slice of the input, with white space only outside it and none at its ends. |
| Text.TrimPadded | TheBrokeAPI/Controllers/SymbolsController.cs:30 | Adding white space around a string does not change its trim. |
| Text.TrimUpper | TheBrokeAPI/Controllers/SymbolsController.cs:30 | Trimming commutes with upper-casing. |
| Text.UpperOfLower | TheBrokeAPI/Services/InvestimentosService.cs:54 | Upper-casing a lower-cased string gives the upper-cased original. |
| Text.ToUpperInvariant | TheBrokeAPI/Controllers/SymbolsController.cs:30 | The result has the same length, and each character is mapped on its own. |
| Text.ToLowerInvariant | TheBrokeAPI/Services/InvestimentosService.cs:54 | The result has the same length, and each character is mapped on its own. |
| Text.UnsignedDigits | TheBrokeAPI/Infrastructure/Quotes/AlphaVantageQuoteProvider.cs:80 | A non-empty run of digits parses, with no sign or point, to its decimal value. |
| Text.ParseDigits | TheBrokeAPI/Infrastructure/Quotes/AlphaVantageQuoteProvider.cs:80 | Parsing the decimal digits of a natural number gives that number back. |
| Text.ParseSigned | TheBrokeAPI/Infrastructure/Quotes/AlphaVantageQuoteProvider.cs:80 | A leading minus negates the value, and "", "-" and "." do not parse. |
| Numerics.RoundToEven | TheBrokeAPI/Services/InvestimentosService.cs:99-105 | The result is within 0.5 of x, and an exact tie goes to the even integer. |
| Numerics.RoundError | TheBrokeAPI/Services/InvestimentosService.cs:99-105 | Rounding to d places is off by at most half a unit in the d-th place. |
| Numerics.RoundExact | TheBrokeAPI/Services/InvestimentosService.cs:99-105 | A value that already has at most d places is unchanged by rounding to d places. |
| Numerics.RoundIdempotent | TheBrokeAPI/Services/InvestimentosService.cs:99-105 | Rounding twice to the same number of places is rounding once. |

## Findings

| source | as written | input that shows it | evidently intended | confidence | as-written member | corrected member |
|---|---|---|---|---|---|---|
| TheBrokeAPI/Infrastructure/Quotes/QuoteIngestionWorker.cs:125-127 | Every ticker of a batch is looked up with asset id 0, and the provider caches by asset id. | A batch calls "PETR4" then "VALE3" with no fresh asset-0 row and quota for both, and the vendor answers 38.50 for PETR4 and 61.20 for VALE3. VALE3 reads PETR4's fresh asset-0 row and is recorded at 38.50. | Each ticker is looked up under a key of its own and records its own vendor price; the comment on line 125 says the provider only needs the ticker. | not executed; proved about the model | QuoteIngestion.FirstPriceLeaksToBatch | QuoteIngestion.BatchRecordsOwnPrices |

`QuoteIngestion.Batch` and the worker class keep the code as written. The corrected batch is `QuoteIngestion.BatchOwn`, which takes a per-ticker key `idOf`.

## Left out

- HTTP, URL building and JSON parsing are left out: the decoded vendor response is an input. The API key and the timezone name are not modelled.
- EF Core, SQL and the cross-process atomicity of the conditional UPDATE are left out: each consume is one atomic step on an in-memory table.
- Hosting is left out. This covers `BackgroundService`, `PeriodicTimer`, cancellation tokens, service scopes, logging, and the exceptions that `ExecuteAsync` catches around a whole tick.
- Time zones and `TimeSpan.ParseExact` of the Open/Close strings are left out: a tick receives its local and UTC instants, and the options hold open and close as times of day.
- Each operation reads the clock once. The batch's provider calls and the valuation's lookups share one `now`, where the code reads `DateTime.UtcNow` afresh on each call.
- QuoteIngestion.Near: compares ticks exactly, while the code compares `TotalMinutes` as a double, which can round at the boundary.
- QuoteIngestion.Plan: the HOURLY interval likewise compares ticks, not double minutes.
- `decimal` precision (28 digits) and range are not modelled: reals are exact. Overflow in the fold, and rounding in the divisions, are therefore left out.
- Text.ParseDecimal: accepts white space, a leading sign, digits and one decimal point. It rejects everything else that `decimal.TryParse` with `NumberStyles.Any` also accepts: thousands separators, exponents, currency symbols, parentheses and trailing signs.
- Text.ToUpperInvariant: maps ASCII letters only; the invariant culture also maps other letters.
- Text.ToLowerInvariant: maps ASCII letters only, for the same reason.
- The 12-hour expiry of the memory cache entries is not modelled, so a cached symbol list never expires.
- Ties in `OrderByDescending(AsOf)` have no defined order in SQL. QuoteCache.Newest takes the earliest inserted of the tied rows.
- The order of `GroupBy` groups is not defined in SQL. TrackedTickers.GetTracked lists tickers in order of first appearance.
- The order of rows returned without ORDER BY is taken to be the sequence order: store order for assets and transactions.
- The quote provider's `ticker` parameter only builds the URL. The vendor's answer is passed in directly, and the batch passes a function from ticker to response.
- Goal ids come from the table's identity column, modelled as a counter; an id supplied in the body of `CriarMeta` is ignored.
- `DataLimite` is an instant in ticks. The `Usuario` navigation property and the DTO serialisation are not modelled.
- Goals.Percentual: a `(int)` conversion that overflows is `None` (the request throws). Decimal division is exact here, not rounded to 28 digits.
- There is no quota refund operation, no "unlimited when the limit is 0" mode, no date sort of the ledger and no explicit transaction-kind type: the code has none of these, so neither does the model.
- The frontend, the authentication and CRUD controllers, and the debug/test controllers are outside this model.
