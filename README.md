# A verified model of the finance backtester

This project models the deterministic core of a small Python stock backtester. It covers five sources:

- **Price series** (market.py). A `Stock` answers price, average, minimum, maximum and trend queries over Python list slices.
- **Backtesting market** (alg_benchmark.py).
  - A `BenchmarkStock` carries an `end_index` cursor that every query resolves offsets against.
  - A `MarketBenchmark` loads scenarios, with a cache keyed on the scenario name, and moves all cursors in lock step.
  - `cycle` runs a tick callback until the first stock's history is used up.
  - `stats_of_benchmark` chains loading, building a strategy and cycling.
- **Strategy engine** (alg.py, plus `ReproduceMoves`). One accounting engine is driven by a decision rule: `Simple`, `AllInAllOut` or `ReproduceMoves`. It holds:
  - a share map,
  - a cash balance,
  - a transaction counter,
  - three parallel history lists.
- **Grid search** (alg_best_fitter.py), evaluated sequentially:
  - Cartesian enumeration of `linspace` samples;
  - cutting the candidate list into chunks by integer division;
  - a per-worker local best with a strict `>`;
  - the final reduction.
- **Price-file cleaner** (data_cleaner.py). It drops the header, keeps the second comma-separated field without `$`, and reverses the lines.

The modules follow the sources:

| Module | File | Contents |
|---|---|---|
| `Py` | py.dfy | Python semantics the code relies on: exceptions as `Result`, negative indexing, clamped slicing, `int()` truncation, `sum`/`min`/`max`, dict-key order |
| `MarketModel` | market.py | `Stock` as a datatype; `Market` as a class |
| `BenchmarkModel` | benchmark.dfy | `BenchmarkStock` and `MarketBenchmark` as classes; `Series`, an immutable snapshot of one stock and its cursor, carries the windowed queries |
| `Strategy` | strategy.dfy | `AlgorithmStrategy` as a class whose decision rule is a `Rule` datatype |
| `Harness` | harness.dfy | the `cycle` / `stats_of_benchmark` driver |
| `BestFitter` | fitter.dfy | the grid search |
| `DataCleaner` | cleaner.dfy | the cleaner |

Each imperative method is proved equal to a specification function of its inputs or its old state:

- `Tick` against `TickSpec`;
- `TradeAll` against `Sweep`;
- `RecursiveParams` against `Cartesian`;
- `LocalBest` against `LocalBestSpec`;
- `Reduce` against `ReduceSpec`;
- `Chunks` against `ChunkSpec`;
- `BestFittingParams` against `SearchSpec`;
- `CleanFile` against `CleanSpec`.

The source's promises are then proved about those functions as lemmas.

Prices are mathematical reals. Python's `round(x, 2)` is the uninterpreted function `round`, passed in as a parameter or held as a field. The score of a candidate parameter vector in the search is likewise a function parameter. Exceptions are `Err` values. Where the code raises part-way through a tick, the model keeps exactly the state Python leaves behind at that point.

In these places the code does something a reader might not expect, and the model follows the code:

- Only the first stock's history decides `time_left`.
- A holding can go negative after an oversized sell.
- An offset 0 is resolved relative to the cursor and reads one observation past it.
- An offset before the start of the history wraps around to its end instead of failing.
- Worker results are reduced in chunk order. In the source this is process-completion order.

## Model

| member | source | states |
|---|---|---|
| `Py.Get` | market.py:17 | `s[i]` fails with IndexError exactly outside -len..len-1; a negative index counts from the end |
| `Py.Slice` | market.py:20 | `s[a:b]` never raises: both bounds are clamped, negative ones count from the end, and the slice is empty when they cross |
| `Py.Trunc` | alg.py:126 | `int()` of a float truncates toward zero |
| `Py.MinIsLeast` | market.py:23 | `min` of a non-empty list is one of its elements and no larger than any |
| `Py.MaxIsGreatest` | market.py:26 | `max` of a non-empty list is one of its elements and no smaller than any |
| `Py.SumBetween` | market.py:20 | a sum of n prices lies between n·min and n·max |
| `Py.FirstIndex` | market.py:59-62 | the first position holding the value, and None exactly when it is absent |
| `Py.Distinct` | alg.py:13 | the keys of a dict built from a list: each element once, nothing else |
| `Py.DistinctOrder` | alg.py:13 | the dict's keys come in insertion order: ordered by the position of each element's first occurrence |
| `Py.CancelFactor` | market.py:19-26 | a positive factor cancels from both sides of an inequality, as when a mean is bracketed by dividing n·min ≤ sum ≤ n·max by n |
| `MarketModel.Stock.Price` | market.py:16-17 | the last observation; IndexError on an empty history |
| `MarketModel.Stock.HistoricalAverage` | market.py:19-20 | fails with ZeroDivisionError exactly on an empty window; otherwise average × window length = window sum |
| `MarketModel.Stock.HistoricalMin` | market.py:22-23 | ValueError exactly on an empty window; otherwise an element of the window, at most every element |
| `MarketModel.Stock.HistoricalMax` | market.py:25-26 | ValueError exactly on an empty window; otherwise an element of the window, at least every element |
| `MarketModel.Stock.Trend` | market.py:28-31 | 0 on an empty history or when the two resolved indices coincide; IndexError exactly when otherwise an offset is out of range |
| `MarketModel.DefaultWindowExcludesLatest` | market.py:19-26 | the default window `past[0:-1]` is every observation but the latest |
| `MarketModel.WindowOrder` | market.py:19-26 | on a non-empty window all three queries succeed and min ≤ average ≤ max |
| `MarketModel.DefaultTrend` | market.py:28-31 | with at least two observations the default trend is `past[-1] - past[-2]` |
| `MarketModel.DefaultTrendOneObservation` | market.py:28-31 | with one observation the default trend raises IndexError |
| `MarketModel.Market.constructor` | market.py:46-47 | a new market holds no stock |
| `MarketModel.Market.AddStock` | market.py:49-50 | the stock is appended; the earlier stocks keep their order |
| `MarketModel.Market.HistoryLen` | market.py:55-56 | the first stock's history length; IndexError on an empty market |
| `MarketModel.Market.StockByName` | market.py:58-62 | the first stock carrying the name, or None exactly when none carries it |
| `BenchmarkModel.Resolve` | alg_benchmark.py:21-24 | positive offsets pass unchanged; the others become end_index + offset + 1 (-1 → cursor, 0 → cursor + 1) |
| `BenchmarkModel.InitialEndIndex` | alg_benchmark.py:13 | a positive end index is absolute; any other is counted back from the history length |
| `BenchmarkModel.Series.Price` | alg_benchmark.py:15-16 | the observation at the cursor, not the last recorded one; a negative cursor counts from the end of the history; IndexError outside it |
| `BenchmarkModel.Series.HistoricalAverage` | alg_benchmark.py:18-24 | IndexError when an offset exceeds the cursor; otherwise the plain average over the resolved offsets |
| `BenchmarkModel.Series.HistoricalMin` | alg_benchmark.py:26-33 | IndexError when an offset exceeds the cursor; otherwise the plain minimum over the resolved offsets |
| `BenchmarkModel.Series.HistoricalMax` | alg_benchmark.py:35-42 | IndexError when an offset exceeds the cursor; otherwise the plain maximum over the resolved offsets |
| `BenchmarkModel.Series.Trend` | alg_benchmark.py:44-51 | IndexError when an offset exceeds the cursor; otherwise the plain trend over the resolved offsets |
| `BenchmarkModel.WindowStopsAtCursor` | alg_benchmark.py:18-42 | an accepted window whose upper offset does not reach before the start of the history ends at or before the cursor |
| `BenchmarkModel.WindowNoLookahead` | alg_benchmark.py:18-42 | average, min and max agree on any two histories that agree up to the cursor, for such upper offsets |
| `BenchmarkModel.WindowWrapsPastCursor` | alg_benchmark.py:35-42 | an upper offset before the start of the history wraps around and reads past the cursor (concrete instance) |
| `BenchmarkModel.TrendNoLookahead` | alg_benchmark.py:44-51 | for offsets in -end_index..-1 or 1..end_index the trend agrees on histories that agree up to the cursor |
| `BenchmarkModel.TrendOffsetZeroLooksAhead` | alg_benchmark.py:44-51 | offset 0 reads the observation after the cursor: two histories equal up to the cursor give different trends |
| `BenchmarkModel.TrendWrapsPastCursor` | alg_benchmark.py:44-51 | the offset -3 that Simple asks for, with the cursor at index 1, wraps to the last recorded price |
| `BenchmarkModel.DefaultWindowEmpty` | alg_benchmark.py:18-42 | with the default offsets the window is empty, so average, min and max always fail |
| `BenchmarkModel.BenchmarkStock.constructor` | alg_benchmark.py:11-13 | name and history are kept; the cursor is resolved from the end index |
| `BenchmarkModel.BenchmarkStock.Next` | alg_benchmark.py:53-54 | the cursor moves forward by exactly one |
| `BenchmarkModel.Selected` | alg_benchmark.py:88-94 | the files kept are listed files named in the wanted list, or all the listed files for an empty list |
| `BenchmarkModel.SelectedKeepsWanted` | alg_benchmark.py:88-94 | every listed file that the wanted list names (every file, for an empty list) is kept |
| `BenchmarkModel.SelectedConcat` | alg_benchmark.py:90-94 | the selection is a filter that keeps listing order: selecting from two runs of files selects from each and concatenates |
| `BenchmarkModel.SelectedOne` | alg_benchmark.py:91 | one file is kept exactly when the wanted list is empty or names it |
| `BenchmarkModel.ScenarioName` | alg_benchmark.py:76-77 | an empty scenario name means "current" |
| `BenchmarkModel.MarketBenchmark.constructor` | alg_benchmark.py:69-73 | no stocks, no benchmarks run, no scenario loaded |
| `BenchmarkModel.MarketBenchmark.LoadScenario` | alg_benchmark.py:75-94 | a loaded scenario of the same name changes nothing; otherwise the selected files become fresh stocks, in order, with cursors from `start` |
| `BenchmarkModel.MarketBenchmark.StartFrom` | alg_benchmark.py:96-101 | raises "scenario not loaded" without touching a cursor when none is loaded; otherwise every cursor is set to `start` |
| `BenchmarkModel.MarketBenchmark.Next` | alg_benchmark.py:103-105 | every cursor moves by one, so equal cursors stay equal |
| `BenchmarkModel.MarketBenchmark.HistoryLen` | alg_benchmark.py:107-108 | the first stock's cursor plus one; IndexError on an empty market |
| `BenchmarkModel.MarketBenchmark.TimeLeft` | alg_benchmark.py:110-111 | the first stock's history length minus (its cursor + 1); the other stocks are not read |
| `Strategy.SimpleParams` | alg.py:120-126 | exactly five parameters are used as given, the lot through `int()`; any other count gives the defaults (0.02, 0.01, -0.01, 0.05, 1) |
| `Strategy.AllInAllOutParams` | alg.py:153-159 | exactly four parameters are used as given, lot and look-back through `int()`; any other count gives (1, 0.03, 0.1, -10) |
| `Strategy.InErrorRange` | alg.py:128-129 | the band is symmetric around zero: the test holds exactly when abs(check) ≤ confront·(1 + percent) |
| `Strategy.AvgStockPrice` | alg.py:131-132 | 0 with no recorded buy price; otherwise between the least and the greatest recorded price |
| `Strategy.DecideSimple` | alg.py:134-146 | Simple.buy_sell: a failing price read is passed on, a stock without a buy record raises KeyError, and an order never buys and sells at once (its sell and buy cases are stated by `SimpleSellsAll` and `SimpleRecordsBuys`) |
| `Strategy.DecideAllInAllOut` | alg.py:161-166 | AllInAllOut.buy_sell: KeyError for a stock not in the portfolio, no order on a negative holding, and never a buy and a sell at once (the three possible orders are stated by `AllInAllOutOrders`) |
| `Strategy.DecideReproduce` | alg_benchmark.py:62-65 | the recorded move at this tick, (0, 0) when the tick has none, KeyError for a stock without a record |
| `Strategy.SimpleSellsAll` | alg.py:134-146 | Simple sells exactly when shares are held and the price reached the average buy price plus the margin; then it sells the whole holding and clears the record; never a buy and a sell together |
| `Strategy.SimpleRecordsBuys` | alg.py:141-146 | without a sell the order is (0, 0) or the buy lot, and the price is recorded exactly on a buy |
| `Strategy.AllInAllOutOrders` | alg.py:161-166 | the order is (0, 0), a buy lot or a sell lot; a buy only when flat, a sell only when holding |
| `Strategy.IdleOrderChangesNothing` | alg.py:29-30 | an order whose lots add up to zero or less changes nothing |
| `Strategy.TradeFrame` | alg.py:30-31 | every trade, finished or not, adds its lots to the transaction count once and touches no other stock's holding and no recorded buy price |
| `Strategy.TradeEffect` | alg.py:33-46 | a finished trade adds the bought lot, removes the sold lot, and leaves cash = round(cash - price·buy + price·sell) |
| `Strategy.TradeKeepsKeys` | alg.py:33-46 | a trade changes no portfolio key |
| `Strategy.GuardCondition` | alg.py:38-39 | the "not enough stocks" guard fires exactly when the holding was negative (buying order) or below the buy lot (selling-only order) |
| `Strategy.GuardNeverFires` | alg.py:38-39 | with a non-negative holding the guard never fires |
| `Strategy.OversizedSell` | alg.py:38-43 | selling more than is held succeeds and leaves a negative holding |
| `Strategy.SweepStops` | alg.py:28-49 | once a stock raises, the rest of the loop changes nothing |
| `Strategy.SweepKeepsKeys` | alg.py:28-49 | a tick's loop keeps the portfolio's keys |
| `Strategy.SweepCountsUp` | alg.py:28-31 | the transaction counter never decreases over a tick |
| `Strategy.AllInAllOutVisitKeeps` | alg.py:161-166 | one AllInAllOut turn keeps every holding at 0 or the lot size |
| `Strategy.AllInAllOutSweepKeeps` | alg.py:161-166 | under AllInAllOut, holdings that start at 0 or the lot size stay so through a whole tick |
| `Strategy.PriceOf` | alg.py:76 | `stock_by_name(name).price()` raises AttributeError for a name no stock carries |
| `Strategy.HoldingsValue` | alg.py:76 | the market value of the holdings succeeds exactly when every held name can be priced |
| `Strategy.NoShares` | alg.py:13 | the initial portfolio has exactly the market's names as keys |
| `Strategy.NoPurchases` | alg.py:118 | Simple's initial buy-price record has exactly the market's names as keys |
| `Strategy.TotalCapital` | alg.py:75-76 | round(cash + market value); fails exactly when a held name cannot be priced |
| `Strategy.TickHistories` | alg.py:50-53 | the three histories each grow by one entry, together, and only on a tick that completed with a trade; old entries stay; equal lengths stay equal unless the total capital failed; the portfolio keeps its keys |
| `Strategy.AlgorithmStrategy.constructor` | alg.py:10-20 | 0 shares of every market stock, cash = start capital, counters 0, histories [0], [start], [start]; Simple also gets an empty record per stock |
| `Strategy.AlgorithmStrategy.Stats` | alg.py:78-87 | succeeds exactly when tot_capital does; name, transaction count, revenue, final portfolio and tot capital are the engine's; the min and max capital come from the cash history and bracket every entry and the starting capital |
| `Strategy.AlgorithmStrategy.Buy` | alg.py:30-37 | the buying half of one stock's step, in place, equal to `BuyStep` |
| `Strategy.AlgorithmStrategy.Sell` | alg.py:38-46 | the guard, the selling half and the rounding, in place, equal to `SellStep` |
| `Strategy.AlgorithmStrategy.Apply` | alg.py:30-46 | one stock's order applied in place, equal to `Trade` |
| `Strategy.AlgorithmStrategy.BuySell` | alg.py:29-46 | one turn of the tick loop (decide, record, apply) in place, equal to `Visit` |
| `Strategy.AlgorithmStrategy.TradeAll` | alg.py:28-49 | the loop over the stocks in market order, stopping at the first exception, equal to `Sweep` |
| `Strategy.AlgorithmStrategy.Record` | alg.py:50-53 | the three history appends, the last failing when the total capital cannot be priced, equal to `Recorded` |
| `Strategy.AlgorithmStrategy.Tick` | alg.py:25-53 | tick_count grows by one and the new state is `TickSpec` of the old state and the market; the engine stays consistent |
| `Strategy.NewSimple` | alg.py:115-126 | a Simple engine on the market with the parameters or their defaults, in the starting state: 0 shares of every market stock in market order, an empty buy record per stock, cash = start capital, counters 0, histories [0], [start], [start] |
| `Strategy.NewAllInAllOut` | alg.py:149-159 | an AllInAllOut engine on the market with the parameters or their defaults, in the same starting state (no buy records) |
| `Strategy.NewReproduce` | alg_benchmark.py:57-60 | a ReproduceMoves engine with the given moves, in the same starting state (no buy records) |
| `Strategy.AlgorithmStrategy.SetTickCount` | alg_benchmark.py:161 | `a.tick_count = start` sets the counter and leaves the book, the histories and a starting state as they were |
| `Harness.TicksFor` | alg_benchmark.py:114 | the number of loop turns for a time_left: itself when positive, else 0 |
| `Harness.Cycle` | alg_benchmark.py:113-116 | on a non-empty market: exactly the initial time_left ticks (0 if not positive), each cursor moved by that much, ends with time_left ≤ 0, lock step kept; IndexError on an empty market; a cycle of 0 ticks leaves the strategy untouched |
| `Harness.Step` | alg_benchmark.py:114-116 | a tick then every cursor moves by one, time_left drops by one; the cursors stay put when the tick raises |
| `Harness.TickFun` | alg_benchmark.py:115 | the callback keeps the engine consistent and counts one tick |
| `Harness.Build` | alg_benchmark.py:160-161 | a fresh strategy of the requested class with start capital 0, in the starting state (0 shares, counters 0, histories [0], [0], [0]), and tick counter `start` |
| `Harness.Prepare` | alg_benchmark.py:159-161 | load (a no-op, cursors included, when the scenario is loaded), then build a strategy in its starting state |
| `Harness.Finish` | alg_benchmark.py:164-169 | cycle, then the stats; the number of ticks is that of the time left, and a run of 0 ticks leaves the strategy untouched |
| `Harness.StatsOfBenchmark` | alg_benchmark.py:146-169 | the driver with its cache as it stands (the log and history calls taken as no-ops): a fresh load runs the selected history from `start`; with the scenario already loaded the stocks are unchanged and a used-up history runs 0 ticks; a run of 0 ticks reports a strategy still in its starting state |
| `Harness.RepeatedRunIsIdle` | alg_benchmark.py:75-79 | two runs on one market and one new scenario: when the first completes it ran ticks and the second runs none, and its statistics show no transaction, no cash, a flat capital history at 0 and no share held |
| `Harness.RunAtEnd` | alg_benchmark.py:78-79 | a run on a loaded scenario whose cursors are at the end runs no tick and reports untraded statistics |
| `Harness.Rewind` | alg_benchmark.py:11-13 | every cursor is put where a fresh load with `start` puts it |
| `Harness.Replay` | alg_benchmark.py:164-169 | with rewound cursors a run covers the history from `start` |
| `Harness.StatsOfBenchmarkRewound` | alg_benchmark.py:146-169 | the corrected driver: every completed run ticks over the history from `start`, cached or not |
| `Harness.RunLoaded` | alg_benchmark.py:159-164 | a corrected run on a loaded scenario keeps the stocks and ticks from `start` |
| `Harness.RepeatedRunRewound` | alg_benchmark.py:146-169 | with the correction, the second run replays as many ticks as the first |
| `BestFitter.Linspace` | alg_best_fitter.py:17 | n samples, the first `lo` and the last `hi` |
| `BestFitter.ExpandLength` | alg_best_fitter.py:17-20 | a level appends one vector per pair of a sample and a deeper vector |
| `BestFitter.RecursiveParams` | alg_best_fitter.py:12-20 | a complete vector is returned and not appended; otherwise the call appends the deeper enumeration, or raises IndexError for a missing iteration count |
| `BestFitter.AllParams` | alg_best_fitter.py:80-81 | the candidate list is `Candidates(bounds, iterations)` |
| `BestFitter.CartesianIsProduct` | alg_best_fitter.py:12-20 | with a count for every dimension, the enumeration is the Cartesian product of the samples |
| `BestFitter.ProductCount` | alg_best_fitter.py:12-20 | the product holds Π (samples of dimension d) vectors |
| `BestFitter.ProductShape` | alg_best_fitter.py:14-18 | each vector has one component per dimension, component d a sample of dimension d |
| `BestFitter.ProductOrder` | alg_best_fitter.py:17-18 | lexicographic order, dimension 0 outermost |
| `BestFitter.CandidatesComplete` | alg_best_fitter.py:12-20 | no candidate for no dimension; otherwise Π iterations[d] vectors of length len(bounds), each component a linspace sample |
| `BestFitter.CartesianShort` | alg_best_fitter.py:17 | a missing iteration count raises IndexError exactly when the recursion gets that deep, else enumerates nothing |
| `BestFitter.TruncQuotient` | alg_best_fitter.py:91 | `int(combinations / threading_scale)` is the integer quotient for a positive scale |
| `BestFitter.Chunks` | alg_best_fitter.py:90-108 | ZeroDivisionError exactly for a zero scale; otherwise the chunks are `ChunkSpec` with the guard combinations - 1 |
| `BestFitter.SliceAt` | alg_best_fitter.py:92-95 | chunk i is `all[i·step:(i+1)·step]` |
| `BestFitter.ChunksNonEmpty` | alg_best_fitter.py:91-108 | with at least as many candidates as workers no chunk is empty |
| `BestFitter.ChunksCover` | alg_best_fitter.py:103-108 | flattened, the chunks are the candidate list in order, except that the last candidate is dropped when exactly one is left over |
| `BestFitter.ChunksCoverFixed` | alg_best_fitter.py:103-108 | with the guard end < combinations the chunks always cover the whole list, in order |
| `BestFitter.NineOverFourDropsLast` | alg_best_fitter.py:91-108 | nine candidates over four workers: four chunks of two, the ninth in none |
| `BestFitter.Best` | alg_best_fitter.py:56-62 | the pair the strict-`>` scan ends on is one of the scored pairs (which one is stated by `BestIsFirstMax`) |
| `BestFitter.BestIsFirstMax` | alg_best_fitter.py:56-62 | the strict-`>` scan picks a maximum score and the earliest pair carrying it |
| `BestFitter.BestConcat` | alg_best_fitter.py:118-124 | the best of two lists together is the better of their bests, the left winning a tie |
| `BestFitter.EvaluateStops` | alg_best_fitter.py:39-47 | a failing evaluation ends the worker's loop |
| `BestFitter.EvaluateOk` | alg_best_fitter.py:39-54 | scoring a chunk succeeds exactly when every score does, pairing each candidate with its score in order |
| `BestFitter.ScoredConcat` | alg_best_fitter.py:39-54 | scoring splits over a concatenation |
| `BestFitter.LocalBest` | alg_best_fitter.py:36-64 | the worker loop equals `LocalBestSpec`: ([], None) for an empty chunk, the first error, KeyError under result type 1, otherwise the first best |
| `BestFitter.LocalBestOk` | alg_best_fitter.py:36-64 | a fully scored non-empty chunk (result type other than 1) reports its first best |
| `BestFitter.Reduce` | alg_best_fitter.py:118-124 | equals `ReduceSpec`: IndexError on no result, TypeError on a None score, otherwise the first best |
| `BestFitter.Survivors` | alg_best_fitter.py:111-115 | a worker that raises reports nothing, so there are at most as many results as chunks |
| `BestFitter.SurvivorsBest` | alg_best_fitter.py:118-124 | when every chunk is non-empty and fully scored, the reduction of the local bests is the first best over all chunks |
| `BestFitter.EmptyChunkSurvives` | alg_best_fitter.py:36-64 | an empty chunk leaves a None score among the results |
| `BestFitter.BestFittingParams` | alg_best_fitter.py:80-124 | enumerate, cut, run every worker in chunk order and reduce, equal to `SearchSpec` |
| `BestFitter.ChunkedBest` | alg_best_fitter.py:90-124 | cutting and reducing a fully scored list returns the first best of the candidates the chunks cover |
| `BestFitter.ChunkedBestFixed` | alg_best_fitter.py:90-124 | with the guard end < combinations, cutting and reducing a fully scored list returns the first best of all candidates |
| `BestFitter.SearchFindsBest` | alg_best_fitter.py:80-124 | with all scores available and enough candidates the search returns the first best candidate, the last one being skipped when exactly one is left over |
| `BestFitter.SmallGridFails` | alg_best_fitter.py:91-124 | with fewer candidates than workers the search ends in TypeError |
| `DataCleaner.RStrip` | data_cleaner.py:13 | the longest prefix not ending in whitespace; only whitespace is removed |
| `DataCleaner.Split` | data_cleaner.py:13 | at least one field, none containing the separator |
| `DataCleaner.JoinSplit` | data_cleaner.py:13 | joining the fields gives the line back |
| `DataCleaner.SplitCount` | data_cleaner.py:13 | one field more than there are separators |
| `DataCleaner.CountIn` | data_cleaner.py:13 | a character occurs exactly when its count is positive |
| `DataCleaner.Remove` | data_cleaner.py:13 | `replace('$', '')`: no `$` left, the length shrinks by the count of `$` |
| `DataCleaner.RemoveConcat` | data_cleaner.py:13 | removal works piece by piece: removing from a concatenation concatenates the removals, so the other characters keep their order |
| `DataCleaner.RemoveOne` | data_cleaner.py:13 | a single character is dropped exactly when it is the removed one and kept as it is otherwise |
| `DataCleaner.RemoveAbsent` | data_cleaner.py:13 | removing an absent character changes nothing |
| `DataCleaner.RemoveIdempotent` | data_cleaner.py:13 | removing twice is removing once |
| `DataCleaner.CleanLine` | data_cleaner.py:13 | a line either cleans or raises IndexError |
| `DataCleaner.LineContent` | data_cleaner.py:13 | a line fails exactly when its stripped text has no comma; otherwise the output is its second field without `$` plus one newline |
| `DataCleaner.MapAll` | data_cleaner.py:13 | a successful comprehension has one output per input |
| `DataCleaner.MapAllLines` | data_cleaner.py:13 | the comprehension succeeds exactly when every element does, keeps them in order, and otherwise raises what some element raised |
| `DataCleaner.CleanAll` | data_cleaner.py:13 | one output per data line; the only error is IndexError |
| `DataCleaner.CleanAllLines` | data_cleaner.py:13 | the cleaned lines are the per-line results in order, and succeed exactly when every line does |
| `DataCleaner.Reversed` | data_cleaner.py:14 | entry i is entry n-1-i of the input |
| `DataCleaner.ReversedTwice` | data_cleaner.py:14 | reversing twice gives the list back |
| `DataCleaner.Reverse` | data_cleaner.py:14 | the in-place reversal leaves the array equal to the reversed old contents |
| `DataCleaner.OutputName` | data_cleaner.py:15 | the file name without its last four characters |
| `DataCleaner.CleanFile` | data_cleaner.py:12-16 | one file's output name and lines, equal to `CleanSpec` |
| `DataCleaner.MapReversed` | data_cleaner.py:13-14 | reversed, output i comes from input line n-1-i, the header excluded |
| `DataCleaner.CleanShape` | data_cleaner.py:13-14 | a file whose data lines clean yields one line fewer than it has (none when empty), newest first |
| `DataCleaner.CleanFails` | data_cleaner.py:13 | a data line without a comma makes the file fail with IndexError |
| `DataCleaner.HeaderIgnored` | data_cleaner.py:13 | the first line is never read |

## Left out

- File and console I/O.
  - The directory listing and file reads of `load_scenario` become a `listing` parameter of (file name, parsed prices) pairs. Parsing floats from text is not modelled.
  - In data_cleaner.py the caller provides one file's lines; the writes and prints are not modelled.
  - Logging (`open_log`, `close_log`, `log`, `clean_log`) and `print_stats` are not modelled.
- Plotting (`gen_fig`, `Stock.json`, `__str__`) is not modelled.
- multiprocessing is not modelled. The workers run one after the other, in chunk order. A worker that raises reports nothing, as a crashed process appends nothing. The source's result list is in completion order, so its tie-break among workers is not fixed; the model's is the chunk order.
- The `exit()` after the search is not modelled, nor the rounding return it makes unreachable. `BestFittingParams` returns the unrounded best.
- The random simulation (`SimStock`, `SimMarket`) is not modelled.
- Floating point.
  - Prices are reals.
  - `round(x, 2)` is uninterpreted.
  - numpy's `linspace` is computed exactly.
  - Iteration counts are naturals.
- Members that alg_benchmark.py calls on alg.py's classes but alg.py does not define (`update_history`, `clear_log`, `disable_log`, `alg.OneInAllOut`) are not modelled. `start_benchmark`, `reproduce_moves` and `daily_norm_reproduce`, which are built on them, are not part of this model. Neither is `stats_output_daily_reproduce`, which calls an instance method without an instance.
- The search's score is an abstract function of the parameter vector. In the source it is the 'tot capital' of a `stats_of_benchmark` run on the worker's own market, and so depends on the cache described under Findings. Result type 1 reads a 'liquid' entry that `stats` never produces. That entry is modelled as the KeyError it raises after the first evaluation.
- A `None` scenario is modelled as the empty name; both mean "current".
- `DataCleaner.IsSpace` covers the characters of `str.isspace`; no Unicode database is modelled beyond them.
- `stats_of_benchmark` takes a few more arguments (`print_stats`) and has side effects (`n_benchmarks`) that the model leaves out.
- BestFitter.Linspace: its contract states the count and the two end points; the even spacing is stated only in its body.
- Strategy.PriceOf: its contract states only the AttributeError case; the price read for a name that exists is stated through `FirstIndex` in its body.
- Strategy.HoldingsValue: its contract states when the value exists; the sum itself is stated only in its body and reaches the outside through `TotalCapital`.
- MarketModel.Market.StockByName: it returns the stock's value rather than a reference to it.
- Harness.StatsOfBenchmark: the calls `a.disable_log()` (alg_benchmark.py:162) and `a.update_history()` (alg_benchmark.py:166) are treated as doing nothing. alg.py defines neither, so in the source each raises AttributeError; the model follows the driver as if both were defined and had no effect on the book, the histories or the market. The same holds for `Harness.StatsOfBenchmarkRewound`.
- Harness.Build: it does not restate the order of the portfolio's names, which `NewSimple` and `NewAllInAllOut` state against the market the strategy is built on.

## Findings

| source | as written | input that shows it | evidently intended | confidence | as-written member | corrected member |
|---|---|---|---|---|---|---|
| alg_benchmark.py:78-79 | `load_scenario` returns at once when the scenario is already loaded, leaving every cursor where the last `cycle` left it | two `stats_of_benchmark` calls on one market with the same new scenario (as every worker of the grid search makes), with `disable_log` and `update_history` taken as no-ops since alg.py does not define them: the second runs 0 ticks and reports untraded statistics | each run replays the history from `start` | medium, not executed | `Harness.RepeatedRunIsIdle` | `Harness.RepeatedRunRewound` |
| alg_best_fitter.py:103 | the tail chunk is added only when `end_i < combinations - 1` | 9 candidates over 4 workers: chunks of 2 end at 8, and candidate 8 is never evaluated | `end_i < combinations`, so that every candidate is evaluated | high, not executed | `BestFitter.NineOverFourDropsLast` | `BestFitter.ChunkedBestFixed` |
