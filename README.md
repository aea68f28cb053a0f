# O2Arena trading core in Dafny

O2Arena is a paper-trading exchange. A Node back end holds one order book per market, wraps an
order-matching library with journalling and periodic snapshots, and mirrors external exchange
feeds (Binance, Coinbase) into its books. It places synthetic orders for increases in a price
level and cancels them for decreases. A React front end shows the depth and the spread, and it
holds the trade form and the sub-account dialogs.

This project models the parts of that system whose behaviour can be stated without the network,
the matching library's internals or React:

- **Engine wrapper** (`engine.dfy`, `registry.dfy`, `single_market.dfy`). The per-market
  registry of backend/server/orderBook.js and its single-market predecessor server/orderBook.js.
  - The matching library is an abstract `Library<B, L>`: total functions `limit`, `market`,
    `cancel` and `snapshot` over an abstract book type `B` and log type `L`.
  - Around it are the order-type dispatch, the append-only journal, the per-market operation
    counter, and the snapshot slot written every 100 counted operations.
- **Depth** (`levels.dfy`, `depth.dfy`). The projection of a book snapshot into at most `level`
  `[price, total size]` pairs per side: asks ascending, bids descending. It uses stable sorts,
  since `Array.prototype.sort` is stable, and JavaScript's `slice(0, end)`, including a negative
  `end`.
- **Feed mirroring** (`level_sync.dfy`). The `syncLevels` algorithm shared by the three workers.
  - It has a pure specification `Sync` and a class `FeedMirror`, which holds the worker's four
    maps and updates them in place.
  - The method's reduction loop is proved against the specification.
  - The library calls the algorithm awaits are returned as a list of `Call`s. Whether each call
    resolves or throws is the parameter `accept`.
- **Worker specifics** (`binance_worker.dfy`, `coinbase_worker.dfy`):
  - the Binance educational mock liquidity;
  - the Coinbase product-to-market mapping and fallback mock levels;
  - the Coinbase message handler and fallback checker, with their `lastUpdate`/`seededMock`
    state.
- **Front end** (`order_book_view.dfy`, `form_fields.dfy`, `trade_form.dfy`,
  `create_subaccount.dfy`, `subaccount_context.dfy`):
  - the order-book panel's `handleSnapshot`;
  - the trade form's checkboxes and percentage slider;
  - the sub-account dialog's name check, capital clamp and created record;
  - the sub-account context's selection retention and replace-by-id.

Prices and sizes are JavaScript numbers in the source. Here they are exact `real`s, so
floating-point rounding is not modelled; for example, `0.1 * i` is exact.

Some behaviours of the code are easy to misread; the model follows the code as written:

- `placeOrder` counts the operation toward the next snapshot even when the library returns no
  log (backend/server/orderBook.js:248-249, server/orderBook.js:117-118). Only the journal is
  skipped. `cancelOrder` touches neither the journal nor the counter without a log.
- In `syncLevels` the queue being reduced is the array stored in the worker's map, which is
  shifted in place. When a cancel throws part-way, the orders already shifted off stay off. The
  throwing order stays at the front, and the tracked quantity is not updated
  (`LevelSync.SyncFallThrowKeepsQuantity`).
- A fall cancels whole orders, so the synthetic volume left at a price can end up below the
  tracked quantity. `LevelSync.SyncKeepsCovered` states the bound that does hold: the volume
  never exceeds the quantity.
- In the Coinbase worker the feed's prices are strings and the mock prices are numbers, so they
  are different keys of the same `Map` (`CoinbaseWorker.FeedPrice`).
- A throw inside the Coinbase message handler is caught before `seededMock = false`, so that
  reset is skipped.

## Model

| member | source | states |
|---|---|---|
| `Levels.SortAsc` | backend/server/orderBook.js:393 | the ascending sort (an insertion sort) returns a copy of the same length; its order, permutation and stability are the three lemmas below |
| `Levels.SortAscAscending` | backend/server/orderBook.js:391-394 | sorting by `a[0] - b[0]` gives non-decreasing prices |
| `Levels.SortAscPermutes` | backend/server/orderBook.js:393 | the ascending sort is a permutation of its input |
| `Levels.SortAscStable` | backend/server/orderBook.js:393 | levels of equal price keep their input order (a stable sort) |
| `Levels.SortDesc` | backend/server/orderBook.js:397 | the descending sort returns a copy of the same length; its order, permutation and stability are the three lemmas below |
| `Levels.SortDescDescending` | backend/server/orderBook.js:395-398 | sorting by `b[0] - a[0]` gives non-increasing prices |
| `Levels.SortDescPermutes` | backend/server/orderBook.js:397 | the descending sort is a permutation of its input |
| `Levels.SortDescStable` | backend/server/orderBook.js:397 | levels of equal price keep their input order |
| `Levels.Reverse` | src/components/OrderBook.js:47 | the reversal has the same length, entry `i` being entry `n-1-i` of the input |
| `Levels.ReverseAscending` | src/components/OrderBook.js:47 | reversing an ascending list gives a descending permutation of it |
| `Levels.MinPrice` | src/components/OrderBook.js:50 | the lowest price of a non-empty list: attained, and at most every price |
| `Levels.MaxPrice` | src/components/OrderBook.js:51 | the highest price of a non-empty list: attained, and at least every price |
| `Levels.SortAscHeadIsMin` | src/components/OrderBook.js:27 | the head of the ascending sort has the lowest price |
| `Levels.SortDescHeadIsMax` | src/components/OrderBook.js:28 | the head of the descending sort has the highest price |
| `Depth.TotalSize` | backend/server/orderBook.js:392 | the left-fold `reduce` of the order sizes: 0 for no orders, never negative when no size is |
| `Depth.TotalSizeFirst` | server/orderBook.js:136 | the left fold equals the first size plus the total of the rest, so the order of summing does not matter |
| `Depth.Aggregate` | backend/server/orderBook.js:392 | one `[price, summed order sizes]` entry per snapshot level, in order |
| `Depth.SliceEnd` | backend/server/orderBook.js:394 | `slice(0, end)` keeps `min(end, n)` entries, or `n + end` (at least 0) for a negative `end` |
| `Depth.Take` | backend/server/orderBook.js:394 | `slice(0, end)` is the prefix of `SliceEnd` levels, entry for entry |
| `Depth.DepthOf` | server/orderBook.js:133-144 | the depth pipeline (map, sort, slice) keeps as many entries per side as `slice(0, level)` keeps of the snapshot's levels |
| `Depth.TakePermutes` | backend/server/orderBook.js:398 | a slice of a sorted permutation has the slice length and draws only on the input's entries |
| `Depth.DepthOrdered` | backend/server/orderBook.js:390-399 | depth asks are non-decreasing and bids non-increasing in price |
| `Depth.DepthEntriesAreLevelTotals` | server/orderBook.js:134-143 | each side has `slice` length (at most `level`), every entry is one level's price and summed size, and none is repeated beyond the input |
| `Depth.AscPrefixIsBest` | backend/server/orderBook.js:393-394 | every ask left out is priced at or above every ask shown |
| `Depth.DescPrefixIsBest` | backend/server/orderBook.js:397-398 | every bid left out is priced at or below every bid shown |
| `Depth.DepthShowsBestLevels` | backend/server/orderBook.js:383-400 | depth shows the best `level` levels of each side |
| `Engine.OrderType` | backend/server/orderBook.js:236 | the order type defaults to `limit` |
| `Engine.Dispatch` | backend/server/orderBook.js:238-246 | `market` and `limit` go to the library (its throw passed on); any other type fails with the unsupported-type error, and exactly then |
| `Engine.SnapshotCadence` | server/orderBook.js:92-98 | counting `k` operations from `c` writes `(c+k)/100 - c/100` snapshots, one per multiple of 100; both engines' `MaybeSnapshot` use it to keep their snapshot count at counter / 100 |
| `Registry.GetMarketFromId` | backend/server/orderBook.js:403-404 | a mapped id gives its symbol, any other `BTC-USDC`; the result is always a supported market |
| `Registry.MarketRegistry.constructor` | backend/server/orderBook.js:213-214 | the registry starts with no counters, journals or snapshots over books of supported markets, so no snapshot is owed |
| `Registry.MarketRegistry.PersistLog` | backend/server/orderBook.js:197-210 | a present log goes to the end of that market's journal; nothing else changes |
| `Registry.MarketRegistry.MaybeSnapshot` | backend/server/orderBook.js:216-226 | only that market's counter grows by one, and a snapshot of its book is written exactly when the new count is a multiple of 100; each market's count of written snapshots stays at its counter / 100 |
| `Registry.MarketRegistry.PlaceOrder` | backend/server/orderBook.js:230-255 | an unknown market or order type fails with no state change; otherwise the book is the library's result, the log is journalled and the operation counted; the snapshot cadence is kept |
| `Registry.MarketRegistry.CancelOrder` | backend/server/orderBook.js:369-381 | an unknown market fails with no change; a removal with a log is journalled and counted, any other leaves journal and counter alone; the snapshot cadence is kept |
| `Registry.MarketRegistry.Depth` | backend/server/orderBook.js:383-389 | an unregistered market gives empty sides; otherwise the snapshot's depth, ordered, at most `level` (default 20) per side |
| `SingleMarket.SingleMarketEngine.constructor` | server/orderBook.js:90-91 | the engine starts with an empty journal, a zero counter and no snapshot |
| `SingleMarket.SingleMarketEngine.PersistLog` | server/orderBook.js:79-88 | a present log goes to the end of the journal |
| `SingleMarket.SingleMarketEngine.MaybeSnapshot` | server/orderBook.js:91-99 | the global counter grows by one and the book is snapshotted exactly at multiples of 100, so the snapshots written stay at counter / 100 |
| `SingleMarket.SingleMarketEngine.PlaceOrder` | server/orderBook.js:106-124 | unknown types fail with no change; otherwise the new book, the journalled log and the counted operation; the snapshot cadence is kept |
| `SingleMarket.SingleMarketEngine.CancelOrder` | server/orderBook.js:125-132 | the book is the library's cancel result; journal and counter change only for a removal that carries a log; the snapshot cadence is kept |
| `SingleMarket.SingleMarketEngine.Depth` | server/orderBook.js:133-144 | the snapshot's depth with default 10 levels, ordered, never more than `level` per side |
| `LevelSync.CancelRunStops` | backend/server/binanceWorker.js:79-91 | the reduction loop stops at the first front prefix whose sizes cover the reduction, or when the queue runs out |
| `LevelSync.SyncSide` | server/binanceWorker.js:16-60 | `syncLevels` on one side: the calls are awaited in order, every call before the last resolved, and it ends by a throw exactly when the last call threw; its cases are the lemmas below |
| `LevelSync.Sync` | backend/server/binanceWorker.js:56 | a level update works on its own side's maps, leaves the other side untouched, and awaits its calls in order |
| `LevelSync.SyncSameQuantityIsNoOp` | server/binanceWorker.js:17-20 | an unchanged quantity (a missing price counting as 0) makes no call and changes nothing |
| `LevelSync.SyncRisePlacesOneOrder` | backend/server/binanceWorker.js:61-74 | a rise places one limit order for the difference; if it resolves, the order joins the back of the queue and the new quantity is tracked; if it throws, nothing changes |
| `LevelSync.SyncFallCancelsFromFront` | backend/server/coinbaseWorker.js:57-68 | a fall cancels whole orders strictly from the front until covered or exhausted; the rest is the suffix; an emptied queue is deleted |
| `LevelSync.SyncFallThrowKeepsQuantity` | backend/server/binanceWorker.js:78-84 | a cancel that throws ends the run with the orders before it gone from the stored queue, itself at the front, and no quantity changed |
| `LevelSync.SyncReachesNewQuantity` | server/binanceWorker.js:33-58 | after a normal return the tracked quantity is the update's; after a throw no quantity has changed |
| `LevelSync.SyncTouchesOnlyItsLevel` | backend/server/binanceWorker.js:72-97 | only the quantity and the queue at the update's price change |
| `LevelSync.SyncKeepsConsistent` | backend/server/binanceWorker.js:92-96 | every queued price stays tracked, no stored queue is empty, every queued size stays positive |
| `LevelSync.SyncKeepsCovered` | server/binanceWorker.js:36-58 | with a non-negative quantity, the synthetic volume at a price never exceeds the tracked quantity |
| `LevelSync.SyncKeepsInvariants` | backend/server/coinbaseWorker.js:37-70 | both invariants hold of the whole two-sided state after an update |
| `LevelSync.SyncAll` | backend/server/coinbaseWorker.js:88-103 | the handler's loops await one update after another and stop at the first throw: every call before the one that threw resolved |
| `LevelSync.SyncAllKeepsConsistent` | backend/server/coinbaseWorker.js:90-102 | a run of awaited updates keeps the state consistent |
| `LevelSync.CancelFromFront` | server/binanceWorker.js:38-52 | the while loop cancels and shifts front orders exactly as the reduction `CancelRun` prescribes, stopping at a throw |
| `LevelSync.FeedMirror.constructor` | backend/server/coinbaseWorker.js:19-21 | the worker starts with empty maps |
| `LevelSync.FeedMirror.Store` | backend/server/binanceWorker.js:93-97 | writing one side's maps leaves the other side as it was |
| `LevelSync.FeedMirror.SyncLevels` | backend/server/binanceWorker.js:55-99 | the in-place update produces exactly the state and calls of `Sync`, and keeps the state consistent |
| `LevelSync.FeedMirror.SyncAllLevels` | backend/server/coinbaseWorker.js:99-102 | awaiting the updates one by one and stopping at a throw produces exactly `SyncAll` |
| `BinanceWorker.MockLiquidityStraddlesBase` | backend/server/binanceWorker.js:26-38 | eight mock levels: the four buys below 100000, the four sells above, all sizes positive |
| `BinanceWorker.InjectMockLiquidity` | backend/server/binanceWorker.js:20-53 | nothing when the real feed is on; otherwise one limit order per level in order, every buy priced below every sell |
| `CoinbaseWorker.ProductId` | backend/server/coinbaseWorker.js:7 | an unset or empty variable gives `BTC-USD`, any other value itself |
| `CoinbaseWorker.MarketFor` | backend/server/coinbaseWorker.js:10-16 | a known product maps to its market, any other to `BTC-USDC`; always a supported market |
| `CoinbaseWorker.MockLevels` | backend/server/coinbaseWorker.js:24-32 | ten levels: for `i` = 1..5 a buy at `30000 - 100i` and a sell at `30000 + 100i` of size `0.1i`; every buy below every sell |
| `CoinbaseWorker.SideOf` | backend/server/coinbaseWorker.js:100 | `buy` exactly when the side string is `buy` |
| `CoinbaseWorker.MessageUpdates` | backend/server/coinbaseWorker.js:88-103 | a snapshot gives its bids then its asks, an update its changes, in order, keyed by the price strings |
| `CoinbaseWorker.MockUpdates` | backend/server/coinbaseWorker.js:122-124 | the mock levels in order, keyed by their numeric prices |
| `CoinbaseWorker.CoinbaseFeed.constructor` | backend/server/coinbaseWorker.js:34-35 | the worker starts with empty maps, `lastUpdate` 0 and nothing seeded |
| `CoinbaseWorker.CoinbaseFeed.OnMessage` | backend/server/coinbaseWorker.js:85-109 | a snapshot or update stamps `lastUpdate` and is synchronised in order; `seededMock` is reset unless a sync threw |
| `CoinbaseWorker.CoinbaseFeed.FallbackTick` | backend/server/coinbaseWorker.js:118-127 | seeding happens only after more than 4000 ms of silence and when not seeded; it syncs the ten mock levels and then marks them seeded, so it does not repeat |
| `OrderBookView.HandleSnapshot` | src/components/OrderBook.js:19-56 | a valid payload shows as many asks and bids as it carries, and keeps the spread when a side is empty; order, permutation and the spread value are the lemmas below |
| `OrderBookView.IgnoredPayloadKeepsDisplay` | src/components/OrderBook.js:20-25 | a payload during cleanup or without both sides leaves everything displayed as it was |
| `OrderBookView.DisplayedBidsDescend` | src/components/OrderBook.js:28 | displayed bids are a permutation of the input, non-increasing, equal prices in input order |
| `OrderBookView.AtPriceConcat` | src/components/OrderBook.js:47 | the levels at one price of a concatenation are those of each part, in order |
| `OrderBookView.AtPriceReverse` | src/components/OrderBook.js:47 | reversing a list reverses its levels at each price |
| `OrderBookView.DisplayedAsksBestLast` | src/components/OrderBook.js:27-47 | displayed asks are a permutation of the input, non-increasing, with the lowest ask last |
| `OrderBookView.SpreadFromBestPrices` | src/components/OrderBook.js:49-54 | with both sides present the spread is lowest ask minus highest bid, as a percentage of a positive bid (else 0); otherwise it is kept |
| `FormFields.Clamp` | src/components/TradeForm.js:29 | `max(lo, min(hi, x))`: within the range, `x` itself inside it, the nearer bound outside |
| `FormFields.ClampIdempotent` | src/components/CreateSubaccountModal.js:79 | clamping a clamped value changes nothing |
| `FormFields.EditField` | src/components/CreateSubaccountModal.js:76-80 | an emptied field stays empty, a number is clamped into the range |
| `FormFields.LeaveField` | src/components/CreateSubaccountModal.js:82-84 | leaving an empty field fills in the fallback; a number stays |
| `FormFields.EditThenLeaveInRange` | src/components/TradeForm.js:24-38 | after an edit and a blur the field holds a number in its range |
| `TradeForm.HandleCheckboxChange` | src/components/TradeForm.js:40-52 | the clicked option flips; ticking it unticks the other; unticking leaves the other; any other name changes nothing; never both ticked afterwards |
| `TradeForm.ClicksKeepExclusive` | src/components/TradeForm.js:43-48 | from a state with at most one option ticked, no sequence of clicks ticks both |
| `TradeForm.InitialClicksExclusive` | src/components/TradeForm.js:19-22 | from the initial checkboxes no sequence of clicks ticks both |
| `TradeForm.DoubleClickRestores` | src/components/TradeForm.js:44-48 | clicking the ticked option (or, when neither is ticked, any option) twice restores the state |
| `TradeForm.HandleSliderChange` | src/components/TradeForm.js:24-32 | empty input stays empty; a number is clamped into [0, 100] |
| `TradeForm.HandleSliderBlur` | src/components/TradeForm.js:34-38 | an empty slider becomes 0, a number stays |
| `TradeForm.SliderSettlesInRange` | src/components/TradeForm.js:16 | once left, the slider holds a percentage in [0, 100] |
| `CreateSubaccount.OnOpen` | src/components/CreateSubaccountModal.js:47-58 | opening takes a fresh id, empties the name, resets blockchain to `usd`, capital to 1000, clears the errors and flags, and starts the animation |
| `CreateSubaccount.HandleNameChange` | src/components/CreateSubaccountModal.js:60-64 | the name is taken as typed and flagged as taken exactly when it is an existing name |
| `CreateSubaccount.HandleCapitalChange` | src/components/CreateSubaccountModal.js:76-80 | an emptied capital stays empty, a number is clamped into [1, 25000]; nothing else changes |
| `CreateSubaccount.HandleCapitalBlur` | src/components/CreateSubaccountModal.js:82-84 | an empty capital becomes 1 |
| `CreateSubaccount.CapitalSettlesInRange` | src/components/CreateSubaccountModal.js:41 | after an edit and a blur the capital is a number in [1, 25000] |
| `CreateSubaccount.TrimStart` | src/components/CreateSubaccountModal.js:93 | the suffix left after the leading white space, beginning with a non-space |
| `CreateSubaccount.TrimEnd` | src/components/CreateSubaccountModal.js:93 | the prefix left before the trailing white space, ending with a non-space |
| `CreateSubaccount.LeadingSpace` | src/components/CreateSubaccountModal.js:93 | the number of white-space characters a name begins with |
| `CreateSubaccount.Trim` | src/components/CreateSubaccountModal.js:93 | `trim()` is the piece of the name between its leading and trailing white space, with no white space at either end |
| `CreateSubaccount.TrimEmptyIffBlank` | src/components/CreateSubaccountModal.js:93 | a name trims to empty exactly when it is all white space |
| `CreateSubaccount.HandleSubmit` | src/components/CreateSubaccountModal.js:91-113 | a blank or flagged name sets the invalid-name error and creates nothing; otherwise the record has the id, the untrimmed name, the capital as balance and account value, zero PnL, one-point histories and empty lists |
| `CreateSubaccount.SubmitAfterNameChange` | src/components/CreateSubaccountModal.js:63-96 | after typing a name, submitting creates a sub-account exactly when the name has a non-space and is not taken |
| `CreateSubaccount.OpenedFormRejectsSubmit` | src/components/CreateSubaccountModal.js:51-94 | a freshly opened dialog refuses to submit |
| `SubaccountContext.FirstWithId` | src/context/SubaccountContext.js:49 | the position of the first account with the id, or the length when there is none |
| `SubaccountContext.FindById` | src/context/SubaccountContext.js:49 | the first account with the id, or none exactly when no account has it |
| `SubaccountContext.FetchSubaccounts` | src/context/SubaccountContext.js:22-64 | no user or an empty result clears list and selection; fetched documents replace the list; the selection becomes the first document with the selected id (as `find` returns it) or else the first document; a failed query keeps both |
| `SubaccountContext.SelectSubaccount` | src/context/SubaccountContext.js:66-69 | only the selection changes |
| `SubaccountContext.ReplaceById` | src/context/SubaccountContext.js:73-77 | same length; each entry with the id is replaced, every other one kept |
| `SubaccountContext.UpdateSubaccount` | src/context/SubaccountContext.js:71-83 | the list has the id's entries replaced, and the selection is replaced exactly when its id matches |
| `SubaccountContext.UpdateKeepsOthers` | src/context/SubaccountContext.js:74-76 | an update keeps length, order, ids and the other accounts; the new record appears exactly when its id was listed |
| `SubaccountContext.UpdateIdempotent` | src/context/SubaccountContext.js:73-82 | applying the same update twice is applying it once |
| `SubaccountContext.FetchListsSelection` | src/context/SubaccountContext.js:47-56 | after a fetch the selection, if any, is an account of the list |
| `SubaccountContext.UpdateKeepsSelectionListed` | src/context/SubaccountContext.js:80-82 | an update keeps a listed selection listed |

## Left out

- The matching library (`nodejs-order-book`): price-time priority, crossing and fills. It is the
  abstract `Engine.Library`. Its results are reduced to the new book and the optional log, so
  the trades a result carries and `placeOrder`'s returned result object are not modelled.
- File, database and socket I/O, with the `DATABASE_URL` switch and corrupt-journal recovery.
  The journal is an in-memory sequence and the snapshot slot an in-memory value. Market
  initialisation from disk (`initMarket`, `ready`) and the journal persisted before a restart
  are not modelled.
- `addMockLiquidity`, the random-walk price updates and the Yahoo price fetch: they use
  `Math.random`, timers and HTTP.
- The unawaited `loadJsonSafely` in server/orderBook.js and the construction of the book before
  `ready` resolves.
- The ids the workers generate from `uuidv4()` and `Date.now()`, and their string formats. They
  are parameters (`id`, `ids`, `mockId`). The clock of the Coinbase worker is the parameter
  `now`.
- The one-argument `placeOrder`/`cancelOrder` calls of the Binance worker, which do not match
  the registry's `(market, …)` signature. The workers' calls are abstract `Call`s, and the
  order's `tag`/venue and `Number(price)` are not carried.
- The WebSocket parsing in the workers' `start()`: `JSON.parse`, the Binance depth handler, and a
  malformed message's throw. A Coinbase message is given already parsed, with `parseFloat`
  applied.
- Interleaving at `await`s: a fallback tick or a second message running while another message's
  updates are being synchronised. Each handler is modelled as running to completion.
- NaN and floating point. `Number(value)` on non-numeric text (which makes a clamp return NaN)
  and rounding of prices, sizes and the running `toRemove`.
- `OrderBookView.HandleSnapshot`: does not produce the `logTotal` bar widths or `maxLogTotal`
  (`Math.log2`), nor the socket and polling code around the handler.
- React state plumbing, `handleCopy`/`handleClose` timers, the tooltip and Firebase. A
  sub-account fetch is given by its outcome (`SubaccountContext.Fetch`), and the `loading` flag is
  only modelled at the end of a fetch.
- `LevelSync.Call`: the Coinbase worker's calls pass the market (`placeOrder(MARKET, …)`,
  `cancelOrder(MARKET, id)`). A `Call` carries no market; the worker's fixed market is
  `CoinbaseWorker.MarketFor`.
- `Registry.MarketRegistry.Depth`: `level` is an integer. The HTTP layer passes
  `Number(req.query.level) || 20`, which can be fractional; a negative `level` is modelled
  (`Depth.SliceEnd`), but the truncation of a fractional one by `slice` is not.
- `SubaccountContext.FetchSubaccounts`: a document whose data carries its own `id` field
  overrides the document id in the source (`{ id: doc.id, ...doc.data() }`). The model keeps the
  document id.
- `CreateSubaccount.HandleSubmit`: the two `new Date().toISOString()` reads of the two history
  points are one parameter `now`, so the model gives both points the same date; `onCreate` is
  modelled by returning the record.
