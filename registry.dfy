/**
 * The multi-market engine wrapper of backend/server/orderBook.js: one library book per supported
 * market, a per-market operation counter, the journal of each market and the last snapshot of
 * each market, with `placeOrder`, `cancelOrder`, `depth` and `getMarketFromId`.
 *
 * The journal and the snapshot slot are kept in memory here; the JSON files and the database
 * they go to are not part of this model.
 */
module Registry {
  import opened Wrappers
  import opened Levels
  import opened Depth
  import opened Engine

  /** `SUPPORTED_MARKETS`: our symbol to the exchange's symbol. */
  const SupportedMarkets: map<string, string> := map[
    "BTC-USDC" := "BTCUSDT", "ETH-USDC" := "ETHUSDT", "SOL-USDC" := "SOLUSDT",
    "DOGE-USDC" := "DOGEUSDT", "ADA-USDC" := "ADAUSDT",
    "TSLA" := "TSLA", "NVDA" := "NVDA", "META" := "META", "PLTR" := "PLTR",
    "SNOW" := "SNOW", "UBER" := "UBER", "HOOD" := "HOOD", "ABNB" := "ABNB"]

  /** `MARKET_ID_MAP`: the numeric market ids the front end uses. */
  const MarketIdMap: map<int, string> := map[
    4 := "BTC-USDC", 3 := "ETH-USDC", 5 := "SOL-USDC", 6 := "DOGE-USDC", 7 := "ADA-USDC",
    8 := "TSLA", 9 := "NVDA", 10 := "META", 11 := "PLTR", 12 := "SNOW", 13 := "UBER",
    14 := "HOOD", 15 := "ABNB"]

  const FallbackMarket := "BTC-USDC"

  const DefaultDepthLevels := 20

  /**
   * `getMarketFromId`: the mapped symbol, or `BTC-USDC` for an id that is not mapped. Every
   * answer is a supported market.
   */
  function GetMarketFromId(marketId: int): (market: string)
    ensures marketId in MarketIdMap ==> market == MarketIdMap[marketId]
    ensures marketId !in MarketIdMap ==> market == FallbackMarket
    ensures market in SupportedMarkets
  {
    if marketId in MarketIdMap then MarketIdMap[marketId] else FallbackMarket
  }

  class MarketRegistry<B, L> {
    /** The library the books belong to. */
    const lib: Library<B, L>
    /** `orderBooks`. */
    var books: map<string, B>
    /** `opCounters`; a missing market counts as 0. */
    var opCounters: map<string, nat>
    /** The journal of each market, as appended by `persistLog`; a missing market has none. */
    var journals: map<string, seq<L>>
    /** The snapshot slot of each market, overwritten by `maybeSnapshot`. */
    var snapshots: map<string, BookSnapshot>
    /** How many snapshots `maybeSnapshot` has written for each market; a missing market has none. */
    ghost var snapshotCounts: map<string, nat>

    ghost predicate Valid()
      reads this
    {
      books.Keys <= SupportedMarkets.Keys
    }

    /** `opCounters.get(market) || 0`. */
    function Counter(market: string): nat
      reads this
    {
      if market in opCounters then opCounters[market] else 0
    }

    function JournalOf(market: string): seq<L>
      reads this
    {
      if market in journals then journals[market] else []
    }

    ghost function SnapshotCount(market: string): nat
      reads this
    {
      if market in snapshotCounts then snapshotCounts[market] else 0
    }

    /** Each market with a book has had one snapshot written per multiple of 100 its counter reached. */
    ghost predicate CadenceKept()
      reads this
    {
      forall m :: m in books ==> SnapshotCount(m) == Counter(m) / SnapshotInterval
    }

    /**
     * Every journal entry was followed by a counted operation: a market's journal never holds
     * more entries than its counter has counted.
     */
    ghost predicate JournalWithinCount()
      reads this
    {
      forall m :: m in journals ==> |journals[m]| <= Counter(m)
    }

    /** The registry once every market in `books` has been initialised; nothing journalled yet. */
    constructor (lib: Library<B, L>, books: map<string, B>)
      requires books.Keys <= SupportedMarkets.Keys
      ensures Valid() && JournalWithinCount() && CadenceKept()
      ensures this.lib == lib && this.books == books
      ensures opCounters == map[] && journals == map[] && snapshots == map[]
    {
      this.lib := lib;
      this.books := books;
      opCounters := map[];
      journals := map[];
      snapshots := map[];
      snapshotCounts := map[];
    }

    /** `persistLog`: a present log is appended to the end of the market's journal; no log, no change. */
    method PersistLog(market: string, log: Option<L>)
      modifies this
      ensures log.Some? ==> journals == old(journals)[market := old(JournalOf(market)) + [log.value]]
      ensures log.None? ==> journals == old(journals)
      ensures books == old(books) && opCounters == old(opCounters) && snapshots == old(snapshots)
      ensures snapshotCounts == old(snapshotCounts)
    {
      if log.Some? {
        journals := journals[market := JournalOf(market) + [log.value]];
      }
    }

    /**
     * `maybeSnapshot`: counts one operation for `market` only, and overwrites that market's
     * snapshot exactly when the new count is a multiple of 100 and the market has a book.
     */
    method MaybeSnapshot(market: string)
      modifies this
      ensures opCounters == old(opCounters)[market := old(Counter(market)) + 1]
      ensures SnapshotDue(old(Counter(market)) + 1) && market in books ==>
                snapshots == old(snapshots)[market := lib.snapshot(books[market])]
      ensures !(SnapshotDue(old(Counter(market)) + 1) && market in books) ==> snapshots == old(snapshots)
      ensures books == old(books) && journals == old(journals)
      ensures market in books ==> SnapshotCount(market) == old(SnapshotCount(market)) + SnapshotsWritten(old(Counter(market)), 1)
      ensures market !in books ==> SnapshotCount(market) == old(SnapshotCount(market))
      ensures forall m :: m != market ==> SnapshotCount(m) == old(SnapshotCount(m))
      ensures old(CadenceKept()) ==> CadenceKept()
    {
      var count := Counter(market) + 1;
      opCounters := opCounters[market := count];
      if count % SnapshotInterval == 0 {
        if market in books {
          snapshots := snapshots[market := lib.snapshot(books[market])];
          snapshotCounts := snapshotCounts[market := SnapshotCount(market) + 1];
        }
      }
      SnapshotCadence(count - 1, 1);
    }

    /**
     * `placeOrder`: an unknown market or an unsupported order type throws and changes nothing;
     * so does a throw from the library. Otherwise the market's book is replaced by the library's
     * result, the result's log (if any) is appended to that market's journal, and then the
     * operation is counted (also when there was no log), with a snapshot every 100 operations.
     */
    method PlaceOrder(market: string, params: OrderParams) returns (r: Result<Option<L>, EngineError>)
      requires Valid()
      modifies this
      ensures Valid()
      ensures market !in old(books) ==> r == Err(UnsupportedMarket(market)) && unchanged(this)
      ensures market in old(books) && Dispatch(lib, old(books)[market], params).Err? ==>
                r == Err(Dispatch(lib, old(books)[market], params).error) && unchanged(this)
      ensures market in old(books) && Dispatch(lib, old(books)[market], params).Ok? ==>
                var (book, log) := Dispatch(lib, old(books)[market], params).value;
                && r == Ok(log)
                && books == old(books)[market := book]
                && (log.Some? ==> journals == old(journals)[market := old(JournalOf(market)) + [log.value]])
                && (log.None? ==> journals == old(journals))
                && opCounters == old(opCounters)[market := old(Counter(market)) + 1]
                && (SnapshotDue(old(Counter(market)) + 1) ==> snapshots == old(snapshots)[market := lib.snapshot(book)])
                && (!SnapshotDue(old(Counter(market)) + 1) ==> snapshots == old(snapshots))
      ensures old(JournalWithinCount()) ==> JournalWithinCount()
      ensures old(CadenceKept()) ==> CadenceKept()
    {
      if market !in books {
        return Err(UnsupportedMarket(market));
      }
      var d := Dispatch(lib, books[market], params);
      if d.Err? {
        return Err(d.error);
      }
      var (book, log) := d.value;
      books := books[market := book];
      PersistLog(market, log);
      MaybeSnapshot(market);
      r := Ok(log);
    }

    /**
     * `cancelOrder`: an unknown market throws and changes nothing. Otherwise the library's cancel
     * is applied to the market's book, and only a removal that carries a log is journalled and
     * counted.
     */
    method CancelOrder(market: string, id: string) returns (r: Result<Option<Removed<L>>, EngineError>)
      requires Valid()
      modifies this
      ensures Valid()
      ensures market !in old(books) ==> r == Err(UnsupportedMarket(market)) && unchanged(this)
      ensures market in old(books) ==>
                var (book, removed) := lib.cancel(old(books)[market], id);
                && r == Ok(removed)
                && books == old(books)[market := book]
                && (removed.Some? && removed.value.log.Some? ==>
                      && journals == old(journals)[market := old(JournalOf(market)) + [removed.value.log.value]]
                      && opCounters == old(opCounters)[market := old(Counter(market)) + 1]
                      && (SnapshotDue(old(Counter(market)) + 1) ==> snapshots == old(snapshots)[market := lib.snapshot(book)])
                      && (!SnapshotDue(old(Counter(market)) + 1) ==> snapshots == old(snapshots)))
                && (!(removed.Some? && removed.value.log.Some?) ==>
                      journals == old(journals) && opCounters == old(opCounters) && snapshots == old(snapshots))
      ensures old(JournalWithinCount()) ==> JournalWithinCount()
      ensures old(CadenceKept()) ==> CadenceKept()
    {
      if market !in books {
        return Err(UnsupportedMarket(market));
      }
      var (book, removed) := lib.cancel(books[market], id);
      books := books[market := book];
      if removed.Some? && removed.value.log.Some? {
        PersistLog(market, removed.value.log);
        MaybeSnapshot(market);
      }
      r := Ok(removed);
    }

    /**
     * `depth(market, level = 20)`: an unregistered market gives empty asks and bids, without an
     * error; a registered one the depth of its book's snapshot, ordered best first and with at
     * most `level` entries per side when `level` is not negative.
     */
    function Depth(market: string, level: int := DefaultDepthLevels): (d: DepthView)
      reads this
      ensures market !in books ==> d == EmptyDepth
      ensures market in books ==> d == DepthOf(lib.snapshot(books[market]), level)
      ensures Ascending(d.asks) && Descending(d.bids)
      ensures 0 <= level ==> |d.asks| <= level && |d.bids| <= level
    {
      if market !in books then EmptyDepth
      else
        var snap := lib.snapshot(books[market]);
        DepthOrdered(snap, level);
        DepthEntriesAreLevelTotals(snap, level);
        DepthOf(snap, level)
    }
  }
}
