/**
 * The Coinbase feed worker (backend/server/coinbaseWorker.js): the product it follows and the
 * market it feeds, the fallback mock levels, and the `lastUpdate`/`seededMock` rule that seeds
 * them when the live feed has been silent for more than four seconds.
 *
 * The feed's prices arrive as strings and the mock prices are numbers; a JavaScript `Map` keeps
 * the two apart, so a mock level and a feed level never share a tracked quantity or a queue.
 */
module CoinbaseWorker {
  import opened Wrappers
  import opened LevelSync
  import Registry

  /** A key of the worker's maps. */
  datatype FeedPrice = Quoted(text: string) | Numeric(value: real)

  const DefaultProduct := "BTC-USD"

  /** `COINBASE_TO_MARKET`. */
  const CoinbaseToMarket: map<string, string> := map[
    "BTC-USD" := "BTC-USDC", "ETH-USD" := "ETH-USDC", "SOL-USD" := "SOL-USDC"]

  const FallbackMarket := "BTC-USDC"

  /** `process.env.COINBASE_PRODUCT || 'BTC-USD'`: an unset or empty variable gives the default. */
  function ProductId(env: Option<string>): (product: string)
    ensures env.Some? && env.value != "" ==> product == env.value
    ensures env.None? || env.value == "" ==> product == DefaultProduct
  {
    if env.Some? && env.value != "" then env.value else DefaultProduct
  }

  /**
   * `COINBASE_TO_MARKET[PRODUCT_ID] || 'BTC-USDC'`: a known product maps to its market and any
   * other to `BTC-USDC`; either way the market is one the engine supports.
   */
  function MarketFor(product: string): (market: string)
    ensures product in CoinbaseToMarket ==> market == CoinbaseToMarket[product]
    ensures product !in CoinbaseToMarket ==> market == FallbackMarket
    ensures market in Registry.SupportedMarkets
  {
    if product in CoinbaseToMarket then CoinbaseToMarket[product] else FallbackMarket
  }

  const MockBase: real := 30000.0

  /** `[price, size, side]`, one fallback mock level. */
  datatype MockLevel = MockLevel(price: real, size: real, side: Side)

  /** The `i`-th buy (`i` from 1 to 5) of the mock levels. */
  function MockBuy(i: int): MockLevel {
    MockLevel(MockBase - 100.0 * i as real, 0.1 * i as real, Buy)
  }

  /** The `i`-th sell (`i` from 1 to 5) of the mock levels. */
  function MockSell(i: int): MockLevel {
    MockLevel(MockBase + 100.0 * i as real, 0.1 * i as real, Sell)
  }

  /**
   * `mockLevels`: for `i` from 1 to 5 a buy `100·i` below 30000 then a sell `100·i` above it, both
   * of size `0.1·i`; ten levels in all, every buy priced below every sell.
   */
  method MockLevels() returns (levels: seq<MockLevel>)
    ensures |levels| == 10
    ensures forall i :: 1 <= i <= 5 ==> levels[2 * i - 2] == MockBuy(i) && levels[2 * i - 1] == MockSell(i)
    ensures forall m, n :: 0 <= m < |levels| && 0 <= n < |levels| && levels[m].side == Buy && levels[n].side == Sell ==>
              levels[m].price < levels[n].price
    ensures forall m :: 0 <= m < |levels| ==> levels[m].size > 0.0
  {
    levels := [];
    for i := 1 to 6
      invariant |levels| == 2 * (i - 1)
      invariant forall j :: 1 <= j < i ==> levels[2 * j - 2] == MockBuy(j) && levels[2 * j - 1] == MockSell(j)
      invariant forall m :: 0 <= m < |levels| ==>
                  && (levels[m].side == Buy ==> levels[m].price < MockBase)
                  && (levels[m].side == Sell ==> levels[m].price > MockBase)
                  && levels[m].size > 0.0
    {
      levels := levels + [MockBuy(i)];
      levels := levels + [MockSell(i)];
    }
  }

  /** The messages the handler acts on; anything else only resets `seededMock`. */
  datatype Message =
    | Snapshot(bids: seq<(string, real)>, asks: seq<(string, real)>)  // `[price, parseFloat(size)]`
    | L2Update(changes: seq<(string, string, real)>)                   // `[side, price, parseFloat(size)]`
    | OtherMessage

  /** `sideStr === 'buy' ? 'buy' : 'sell'`. */
  function SideOf(sideStr: string): (side: Side)
    ensures side == Buy <==> sideStr == "buy"
  {
    if sideStr == "buy" then Buy else Sell
  }

  /** The level updates a message is turned into, in the order they are awaited: a snapshot's bids, then its asks. */
  function MessageUpdates(msg: Message): (us: seq<Update<FeedPrice>>)
    ensures msg.Snapshot? ==> |us| == |msg.bids| + |msg.asks|
    ensures msg.Snapshot? ==> forall i :: 0 <= i < |msg.bids| ==>
              us[i] == Update(Buy, Quoted(msg.bids[i].0), msg.bids[i].1)
    ensures msg.Snapshot? ==> forall i :: 0 <= i < |msg.asks| ==>
              us[|msg.bids| + i] == Update(Sell, Quoted(msg.asks[i].0), msg.asks[i].1)
    ensures msg.L2Update? ==> |us| == |msg.changes| && forall i :: 0 <= i < |msg.changes| ==>
              us[i] == Update(SideOf(msg.changes[i].0), Quoted(msg.changes[i].1), msg.changes[i].2)
    ensures msg.OtherMessage? ==> us == []
  {
    match msg
    case Snapshot(bids, asks) =>
      seq(|bids|, i requires 0 <= i < |bids| => Update(Buy, Quoted(bids[i].0), bids[i].1))
      + seq(|asks|, i requires 0 <= i < |asks| => Update(Sell, Quoted(asks[i].0), asks[i].1))
    case L2Update(changes) =>
      seq(|changes|, i requires 0 <= i < |changes| => Update(SideOf(changes[i].0), Quoted(changes[i].1), changes[i].2))
    case OtherMessage => []
  }

  /** The mock levels as level updates, keyed by their numeric prices. */
  function MockUpdates(levels: seq<MockLevel>): (us: seq<Update<FeedPrice>>)
    ensures |us| == |levels|
    ensures forall i :: 0 <= i < |levels| ==> us[i] == Update(levels[i].side, Numeric(levels[i].price), levels[i].size)
  {
    seq(|levels|, i requires 0 <= i < |levels| => Update(levels[i].side, Numeric(levels[i].price), levels[i].size))
  }

  const SilenceLimit := 4000

  /** The rule of the fallback checker: the feed has been silent for more than 4000 ms and nothing is seeded. */
  predicate SeedingDue(now: int, lastUpdate: int, seededMock: bool) {
    now - lastUpdate > SilenceLimit && !seededMock
  }

  /** The worker's module state: its maps, `lastUpdate` and `seededMock`. */
  class CoinbaseFeed {
    const mirror: FeedMirror<FeedPrice>
    var lastUpdate: int
    var seededMock: bool

    constructor ()
      ensures fresh(mirror) && mirror.State() == EmptyBook()
      ensures lastUpdate == 0 && !seededMock
    {
      mirror := new FeedMirror<FeedPrice>();
      lastUpdate := 0;
      seededMock := false;
    }

    /**
     * The message handler at time `now`: a snapshot or a level-2 update stamps `lastUpdate` and is
     * synchronised level by level; then `seededMock` is reset, for any message, unless a
     * synchronisation threw (the throw is caught and the reset skipped).
     */
    method OnMessage(now: int, msg: Message, ids: nat -> string, accept: Call<FeedPrice> -> bool)
      returns (calls: seq<Call<FeedPrice>>, threw: bool)
      modifies this, mirror
      ensures Step(mirror.State(), calls, threw) == SyncAll(old(mirror.State()), MessageUpdates(msg), ids, 0, accept)
      ensures lastUpdate == if msg.OtherMessage? then old(lastUpdate) else now
      ensures seededMock == if threw then old(seededMock) else false
    {
      if !msg.OtherMessage? {
        lastUpdate := now;
      }
      calls, threw := mirror.SyncAllLevels(MessageUpdates(msg), ids, accept);
      if !threw {
        seededMock := false;
      }
    }

    /**
     * One run of the fallback checker at time `now`: when seeding is due, the ten mock levels are
     * synchronised in order and, if none threw, `seededMock` is set, so that the next run does not
     * seed again until a message resets it. Otherwise nothing changes.
     */
    method FallbackTick(now: int, ids: nat -> string, accept: Call<FeedPrice> -> bool)
      returns (calls: seq<Call<FeedPrice>>, threw: bool)
      modifies this, mirror
      ensures !SeedingDue(now, old(lastUpdate), old(seededMock)) ==>
                calls == [] && !threw && seededMock == old(seededMock) && mirror.State() == old(mirror.State())
      ensures SeedingDue(now, old(lastUpdate), old(seededMock)) ==>
                exists levels: seq<MockLevel> ::
                  && |levels| == 10
                  && (forall i :: 1 <= i <= 5 ==> levels[2 * i - 2] == MockBuy(i) && levels[2 * i - 1] == MockSell(i))
                  && Step(mirror.State(), calls, threw) == SyncAll(old(mirror.State()), MockUpdates(levels), ids, 0, accept)
      ensures SeedingDue(now, old(lastUpdate), old(seededMock)) ==> seededMock == !threw
      ensures lastUpdate == old(lastUpdate)
      ensures !threw ==> !SeedingDue(now, lastUpdate, seededMock)
    {
      calls, threw := [], false;
      if now - lastUpdate > SilenceLimit && !seededMock {
        var levels := MockLevels();
        calls, threw := mirror.SyncAllLevels(MockUpdates(levels), ids, accept);
        if !threw {
          seededMock := true;
        }
      }
    }
  }
}
