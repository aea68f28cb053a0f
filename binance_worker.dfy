/**
 * The Binance feed worker (backend/server/binanceWorker.js): its level synchroniser is
 * `LevelSync.FeedMirror.SyncLevels` with the feed's price strings as keys; what is particular to
 * it is the educational mock liquidity it places instead of mirroring the real feed.
 */
module BinanceWorker {
  import opened LevelSync

  const BasePrice: real := 100000.0

  /** One `[price, size]` entry of the mock level list. */
  datatype MockLevel = MockLevel(price: real, size: real)

  /** The mock level list: four bids below the base price, then four asks above it. */
  const MockLiquidity: seq<MockLevel> := [
    MockLevel(BasePrice - 1000.0, 0.5), MockLevel(BasePrice - 2000.0, 1.0),
    MockLevel(BasePrice - 3000.0, 2.0), MockLevel(BasePrice - 5000.0, 5.0),
    MockLevel(BasePrice + 1000.0, 0.5), MockLevel(BasePrice + 2000.0, 1.0),
    MockLevel(BasePrice + 3000.0, 2.0), MockLevel(BasePrice + 5000.0, 5.0)]

  /** The side of the `i`-th mock level. */
  function MockSide(i: nat): Side {
    if i < 4 then Buy else Sell
  }

  /** The mock list is eight levels: buys strictly below the base price, sells strictly above, every size positive. */
  lemma MockLiquidityStraddlesBase()
    ensures |MockLiquidity| == 8
    ensures forall i :: 0 <= i < |MockLiquidity| ==>
              && (MockSide(i) == Buy ==> MockLiquidity[i].price < BasePrice)
              && (MockSide(i) == Sell ==> MockLiquidity[i].price > BasePrice)
              && MockLiquidity[i].size > 0.0
  {
  }

  /**
   * `injectMockLiquidity`: nothing when the real feed is enabled; otherwise one limit order per mock
   * level, in list order, none awaited (a failed placement is only logged, so every order is
   * placed). `mockId(side, price)` is the order id, which the source builds from the side, the
   * price and the clock.
   */
  method InjectMockLiquidity(enableBinance: bool, mockId: (Side, real) -> string) returns (orders: seq<Call<real>>)
    ensures enableBinance ==> orders == []
    ensures !enableBinance ==> |orders| == |MockLiquidity|
    ensures !enableBinance ==> forall i :: 0 <= i < |MockLiquidity| ==>
              var l := MockLiquidity[i];
              orders[i] == PlaceLimit(mockId(MockSide(i), l.price), MockSide(i), l.price, l.size)
    ensures forall i, j ::
              (0 <= i < |orders| && 0 <= j < |orders| && orders[i].PlaceLimit? && orders[j].PlaceLimit? &&
               orders[i].side == Buy && orders[j].side == Sell) ==> orders[i].price < orders[j].price
  {
    orders := [];
    if enableBinance {
      return;
    }
    MockLiquidityStraddlesBase();
    for i := 0 to |MockLiquidity|
      invariant |orders| == i
      invariant forall m :: 0 <= m < i ==>
                  var l := MockLiquidity[m];
                  orders[m] == PlaceLimit(mockId(MockSide(m), l.price), MockSide(m), l.price, l.size)
    {
      var l := MockLiquidity[i];
      var side := MockSide(i);
      orders := orders + [PlaceLimit(mockId(side, l.price), side, l.price, l.size)];
    }
  }
}
