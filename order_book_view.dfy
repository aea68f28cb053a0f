/**
 * The browser's order-book panel (src/components/OrderBook.js), its `handleSnapshot` only: how a
 * depth payload becomes the displayed asks, bids and spread. The bar widths derived from
 * `Math.log2` and the socket and polling code around the handler are not part of this model.
 */
module OrderBookView {
  import opened Wrappers
  import opened Levels

  /** A received payload; a side that is missing (`undefined`, `null`) is `None`, an empty array is `Some([])`. */
  datatype Payload = Payload(asks: Option<seq<PriceLevel>>, bids: Option<seq<PriceLevel>>)

  datatype Spread = Spread(value: real, percentage: real)

  /** The displayed state: `orderBook.asks`, `orderBook.bids` and `spread`. */
  datatype Display = Display(asks: seq<PriceLevel>, bids: seq<PriceLevel>, spread: Spread)

  const InitialDisplay := Display([], [], Spread(0.0, 0.0))

  /** A payload the handler accepts: present, with both sides present. */
  predicate ValidPayload(data: Option<Payload>) {
    data.Some? && data.value.asks.Some? && data.value.bids.Some?
  }

  /** The spread between a lowest ask and a highest bid, and its percentage of the bid. */
  function SpreadOf(lowestAsk: real, highestBid: real): Spread {
    var value := lowestAsk - highestBid;
    Spread(value, if highestBid > 0.0 then value / highestBid * 100.0 else 0.0)
  }

  /**
   * `handleSnapshot(data)` applied to the displayed state `d`: ignored while cleaning up or when
   * the payload is invalid; otherwise the asks sorted ascending and then reversed, the bids sorted
   * descending, and the spread recomputed only when both sides have a level.
   */
  function HandleSnapshot(d: Display, cleaningUp: bool, data: Option<Payload>): (r: Display)
    ensures !cleaningUp && ValidPayload(data) ==>
              |r.asks| == |data.value.asks.value| && |r.bids| == |data.value.bids.value|
    ensures !cleaningUp && ValidPayload(data) && (data.value.asks.value == [] || data.value.bids.value == []) ==>
              r.spread == d.spread
  {
    if cleaningUp || !ValidPayload(data) then d
    else
      var lowestAsks := SortAsc(data.value.asks.value);
      var highestBids := SortDesc(data.value.bids.value);
      var spread := if |lowestAsks| > 0 && |highestBids| > 0 then SpreadOf(lowestAsks[0].price, highestBids[0].price) else d.spread;
      Display(Reverse(lowestAsks), highestBids, spread)
  }

  /** A payload that arrives during cleanup, or lacks a side, leaves everything displayed as it was. */
  lemma IgnoredPayloadKeepsDisplay(d: Display, cleaningUp: bool, data: Option<Payload>)
    requires cleaningUp || !ValidPayload(data)
    ensures HandleSnapshot(d, cleaningUp, data) == d
  {
  }

  /**
   * The displayed bids are the received bids, highest first: a permutation of them, in
   * non-increasing price order, with bids of equal price in the order received.
   */
  lemma DisplayedBidsDescend(d: Display, data: Option<Payload>)
    requires ValidPayload(data)
    ensures var bids := HandleSnapshot(d, false, data).bids;
            && Descending(bids)
            && multiset(bids) == multiset(data.value.bids.value)
            && forall p :: AtPrice(bids, p) == AtPrice(data.value.bids.value, p)
  {
    var bids := data.value.bids.value;
    SortDescDescending(bids);
    SortDescPermutes(bids);
    forall p ensures AtPrice(SortDesc(bids), p) == AtPrice(bids, p) {
      SortDescStable(bids, p);
    }
  }

  lemma {:induction false} AtPriceConcat(s: seq<PriceLevel>, t: seq<PriceLevel>, p: real)
    ensures AtPrice(s + t, p) == AtPrice(s, p) + AtPrice(t, p)
  {
    if s != [] {
      var st := s + t;
      assert st[0] == s[0] && st[1..] == s[1..] + t;
      AtPriceConcat(s[1..], t, p);
      if s[0].price == p {
        calc {
          AtPrice(st, p);
          [s[0]] + AtPrice(st[1..], p);
          [s[0]] + (AtPrice(s[1..], p) + AtPrice(t, p));
          ([s[0]] + AtPrice(s[1..], p)) + AtPrice(t, p);
        }
      } else {
        assert AtPrice(st, p) == AtPrice(st[1..], p);
      }
    } else {
      assert s + t == t;
    }
  }

  /** Reversing a list reverses the order of its levels at each price. */
  lemma {:induction false} AtPriceReverse(s: seq<PriceLevel>, p: real)
    ensures AtPrice(Reverse(s), p) == Reverse(AtPrice(s, p))
  {
    if s != [] {
      AtPriceReverse(s[1..], p);
      AtPriceConcat(Reverse(s[1..]), [s[0]], p);
      if s[0].price == p {
        assert ([s[0]] + AtPrice(s[1..], p))[1..] == AtPrice(s[1..], p);
      }
    }
  }

  /**
   * The displayed asks are the received asks, highest first and so the best (lowest) ask last: a
   * permutation of them, in non-increasing price order, with asks of equal price in the reverse of
   * the order received.
   */
  lemma DisplayedAsksBestLast(d: Display, data: Option<Payload>)
    requires ValidPayload(data)
    ensures var asks := HandleSnapshot(d, false, data).asks;
            && Descending(asks)
            && multiset(asks) == multiset(data.value.asks.value)
            && (data.value.asks.value != [] ==> asks != [] && asks[|asks| - 1].price == MinPrice(data.value.asks.value))
            && forall p :: AtPrice(asks, p) == Reverse(AtPrice(data.value.asks.value, p))
  {
    var asks := data.value.asks.value;
    var sorted := SortAsc(asks);
    SortAscAscending(asks);
    SortAscPermutes(asks);
    ReverseAscending(sorted);
    if asks != [] {
      SortAscHeadIsMin(asks);
    }
    forall p ensures AtPrice(Reverse(sorted), p) == Reverse(AtPrice(asks, p)) {
      AtPriceReverse(sorted, p);
      SortAscStable(asks, p);
    }
  }

  /**
   * When both sides have a level the spread is the lowest ask price minus the highest bid price,
   * and its percentage is that over the highest bid times 100 when the bid is positive, else 0.
   * When a side is empty the previous spread stays.
   */
  lemma SpreadFromBestPrices(d: Display, data: Option<Payload>)
    requires ValidPayload(data)
    ensures var asks, bids := data.value.asks.value, data.value.bids.value;
            var spread := HandleSnapshot(d, false, data).spread;
            && (asks != [] && bids != [] ==>
                  && spread.value == MinPrice(asks) - MaxPrice(bids)
                  && (MaxPrice(bids) > 0.0 ==> spread.percentage == spread.value / MaxPrice(bids) * 100.0)
                  && (MaxPrice(bids) <= 0.0 ==> spread.percentage == 0.0))
            && (asks == [] || bids == [] ==> spread == d.spread)
  {
    var asks, bids := data.value.asks.value, data.value.bids.value;
    SortAscPermutes(asks);
    SortDescPermutes(bids);
    assert |SortAsc(asks)| == |asks| by { assert |multiset(SortAsc(asks))| == |multiset(asks)|; }
    assert |SortDesc(bids)| == |bids| by { assert |multiset(SortDesc(bids))| == |multiset(bids)|; }
    if asks != [] && bids != [] {
      SortAscHeadIsMin(asks);
      SortDescHeadIsMax(bids);
    }
  }
}
