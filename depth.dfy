/**
 * The depth projection of an order book: the book's snapshot, as the matching library hands it
 * out, is turned into at most `level` `[price, total size]` pairs per side, asks ascending and
 * bids descending (backend/server/orderBook.js:383-400, server/orderBook.js:133-144).
 */
module Depth {
  import opened Levels

  /** One resting order inside a snapshot level; depth reads only its size. */
  datatype Resting = Resting(id: string, size: real)

  /** One level of the library's `snapshot()`: a price and the orders resting at it. */
  datatype BookLevel = BookLevel(price: real, orders: seq<Resting>)

  /** The part of the library's `snapshot()` that depth reads. */
  datatype BookSnapshot = BookSnapshot(asks: seq<BookLevel>, bids: seq<BookLevel>)

  /** `{ asks, bids }` as returned by `depth`. */
  datatype DepthView = DepthView(asks: seq<PriceLevel>, bids: seq<PriceLevel>)

  const EmptyDepth := DepthView([], [])

  /**
   * `orders.reduce((acc, o) => acc + o.size, 0)`, folding from the left: 0 for no orders, and
   * never negative when no size is.
   */
  function TotalSize(orders: seq<Resting>): (t: real)
    ensures orders == [] ==> t == 0.0
    ensures (forall i :: 0 <= i < |orders| ==> orders[i].size >= 0.0) ==> t >= 0.0
  {
    if orders == [] then 0.0 else TotalSize(orders[..|orders| - 1]) + orders[|orders| - 1].size
  }

  /** The left fold is also the first order's size plus the total of the rest: the order of summing does not matter. */
  lemma {:induction false} TotalSizeFirst(o: Resting, rest: seq<Resting>)
    ensures TotalSize([o] + rest) == o.size + TotalSize(rest)
    decreases |rest|
  {
    if rest != [] {
      var all := [o] + rest;
      var init := rest[..|rest| - 1];
      assert all[..|all| - 1] == [o] + init;
      assert all[|all| - 1] == rest[|rest| - 1];
      TotalSizeFirst(o, init);
    }
  }

  /** `levels.map((lvl) => [lvl.price, TotalSize(lvl.orders)])`. */
  function Aggregate(levels: seq<BookLevel>): (r: seq<PriceLevel>)
    ensures |r| == |levels|
    ensures forall i :: 0 <= i < |levels| ==> r[i] == PriceLevel(levels[i].price, TotalSize(levels[i].orders))
  {
    if levels == [] then []
    else [PriceLevel(levels[0].price, TotalSize(levels[0].orders))] + Aggregate(levels[1..])
  }

  /**
   * The end index that `slice(0, end)` uses on an array of length `n`: a negative `end` counts
   * from the back, and the index is clamped into `[0, n]`.
   */
  function SliceEnd(n: nat, end: int): (k: nat)
    ensures k <= n
    ensures 0 <= end ==> k == (if end < n then end else n)
    ensures end < 0 ==> k == (if n + end > 0 then n + end else 0)
  {
    if end < 0 then (if n + end > 0 then n + end else 0)
    else if end < n then end else n
  }

  /** `s.slice(0, end)`: the first `SliceEnd(|s|, end)` levels of `s`, in order. */
  function Take(s: seq<PriceLevel>, end: int): (r: seq<PriceLevel>)
    ensures |r| == SliceEnd(|s|, end)
    ensures forall i :: 0 <= i < |r| ==> r[i] == s[i]
  {
    s[..SliceEnd(|s|, end)]
  }

  /**
   * The depth of a snapshot, `level` levels per side: as many entries per side as `slice(0, level)`
   * keeps of the snapshot's levels. Order, totals and best-first selection are proved below.
   */
  function DepthOf(snap: BookSnapshot, level: int): (d: DepthView)
    ensures |d.asks| == SliceEnd(|snap.asks|, level)
    ensures |d.bids| == SliceEnd(|snap.bids|, level)
  {
    DepthView(Take(SortAsc(Aggregate(snap.asks)), level), Take(SortDesc(Aggregate(snap.bids)), level))
  }

  /** Asks come out best (lowest) first and bids best (highest) first. */
  lemma DepthOrdered(snap: BookSnapshot, level: int)
    ensures Ascending(DepthOf(snap, level).asks)
    ensures Descending(DepthOf(snap, level).bids)
  {
    SortAscAscending(Aggregate(snap.asks));
    SortDescDescending(Aggregate(snap.bids));
  }

  lemma TakePermutes(s: seq<PriceLevel>, t: seq<PriceLevel>, end: int)
    requires multiset(s) == multiset(t)
    ensures |Take(s, end)| == SliceEnd(|t|, end)
    ensures multiset(Take(s, end)) <= multiset(t)
  {
    assert |s| == |t| by { assert |multiset(s)| == |multiset(t)|; }
    var k := SliceEnd(|s|, end);
    assert s == s[..k] + s[k..];
    assert multiset(s) == multiset(s[..k]) + multiset(s[k..]);
  }

  /**
   * Each side has as many entries as `slice(0, level)` keeps of the book's levels (so at most
   * `level` of them), and every entry is one book level's price with the summed size of the
   * orders resting there.
   */
  lemma DepthEntriesAreLevelTotals(snap: BookSnapshot, level: int)
    ensures |DepthOf(snap, level).asks| == SliceEnd(|snap.asks|, level)
    ensures |DepthOf(snap, level).bids| == SliceEnd(|snap.bids|, level)
    ensures 0 <= level ==> |DepthOf(snap, level).asks| <= level && |DepthOf(snap, level).bids| <= level
    ensures multiset(DepthOf(snap, level).asks) <= multiset(Aggregate(snap.asks))
    ensures multiset(DepthOf(snap, level).bids) <= multiset(Aggregate(snap.bids))
    ensures forall e :: e in DepthOf(snap, level).asks ==>
              exists l :: l in snap.asks && e == PriceLevel(l.price, TotalSize(l.orders))
    ensures forall e :: e in DepthOf(snap, level).bids ==>
              exists l :: l in snap.bids && e == PriceLevel(l.price, TotalSize(l.orders))
  {
    var d := DepthOf(snap, level);
    var aa, ab := Aggregate(snap.asks), Aggregate(snap.bids);
    SortAscPermutes(aa);
    SortDescPermutes(ab);
    TakePermutes(SortAsc(aa), aa, level);
    TakePermutes(SortDesc(ab), ab, level);
    EntriesAreLevelTotals(snap.asks, d.asks);
    EntriesAreLevelTotals(snap.bids, d.bids);
  }

  /** Every entry drawn from the aggregate of `levels` is some level's price and total size. */
  lemma EntriesAreLevelTotals(levels: seq<BookLevel>, entries: seq<PriceLevel>)
    requires multiset(entries) <= multiset(Aggregate(levels))
    ensures forall e :: e in entries ==> exists l :: l in levels && e == PriceLevel(l.price, TotalSize(l.orders))
  {
    var agg := Aggregate(levels);
    forall e | e in entries ensures exists l :: l in levels && e == PriceLevel(l.price, TotalSize(l.orders)) {
      assert e in multiset(entries);
      assert e in multiset(agg);
      var i :| 0 <= i < |agg| && agg[i] == e;
      assert levels[i] in levels;
    }
  }

  /** A level left out of an ascending prefix is priced no lower than any level kept. */
  lemma AscPrefixIsBest(s: seq<PriceLevel>, t: seq<PriceLevel>, end: int)
    requires Ascending(s) && multiset(s) == multiset(t)
    ensures forall e, a :: e in t && e !in Take(s, end) && a in Take(s, end) ==> a.price <= e.price
  {
    var k := SliceEnd(|s|, end);
    forall e, a | e in t && e !in Take(s, end) && a in Take(s, end) ensures a.price <= e.price {
      assert e in multiset(s);
      var i :| 0 <= i < |s| && s[i] == e;
      var j :| 0 <= j < k && s[..k][j] == a;
      assert forall m :: 0 <= m < k ==> s[m] == s[..k][m];
      assert i >= k;
    }
  }

  /** A level left out of a descending prefix is priced no higher than any level kept. */
  lemma DescPrefixIsBest(s: seq<PriceLevel>, t: seq<PriceLevel>, end: int)
    requires Descending(s) && multiset(s) == multiset(t)
    ensures forall e, a :: e in t && e !in Take(s, end) && a in Take(s, end) ==> a.price >= e.price
  {
    var k := SliceEnd(|s|, end);
    forall e, a | e in t && e !in Take(s, end) && a in Take(s, end) ensures a.price >= e.price {
      assert e in multiset(s);
      var i :| 0 <= i < |s| && s[i] == e;
      var j :| 0 <= j < k && s[..k][j] == a;
      assert forall m :: 0 <= m < k ==> s[m] == s[..k][m];
      assert i >= k;
    }
  }

  /**
   * The levels shown are the best ones: any aggregated ask level not shown is priced at or above
   * every shown ask, and any bid level not shown at or below every shown bid.
   */
  lemma DepthShowsBestLevels(snap: BookSnapshot, level: int)
    ensures forall e, a :: e in Aggregate(snap.asks) && e !in DepthOf(snap, level).asks && a in DepthOf(snap, level).asks ==>
              a.price <= e.price
    ensures forall e, b :: e in Aggregate(snap.bids) && e !in DepthOf(snap, level).bids && b in DepthOf(snap, level).bids ==>
              b.price >= e.price
  {
    var aa, ab := Aggregate(snap.asks), Aggregate(snap.bids);
    SortAscPermutes(aa);
    SortAscAscending(aa);
    SortDescPermutes(ab);
    SortDescDescending(ab);
    AscPrefixIsBest(SortAsc(aa), aa, level);
    DescPrefixIsBest(SortDesc(ab), ab, level);
  }
}
