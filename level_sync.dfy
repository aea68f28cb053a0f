/**
 * The feed-mirroring level synchroniser `syncLevels` of the exchange-feed workers
 * (backend/server/binanceWorker.js:55-99, server/binanceWorker.js:16-60,
 * backend/server/coinbaseWorker.js:37-70; the three are the same algorithm).
 *
 * For each side the worker remembers the last quantity the feed reported at each price, and a
 * first-in first-out queue of the synthetic orders it placed at that price. An absolute level
 * update becomes one new synthetic order for a rise, or cancels of whole orders from the front
 * of the queue until the fall is covered.
 *
 * The engine calls the worker makes are not executed here: they are returned as a list of
 * `Call`s, and whether each awaited call resolves or throws is the parameter `accept`. Prices
 * are the feed's map keys, of any type `K`; ids are handed in by the caller.
 */
module LevelSync {

  datatype Side = Buy | Sell

  /** `{ id, size }`, one synthetic order the worker placed. */
  datatype SyntheticOrder = SyntheticOrder(id: string, size: real)

  /** One engine call: a `limit` order placement, or a cancel by id. */
  datatype Call<K> = PlaceLimit(id: string, side: Side, price: K, size: real) | Cancel(id: string)

  /**
   * One side of the worker's state: the quantity it last saw at each price (`bids` for the buy
   * side, `asks` for the sell side) and the queue of its synthetic orders at each price
   * (`priceOrders.buy`, `priceOrders.sell`).
   */
  datatype SideBook<K(==)> = SideBook(levels: map<K, real>, queues: map<K, seq<SyntheticOrder>>)
  {
    /** `map.get(price) || 0`. */
    function Qty(price: K): real {
      if price in levels then levels[price] else 0.0
    }

    /** `priceOrders[side].get(price) || []`. */
    function QueueAt(price: K): seq<SyntheticOrder> {
      if price in queues then queues[price] else []
    }
  }

  /** The worker's state, both sides. */
  datatype FeedBook<K(==)> = FeedBook(bids: SideBook<K>, asks: SideBook<K>)
  {
    /** `side === 'sell' ? asks : bids`, with `priceOrders[side]`. */
    function Of(side: Side): SideBook<K> {
      if side == Buy then bids else asks
    }

    function With(side: Side, sb: SideBook<K>): FeedBook<K> {
      if side == Buy then this.(bids := sb) else this.(asks := sb)
    }
  }

  /** One side after a `syncLevels`, the calls it made, and whether it ended by a throw. */
  datatype SideStep<K(==)> = SideStep(book: SideBook<K>, calls: seq<Call<K>>, threw: bool)

  /** The state after a `syncLevels`, the calls it made, and whether it ended by a throw. */
  datatype Step<K(==)> = Step(book: FeedBook<K>, calls: seq<Call<K>>, threw: bool)

  function EmptyBook<K(==)>(): FeedBook<K> {
    FeedBook(SideBook(map[], map[]), SideBook(map[], map[]))
  }

  function Other(side: Side): Side {
    if side == Buy then Sell else Buy
  }

  /** The summed size of a queue. */
  function TotalOf(q: seq<SyntheticOrder>): real {
    if q == [] then 0.0 else q[0].size + TotalOf(q[1..])
  }

  /**
   * How many orders the reduction loop takes off the front of `q` when `toRemove` is left to
   * remove: it goes on while something is left to remove and the queue is not empty.
   */
  function CancelRun(q: seq<SyntheticOrder>, toRemove: real): (k: nat)
    ensures k <= |q|
  {
    if toRemove <= 0.0 || q == [] then 0 else 1 + CancelRun(q[1..], toRemove - q[0].size)
  }

  /** The cancel calls for the orders of `q`, in order. */
  function Cancels<K>(q: seq<SyntheticOrder>): (r: seq<Call<K>>)
    ensures |r| == |q|
    ensures forall i :: 0 <= i < |q| ==> r[i] == Cancel(q[i].id)
  {
    if q == [] then [] else [Cancel(q[0].id)] + Cancels(q[1..])
  }

  /** The index of the first call that throws, or the number of calls when none does. */
  function FirstRejected<K>(calls: seq<Call<K>>, accept: Call<K> -> bool): (j: nat)
    ensures j <= |calls|
    ensures forall i :: 0 <= i < j ==> accept(calls[i])
    ensures j < |calls| ==> !accept(calls[j])
  {
    if calls == [] || !accept(calls[0]) then 0 else 1 + FirstRejected(calls[1..], accept)
  }

  /**
   * The calls of an async function that awaits each one in turn: every call before the last
   * resolved, and when it ended by a throw there was a last call and that one threw; otherwise
   * every call resolved.
   */
  predicate Resolved<K>(calls: seq<Call<K>>, threw: bool, accept: Call<K> -> bool) {
    && (forall i :: 0 <= i < |calls| - 1 ==> accept(calls[i]))
    && (threw ==> calls != [] && !accept(calls[|calls| - 1]))
    && (!threw && calls != [] ==> accept(calls[|calls| - 1]))
  }

  /**
   * `syncLevels(side, price, newQty)` on the state of `side`.
   *
   * A rise places one order for the difference and, once the placement has resolved, records the
   * new quantity and queues the order at the back. A fall cancels orders from the front; if a
   * cancel throws, the orders already shifted off the stored queue stay off it and the quantity
   * is not recorded. Otherwise an emptied queue is deleted and the new quantity recorded.
   */
  function SyncSide<K(==)>(sb: SideBook<K>, side: Side, price: K, newQty: real, id: string, accept: Call<K> -> bool): (r: SideStep<K>)
    ensures Resolved(r.calls, r.threw, accept)
  {
    var delta := newQty - sb.Qty(price);
    if delta == 0.0 then SideStep(sb, [], false)
    else if delta > 0.0 then
      var c := PlaceLimit(id, side, price, delta);
      if !accept(c) then SideStep(sb, [c], true)
      else
        SideStep(SideBook(sb.levels[price := newQty], sb.queues[price := sb.QueueAt(price) + [SyntheticOrder(id, delta)]]), [c], false)
    else
      var q := sb.QueueAt(price);
      var k := CancelRun(q, -delta);
      var cancels: seq<Call<K>> := Cancels(q[..k]);
      var j := FirstRejected(cancels, accept);
      if j < k then
        SideStep(sb.(queues := sb.queues[price := q[j..]]), cancels[..j + 1], true)
      else
        var queues := if k == |q| then sb.queues - {price} else sb.queues[price := q[k..]];
        SideStep(SideBook(sb.levels[price := newQty], queues), cancels, false)
  }

  /**
   * `syncLevels(side, price, newQty)` on the whole state: it works on the state of its own side,
   * leaves the other side untouched, and awaits its calls in order.
   */
  function Sync<K(==)>(b: FeedBook<K>, side: Side, price: K, newQty: real, id: string, accept: Call<K> -> bool): (r: Step<K>)
    ensures r.book.Of(Other(side)) == b.Of(Other(side))
    ensures r.book.Of(side) == SyncSide(b.Of(side), side, price, newQty, id, accept).book
    ensures Resolved(r.calls, r.threw, accept)
  {
    var s := SyncSide(b.Of(side), side, price, newQty, id, accept);
    Step(b.With(side, s.book), s.calls, s.threw)
  }

  // --------------------------------------------------------------- invariants

  /**
   * Every queued price is also tracked, no stored queue is empty, and every queued synthetic
   * order has a positive size.
   */
  predicate SideConsistent<K(==)>(sb: SideBook<K>) {
    forall p :: p in sb.queues ==>
      && p in sb.levels
      && sb.queues[p] != []
      && forall i :: 0 <= i < |sb.queues[p]| ==> sb.queues[p][i].size > 0.0
  }

  predicate Consistent<K(==)>(b: FeedBook<K>) {
    SideConsistent(b.bids) && SideConsistent(b.asks)
  }

  /**
   * Tracked quantities are not negative, and the synthetic volume the worker believes rests at a
   * price never exceeds the quantity it tracks there.
   */
  predicate SideCovered<K(==)>(sb: SideBook<K>) {
    && (forall p :: p in sb.levels ==> sb.levels[p] >= 0.0)
    && (forall p :: p in sb.queues && p in sb.levels ==> TotalOf(sb.queues[p]) <= sb.levels[p])
  }

  predicate Covered<K(==)>(b: FeedBook<K>) {
    SideCovered(b.bids) && SideCovered(b.asks)
  }

  // ------------------------------------------------------------ queue sums

  lemma {:induction false} TotalOfAppend(q: seq<SyntheticOrder>, o: SyntheticOrder)
    ensures TotalOf(q + [o]) == TotalOf(q) + o.size
  {
    if q != [] {
      assert (q + [o])[1..] == q[1..] + [o];
      TotalOfAppend(q[1..], o);
    }
  }

  lemma {:induction false} TotalOfSplit(q: seq<SyntheticOrder>, k: nat)
    requires k <= |q|
    ensures TotalOf(q) == TotalOf(q[..k]) + TotalOf(q[k..])
  {
    if k > 0 {
      TotalOfSplit(q[1..], k - 1);
      assert q[..k][1..] == q[1..][..k - 1];
      assert q[k..] == q[1..][k - 1..];
    }
  }

  lemma {:induction false} TotalOfPositive(q: seq<SyntheticOrder>)
    requires forall i :: 0 <= i < |q| ==> q[i].size > 0.0
    ensures TotalOf(q) >= 0.0
  {
    if q != [] {
      TotalOfPositive(q[1..]);
    }
  }

  /**
   * The reduction loop stops as soon as the cancelled orders cover the reduction, or when the
   * queue runs out: the first `k` orders cover `toRemove` (unless all were taken), and no
   * shorter prefix does.
   */
  lemma {:induction false} CancelRunStops(q: seq<SyntheticOrder>, toRemove: real)
    ensures CancelRun(q, toRemove) == |q| || TotalOf(q[..CancelRun(q, toRemove)]) >= toRemove
    ensures forall i :: 0 <= i < CancelRun(q, toRemove) ==> TotalOf(q[..i]) < toRemove
  {
    if toRemove <= 0.0 || q == [] {
      assert q[..0] == [];
    } else {
      var rest := toRemove - q[0].size;
      CancelRunStops(q[1..], rest);
      var k := CancelRun(q, toRemove);
      forall i | 0 <= i <= |q| - 1
        ensures TotalOf(q[..i + 1]) == q[0].size + TotalOf(q[1..][..i])
      {
        assert q[..i + 1][1..] == q[1..][..i];
      }
      assert q[..0] == [];
      assert TotalOf(q[..k]) == q[0].size + TotalOf(q[1..][..k - 1]);
      forall i | 0 <= i < k ensures TotalOf(q[..i]) < toRemove {
        if i > 0 {
          assert TotalOf(q[..i]) == q[0].size + TotalOf(q[1..][..i - 1]);
        }
      }
    }
  }

  // ------------------------------------------------------- properties of Sync

  /** A level update that repeats the tracked quantity (a missing price counts as 0) does nothing. */
  lemma SyncSameQuantityIsNoOp<K>(sb: SideBook<K>, side: Side, price: K, newQty: real, id: string, accept: Call<K> -> bool)
    requires newQty == sb.Qty(price)
    ensures SyncSide(sb, side, price, newQty, id, accept) == SideStep(sb, [], false)
  {
  }

  /**
   * A rise places exactly one limit order for the difference, at that price and side. If the
   * placement resolves, the order is queued at the back of that price's queue and the new
   * quantity is tracked; if it throws, nothing changes.
   */
  lemma SyncRisePlacesOneOrder<K>(sb: SideBook<K>, side: Side, price: K, newQty: real, id: string, accept: Call<K> -> bool)
    requires newQty > sb.Qty(price)
    ensures var s := SyncSide(sb, side, price, newQty, id, accept);
            var c := PlaceLimit(id, side, price, newQty - sb.Qty(price));
            && s.calls == [c]
            && (accept(c) ==>
                  && !s.threw
                  && s.book.QueueAt(price) == sb.QueueAt(price) + [SyntheticOrder(id, newQty - sb.Qty(price))]
                  && s.book.Qty(price) == newQty)
            && (!accept(c) ==> s.threw && s.book == sb)
  {
  }

  /**
   * A fall in which every cancel resolves cancels whole orders strictly from the front of the
   * queue: the calls are the cancels of the first `k` orders in order, what remains is the
   * suffix after them, the first `k` orders cover the fall unless the queue ran out, and no
   * shorter prefix covers it. An emptied queue is deleted, a non-empty one is kept.
   */
  lemma SyncFallCancelsFromFront<K>(sb: SideBook<K>, side: Side, price: K, newQty: real, id: string, accept: Call<K> -> bool)
    requires newQty < sb.Qty(price)
    requires !SyncSide(sb, side, price, newQty, id, accept).threw
    ensures var s := SyncSide(sb, side, price, newQty, id, accept);
            var q := sb.QueueAt(price);
            var k := |s.calls|;
            var toRemove := sb.Qty(price) - newQty;
            && k <= |q|
            && (forall i :: 0 <= i < k ==> s.calls[i] == Cancel(q[i].id))
            && s.book.QueueAt(price) == q[k..]
            && (k == |q| || TotalOf(q[..k]) >= toRemove)
            && (forall i :: 0 <= i < k ==> TotalOf(q[..i]) < toRemove)
            && (price in s.book.queues <==> k < |q|)
  {
    CancelRunStops(sb.QueueAt(price), sb.Qty(price) - newQty);
  }

  /**
   * A fall in which a cancel throws: the cancels made are those of the front orders up to and
   * including the one that threw, the orders before it are gone from the stored queue, the one
   * that threw is still at its front, and the tracked quantities do not change.
   */
  lemma SyncFallThrowKeepsQuantity<K>(sb: SideBook<K>, side: Side, price: K, newQty: real, id: string, accept: Call<K> -> bool)
    requires newQty < sb.Qty(price)
    requires SyncSide(sb, side, price, newQty, id, accept).threw
    ensures var s := SyncSide(sb, side, price, newQty, id, accept);
            var q := sb.QueueAt(price);
            var j := |s.calls| - 1;
            && 0 <= j < |q|
            && (forall i :: 0 <= i <= j ==> s.calls[i] == Cancel(q[i].id))
            && (forall i :: 0 <= i < j ==> accept(s.calls[i]))
            && !accept(s.calls[j])
            && s.book.QueueAt(price) == q[j..]
            && s.book.levels == sb.levels
  {
  }

  /**
   * After a normal return the tracked quantity at that price is the update's quantity; after a
   * throw no tracked quantity has changed.
   */
  lemma SyncReachesNewQuantity<K>(sb: SideBook<K>, side: Side, price: K, newQty: real, id: string, accept: Call<K> -> bool)
    ensures var s := SyncSide(sb, side, price, newQty, id, accept);
            && (!s.threw ==> s.book.Qty(price) == newQty)
            && (s.threw ==> s.book.levels == sb.levels)
  {
  }

  /** Only the quantity and the queue at the update's price are touched. */
  lemma SyncTouchesOnlyItsLevel<K>(sb: SideBook<K>, side: Side, price: K, newQty: real, id: string, accept: Call<K> -> bool)
    ensures var s := SyncSide(sb, side, price, newQty, id, accept).book;
            && s.levels - {price} == sb.levels - {price}
            && s.queues - {price} == sb.queues - {price}
  {
    var s := SyncSide(sb, side, price, newQty, id, accept).book;
    assert s.queues - {price} == sb.queues - {price};
  }

  /** `syncLevels` keeps a side consistent. */
  lemma SyncKeepsConsistent<K>(sb: SideBook<K>, side: Side, price: K, newQty: real, id: string, accept: Call<K> -> bool)
    requires SideConsistent(sb)
    ensures SideConsistent(SyncSide(sb, side, price, newQty, id, accept).book)
  {
    var st := SyncSide(sb, side, price, newQty, id, accept);
    var s := st.book;
    var prev := sb.Qty(price);
    SyncTouchesOnlyItsLevel(sb, side, price, newQty, id, accept);
    if newQty == prev {
      SyncSameQuantityIsNoOp(sb, side, price, newQty, id, accept);
    } else if newQty > prev {
      SyncRisePlacesOneOrder(sb, side, price, newQty, id, accept);
    } else if st.threw {
      SyncFallThrowKeepsQuantity(sb, side, price, newQty, id, accept);
    } else {
      SyncFallCancelsFromFront(sb, side, price, newQty, id, accept);
    }
    forall p | p in s.queues
      ensures p in s.levels && s.queues[p] != [] && forall i :: 0 <= i < |s.queues[p]| ==> s.queues[p][i].size > 0.0
    {
      if p != price {
        assert p in s.queues - {price};
        assert p in s.levels - {price};
      }
    }
  }

  /** A suffix of a queue of positive orders holds no more than the whole queue. */
  lemma SuffixTotalAtMost(q: seq<SyntheticOrder>, j: nat)
    requires j <= |q|
    requires forall i :: 0 <= i < |q| ==> q[i].size > 0.0
    ensures TotalOf(q[j..]) <= TotalOf(q)
  {
    TotalOfSplit(q, j);
    TotalOfPositive(q[..j]);
  }

  /** The covering bound at the update's own price. */
  lemma SyncCoversItsLevel<K>(sb: SideBook<K>, side: Side, price: K, newQty: real, id: string, accept: Call<K> -> bool)
    requires SideConsistent(sb) && SideCovered(sb) && newQty >= 0.0
    ensures var s := SyncSide(sb, side, price, newQty, id, accept).book;
            price in s.queues && price in s.levels ==> TotalOf(s.queues[price]) <= s.levels[price]
  {
    var st := SyncSide(sb, side, price, newQty, id, accept);
    var prev := sb.Qty(price);
    var q := sb.QueueAt(price);
    assert TotalOf(q) <= prev by {
      if price !in sb.queues { assert q == []; }
    }
    if newQty == prev {
      SyncSameQuantityIsNoOp(sb, side, price, newQty, id, accept);
    } else if newQty > prev {
      SyncRisePlacesOneOrder(sb, side, price, newQty, id, accept);
      TotalOfAppend(q, SyntheticOrder(id, newQty - prev));
    } else if st.threw {
      SyncFallThrowKeepsQuantity(sb, side, price, newQty, id, accept);
      assert price in sb.queues;
      SuffixTotalAtMost(q, |st.calls| - 1);
    } else {
      SyncFallCancelsFromFront(sb, side, price, newQty, id, accept);
      SyncReachesNewQuantity(sb, side, price, newQty, id, accept);
      TotalOfSplit(q, |st.calls|);
    }
  }

  /**
   * When the update's quantity is not negative, `syncLevels` keeps the synthetic volume queued at
   * every price within the quantity tracked there. (A fall may cancel more than it has to, since
   * it cancels whole orders, so the volume can end up below the tracked quantity.)
   */
  lemma SyncKeepsCovered<K>(sb: SideBook<K>, side: Side, price: K, newQty: real, id: string, accept: Call<K> -> bool)
    requires SideConsistent(sb) && SideCovered(sb) && newQty >= 0.0
    ensures SideCovered(SyncSide(sb, side, price, newQty, id, accept).book)
  {
    var s := SyncSide(sb, side, price, newQty, id, accept).book;
    SyncTouchesOnlyItsLevel(sb, side, price, newQty, id, accept);
    SyncCoversItsLevel(sb, side, price, newQty, id, accept);
    SyncReachesNewQuantity(sb, side, price, newQty, id, accept);
    forall p | p in s.levels ensures s.levels[p] >= 0.0 {
      if p != price { assert p in s.levels - {price}; }
    }
    forall p | p in s.queues && p in s.levels && p != price ensures TotalOf(s.queues[p]) <= s.levels[p] {
      assert p in s.queues - {price};
      assert p in s.levels - {price};
    }
  }

  /** Both invariants hold of the whole state after `syncLevels`. */
  lemma SyncKeepsInvariants<K>(b: FeedBook<K>, side: Side, price: K, newQty: real, id: string, accept: Call<K> -> bool)
    requires Consistent(b)
    ensures Consistent(Sync(b, side, price, newQty, id, accept).book)
    ensures Covered(b) && newQty >= 0.0 ==> Covered(Sync(b, side, price, newQty, id, accept).book)
  {
    SyncKeepsConsistent(b.Of(side), side, price, newQty, id, accept);
    if Covered(b) && newQty >= 0.0 {
      SyncKeepsCovered(b.Of(side), side, price, newQty, id, accept);
    }
  }

  // ------------------------------------------------------ runs of updates

  /** One level update as the workers feed it to `syncLevels`. */
  datatype Update<K> = Update(side: Side, price: K, qty: real)

  /** `calls` made before the step `s`. */
  function After<K(==)>(calls: seq<Call<K>>, s: Step<K>): Step<K> {
    Step(s.book, calls + s.calls, s.threw)
  }

  /**
   * Awaiting `syncLevels` for each update in turn, the `n`-th with id `ids(n)`, and stopping at
   * the first that throws: every call made before the one that threw resolved.
   */
  function SyncAll<K(==)>(b: FeedBook<K>, updates: seq<Update<K>>, ids: nat -> string, n: nat, accept: Call<K> -> bool): (r: Step<K>)
    ensures Resolved(r.calls, r.threw, accept)
    decreases |updates|
  {
    if updates == [] then Step(b, [], false)
    else
      var s := Sync(b, updates[0].side, updates[0].price, updates[0].qty, ids(n), accept);
      if s.threw then s else After(s.calls, SyncAll(s.book, updates[1..], ids, n + 1, accept))
  }

  /** A run of updates keeps the worker's state consistent. */
  lemma {:induction false} SyncAllKeepsConsistent<K>(b: FeedBook<K>, updates: seq<Update<K>>, ids: nat -> string, n: nat, accept: Call<K> -> bool)
    requires Consistent(b)
    ensures Consistent(SyncAll(b, updates, ids, n, accept).book)
    decreases |updates|
  {
    if updates != [] {
      var u := updates[0];
      SyncKeepsInvariants(b, u.side, u.price, u.qty, ids(n), accept);
      var s := Sync(b, u.side, u.price, u.qty, ids(n), accept);
      if !s.threw {
        SyncAllKeepsConsistent(s.book, updates[1..], ids, n + 1, accept);
      }
    }
  }

  /** One more update run after `calls`: how `SyncAll` unfolds, stated for the worker's loop. */
  lemma SyncAllStep<K>(b: FeedBook<K>, updates: seq<Update<K>>, ids: nat -> string, n: nat, accept: Call<K> -> bool,
                       calls: seq<Call<K>>, s: Step<K>)
    requires updates != []
    requires s == Sync(b, updates[0].side, updates[0].price, updates[0].qty, ids(n), accept)
    ensures s.threw ==> After(calls, SyncAll(b, updates, ids, n, accept)) == After(calls, s)
    ensures !s.threw ==> After(calls, SyncAll(b, updates, ids, n, accept)) == After(calls + s.calls, SyncAll(s.book, updates[1..], ids, n + 1, accept))
  {
    var rest := SyncAll(s.book, updates[1..], ids, n + 1, accept);
    assert calls + (s.calls + rest.calls) == (calls + s.calls) + rest.calls;
  }

  /** Cancelling one more front order adds its cancel at the end. */
  lemma CancelsOneMore<K>(q: seq<SyntheticOrder>, i: nat)
    requires i < |q|
    ensures Cancels<K>(q[..i + 1]) == Cancels<K>(q[..i]) + [Cancel(q[i].id)]
  {
    var a, b: seq<Call<K>> := Cancels(q[..i + 1]), Cancels<K>(q[..i]) + [Cancel(q[i].id)];
    assert |a| == |b|;
    forall m | 0 <= m < |a| ensures a[m] == b[m] {
      assert q[..i + 1][m] == q[m];
    }
  }

  /**
   * What the reduction loop of `syncLevels` leaves: it takes the first `CancelRun` orders off the
   * front of the queue, cancelling each; if a cancel throws, the calls end with it and the queue
   * keeps that order at its front.
   */
  ghost predicate ReductionResult<K>(ordersArr: seq<SyntheticOrder>, toRemove: real, accept: Call<K> -> bool,
                                     calls: seq<Call<K>>, remaining: seq<SyntheticOrder>, threw: bool)
  {
    var k := CancelRun(ordersArr, toRemove);
    var j := FirstRejected(Cancels<K>(ordersArr[..k]), accept);
    && (threw <==> j < k)
    && (threw ==> calls == Cancels<K>(ordersArr[..k])[..j + 1] && remaining == ordersArr[j..])
    && (!threw ==> calls == Cancels<K>(ordersArr[..k]) && remaining == ordersArr[k..])
  }

  /** The loop's exit by a throw at the `i`-th front order. */
  lemma ReductionThrows<K>(ordersArr: seq<SyntheticOrder>, toRemove: real, accept: Call<K> -> bool, i: nat)
    requires i < CancelRun(ordersArr, toRemove)
    requires forall m :: 0 <= m < i ==> accept(Cancel(ordersArr[m].id))
    requires !accept(Cancel(ordersArr[i].id))
    ensures ReductionResult(ordersArr, toRemove, accept, Cancels<K>(ordersArr[..i + 1]), ordersArr[i..], true)
  {
    var k := CancelRun(ordersArr, toRemove);
    var cancels: seq<Call<K>> := Cancels(ordersArr[..k]);
    assert cancels[i] == Cancel(ordersArr[i].id);
    assert forall m :: 0 <= m < i ==> accept(cancels[m]);
    assert FirstRejected(cancels, accept) == i;
    assert cancels[..i + 1] == Cancels<K>(ordersArr[..i + 1]);
  }

  /** The loop's normal exit after `CancelRun` cancels that all resolved. */
  lemma ReductionResolves<K>(ordersArr: seq<SyntheticOrder>, toRemove: real, accept: Call<K> -> bool)
    requires forall m :: 0 <= m < CancelRun(ordersArr, toRemove) ==> accept(Cancel(ordersArr[m].id))
    ensures var k := CancelRun(ordersArr, toRemove);
            ReductionResult(ordersArr, toRemove, accept, Cancels<K>(ordersArr[..k]), ordersArr[k..], false)
  {
    var k := CancelRun(ordersArr, toRemove);
    var cancels: seq<Call<K>> := Cancels(ordersArr[..k]);
    assert forall m :: 0 <= m < k ==> accept(cancels[m]);
    assert FirstRejected(cancels, accept) == k;
  }

  /**
   * The reduction loop of `syncLevels`: while something is left to remove and the queue is not
   * empty, cancel the front order and shift it off. Returns the calls made, what is left of the
   * queue, and whether a cancel threw (the order whose cancel threw is still at the front).
   */
  method CancelFromFront<K>(ordersArr: seq<SyntheticOrder>, toRemove: real, accept: Call<K> -> bool)
    returns (calls: seq<Call<K>>, remaining: seq<SyntheticOrder>, threw: bool)
    ensures ReductionResult(ordersArr, toRemove, accept, calls, remaining, threw)
  {
    calls, remaining, threw := [], ordersArr, false;
    var left := toRemove;
    ghost var i: nat := 0;
    while left > 0.0 && |remaining| > 0
      invariant i <= |ordersArr| && remaining == ordersArr[i..]
      invariant CancelRun(ordersArr, toRemove) == i + CancelRun(remaining, left)
      invariant calls == Cancels(ordersArr[..i])
      invariant forall m :: 0 <= m < i ==> accept(Cancel(ordersArr[m].id))
      decreases |remaining|
    {
      var c := Cancel(remaining[0].id);
      CancelsOneMore<K>(ordersArr, i);
      calls := calls + [c];
      if !accept(c) {
        threw := true;
        ReductionThrows(ordersArr, toRemove, accept, i);
        return;
      }
      left := left - remaining[0].size;
      remaining := remaining[1..];
      i := i + 1;
    }
    ReductionResolves(ordersArr, toRemove, accept);
  }

  /** The falling branch of `SyncSide`, given what the reduction loop left. */
  lemma SyncSideFalls<K>(sb: SideBook<K>, side: Side, price: K, newQty: real, id: string, accept: Call<K> -> bool,
                         calls: seq<Call<K>>, remaining: seq<SyntheticOrder>, threw: bool)
    requires newQty < sb.Qty(price)
    requires ReductionResult(sb.QueueAt(price), sb.Qty(price) - newQty, accept, calls, remaining, threw)
    ensures threw ==>
              SyncSide(sb, side, price, newQty, id, accept) == SideStep(sb.(queues := sb.queues[price := remaining]), calls, true)
    ensures !threw ==>
              SyncSide(sb, side, price, newQty, id, accept) ==
              SideStep(SideBook(sb.levels[price := newQty], if remaining == [] then sb.queues - {price} else sb.queues[price := remaining]), calls, false)
  {
  }

  // ------------------------------------------------------------ the worker

  /** The worker's module-level maps, updated in place by `syncLevels`. */
  class FeedMirror<K(==)> {
    var asks: map<K, real>
    var bids: map<K, real>
    var buyOrders: map<K, seq<SyntheticOrder>>
    var sellOrders: map<K, seq<SyntheticOrder>>

    function State(): FeedBook<K>
      reads this
    {
      FeedBook(SideBook(bids, buyOrders), SideBook(asks, sellOrders))
    }

    constructor ()
      ensures State() == EmptyBook()
    {
      asks, bids, buyOrders, sellOrders := map[], map[], map[], map[];
    }

    /** Writes the tracked quantities and the queues of one side. */
    method Store(side: Side, levels: map<K, real>, queues: map<K, seq<SyntheticOrder>>)
      modifies this
      ensures State() == old(State()).With(side, SideBook(levels, queues))
    {
      if side == Buy {
        bids, buyOrders := levels, queues;
      } else {
        asks, sellOrders := levels, queues;
      }
    }

    /** `syncLevels(side, price, newQty)`, placing with id `id` if it places at all. */
    method SyncLevels(side: Side, price: K, newQty: real, id: string, accept: Call<K> -> bool)
      returns (calls: seq<Call<K>>, threw: bool)
      modifies this
      ensures Step(State(), calls, threw) == Sync(old(State()), side, price, newQty, id, accept)
      ensures old(Consistent(State())) ==> Consistent(State())
    {
      ghost var b := State();
      ghost var sb := b.Of(side);
      calls, threw := [], false;
      var levels := if side == Sell then asks else bids;
      var queues := if side == Buy then buyOrders else sellOrders;
      assert sb == SideBook(levels, queues);
      var prevQty := if price in levels then levels[price] else 0.0;
      var delta := newQty - prevQty;
      if delta == 0.0 {
        assert SyncSide(sb, side, price, newQty, id, accept) == SideStep(sb, [], false);
      } else if delta > 0.0 {
        var c := PlaceLimit(id, side, price, delta);
        calls := [c];
        if !accept(c) {
          threw := true;
          assert SyncSide(sb, side, price, newQty, id, accept) == SideStep(sb, calls, true);
        } else {
          var q := if price in queues then queues[price] else [];
          var after := SideBook(levels[price := newQty], queues[price := q + [SyntheticOrder(id, delta)]]);
          assert SyncSide(sb, side, price, newQty, id, accept) == SideStep(after, calls, false);
          Store(side, after.levels, after.queues);
        }
      } else {
        var ordersArr := if price in queues then queues[price] else [];
        var remaining;
        calls, remaining, threw := CancelFromFront(ordersArr, -delta, accept);
        SyncSideFalls(sb, side, price, newQty, id, accept, calls, remaining, threw);
        // `ordersArr` is the array stored in the map: on a throw the orders shifted off it so far stay off.
        if threw {
          Store(side, levels, queues[price := remaining]);
        } else {
          Store(side, levels[price := newQty], if remaining == [] then queues - {price} else queues[price := remaining]);
        }
      }
      if Consistent(b) {
        SyncKeepsInvariants(b, side, price, newQty, id, accept);
      }
    }

    /** Awaiting `syncLevels` for each update in turn, stopping at the first throw. */
    method SyncAllLevels(updates: seq<Update<K>>, ids: nat -> string, accept: Call<K> -> bool)
      returns (calls: seq<Call<K>>, threw: bool)
      modifies this
      ensures Step(State(), calls, threw) == SyncAll(old(State()), updates, ids, 0, accept)
    {
      calls, threw := [], false;
      var i := 0;
      while i < |updates|
        invariant 0 <= i <= |updates|
        invariant After(calls, SyncAll(State(), updates[i..], ids, i, accept)) == SyncAll(old(State()), updates, ids, 0, accept)
      {
        ghost var before := State();
        var u := updates[i];
        assert updates[i..][0] == u && updates[i..][1..] == updates[i + 1..];
        var c, t := SyncLevels(u.side, u.price, u.qty, ids(i), accept);
        SyncAllStep(before, updates[i..], ids, i, accept, calls, Step(State(), c, t));
        calls := calls + c;
        if t {
          threw := true;
          return;
        }
        i := i + 1;
      }
      assert updates[i..] == [];
      assert calls + [] == calls;
    }
  }
}
