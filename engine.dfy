/**
 * What both engine wrappers share: the matching library they wrap, kept abstract, the choice of
 * library call for an order type, and the every-100-operations snapshot rule.
 *
 * The library (`nodejs-order-book`) is not part of this model. A book of it is a value of the
 * type parameter `B`; its `limit`, `market`, `cancel` and `snapshot` calls are total functions
 * handed in as a `Library` value, and a journal entry it produces is a value of type `L`.
 */
module Engine {
  import opened Wrappers
  import opened Depth

  /** The fields of an order request that the wrappers look at; the rest goes to the library untouched. */
  datatype OrderParams = OrderParams(id: string, side: string, price: Option<real>, size: real, orderType: Option<string>)

  /** What `ob.limit(params)` or `ob.market(params)` does: a new book and the result's `log`, or a throw. */
  datatype Outcome<B, L> = Done(book: B, log: Option<L>) | Threw(reason: string)

  /** A truthy result of `ob.cancel(id)`, with its `log`. */
  datatype Removed<L> = Removed(log: Option<L>)

  /** The matching library, as uninterpreted operations. */
  datatype Library<!B, L> = Library(
    limit: (B, OrderParams) -> Outcome<B, L>,
    market: (B, OrderParams) -> Outcome<B, L>,
    cancel: (B, string) -> (B, Option<Removed<L>>),
    snapshot: B -> BookSnapshot)

  /** The errors the wrappers throw. */
  datatype EngineError =
    | UnsupportedMarket(market: string)          // `Market ${market} not supported`
    | UnsupportedOrderType(orderType: string)    // `Unsupported order type ${type}`
    | LibraryError(reason: string)               // rethrown from the library

  const SnapshotInterval: nat := 100

  /** `const { type = 'limit' } = params`. */
  function OrderType(p: OrderParams): (t: string)
    ensures p.orderType.None? ==> t == "limit"
    ensures p.orderType.Some? ==> t == p.orderType.value
  {
    p.orderType.GetOr("limit")
  }

  /**
   * The order-type dispatch of `placeOrder`: `market` and `limit` go to the library call of that
   * name, and any other type is refused before the library is touched.
   */
  function Dispatch<B, L>(lib: Library<B, L>, book: B, p: OrderParams): (r: Result<(B, Option<L>), EngineError>)
    ensures OrderType(p) !in {"limit", "market"} <==> r == Err(UnsupportedOrderType(OrderType(p)))
    ensures OrderType(p) == "market" && lib.market(book, p).Done? ==> r == Ok((lib.market(book, p).book, lib.market(book, p).log))
    ensures OrderType(p) == "limit" && lib.limit(book, p).Done? ==> r == Ok((lib.limit(book, p).book, lib.limit(book, p).log))
    ensures OrderType(p) == "market" && lib.market(book, p).Threw? ==> r == Err(LibraryError(lib.market(book, p).reason))
    ensures OrderType(p) == "limit" && lib.limit(book, p).Threw? ==> r == Err(LibraryError(lib.limit(book, p).reason))
  {
    var t := OrderType(p);
    if t != "market" && t != "limit" then Err(UnsupportedOrderType(t))
    else
      var outcome := if t == "market" then lib.market(book, p) else lib.limit(book, p);
      match outcome
      case Done(b, log) => Ok((b, log))
      case Threw(reason) => Err(LibraryError(reason))
  }

  /** `maybeSnapshot` writes a snapshot exactly when the incremented counter is a multiple of 100. */
  predicate SnapshotDue(count: nat) {
    count % SnapshotInterval == 0
  }

  /** How many snapshots `k` further counted operations write, starting from counter value `c`. */
  function SnapshotsWritten(c: nat, k: nat): nat {
    if k == 0 then 0 else SnapshotsWritten(c, k - 1) + (if SnapshotDue(c + k) then 1 else 0)
  }

  /**
   * The snapshot cadence: from counter value `c`, the next `k` counted operations write one
   * snapshot per multiple of 100 they pass, no more and no fewer.
   */
  lemma {:induction false} SnapshotCadence(c: nat, k: nat)
    ensures SnapshotsWritten(c, k) == (c + k) / 100 - c / 100
  {
    if k > 0 {
      SnapshotCadence(c, k - 1);
      var n := c + k - 1;
      assert (n + 1) / 100 == n / 100 + (if (n + 1) % 100 == 0 then 1 else 0);
    }
  }
}
