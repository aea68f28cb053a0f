/**
 * The single-market engine wrapper of server/orderBook.js: one library book for `BTCUSDT`, one
 * module-wide operation counter, its journal and its snapshot slot, with `placeOrder`,
 * `cancelOrder` and `depth(level = 10)`.
 */
module SingleMarket {
  import opened Wrappers
  import opened Levels
  import opened Depth
  import opened Engine

  const Market := "BTCUSDT"

  const DefaultDepthLevels := 10

  class SingleMarketEngine<B, L> {
    const lib: Library<B, L>
    /** `ob`. */
    var book: B
    /** The journal `persistLog` appends to. */
    var journal: seq<L>
    /** `opCounter`. */
    var opCounter: nat
    /** The snapshot slot `maybeSnapshot` overwrites. */
    var lastSnapshot: Option<BookSnapshot>
    /** How many snapshots `maybeSnapshot` has written so far. */
    ghost var snapshotsWritten: nat

    /** Every journal entry was followed by a counted operation. */
    ghost predicate JournalWithinCount()
      reads this
    {
      |journal| <= opCounter
    }

    /** One snapshot has been written per multiple of 100 the counter has reached. */
    ghost predicate CadenceKept()
      reads this
    {
      snapshotsWritten == opCounter / SnapshotInterval
    }

    constructor (lib: Library<B, L>, book: B)
      ensures this.lib == lib && this.book == book
      ensures journal == [] && opCounter == 0 && lastSnapshot == None
      ensures JournalWithinCount() && CadenceKept()
    {
      this.lib := lib;
      this.book := book;
      journal := [];
      opCounter := 0;
      lastSnapshot := None;
      snapshotsWritten := 0;
    }

    /** `persistLog`: a present log goes to the end of the journal. */
    method PersistLog(log: Option<L>)
      modifies this
      ensures journal == if log.Some? then old(journal) + [log.value] else old(journal)
      ensures book == old(book) && opCounter == old(opCounter) && lastSnapshot == old(lastSnapshot)
      ensures snapshotsWritten == old(snapshotsWritten)
    {
      if log.Some? {
        journal := journal + [log.value];
      }
    }

    /** `maybeSnapshot`: counts one operation and snapshots the book when the count reaches a multiple of 100. */
    method MaybeSnapshot()
      modifies this
      ensures opCounter == old(opCounter) + 1
      ensures lastSnapshot == if SnapshotDue(opCounter) then Some(lib.snapshot(book)) else old(lastSnapshot)
      ensures book == old(book) && journal == old(journal)
      ensures snapshotsWritten == old(snapshotsWritten) + SnapshotsWritten(old(opCounter), 1)
      ensures old(CadenceKept()) ==> CadenceKept()
    {
      opCounter := opCounter + 1;
      if opCounter % SnapshotInterval == 0 {
        lastSnapshot := Some(lib.snapshot(book));
        snapshotsWritten := snapshotsWritten + 1;
      }
      SnapshotCadence(opCounter - 1, 1);
    }

    /**
     * `placeOrder`: `market` and `limit` (the default) go to the library, any other type throws;
     * a throw changes nothing. A placed order's log, if any, is journalled and the operation is
     * counted either way.
     */
    method PlaceOrder(params: OrderParams) returns (r: Result<Option<L>, EngineError>)
      modifies this
      ensures Dispatch(lib, old(book), params).Err? ==>
                r == Err(Dispatch(lib, old(book), params).error) && unchanged(this)
      ensures Dispatch(lib, old(book), params).Ok? ==>
                var (b, log) := Dispatch(lib, old(book), params).value;
                && r == Ok(log)
                && book == b
                && journal == (if log.Some? then old(journal) + [log.value] else old(journal))
                && opCounter == old(opCounter) + 1
                && lastSnapshot == (if SnapshotDue(opCounter) then Some(lib.snapshot(b)) else old(lastSnapshot))
      ensures old(JournalWithinCount()) ==> JournalWithinCount()
      ensures old(CadenceKept()) ==> CadenceKept()
    {
      var d := Dispatch(lib, book, params);
      if d.Err? {
        return Err(d.error);
      }
      var (b, log) := d.value;
      book := b;
      PersistLog(log);
      MaybeSnapshot();
      r := Ok(log);
    }

    /** `cancelOrder`: the journal and the counter are touched only when the removal carries a log. */
    method CancelOrder(id: string) returns (removed: Option<Removed<L>>)
      modifies this
      ensures (book, removed) == lib.cancel(old(book), id)
      ensures removed.Some? && removed.value.log.Some? ==>
                && journal == old(journal) + [removed.value.log.value]
                && opCounter == old(opCounter) + 1
                && lastSnapshot == (if SnapshotDue(opCounter) then Some(lib.snapshot(book)) else old(lastSnapshot))
      ensures !(removed.Some? && removed.value.log.Some?) ==>
                journal == old(journal) && opCounter == old(opCounter) && lastSnapshot == old(lastSnapshot)
      ensures old(JournalWithinCount()) ==> JournalWithinCount()
      ensures old(CadenceKept()) ==> CadenceKept()
    {
      var b;
      b, removed := lib.cancel(book, id).0, lib.cancel(book, id).1;
      book := b;
      if removed.Some? && removed.value.log.Some? {
        PersistLog(removed.value.log);
        MaybeSnapshot();
      }
    }

    /**
     * `depth(level = 10)`: the depth of the book's snapshot, asks ascending and bids descending,
     * never more than `level` entries per side.
     */
    function Depth(level: int := DefaultDepthLevels): (d: DepthView)
      reads this
      ensures d == DepthOf(lib.snapshot(book), level)
      ensures Ascending(d.asks) && Descending(d.bids)
      ensures 0 <= level ==> |d.asks| <= level && |d.bids| <= level
    {
      var snap := lib.snapshot(book);
      DepthOrdered(snap, level);
      DepthEntriesAreLevelTotals(snap, level);
      DepthOf(snap, level)
    }
  }
}
