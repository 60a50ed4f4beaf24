/**
 * The persistent donation queue (`DatabaseManager`): the `queue_items` table
 * and the single `queue_stats` row with id 1. `AddToQueue` and
 * `MarkProcessed` each stand for one `sqlite3` transaction; a storage failure
 * (`fail`) rolls it back, so the method changes nothing and reports False.
 * The reads report None or zero statistics on failure.
 */
module Ledger {
  import opened Wrappers

  /** A row of `queue_items`. `createdAt` is the `CURRENT_TIMESTAMP` stamp
      (whole seconds) taken at insert. */
  datatype Item = Item(
    id: int,
    username: string,
    message: string,
    amount: real,
    timestamp: string,
    processed: bool,
    createdAt: int)

  /** The `queue_stats` row with id 1. */
  datatype Totals = Totals(totalProcessed: int, totalAmount: real)

  /** The dictionary `get_queue_stats` returns. */
  datatype Stats = Stats(
    totalInQueue: nat,
    totalAmountPending: real,
    totalProcessed: int,
    totalAmountProcessed: real)

  /** What `get_queue_stats` reports after a storage error. */
  const ZeroStats := Stats(0, 0.0, 0, 0.0)

  /** The totals row a fresh `init_database` inserts. */
  const FreshTotals := Totals(0, 0.0)

  // ---------------------------------------------------------------------
  // Aggregates over the item table
  // ---------------------------------------------------------------------

  /** `COUNT(*) ... WHERE processed = FALSE` */
  function PendingCount(items: seq<Item>): (n: nat)
    ensures n <= |items|
    ensures n == 0 <==> forall i :: 0 <= i < |items| ==> items[i].processed
  {
    if items == [] then 0
    else
      var init := items[..|items| - 1];
      assert forall i :: 0 <= i < |init| ==> init[i] == items[i];
      PendingCount(init) + (if items[|items| - 1].processed then 0 else 1)
  }

  /** `COALESCE(SUM(amount), 0) ... WHERE processed = FALSE` */
  function PendingAmount(items: seq<Item>): (sum: real)
    ensures (forall i :: 0 <= i < |items| ==> items[i].processed) ==> sum == 0.0
    ensures (forall i :: 0 <= i < |items| ==> items[i].amount >= 0.0) ==> sum >= 0.0
  {
    if items == [] then 0.0
    else PendingAmount(items[..|items| - 1]) + (if items[|items| - 1].processed then 0.0 else items[|items| - 1].amount)
  }

  /** Number of rows whose `processed` flag is set. */
  function ProcessedCount(items: seq<Item>): nat
  {
    if items == [] then 0
    else ProcessedCount(items[..|items| - 1]) + (if items[|items| - 1].processed then 1 else 0)
  }

  /** Every row is either pending or processed. */
  lemma {:induction false} CountsPartition(items: seq<Item>)
    ensures PendingCount(items) + ProcessedCount(items) == |items|
  {
    if items != [] {
      CountsPartition(items[..|items| - 1]);
    }
  }

  /** Appending a pending row adds one to the pending count and its amount to
      the pending sum, and leaves the processed count alone. */
  lemma AppendPending(items: seq<Item>, it: Item)
    requires !it.processed
    ensures PendingCount(items + [it]) == PendingCount(items) + 1
    ensures PendingAmount(items + [it]) == PendingAmount(items) + it.amount
    ensures ProcessedCount(items + [it]) == ProcessedCount(items)
  {
    assert (items + [it])[..|items|] == items;
  }

  // ---------------------------------------------------------------------
  // Well-formed tables
  // ---------------------------------------------------------------------

  /** AUTOINCREMENT ids grow with insertion order and stay below the next id
      to hand out; `created_at` stamps never decrease and never pass the
      latest stamp handed out. */
  ghost predicate WellFormed(items: seq<Item>, nextId: int, clock: int)
  {
    && (forall i, j :: 0 <= i < j < |items| ==> items[i].id < items[j].id)
    && (forall i, j :: 0 <= i < j < |items| ==> items[i].createdAt <= items[j].createdAt)
    && (forall i :: 0 <= i < |items| ==> items[i].id < nextId && items[i].createdAt <= clock)
  }

  /** Appending a row with the next id and a later stamp keeps the table
      well formed. */
  lemma WellFormedAppend(items: seq<Item>, nextId: int, clock: int, it: Item, elapsed: nat)
    requires WellFormed(items, nextId, clock)
    requires it.id == nextId && it.createdAt == clock + elapsed
    ensures WellFormed(items + [it], nextId + 1, clock + elapsed)
  {
  }

  /** No two rows share an id. */
  ghost predicate UniqueIds(items: seq<Item>)
  {
    forall i, j :: 0 <= i < |items| && 0 <= j < |items| && items[i].id == items[j].id ==> i == j
  }

  lemma WellFormedUniqueIds(items: seq<Item>, nextId: int, clock: int)
    requires WellFormed(items, nextId, clock)
    ensures UniqueIds(items)
  {
  }

  // ---------------------------------------------------------------------
  // `ORDER BY created_at ASC LIMIT 1`
  // ---------------------------------------------------------------------

  /** The index of a pending row with the smallest `created_at`, the first
      such row in insertion order when stamps tie; None when nothing is
      pending. */
  function OldestPending(items: seq<Item>): (r: Option<nat>)
    ensures r.None? <==> forall i :: 0 <= i < |items| ==> items[i].processed
    ensures r.Some? ==> r.value < |items| && !items[r.value].processed
    ensures r.Some? ==> forall j :: 0 <= j < |items| && !items[j].processed ==>
                          items[r.value].createdAt <= items[j].createdAt
    ensures r.Some? ==> forall j :: 0 <= j < r.value && !items[j].processed ==>
                          items[r.value].createdAt < items[j].createdAt
  {
    if items == [] then None
    else
      var n := |items| - 1;
      var r := OldestPending(items[..n]);
      assert forall i :: 0 <= i < n ==> items[..n][i] == items[i];
      if items[n].processed then r
      else if r.None? || items[n].createdAt < items[r.value].createdAt then Some(n)
      else r
  }

  /** With stamps that never decrease, the oldest pending row is the first
      pending row: the queue is served first in, first out. */
  lemma OldestIsFirstPending(items: seq<Item>, nextId: int, clock: int)
    requires WellFormed(items, nextId, clock)
    requires OldestPending(items).Some?
    ensures forall j :: 0 <= j < OldestPending(items).value ==> items[j].processed
  {
  }

  // ---------------------------------------------------------------------
  // `UPDATE queue_items SET processed = TRUE WHERE id = ?`
  // ---------------------------------------------------------------------

  /** The table after setting `processed` on every row with the given id. */
  function Marked(items: seq<Item>, id: int): (r: seq<Item>)
    ensures |r| == |items|
    ensures forall i :: 0 <= i < |items| ==> r[i].processed == (items[i].processed || items[i].id == id)
    ensures forall i :: 0 <= i < |items| ==> r[i] == items[i].(processed := r[i].processed)
  {
    seq(|items|, i requires 0 <= i < |items| =>
      if items[i].id == id then items[i].(processed := true) else items[i])
  }

  lemma MarkedPrefix(items: seq<Item>, id: int)
    requires items != []
    ensures Marked(items, id)[..|items| - 1] == Marked(items[..|items| - 1], id)
  {
  }

  /** Marking an id that no pending row carries changes nothing: an unknown
      id, or a row that was already processed. */
  lemma {:induction false} MarkedNoPendingIsIdentity(items: seq<Item>, id: int)
    requires forall i :: 0 <= i < |items| && items[i].id == id ==> items[i].processed
    ensures Marked(items, id) == items
  {
    var m := Marked(items, id);
    assert forall i :: 0 <= i < |items| ==> m[i] == items[i];
  }

  /** Marking the pending row `k` (ids unique) takes one row and its amount
      off the pending figures and adds one to the processed count. */
  lemma {:induction false} MarkedPending(items: seq<Item>, id: int, k: nat)
    requires UniqueIds(items)
    requires k < |items| && items[k].id == id && !items[k].processed
    ensures PendingCount(Marked(items, id)) == PendingCount(items) - 1
    ensures PendingAmount(Marked(items, id)) == PendingAmount(items) - items[k].amount
    ensures ProcessedCount(Marked(items, id)) == ProcessedCount(items) + 1
    decreases |items|
  {
    var n := |items| - 1;
    var init := items[..n];
    MarkedPrefix(items, id);
    var m := Marked(items, id);
    assert |m| == |items| && m[..n] == Marked(init, id);
    assert forall i :: 0 <= i < n ==> init[i] == items[i];
    if k == n {
      assert m[n].processed;
      MarkedNoPendingIsIdentity(init, id);
      assert m[..n] == init;
    } else {
      assert UniqueIds(init);
      MarkedPending(init, id, k);
      assert m[n] == items[n];
    }
  }

  /** Marking an id leaves the processed count where it was or one higher. */
  lemma MarkedProcessedCount(items: seq<Item>, id: int)
    requires UniqueIds(items)
    ensures ProcessedCount(items) <= ProcessedCount(Marked(items, id)) <= ProcessedCount(items) + 1
  {
    if k :| 0 <= k < |items| && items[k].id == id && !items[k].processed {
      MarkedPending(items, id, k);
    } else {
      MarkedNoPendingIsIdentity(items, id);
    }
  }

  /** `UPDATE queue_stats SET total_processed = total_processed + 1 WHERE id = 1`:
      a missing row stays missing. */
  function Bumped(totals: Option<Totals>): (r: Option<Totals>)
    ensures r.Some? <==> totals.Some?
    ensures r.Some? ==> r.value.totalProcessed == totals.value.totalProcessed + 1
    ensures r.Some? ==> r.value.totalAmount == totals.value.totalAmount
  {
    match totals
    case None => None
    case Some(t) => Some(t.(totalProcessed := t.totalProcessed + 1))
  }

  // ---------------------------------------------------------------------
  // The store
  // ---------------------------------------------------------------------

  class DatabaseManager {
    /** `queue_items`, in insertion order. */
    var items: seq<Item>
    /** The id AUTOINCREMENT hands to the next insert. */
    var nextId: int
    /** The latest `CURRENT_TIMESTAMP` stamp handed out. */
    var clock: int
    /** The `queue_stats` row with id 1, if the table holds one. */
    var totals: Option<Totals>

    ghost predicate Valid()
      reads this
    {
      WellFormed(items, nextId, clock)
    }

    /** The processed counter agrees with the rows. */
    ghost predicate CountsExact()
      reads this
    {
      totals.Some? && totals.value.totalProcessed == ProcessedCount(items)
    }

    /** The processed counter is at least the number of processed rows. */
    ghost predicate NoUndercount()
      reads this
    {
      totals.Some? ==> ProcessedCount(items) <= totals.value.totalProcessed
    }

    /** `DatabaseManager(db_path)` over a database file holding the given
        tables (empty ones for a new file), followed by `init_database`. */
    constructor (items0: seq<Item>, nextId0: int, clock0: int, totals0: Option<Totals>, fail: bool)
      requires WellFormed(items0, nextId0, clock0)
      ensures Valid()
      ensures items == items0 && nextId == nextId0 && clock == clock0
      ensures totals == if !fail && totals0.None? then Some(FreshTotals) else totals0
    {
      items, nextId, clock, totals := items0, nextId0, clock0, totals0;
      new;
      InitDatabase(fail);
    }

    /** `init_database`: creates the tables if needed and inserts the totals
        row only when the stats table is empty; an existing row is kept. */
    method InitDatabase(fail: bool)
      modifies this`totals
      ensures totals == if !fail && old(totals).None? then Some(FreshTotals) else old(totals)
    {
      if !fail && totals.None? {
        totals := Some(FreshTotals);
      }
    }

    /** `add_to_queue`: inserts one pending row carrying the donation, a
        fresh id and a stamp `elapsed` seconds after the latest one. */
    method AddToQueue(username: string, message: string, amount: real, timestamp: string, elapsed: nat, fail: bool)
      returns (ok: bool)
      requires Valid()
      modifies this
      ensures Valid()
      ensures ok == !fail
      ensures ok ==> items == old(items) + [Item(old(nextId), username, message, amount, timestamp, false, old(clock) + elapsed)]
      ensures ok ==> forall i :: 0 <= i < |old(items)| ==> old(items)[i].id < items[|items| - 1].id
      ensures ok ==> nextId == old(nextId) + 1 && clock == old(clock) + elapsed
      ensures !ok ==> items == old(items) && nextId == old(nextId) && clock == old(clock)
      ensures totals == old(totals)
      ensures old(NoUndercount()) ==> NoUndercount()
      ensures old(CountsExact()) ==> CountsExact()
    {
      if fail {
        return false;
      }
      var it := Item(nextId, username, message, amount, timestamp, false, clock + elapsed);
      AppendPending(items, it);
      WellFormedAppend(items, nextId, clock, it, elapsed);
      items := items + [it];
      nextId := nextId + 1;
      clock := clock + elapsed;
      ok := true;
    }

    /** `get_next_item`: reads the oldest pending row without changing
        anything. */
    method GetNextItem(fail: bool) returns (r: Option<Item>)
      requires Valid()
      ensures fail ==> r.None?
      ensures !fail ==> (r.None? <==> PendingCount(items) == 0)
      ensures r.Some? ==> r.value in items && !r.value.processed
      ensures r.Some? ==> forall j :: 0 <= j < |items| && !items[j].processed ==>
                            r.value.createdAt <= items[j].createdAt
      ensures !fail ==> (r.Some? <==> OldestPending(items).Some?)
      ensures !fail && r.Some? ==> r.value == items[OldestPending(items).value]
    {
      if fail {
        return None;
      }
      var k := OldestPending(items);
      if k.Some? {
        r := Some(items[k.value]);
      } else {
        r := None;
      }
    }

    /** `mark_processed`: flags the row with that id and adds one to the
        processed counter, whether or not a pending row had that id. The
        amount counter is not touched. */
    method MarkProcessed(itemId: int, fail: bool) returns (ok: bool)
      requires Valid()
      modifies this
      ensures Valid()
      ensures ok == !fail
      ensures ok ==> items == Marked(old(items), itemId) && totals == Bumped(old(totals))
      ensures !ok ==> items == old(items) && totals == old(totals)
      ensures nextId == old(nextId) && clock == old(clock)
      ensures old(NoUndercount()) ==> NoUndercount()
    {
      if fail {
        return false;
      }
      WellFormedUniqueIds(items, nextId, clock);
      MarkedProcessedCount(items, itemId);
      items := Marked(items, itemId);
      totals := Bumped(totals);
      ok := true;
    }

    /** `get_queue_stats`: the pending figures come from the rows, the
        processed figures from totals row 1 (zeros when it is missing). */
    method GetQueueStats(fail: bool) returns (s: Stats)
      requires Valid()
      ensures fail ==> s == ZeroStats
      ensures !fail ==> s.totalInQueue == PendingCount(items) && s.totalAmountPending == PendingAmount(items)
      ensures !fail && totals.Some? ==> s.totalProcessed == totals.value.totalProcessed &&
                                        s.totalAmountProcessed == totals.value.totalAmount
      ensures !fail && totals.None? ==> s.totalProcessed == 0 && s.totalAmountProcessed == 0.0
    {
      if fail {
        return ZeroStats;
      }
      var processed, amount := 0, 0.0;
      if totals.Some? {
        processed, amount := totals.value.totalProcessed, totals.value.totalAmount;
      }
      s := Stats(PendingCount(items), PendingAmount(items), processed, amount);
    }
  }
}
