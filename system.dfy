/**
 * The orchestrator `TTSQueueSystem`: serves the oldest pending donation to
 * speech synthesis and marks it processed only once synthesis succeeded;
 * refreshes the OBS counter after adding a donation.
 */
module QueueSystem {
  import opened Wrappers
  import opened Ledger
  import Display

  class TTSQueueSystem {
    const db: DatabaseManager

    constructor (db: DatabaseManager)
      ensures this.db == db
    {
      this.db := db;
    }

    /** `update_displays`: the counter text handed to OBS, built from fresh
        statistics (zeros after a storage error). */
    method UpdateDisplays(statsFail: bool) returns (text: string)
      requires db.Valid()
      ensures statsFail ==> Display.ParseQueueText(text) == Some((0, 0))
      ensures !statsFail ==>
        var done := if db.totals.Some? then db.totals.value.totalProcessed else 0;
        Display.ParseQueueText(text) == Some((done, done + PendingCount(db.items)))
    {
      var stats := db.GetQueueStats(statsFail);
      text := Display.QueueText(stats);
    }

    /** `TTSQueueSystem.add_to_queue`: stores the donation and, when that
        worked, refreshes the counter. */
    method AddToQueue(username: string, message: string, amount: real, timestamp: string,
                      elapsed: nat, fail: bool, statsFail: bool)
      returns (ok: bool)
      requires db.Valid()
      modifies db
      ensures db.Valid()
      ensures ok == !fail
      ensures ok ==> db.items == old(db.items) + [Item(old(db.nextId), username, message, amount, timestamp, false, old(db.clock) + elapsed)]
      ensures !ok ==> db.items == old(db.items)
      ensures ok ==> db.nextId == old(db.nextId) + 1 && db.clock == old(db.clock) + elapsed
      ensures !ok ==> db.nextId == old(db.nextId) && db.clock == old(db.clock)
      ensures db.totals == old(db.totals)
    {
      ok := db.AddToQueue(username, message, amount, timestamp, elapsed, fail);
      if ok {
        var _ := UpdateDisplays(statsFail);
      }
    }

    /** `process_next_item`: takes the oldest pending row, speaks
        "<username> said <message>" through `speak`, and only when that
        succeeded marks the row processed; the outcome of the mark is not
        looked at, so the step reports success even when the mark failed. */
    method ProcessNextItem(speak: string -> bool, nextFails: bool, markFails: bool) returns (ok: bool)
      requires db.Valid()
      modifies db
      ensures db.Valid()
      ensures nextFails || OldestPending(old(db.items)).None? ==>
                !ok && db.items == old(db.items) && db.totals == old(db.totals)
      ensures !nextFails && OldestPending(old(db.items)).Some? ==>
                var k := OldestPending(old(db.items)).value;
                var it := old(db.items)[k];
                && ok == speak(Display.TtsText(it.username, it.message))
                && (ok && !markFails ==> db.items == Marked(old(db.items), it.id) && db.totals == Bumped(old(db.totals)))
                && (ok && !markFails ==> forall i :: 0 <= i < |db.items| ==>
                                           db.items[i].processed == (old(db.items)[i].processed || i == k))
                && (!ok || markFails ==> db.items == old(db.items) && db.totals == old(db.totals))
      ensures old(db.CountsExact()) ==> db.CountsExact()
      ensures db.nextId == old(db.nextId) && db.clock == old(db.clock)
    {
      var item := db.GetNextItem(nextFails);
      if item.None? {
        return false;
      }
      var it := item.value;
      ghost var before := db.items;
      ghost var k := OldestPending(before).value;
      if speak(Display.TtsText(it.username, it.message)) {
        WellFormedUniqueIds(before, db.nextId, db.clock);
        MarkedPending(before, it.id, k);
        assert forall i :: 0 <= i < |before| ==> (before[i].id == it.id <==> i == k);
        var _ := db.MarkProcessed(it.id, markFails);
        ok := true;
      } else {
        ok := false;
      }
    }
  }
}
