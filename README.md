# TTS donation queue: a Dafny model

This project models the core of the TTS donation queue in `tts_queue.py`. A
stream donation is stored as a row of a persistent queue. A Stream Deck
button triggers the processing step. That step speaks the oldest pending
donation as "<username> said <message>" and, only when speech succeeded,
flags the row processed and adds one to the processed counter. Around this
the model covers the configuration document (dotted-path lookup and deep
merge over built-in defaults) and the small text and flag rules: the speech
sentence, the OBS counter text, the Discord enabled flag and the defaults of
the `/add_donation` request body.

Modules:

- `Wrappers` (wrappers.dfy): `Option` and `Result`.
- `Config` (config.dfy): the configuration as a JSON value. It covers
  `str.split('.')` and its inverse `Join`, and `Config.get` as a loop method
  proved against the recursive walk `Find`. It also covers `_deep_merge` as a
  loop method proved against the merge function `Merged`, and
  `load_config`'s merge over `default_config`.
- `Ledger` (ledger.dfy): `DatabaseManager` as a class over the `queue_items`
  rows (`items: seq<Item>`), the AUTOINCREMENT counter, the latest
  `CURRENT_TIMESTAMP` stamp and the `queue_stats` row with id 1.
  `add_to_queue` and `mark_processed` are each one SQLite transaction. A
  `fail` argument stands for a storage error: a write rolls back and yields
  False, a read yields None or zero statistics.
- `Display` (display.dfy): the speech sentence, the OBS counter text with a
  parser that reads it back, the Discord enabled flag and send result, and
  the request-body defaults.
- `QueueSystem` (system.dfy): `TTSQueueSystem.process_next_item`,
  `add_to_queue` and `update_displays` over one `DatabaseManager`.

Facts about the code that the contracts make explicit:

- `mark_processed` (tts_queue.py:207-211), of the two counters, updates only
  `total_processed`; it also stamps `last_updated`, which is not modelled.
  `total_amount` keeps the value the totals row was created with (0.0 for a
  new database), so `total_amount_processed` never moves.
- `mark_processed` (tts_queue.py:200-217) adds one to `total_processed` on
  every call that does not raise, also for an unknown id or a row that was
  already processed.
- `get_next_item` (tts_queue.py:188-195) orders by `created_at` only, with
  no tie-break by id, and `created_at` has one-second resolution. The model
  picks the first such row in insertion order, which is one admissible
  choice.
- `add_to_queue` (tts_queue.py:170-182) stores the amount and the username
  as given: negative amounts and empty usernames are accepted.

## Model

| member | source | states |
|---|---|---|
| Config.Split | tts_queue.py:123 | `key_path.split('.')` always yields at least one piece, so the lookup loop walks at least one key |
| Config.SplitPiecesPlain | tts_queue.py:123 | no piece of a split contains the separator |
| Config.JoinSplit | tts_queue.py:123 | joining the pieces of a split with the separator gives back the original path |
| Config.SplitJoin | tts_queue.py:123 | splitting a join of dot-free pieces gives back exactly those pieces |
| Config.FindAppend | tts_queue.py:124-129 | walking a key path in two stages reaches the same value as walking it at once, and fails iff either stage fails |
| Config.Get | tts_queue.py:121-130 | the loop returns `Lookup(config, key_path, default)`: the value reached by following the dot-separated keys in order, or `default` as soon as the current value is not an object or lacks the key |
| Config.Find | tts_queue.py:124-129 | an empty key path reaches the value itself; a non-empty one succeeds only if the value is an object holding the first key, and fails whenever it is not |
| Config.LookupJoined | tts_queue.py:121-130 | looking up the dotted join of a key sequence walks exactly that key sequence |
| Config.Merged | tts_queue.py:113-119 | the merged object has exactly the keys of base and update; keys only in base keep their values; a key of the update wins outright unless base and update both hold an object there |
| Config.DeepMerge | tts_queue.py:113-119 | the key-by-key loop with recursion into nested objects produces exactly `Merged(base, update)`, whatever order it takes the keys in |
| Config.MergedEmptyUpdate | tts_queue.py:113-119 | merging an empty update leaves the base unchanged |
| Config.FindMergedUpdateWins | tts_queue.py:116-119 | at any key path where the update holds a non-object value, the merged configuration holds that value |
| Config.FindMergedKeepsBase | tts_queue.py:115-117 | a base value at a path the update does not reach (a missing key below objects only) survives the merge at any depth |
| Config.DefaultConfig | tts_queue.py:60-84 | the defaults hold exactly the sections obs, discord, tts, server and database, each an object |
| Config.LoadConfig | tts_queue.py:87-103 | a file whose top level is an object gives exactly the defaults deep-merged with it; a missing or unreadable file, or a non-object document, gives exactly the defaults; either way every default section is present |
| Ledger.CountsPartition | tts_queue.py:150 | every row is counted exactly once, as pending or as processed |
| Ledger.PendingCount | tts_queue.py:224-228 | the pending `COUNT(*)` is at most the number of rows and is zero exactly when every row is processed |
| Ledger.PendingAmount | tts_queue.py:224-228 | the pending `SUM(amount)` is 0.0 when no row is pending and is non-negative when no amount is negative |
| Ledger.AppendPending | tts_queue.py:174-177 | inserting a pending row raises the pending count by one and the pending sum by its amount, and leaves the processed count alone |
| Ledger.OldestPending | tts_queue.py:188-195 | None iff no row is pending; otherwise a pending row whose `created_at` is minimal among pending rows, and no earlier pending row shares that stamp |
| Ledger.OldestIsFirstPending | tts_queue.py:151 | with non-decreasing `created_at` stamps, every row before the selected one is processed: the queue is served first in, first out |
| Ledger.WellFormedUniqueIds | tts_queue.py:145 | AUTOINCREMENT ids that grow with insertion order are unique |
| Ledger.Marked | tts_queue.py:205 | the UPDATE leaves a row processed exactly when it was processed already or carries that id, changes no other field and keeps every row |
| Ledger.MarkedNoPendingIsIdentity | tts_queue.py:205 | marking an unknown id, or the id of a row already processed, leaves the table as it was |
| Ledger.MarkedPending | tts_queue.py:205 | marking a pending row lowers the pending count by one and the pending sum by its amount, and raises the processed count by one |
| Ledger.MarkedProcessedCount | tts_queue.py:205 | marking any id raises the number of processed rows by at most one |
| Ledger.Bumped | tts_queue.py:207-211 | the totals update adds exactly one to `total_processed`, keeps `total_amount`, and affects nothing when row 1 is missing |
| Ledger.DatabaseManager.constructor | tts_queue.py:135-137 | opening a store keeps its rows and gives it a totals row (0, 0.0) only if it had none and initialisation did not fail |
| Ledger.DatabaseManager.InitDatabase | tts_queue.py:139-168 | inserts the totals row (0, 0.0) only when there is none; an existing row is never overwritten |
| Ledger.DatabaseManager.AddToQueue | tts_queue.py:170-182 | appends exactly one pending row with the given username, message and amount, a fresh id larger than every existing one and a non-decreasing stamp; the existing rows and the totals row are unchanged; a storage error changes nothing and returns False |
| Ledger.DatabaseManager.GetNextItem | tts_queue.py:184-198 | changes nothing; None iff storage failed or no row is pending; otherwise a pending row with minimal `created_at` |
| Ledger.DatabaseManager.MarkProcessed | tts_queue.py:200-217 | flags exactly the rows with that id, adds one to `total_processed` on every successful call, even for an unknown or already processed id, keeps `total_amount`, and never lets the counter fall below the number of processed rows |
| Ledger.DatabaseManager.GetQueueStats | tts_queue.py:219-247 | It reports the count and amount sum of the pending rows with the processed figures of totals row 1 (zeros when that row is missing), or all zeros after a storage error. |
| Display.TtsText | tts_queue.py:270 | the speech sentence is the username, then " said ", then the message |
| Display.DecimalRoundTrip | tts_queue.py:335 | the decimal numeral of a count reads back as that count |
| Display.IntTextRoundTrip | tts_queue.py:335 | `str(i)` of any integer reads back as `i` |
| Display.QueueText | tts_queue.py:335 | the OBS text reads back as the processed count and, after the slash, processed plus queued |
| Display.DiscordLookups | tts_queue.py:355-356 | the notifier's two dotted paths walk the keys "discord" then "enabled", and "discord" then "webhook_url" |
| Display.DiscordEnabled | tts_queue.py:355-356 | the notifier is enabled iff the value at discord, enabled (default True) and the value at discord, webhook_url (default "") are both truthy |
| Display.DiscordEnabledByUrl | tts_queue.py:356 | a configuration file that sets only a non-empty webhook URL enables the notifier, because the default `enabled` of True survives the merge |
| Display.DiscordDisabledByDefault | tts_queue.py:68-71 | without a configuration file the default webhook URL is empty, so the notifier is disabled |
| Display.DefaultNeverSends | tts_queue.py:355-361 | without a configuration file `send_message` returns True whatever the webhook would have answered |
| Display.UrlConfigSends | tts_queue.py:355-380 | with a file that sets only a non-empty webhook URL, `send_message` returns True exactly when the webhook answered 200 |
| Display.ParseDonation | tts_queue.py:406-409 | a body that is not an object is rejected; an object body whose present username and message are strings and whose present amount converts with `float` is accepted; absent fields default to "Anonymous", "" and 0.0; present fields are taken as given, the amount through `float` |
| Display.TextField | tts_queue.py:407-408 | an absent key yields the default; a present key yields its string, and is rejected when its value is not a string |
| Display.ToFloat | tts_queue.py:409 | `float` of an integer is that integer, of a float the float itself, of a bool 1.0 or 0.0; null, lists and objects are rejected |
| Display.ParseDonationDefaults | tts_queue.py:407-409 | an empty body yields the donation ("Anonymous", "", 0.0) |
| Display.ParseDonationAccepts | tts_queue.py:407-409 | a body with string username and message and a numeric amount yields exactly that donation |
| Display.ParseRealOfInt | tts_queue.py:409 | `float` of an integer numeral is that integer |
| QueueSystem.TTSQueueSystem.UpdateDisplays | tts_queue.py:487-493 | the counter text sent to OBS reads back as the processed total and processed plus pending, or as 0/0 after a storage error |
| QueueSystem.TTSQueueSystem.AddToQueue | tts_queue.py:443-453 | appends exactly the donation as a pending row and reports whether storage succeeded; the id counter and the clock advance only on success; totals are untouched |
| QueueSystem.TTSQueueSystem.ProcessNextItem | tts_queue.py:455-485 | with nothing pending (or a read failure) returns False and changes nothing; if speech fails returns False and the row stays pending; if speech succeeds returns True whatever the mark's outcome, and when the mark succeeds exactly the selected row becomes processed and the counter stays exact |

## Left out

- Audio: gTTS synthesis, temporary files, pygame playback and its polling loop are foreign calls. Speech is a parameter `speak` giving the boolean outcome for the sentence.
- The Flask routes and `run_server` are HTTP plumbing. Only the request-body defaults are modelled, in `ParseDonation`.
- The OBS websocket connection, its reconnect attempts and the `connected` flag are network state. Only the counter text is modelled.
- Discord webhook delivery and the embed text with `:.2f` formatting are network I/O. Only the enabled rule and the success rule are modelled.
- Reading and writing config.json, and the logging setup, are file I/O. `LoadConfig` takes what was read, or None when the file was missing or unreadable.
- The shallow copy at `load_config`, which lets the merge write into nested default dictionaries: merge is a value function here, so that aliasing is not captured.
- `processing_lock` and threads are concurrency. `ProcessNextItem` is one atomic step.
- Floating-point amounts are modelled as exact reals, without rounding.
- `ParseReal` covers only an optional sign and digits with an optional decimal point. Python's `float` also accepts whitespace, exponents, `inf`, `nan` and underscores; the model rejects those strings.
- ParseDonation: a username or message that is present but not a string is rejected. SQLite would store a number as text and reject null, so numbers are handled more strictly than the source handles them.
- Clock values come from the caller: the `datetime.now().isoformat()` text is a `timestamp` parameter, and `CURRENT_TIMESTAMP` is the previous stamp plus an `elapsed` parameter. The `last_updated` column is not modelled.
- After marking, `process_next_item` sends to Discord and refreshes the displays. Neither result is used and neither writes the queue, so `ProcessNextItem` leaves them out.
- Ledger.DatabaseManager.GetNextItem: SQLite does not promise which row wins a tie on `created_at`. The contract promises only a row with minimal stamp; the model's choice of the first such row is one refinement.
- Ledger.DatabaseManager.GetQueueStats: `get_queue_stats` (tts_queue.py:223-237) runs its two SELECTs outside one transaction, so it is not one snapshot; a `mark_processed` committing between them would count a row in both figures. The model reads one state, and the difference shows only with concurrent requests.
- The CREATE TABLE statements of `init_database` (tts_queue.py:143-161) commit on their own; the model has no table creation (below).
- The tables are not created or dropped: the constructor opens a store given as its rows, next id, clock and optional totals row.

