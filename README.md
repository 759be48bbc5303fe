# server-cleaner-bot-a, modelled in Dafny

The cleaner bot keeps its homeserver's media store in bounds. It watches the rooms it has joined and logs every media upload in an uploads table. It then runs in one of two modes:

- A **retention** run deletes every upload older than the policy allows. Images and other files have separate windows.
- A **pressure** run deletes the largest uploads first, for as long as disk usage stays above a threshold.

Each deletion does three things: it redacts the event, unlinks the matching files under the media directory, and drops the row. A run's summary is cut down to its stable fields. If that fingerprint matches the last run's, the notice is suppressed. Otherwise the summary is formatted as text and, optionally, prefixed by a one-line remark written by a chat model. Strict checks guard that remark.

This project is a model of that core with proofs about it. Each module follows one part of the program.

| module | models |
|---|---|
| `Wrappers`, `PyValue` | `Option`; decoded JSON values with Python truthiness, `dict.get`, `x or {}`, `== 0` and `int()` of a number |
| `Numerals` | `int()` of a string, the decimal text of an integer, and the text SQLite stores for a number in a TEXT column |
| `Text`, `Words` | `str.strip`, `str.lower`, `split`, `in`, and the small regular expressions `\d` and `\bword\b` |
| `Media` | `parse_mxc`, the dict branch of `extract_mxc_and_info`, and `find_media_files` over a media tree (a class whose `files` the unlinks shrink) |
| `Uploads`, `Ledger` | the uploads table as a map keyed by event id: `log_upload` (INSERT OR IGNORE) and `sync_uploads`, functions plus the `UploadLedger` class |
| `Selection` | the two candidate queries: which rows each one selects and its ORDER BY order, built by insertion |
| `Eviction` | `Policy`, the eviction step, and the loops of `run_retention` and `run_pressure`, precise down to the redaction log, the counters, the dry run and the notice condition |
| `Dedup` | `_normalize_payload_for_fingerprint`, `payload_fingerprint` over a hash parameter, and `should_send` over a one-file state |
| `Formatting` | `storage_status_label`, `format_retention_stats` and `format_pressure_stats` |
| `Personality` | `_validate_prefix`, `_clean_prefix`, `_rate_limited`, `_get_storage_category`, `_build_user_prompt`, and the two-attempt loop of `render` |
| `Standalone` | `normalize_prefix` and `validate_prefix` of the stand-alone script, with every case of its three test tables |

**How the imperative parts are stated.** The parts the program runs step by step are Dafny methods with loops: the file search, the eviction loops, the unlink loop, the attempt loop, and the state updates of the table, the media tree, the rate limit and the state file. Each method is proved against a function of the old state. The properties are then proved about those functions.

**What the caller supplies.** Several outside inputs are parameters:

- the current time;
- the disk readings (one per loop step, each of which may raise);
- which redactions, stats and unlinks fail;
- the room histories;
- the number renderer;
- the hash;
- the system prompt;
- the chat API.

**Integers and reals.** Integers are unbounded; where SQLite binds an integer, the model checks that it fits in 64 bits. Event and upload timestamps, the run time `nowMs` and sizes are integers (milliseconds and bytes). Disk readings, thresholds, the numbers of decoded JSON floats and the rate-limit clock are `real`.

## Model

| member | source | states |
|---|---|---|
| Numerals.DigitValue | cleaner/cleaner.py:74 | a digit has a value below ten |
| Numerals.DigitChar | cleaner/cleaner.py:92-95 | the character written for a value below ten is a digit with that value |
| Numerals.NumeralValue | cleaner/cleaner.py:74 | a stripped text has a value exactly when it is a literal; a literal with a minus sign is at most zero, any other at least zero |
| Numerals.ParseInt | cleaner/cleaner.py:74 | `int(s)` succeeds exactly when the stripped text is an optional sign followed by digits with single underscores between them; the sign decides whether the value is negative |
| Numerals.NatText | cleaner/cleaner.py:92-95 | the decimal text of a number is a non-empty run of digits without a leading zero |
| Numerals.IntText | cleaner/cleaner.py:92-95 | the decimal text of an integer starts with `-` exactly when it is negative, and with a digit otherwise |
| Numerals.GroupsValueOfNatText | cleaner/cleaner.py:74-95 | the digits written for a number are digit groups that spell that number |
| Numerals.NumeralValueOfGroups | cleaner/cleaner.py:74 | digit groups, with or without a minus sign, are read as the number they spell or its negation |
| Numerals.ParseIntUnpadded | cleaner/cleaner.py:74 | a text without whitespace at its ends is read as it stands |
| Numerals.ParseSigned | cleaner/cleaner.py:74 | `int()` reads digit groups, and digit groups after a minus sign, as their value and its negation |
| Numerals.ParseIntText | cleaner/cleaner.py:74-95 | `int(str(i)) == i` for every integer |
| Numerals.ParseIntPadded | cleaner/cleaner.py:74 | whitespace around the text never changes what `int()` reads |
| Numerals.ParsePaddedExample | cleaner/cleaner.py:74 | `int(" 42 ") == 42` |
| Numerals.ParseNegativeExample | cleaner/cleaner.py:74 | `int("-7") == -7` |
| Numerals.UnderscoreGroups | cleaner/cleaner.py:74 | `1_0` is a literal whose digits spell ten |
| Numerals.ParseUnderscoreExample | cleaner/cleaner.py:74 | `int("1_0") == 10`: an underscore between digits is skipped |
| Numerals.ParseIntRefuses | cleaner/cleaner.py:74 | `int()` raises for "", `12a`, a sign alone, `1.5`, a doubled underscore and a leading underscore |
| Numerals.FloatText | cleaner/cleaner.py:92-95 | the stored text of a float is non-empty and starts with a digit or `-` |
| Media.SplitFirst | cleaner/cleaner.py:39-42 | `split("/", 1)` gives nothing exactly when the separator is absent; otherwise the text is rebuilt from the part before the first separator (which holds none), the separator and the rest |
| Media.SplitFirstOfParts | cleaner/cleaner.py:39 | splitting `a + "/" + b` where `a` holds no `/` gives back exactly `a` and `b` |
| Media.ParseMxc | cleaner/cleaner.py:36-42 | a value parses exactly when it is a string starting with `mxc://` with a `/` after the scheme, and then it is `mxc://` + server + `/` + media id, with a server free of `/` |
| Media.ParseMxcRoundTrip | cleaner/cleaner.py:36-42 | building a reference from a server without `/` and any media id and parsing it gives back both parts |
| Media.ParseMxcValidExample | cleaner/cleaner.py:36-42 | `mxc://example.com/abc123` parses to (`example.com`, `abc123`), as the cleaner's tests expect |
| Media.ParseMxcInvalidExamples | cleaner/cleaner.py:37-41 | `mxc://invalid`, an `https://` URL and a non-string value do not parse |
| Media.UrlOf | cleaner/cleaner.py:68-70 | the url is `c["url"]` when truthy, else the `url` of `c["file"]` when that is a dict, else the falsy `c.get("url")` |
| Media.MimetypeOf | cleaner/cleaner.py:73 | `x or ""`: a truthy mimetype is kept whatever its type, a falsy one becomes ""; the result is never falsy unless it is "" |
| Media.SizeOfValue | cleaner/cleaner.py:74 | `int(x or 0)`: a falsy size gives 0, an integer is kept, a float is truncated, a string is parsed by `int()`; it raises exactly for a list, a dict or a string that is not an integer literal |
| Media.ExtractMediaInfo | cleaner/cleaner.py:58-74 | extraction raises exactly when the size conversion does; the url is `UrlOf(c)`, the mimetype is `MimetypeOf` of `info.get("mimetype", "")` and the size `SizeOfValue` of `info.get("size")`; a missing or non-dict `info` gives ("", 0); a missing mimetype gives "" and a missing size 0; a string mimetype and an integer size are taken over |
| Media.ExtractMediaInfoExamples | cleaner/cleaner.py:67-74 | a plain image upload and an encrypted video whose url is under `file` give the url, mimetype and size the tests expect |
| Media.ExtractMediaInfoLooseTypes | cleaner/cleaner.py:72-74 | a size written as padded digits (`" 42 "`) is parsed to 42, and a numeric mimetype is kept as that number |
| Media.ExtractMediaInfoBadSize | cleaner/cleaner.py:74 | a size string that is not an integer literal (`"1.5"`) makes the extraction raise |
| Media.MatchingPaths | cleaner/cleaner.py:51-54 | never more hits than files |
| Media.MatchingPathsMembers | cleaner/cleaner.py:51-54 | a path is a hit exactly when some file at that path has a name that contains the media id |
| Media.EmptyIdMatchesAll | cleaner/cleaner.py:53 | an empty media id (from `mxc://server/`) matches every file of the tree, in walk order |
| Media.Without | cleaner/cleaner.py:153 | after an unlink every other path still exists and `p` does not |
| Media.SizeAtEntry | cleaner/cleaner.py:152 | the size `stat` reports for an existing path is the size of a file stored at that path |
| Media.WithoutAbsent | cleaner/cleaner.py:151-153 | unlinking a path that holds no file leaves the tree unchanged |
| Media.WithoutSize | cleaner/cleaner.py:151-153 | in a tree without shared paths, unlinking takes away exactly the size of the file at `p` and keeps paths apart |
| Media.MediaStore.constructor | cleaner/cleaner.py:45 | the tree starts as given |
| Media.MediaStore.FindMediaFiles | cleaner/cleaner.py:45-55 | nothing for a reference that does not parse; otherwise exactly the paths whose file name contains the media id, in walk order |
| Media.MediaStore.Stat | cleaner/cleaner.py:151-152 | `stat` fails exactly for a missing or failing path, and otherwise gives the file's size |
| Media.MediaStore.Unlink | cleaner/cleaner.py:153 | `unlink` fails exactly for a missing or failing path and then changes nothing; otherwise only that file goes |
| Ledger.UploadLedger.constructor | cleaner/cleaner.py:18-33 | a fresh uploads table is empty and well formed |
| Ledger.UploadLedger.LogUpload | cleaner/cleaner.py:87-96 | the table becomes `Log(old, ev)`, which inserts or ignores one row; an exception, out of the extraction or out of binding the INSERT, leaves the table as it was; rows stay keyed by their own event id |
| Ledger.UploadLedger.SyncUploads | cleaner/cleaner.py:99-111 | the table becomes `IngestRooms` of the allowed joined rooms: each room's media events logged in order, a raising fetch or log ending that room only |
| Ledger.UploadLedger.Select | cleaner/cleaner.py:133-139 | the candidates are every selected row once, in the query's ORDER BY order |
| Ledger.UploadLedger.Delete | cleaner/cleaner.py:154 | exactly the row with that event id is removed |
| Uploads.StoredMimetype | cleaner/cleaner.py:92-95 | the TEXT column keeps a string as it is, a `bool` as "1" or "0", an integer as digits that `int()` reads back to it, and any other stored value starts with a digit or `-`; binding raises exactly for a list, a dict or an integer outside 64 bits |
| Uploads.BoundRow | cleaner/cleaner.py:92-95 | binding the INSERT raises exactly when the mimetype cannot be stored or the size or timestamp lies outside 64 bits; otherwise the row holds the event's ids, sender and timestamp, the reference, the stored mimetype and the size |
| Uploads.Log | cleaner/cleaner.py:87-96 | logging raises exactly as `LogRaises` says (unreadable content, or a media reference with a parameter that cannot be bound, whether or not the row exists); otherwise existing rows are never changed (INSERT OR IGNORE); only the event's own key can appear, and it appears exactly when it was there or the url is a media reference; a new row holds the event's ids, sender, reference and timestamp, the extracted size and the stored text of the mimetype; well-formedness is kept |
| Uploads.LogPlainNeverRaises | cleaner/cleaner.py:87-96 | an event whose mimetype and size are absent, strings or 64-bit integers (an integer size), at a 64-bit timestamp, never makes `log_upload` raise |
| Uploads.LogRaisesOnContainerMimetype | cleaner/cleaner.py:73-95 | a list or dict mimetype makes `log_upload` raise exactly when the url is a media reference, since only then is the INSERT bound |
| Uploads.LogIdempotent | cleaner/cleaner.py:92-95 | logging the same event twice gives the table of logging it once |
| Uploads.IngestEvents | cleaner/cleaner.py:106-109 | processing a room's chunk never changes a row already in the table and keeps the table well formed |
| Uploads.Filter | cleaner/cleaner.py:102 | the filtered rooms are exactly the joined rooms on the allowlist, and no more of them |
| Uploads.AllowedRooms | cleaner/cleaner.py:100-102 | an empty allowlist visits every joined room; otherwise exactly the joined rooms on the list |
| Uploads.IngestRooms | cleaner/cleaner.py:103-111 | a sync never changes a row already in the table and keeps the table well formed |
| Uploads.IngestEventsOrigin | cleaner/cleaner.py:106-109 | a row added while processing a chunk has the id of a media event (`m.room.message` or `m.sticker`) of that chunk |
| Uploads.IngestRoomsOrigin | cleaner/cleaner.py:103-109 | a row added by a sync has the id of a media event in the fetched history of a room that was visited |
| Uploads.SyncOrigin | cleaner/cleaner.py:99-109 | a sync only logs events of joined rooms, and with a non-empty allowlist only of rooms on the list |
| Uploads.IngestEventsAbsorbed | cleaner/cleaner.py:106-109 | processing a chunk into a table that already has every key the chunk would add changes nothing |
| Uploads.IngestEventsIdempotent | cleaner/cleaner.py:106-109 | processing the same chunk twice gives the table of processing it once |
| Uploads.IngestRoomsAbsorbed | cleaner/cleaner.py:103-111 | a sync into a table that already has every key it would add changes nothing |
| Uploads.SyncIdempotent | cleaner/cleaner.py:99-111 | syncing twice over the same history gives the table of one sync |
| Selection.IsImageExamples | cleaner/cleaner.py:136-138 | `LIKE 'image/%'` holds for `image/png` and `IMAGE/JPEG` and not for `video/mp4`, "" or `image` |
| Selection.StoredNumberNotImage | cleaner/cleaner.py:136-138 | a mimetype stored from an integer, a `bool` or a float never matches `LIKE 'image/%'`, so such an upload is always in the non-image class |
| Selection.BeforeTotal | cleaner/cleaner.py:138 | any two rows are ordered one way or the other by the ORDER BY keys |
| Selection.BeforeTransitive | cleaner/cleaner.py:138 | the ORDER BY order is transitive |
| Selection.InsertSorted | cleaner/cleaner.py:138 | insertion adds exactly the one row: the multiset of rows grows by `x` |
| Selection.InsertSortedOrdered | cleaner/cleaner.py:138 | inserting into a list in ORDER BY order keeps it in that order |
| Selection.InsertSortedDistinct | cleaner/cleaner.py:23 | inserting a row whose event id is new keeps the ids distinct (the primary key) |
| Selection.OrderedImagesLast | cleaner/cleaner.py:138 | in either query's order, once an image is listed only images follow |
| Selection.RetentionOrder | cleaner/cleaner.py:138 | within one class, retention lists the oldest first and, at one timestamp, the largest first |
| Selection.PressureOrder | cleaner/cleaner.py:180 | within one class, pressure lists the largest first and, at one size, the oldest first |
| Selection.RetentionSelects | cleaner/cleaner.py:136-137 | a row is a retention candidate exactly when it is older than the cutoff of its class |
| Selection.SelectionInRows | cleaner/cleaner.py:133-139 | every candidate returned is a row of the table, under its own id |
| Eviction.DefaultRetentionWindows | cleaner/cleaner.py:114-137 | with the default policy a row is a retention candidate exactly when it is more than 90 days old (images) or 30 days old (other files) |
| Eviction.ReasonAt | cleaner/cleaner.py:194 | a pressure deletion gives `emergency` exactly when the reading is at or above the emergency threshold, otherwise `pressure`, never `retention` |
| Eviction.Homeserver.constructor | cleaner/cleaner.py:149 | a new homeserver has been asked for no redactions yet |
| Eviction.Homeserver.Redact | cleaner/cleaner.py:149 | each call is logged in order with its room, event and reason; it raises exactly for a failing event |
| Eviction.RemoveFromFrees | cleaner/cleaner.py:150-153 | the unlink loop only adds to the freed counter and raises only at a failing `stat` or `unlink`; in a tree without shared paths it keeps paths apart and counts at least (and with no failing unlink exactly) the bytes that left the tree |
| Eviction.RemoveFromRaises | cleaner/cleaner.py:150-153 | the unlink loop raises exactly when one of the remaining matched paths holds a file whose `stat` or `unlink` fails |
| Eviction.RemoveFromFreedBound | cleaner/cleaner.py:150-153 | in a tree without shared paths the loop counts exactly the bytes that left the tree, or, when it ended at a failing `unlink`, those bytes plus the size of that one file, which is still in the tree |
| Eviction.Evict | cleaner/cleaner.py:148-156 | each attempt asks for exactly one more redaction, of this candidate with this reason |
| Eviction.EvictRows | cleaner/cleaner.py:148-158 | an attempt removes the candidate's row and counts it exactly when the redaction succeeds and no existing matched file fails its `stat` or `unlink`; otherwise rows and count stay; a failed redaction touches no file and no byte count, and after a successful one the tree and the counter are where the unlink loop left them |
| Eviction.EvictFaultFree | cleaner/cleaner.py:148-156 | with no faults the row goes and the deletion is counted |
| Eviction.EvictFrees | cleaner/cleaner.py:150-153 | an attempt only adds to the freed counter, keeps paths apart, and with no failing unlink counts exactly the bytes removed |
| Eviction.EvictFreedBound | cleaner/cleaner.py:148-158 | in a tree without shared paths an attempt counts exactly the bytes removed, or those bytes plus the size of one file whose `unlink` failed and which is still there |
| Eviction.PressureFrom | cleaner/cleaner.py:184-204 | the pressure loop reaches at most every candidate |
| Eviction.PressureStops | cleaner/cleaner.py:184-187 | every candidate reached was read at or above the threshold; the loop ends at the end of the list, at the first reading below the threshold, or at the first reading that raised, and only there |
| Eviction.NoticeFor | cleaner/cleaner.py:159-161 | a notice is sent exactly when a room is configured and something was deleted, zero reports are wanted, or it is a dry run; it carries the counts and the dry-run flag |
| Eviction.RetentionDryRun | cleaner/cleaner.py:144-147 | a dry retention run only counts its candidates: no redaction, unlink, deletion or freed byte |
| Eviction.PressureDryRun | cleaner/cleaner.py:189-192 | a dry pressure run only counts the candidates it reaches |
| Eviction.RetentionBounds | cleaner/cleaner.py:142-158 | a retention run counts at most one deletion per candidate, only grows the freed counter, and never adds or changes a row |
| Eviction.PressureBounds | cleaner/cleaner.py:184-204 | a pressure run counts at most one deletion per candidate reached, only grows the freed counter, and never adds or changes a row |
| Eviction.RetentionRedactions | cleaner/cleaner.py:142-149 | a live retention run asks for one redaction per candidate, in candidate order, each with the retention reason, whatever fails |
| Eviction.PressureAsked | cleaner/cleaner.py:194-195 | one redaction asked for per candidate reached |
| Eviction.PressureAskedAt | cleaner/cleaner.py:194-195 | the redaction for candidate `j` names its room and event and the reason of its own reading |
| Eviction.PressureLog | cleaner/cleaner.py:184-195 | the redaction log of a live pressure run is the old log followed by one request per candidate reached |
| Eviction.PressureRedactions | cleaner/cleaner.py:184-195 | a live pressure run asks for one redaction per candidate reached, in order, with reason `emergency` exactly when that candidate's reading was at or above the emergency threshold |
| Eviction.RetentionRemovesRedacted | cleaner/cleaner.py:148-158 | a row a retention run removes belongs to a candidate, the run was live and that redaction did not raise |
| Eviction.PressureRemovesRedacted | cleaner/cleaner.py:193-204 | a row a pressure run removes belongs to a candidate it reached, the run was live and that redaction did not raise |
| Eviction.RetentionAccounting | cleaner/cleaner.py:154-156 | with distinct candidates that are all rows, rows left plus deletions counted stays constant |
| Eviction.PressureAccounting | cleaner/cleaner.py:200-202 | the same accounting for a pressure run |
| Eviction.RetentionFreed | cleaner/cleaner.py:150-153 | with no failing unlink the freed counter of a retention run is exactly the number of bytes that left the tree |
| Eviction.PressureFreed | cleaner/cleaner.py:196-199 | the same for a pressure run |
| Eviction.RetentionFaultFree | cleaner/cleaner.py:142-156 | with no faults a live retention run deletes and counts every candidate |
| Eviction.RemoveFiles | cleaner/cleaner.py:150-153 | the unlink loop on the media store ends in the tree, counter and failure of `RemoveFrom` |
| Eviction.EvictOne | cleaner/cleaner.py:148-156 | the `try` block on ledger, store and homeserver leaves exactly the state `Evict` describes, and the ledger stays well formed |
| Eviction.RunRetention | cleaner/cleaner.py:122-161 | the candidates are a selection of the retention query at the run's time; the final rows, tree, redactions and counters are those of `RetentionFrom`; the notice is `NoticeFor` of the counts |
| Eviction.PressureLoop | cleaner/cleaner.py:184-204 | the loop leaves the state and counters of `PressureFrom`, and reports a raised reading exactly when that run stopped on one |
| Eviction.RunPressure | cleaner/cleaner.py:164-207 | a first reading below the threshold changes nothing and sends nothing, and one that raises changes nothing; otherwise the candidates are a selection of the pressure query, the final state is that of `PressureFrom`, and a notice follows unless a reading raised |
| Dedup.Pick | framework/catcord_bots/state.py:23-35 | the picked section has exactly the listed keys, each with `section.get(k)`, `None` when absent |
| Dedup.Projection | framework/catcord_bots/state.py:16-41 | the projection has exactly the stable keys: mode, server, disk, actions, and for a retention summary also policy and the two counts |
| Dedup.Normalize | framework/catcord_bots/state.py:8-43 | normalisation raises exactly when `disk` or `actions` is truthy but not a dict; otherwise it is a dict with exactly the stable keys |
| Dedup.NormalizeFields | framework/catcord_bots/state.py:16-35 | the normalised dict holds `payload.get("mode", "unknown")`, `payload.get("server", "unknown")`, and the four `disk` and three `actions` fields as `.get` gives them |
| Dedup.NormalizeRetentionFields | framework/catcord_bots/state.py:37-41 | for a retention summary the normalised dict also holds `payload.get("policy") or {}` and `payload.get` of the two counts |
| Dedup.NormalizeIgnoresOtherKeys | framework/catcord_bots/state.py:8-43 | setting any top-level key outside the stable keys does not change the normalised dict |
| Dedup.ProjectionIgnoresOtherKeys | framework/catcord_bots/state.py:16-41 | the same for the projection over given sections |
| Dedup.NormalizeIgnoresTiming | framework/catcord_bots/state.py:9 | summaries that differ only in their timing normalise alike |
| Dedup.PressureIgnoresPolicy | framework/catcord_bots/state.py:37-41 | a pressure summary's policy does not reach the fingerprint |
| Dedup.RetentionKeepsPolicy | framework/catcord_bots/state.py:37-39 | a retention summary's policy does: two different truthy policies normalise differently |
| Dedup.DeletedCountDistinguishes | framework/catcord_bots/state.py:30-35 | summaries with different deleted counts never normalise alike |
| Dedup.Fingerprint | framework/catcord_bots/state.py:46-56 | the fingerprint raises exactly when normalisation does, and is otherwise the hash of the normalised dict |
| Dedup.FingerprintIgnoresOtherKeys | framework/catcord_bots/state.py:46-56 | the fingerprint ignores every key outside the stable keys |
| Dedup.FingerprintSeesDeletedCount | framework/catcord_bots/state.py:46-56 | under a hash without collisions, different deleted counts give different fingerprints |
| Dedup.FingerprintCountExample | framework/catcord_bots/state.py:46-56 | two retention summaries with deleted counts 5 and 6 get different fingerprints |
| Dedup.FingerprintStableExample | framework/catcord_bots/state.py:46-56 | top-level `deleted` and `freed_gb` keys do not change a retention summary's fingerprint |
| Dedup.Previous | framework/catcord_bots/state.py:74-77 | the previous fingerprint is the stripped file contents, and there is none exactly when the file is missing or strips to nothing |
| Dedup.GateForced | framework/catcord_bots/state.py:71-72 | a forced message always goes out and leaves the state file alone |
| Dedup.GateUnforced | framework/catcord_bots/state.py:74-85 | unforced, a message goes out exactly when its fingerprint is not the previous one, and then the file holds it |
| Dedup.GateSuppressesRepeat | framework/catcord_bots/state.py:74-85 | a non-empty fingerprint with no whitespace at its ends is suppressed when it comes again right after it was sent |
| Dedup.GateEmptyNeverSuppressed | framework/catcord_bots/state.py:77-85 | an empty fingerprint is written as an empty file, which reads back as no previous value, so it is never suppressed |
| Dedup.GateBlankFile | framework/catcord_bots/state.py:77 | a state file with only whitespace counts as no state file |
| Dedup.DigestRepeatSuppressed | framework/catcord_bots/state.py:56-85 | every SHA-256 hex digest is suppressed on an immediate repeat |
| Dedup.DedupState.constructor | framework/catcord_bots/state.py:59 | the state file starts as given |
| Dedup.DedupState.ShouldSend | framework/catcord_bots/state.py:59-85 | the decision and the new file are those of `Gate`; a forced call sends and writes nothing |
| Dedup.ShouldSendExamples | framework/catcord_bots/state.py:59-85 | the first unforced call sends and writes the file, a repeat does not send, and a forced call does |
| Formatting.StatusLabel | framework/catcord_bots/formatting.py:5-26 | `critical` exactly at or above the emergency threshold; at least `pressure` exactly when either threshold is reached; at least `tight` exactly when also 75 counts; at least `OK` exactly when also 50 counts |
| Formatting.StatusMonotone | framework/catcord_bots/formatting.py:17-26 | with the thresholds fixed, a fuller disk never gets a milder label |
| Formatting.StatusExamples | framework/catcord_bots/formatting.py:17-26 | 30, 60, 80, 87 and 95 percent at thresholds 85 and 92 are healthy, OK, tight, pressure and critical, as the formatting tests expect |
| Formatting.StatusOf | framework/catcord_bots/formatting.py:45 | the label of payload values is computed exactly when the percentage and emergency threshold are numbers and either the emergency threshold is reached or the pressure threshold is a number too; it is then `StatusLabel` of them |
| Formatting.Fixed | framework/catcord_bots/formatting.py:60 | `:.1f` and `:.2f` succeed exactly on numbers, and then render their value |
| Formatting.SectionsOf | framework/catcord_bots/formatting.py:37-49 | reading the sections raises exactly when `disk`, `actions`, `timing` or `actions.deleted_by_type` is truthy but not a dict; each section read is `x or {}` of its value, so a falsy one is empty |
| Formatting.SummaryOf | framework/catcord_bots/formatting.py:37-55 | reading succeeds exactly when the sections do; each field is the `.get` of its key in its section with its own default (0 % used, thresholds 85 and 92, zero counts, size and duration), and a falsy section or a missing key gives that default |
| Formatting.ResultText | framework/catcord_bots/formatting.py:57 | the result says `no action` exactly when `deleted == 0` holds in Python's sense, and `cleanup performed` otherwise |
| Formatting.RetentionOf | framework/catcord_bots/formatting.py:59-73 | the retention lines can be built exactly when every value formatted with a precision or compared is a number |
| Formatting.RetentionLines | framework/catcord_bots/formatting.py:29-73 | the lines of `format_retention_stats` exist exactly when its reads succeed and those values are numbers |
| Formatting.ResultLine | framework/catcord_bots/formatting.py:72 | two result lines are equal exactly when their words are |
| Formatting.FilesLine | framework/catcord_bots/formatting.py:59-73 | the retention block has eight lines with a `Files on disk` line, or seven and none |
| Formatting.RetentionFilesLine | framework/catcord_bots/formatting.py:67-68 | the `Files on disk` line appears, making eight lines, exactly when the file count is positive |
| Formatting.RetentionStatusLine | framework/catcord_bots/formatting.py:45-61 | the retention label is that of `percent_before` under the two thresholds |
| Formatting.RetentionResultLine | framework/catcord_bots/formatting.py:57-72 | the last retention line reports `no action` exactly when nothing was deleted |
| Formatting.PressureOf | framework/catcord_bots/formatting.py:107-114 | the pressure lines can be built exactly when both percentages, both thresholds and the freed size are numbers |
| Formatting.PressureLinesWith | framework/catcord_bots/formatting.py:78-114 | with any arrow, the lines exist exactly when the reads succeed and those values are numbers |
| Formatting.PressureLinesAsWritten | framework/catcord_bots/formatting.py:108 | the text as written exists exactly when the intended one does, and differs from it in the disk line only |
| Formatting.PressureLines | framework/catcord_bots/formatting.py:78-114 | the intended pressure lines exist exactly when the reads succeed and those values are numbers |
| Formatting.PressureDiskLine | framework/catcord_bots/formatting.py:108 | a pressure block has six lines, and its disk line starts with the percentage before, the arrow and the percentage after |
| Formatting.PressureStatusLine | framework/catcord_bots/formatting.py:95-109 | the pressure label is that of the percentage before the run, not after it |
| Formatting.PressureResultLine | framework/catcord_bots/formatting.py:105-113 | the last pressure line reports `no action` exactly when nothing was deleted |
| Formatting.Join | framework/catcord_bots/formatting.py:75 | joining one line gives that line |
| Formatting.SplitLines | framework/catcord_bots/formatting.py:75 | splitting gives at least one piece, and no piece holds a newline |
| Formatting.FirstLineBefore | framework/catcord_bots/formatting.py:75 | the first line of a newline-free text followed by a newline or by nothing is that text |
| Formatting.SplitJoin | framework/catcord_bots/formatting.py:75 | splitting the joined text gives the lines back when none holds a newline |
| Formatting.JoinContains | framework/catcord_bots/formatting.py:75 | every line occurs in the joined text |
| Formatting.ContainsAfter | framework/catcord_bots/formatting.py:75 | text put before a text that holds `sub` keeps `sub` in it |
| Formatting.JoinContainsAll | framework/catcord_bots/formatting.py:75 | all the lines occur in the joined text |
| Formatting.JoinLacks | framework/catcord_bots/formatting.py:75 | a character other than the newline that no line holds is not in the joined text |
| Formatting.FormatRetentionStats | framework/catcord_bots/formatting.py:29-75 | the retention text exists exactly when its lines do, and holds every one of them |
| Formatting.FormatPressureStats | framework/catcord_bots/formatting.py:78-116 | the pressure text exists exactly when its lines do, and holds every one of them |
| Formatting.LabelsLack | framework/catcord_bots/formatting.py:60-61 | the fixed texts of the disk and storage lines hold neither a newline nor the arrow |
| Formatting.CountLabelsLack | framework/catcord_bots/formatting.py:62-63 | the fixed texts of the candidates and deleted lines hold neither |
| Formatting.MoreLabelsLack | framework/catcord_bots/formatting.py:63-72 | the remaining fixed texts hold neither |
| Formatting.WordsLack | framework/catcord_bots/formatting.py:18-26 | no label, no result word and not the garbled arrow holds a newline or the arrow |
| Formatting.RetentionLinesLack | framework/catcord_bots/formatting.py:59-73 | no retention line holds a newline or the arrow unless a rendered number does |
| Formatting.PressureLinesLack | framework/catcord_bots/formatting.py:107-114 | no pressure line holds a newline or the arrow unless the arrow given or a rendered number does |
| Formatting.RetentionLineCount | framework/catcord_bots/formatting.py:59-75 | with renderers that write no newline, the retention text splits back into eight lines when files are counted and seven otherwise |
| Formatting.PressureLineCount | framework/catcord_bots/formatting.py:107-116 | with renderers that write no newline, the pressure text splits back into six lines |
| Formatting.EmptyPayloadSummary | framework/catcord_bots/formatting.py:37-55 | an empty payload reads as 0 % used, thresholds 85 and 92 and zero counts |
| Formatting.RetentionDefaults | framework/catcord_bots/formatting.py:29-75 | an empty payload gives seven retention lines: 0 % with threshold 85, `healthy`, and `no action` |
| Formatting.PressureDefaults | framework/catcord_bots/formatting.py:78-116 | an empty payload gives a pressure block at 0 % to 0 %, `healthy`, and `no action` |
| Formatting.NonDictSectionRaises | framework/catcord_bots/formatting.py:37-41 | a truthy `disk` that is not a dict makes both formatters raise |
| Formatting.PressureTestSections | tests/test_formatting.py:31-35 | the pressure test's payload has the sections the test lists |
| Formatting.PressureTestRead | tests/test_formatting.py:30-36 | and reads as 87 % before, 82 % after, 5 deleted, 0.8 GB freed, 3 s |
| Formatting.PressureAsWrittenLacksArrow | framework/catcord_bots/formatting.py:108 | as written, no pressure text holds the arrow U+2192 unless a rendered number does |
| Formatting.PressureTestAsWrittenFails | tests/test_formatting.py:37 | so the test's `"Disk: 87.0% → 82.0%" in result` fails on the text as written |
| Formatting.ContainsPrefix | tests/test_formatting.py:37 | a text that holds `s` also holds every prefix of `s` |
| Formatting.PressureTestText | tests/test_formatting.py:36 | the pressure test's text is the joined lines of its summary |
| Formatting.PressureTestDiskShown | tests/test_formatting.py:37 | with the intended arrow, that text holds the disk change the test looks for |
| Formatting.PressureTestStatusShown | tests/test_formatting.py:38 | and holds `Storage: pressure` |
| Formatting.PressureTestPasses | tests/test_formatting.py:30-38 | with the intended arrow the pressure test finds the disk change and the label |
| Formatting.RetentionTestSections | tests/test_formatting.py:14-20 | the retention test's payload has the sections the test lists |
| Formatting.RetentionTestRead | tests/test_formatting.py:13-21 | and reads as 45.2 %, 10 deleted, 1.5 GB, 50 candidates, 1000 files, 5 s |
| Formatting.RetentionTestText | tests/test_formatting.py:21 | the retention test's lines are those of its summary |
| Formatting.RetentionTestLines | tests/test_formatting.py:22-28 | the retention test's text has eight lines: `healthy`, 50 candidates, the `Files on disk` line, 5 s and a cleanup performed |
| Personality.ValidatePrefix | framework/catcord_bots/personality.py:105-138 | a rejection always carries a non-empty reason |
| Personality.CheckStripped | framework/catcord_bots/personality.py:110-138 | the checks on the stripped text reject with a non-empty reason |
| Personality.ValidateAccepts | framework/catcord_bots/personality.py:105-138 | a prefix passes exactly when the stripped text is non-empty, has no newline, has at most 180 characters, does not look like two sentences, opens with no filler, has no banned phrase as a whole word, no digit and no deletion word |
| Personality.AcceptedIsSafe | framework/catcord_bots/personality.py:105-138 | an accepted prefix is one non-empty line of at most 180 characters without digits, deletion words or banned phrases |
| Personality.ValidateReasons | framework/catcord_bots/personality.py:110-138 | each of the eight reasons is reported exactly when its check is the first, in source order, to fail; a banned phrase is reported as the first of the list found as a whole word |
| Personality.ValidateIgnoresPadding | framework/catcord_bots/personality.py:107 | whitespace around the text never changes the verdict |
| Personality.ValidateStripped | framework/catcord_bots/personality.py:107 | validating the stripped text gives the same verdict |
| Personality.NoSentenceEnd | framework/catcord_bots/personality.py:119 | a text without `.`, `!` or `?` never matches `[.!?].+[A-Z]` |
| Personality.NoBannedOrDeletion | framework/catcord_bots/personality.py:126-136 | a lower-case text without the letters `y`, `p`, `o`, `l` and `r` holds no banned phrase and no deletion word |
| Personality.ShapeLacking | framework/catcord_bots/personality.py:107-120 | a text with non-space ends and without newline or sentence ends is its own strip, one line and one sentence |
| Personality.NoFiller | framework/catcord_bots/personality.py:122-124 | a text opening with none of `ok`, `un` and `pl` starts with no filler |
| Personality.QuietPasses | framework/catcord_bots/personality.py:126 | `quiet since dawn` passes: the product's list does not ban `since` alone |
| Personality.OperationalSinceFails | framework/catcord_bots/personality.py:126-129 | `operational since dawn` is rejected with `banned phrase 'operational since'` |
| Personality.FirstBannedIsOperational | framework/catcord_bots/personality.py:126-129 | in a lower-case text that starts with `operational since ` and lacks `y` and `u`, the first banned phrase found is `operational since` |
| Personality.CleanPrefix | framework/catcord_bots/personality.py:92-95 | the cleaned reply neither starts nor ends with whitespace |
| Personality.CleanContained | framework/catcord_bots/personality.py:92-95 | the cleaned reply is a contiguous piece of the reply |
| Personality.CleanUnquotes | framework/catcord_bots/personality.py:92-95 | a text in one pair of double quotes comes out without them, otherwise unchanged |
| Personality.QuotedTrims | framework/catcord_bots/personality.py:93-94 | stripping and then removing `"` from a double-quoted text leaves the inner text |
| Personality.CleanSteps | framework/catcord_bots/personality.py:92-95 | cleaning is the composition of the strip, the `"` strip, the `'` strip and the final strip |
| Personality.CleanNotIdempotent | framework/catcord_bots/personality.py:94 | cleaning is not idempotent: `'"x"'` loses only its single quotes, and a second round would remove the double ones |
| Personality.DoublyQuotedTrims | framework/catcord_bots/personality.py:93-94 | on `'"x"'` the strip and the `"` strip change nothing and the `'` strip leaves `"x"` |
| Personality.PrefixOf | framework/catcord_bots/personality.py:241-244 | the prefix taken from a reply never holds a newline |
| Personality.RateStep | framework/catcord_bots/personality.py:50-55 | a call is limited exactly when less than the minimum interval has passed since the last accepted call; only an accepted call moves that time |
| Personality.RateTrace | framework/catcord_bots/personality.py:50-55 | successive calls give one answer each |
| Personality.NeverLimited | framework/catcord_bots/personality.py:52 | with a minimum interval of zero or less and a clock that never goes back, no call is limited |
| Personality.TraceSpacing | framework/catcord_bots/personality.py:52-54 | every call that goes through comes at least the minimum interval after the previous call that went through |
| Personality.StorageCategory | framework/catcord_bots/personality.py:97-103 | without a truthy `disk` the category is `healthy`; it raises only when the section or the label does |
| Personality.CategoryIsPressureStatus | framework/catcord_bots/personality.py:97-103 | the category is the label the pressure block prints for the same payload |
| Personality.PromptsDiffer | framework/catcord_bots/personality.py:153-167 | the no-action prompt and the cleanup prompt never coincide |
| Personality.BuildUserPrompt | framework/catcord_bots/personality.py:146-167 | a prompt is built exactly when the `actions` section and the category can be read |
| Personality.PromptChoice | framework/catcord_bots/personality.py:152-167 | the prompt is the no-action one exactly when `deleted_count` equals 0, and the cleanup one otherwise, both naming the category |
| Personality.MissingActionsMeansNoAction | framework/catcord_bots/personality.py:148-153 | without an `actions` section the prompt is the no-action one |
| Personality.Judge | framework/catcord_bots/personality.py:241-308 | a timeout and an HTTP error are rejected with `timeout` and `http_error`, any other exception aborts; a reply is accepted exactly when its cleaned prefix is non-empty and passes validation, and then with that prefix stripped; an empty prefix is rejected with `empty output` and a failing one with the reason of the failed check |
| Personality.JudgePrefix | framework/catcord_bots/personality.py:273-293 | a prefix is never aborted; it is accepted exactly when it is non-empty and passes, and then stripped; an empty one is rejected with `empty output`, a failing one with the failed check's reason |
| Personality.AttemptsFrom | framework/catcord_bots/personality.py:194-311 | the loop makes at most two requests; a prefix it returns passes validation, is one stripped line, and is the accepted judgement of the last request made, which carried the reason left by the attempt before it |
| Personality.Rendered | framework/catcord_bots/personality.py:185-315 | `render` past the rate limit makes no request when the system prompt or the user prompt cannot be built, and otherwise is the attempt loop on those two messages; any prefix it returns passes validation and is one stripped line |
| Personality.RetryCarriesReason | framework/catcord_bots/personality.py:200-218 | after a rejected first attempt the second is sent with the base messages and a note naming the reason |
| Personality.ExhaustedIsNone | framework/catcord_bots/personality.py:310-311 | two rejections give `None` after two requests |
| Personality.OtherErrorStops | framework/catcord_bots/personality.py:313-315 | an exception other than a timeout or an HTTP error gives `None` after one request |
| Personality.FirstAcceptWins | framework/catcord_bots/personality.py:283-293 | a first reply whose prefix is non-empty and passes is returned, stripped, after one request |
| Personality.SecondAcceptWins | framework/catcord_bots/personality.py:200-293 | after a rejected first reply, a second reply that passes is returned stripped after two requests, and that second request carried the retry note with the first rejection's reason |
| Personality.RunAttempts | framework/catcord_bots/personality.py:193-311 | the loop over two attempts returns what `AttemptsFrom` describes, with the same number of requests |
| Personality.PersonalityRenderer.constructor | framework/catcord_bots/personality.py:43-46 | a new renderer has last call time 0 and the given minimum interval |
| Personality.PersonalityRenderer.RateLimited | framework/catcord_bots/personality.py:50-55 | the answer and the new last call time are those of `RateStep` |
| Personality.PersonalityRenderer.Render | framework/catcord_bots/personality.py:169-315 | a limited call returns `None` without a request and keeps the last call time; otherwise the time becomes `now` and the result is `Rendered` |
| Standalone.Inner | test_normalization_standalone.py:10 | `text[1:-1]` drops the first and the last character, and is empty below two characters |
| Standalone.Normalize | test_normalization_standalone.py:6-13 | the normalised prefix neither starts nor ends with whitespace |
| Standalone.Validate | test_normalization_standalone.py:16-40 | a rejection always carries a non-empty reason |
| Standalone.Checks | test_normalization_standalone.py:21-40 | the checks on the stripped text reject with a non-empty reason |
| Standalone.NormalizeUnwraps | test_normalization_standalone.py:8-13 | one pair of `"` or `'` quotes, with whitespace outside it, leaves the stripped inner text |
| Standalone.QuotedInner | test_normalization_standalone.py:9-12 | a text opened and closed by a quote counts as quoted, and its inner part is what lies between |
| Standalone.NormalizeOnePair | test_normalization_standalone.py:9-12 | only one pair goes: a doubly quoted text keeps its inner pair |
| Standalone.NormalizeNotIdempotent | test_normalization_standalone.py:6-13 | normalising a doubly quoted text twice differs from normalising it once |
| Standalone.NormalizeUnquoted | test_normalization_standalone.py:8-13 | text that is not quoted after stripping is only stripped |
| Standalone.NormalizeLoneQuote | test_normalization_standalone.py:9-10 | a lone `"` or `'` is quoted by itself and normalises to the empty text |
| Standalone.NormalizeContained | test_normalization_standalone.py:6-13 | the normalised text is a contiguous piece of the raw text |
| Standalone.NormalizersDiffer | test_normalization_standalone.py:9-12 | on a text in two pairs of double quotes the personality cleaning removes both and this normaliser one |
| Standalone.ValidateAccepts | test_normalization_standalone.py:16-40 | a prefix passes exactly when the stripped text is non-empty, opens with no filler, has no banned word, no digit and no deletion word |
| Standalone.ValidateReasons | test_normalization_standalone.py:21-40 | each of the five reasons is reported exactly when its check is the first to fail; a banned word is reported as the first of the list found |
| Standalone.PersonalityPassImpliesPass | test_normalization_standalone.py:28-31 | a prefix the personality checks accept passes here unless it holds the whole word `since` |
| Standalone.PassImpliesPersonalityPass | test_normalization_standalone.py:16-40 | a prefix that passes here and is one line of at most 180 characters without a second sentence passes the personality checks |
| Standalone.NormalizeKeeps | test_normalization_standalone.py:8-13 | a text without whitespace at its ends that does not open with a quote is unchanged |
| Standalone.NormalizeUnwrapsBare | test_normalization_standalone.py:9-13 | one pair of quotes and nothing around it leaves the stripped inner text |
| Standalone.NormalizeUnwrapsPlain | test_normalization_standalone.py:9-13 | one pair of quotes around text without whitespace at its ends leaves that text |
| Standalone.NormalizePaddedPlain | test_normalization_standalone.py:8-13 | whitespace around a text that has none at its ends and opens with no quote is removed |
| Standalone.NormalizeCaseDoubleQuoted | test_normalization_standalone.py:48 | `"System operational"` in double quotes normalises to `System operational` |
| Standalone.NormalizeCaseSingleQuoted | test_normalization_standalone.py:49 | `'All systems green'` normalises to `All systems green` |
| Standalone.NormalizeCasePadded | test_normalization_standalone.py:50 | `  Whitespace  ` normalises to `Whitespace` |
| Standalone.NormalizeCaseQuotedText | test_normalization_standalone.py:51 | `"Quoted text"` normalises to `Quoted text` |
| Standalone.NormalizeCaseMultiLine | test_normalization_standalone.py:52 | the three-line text is unchanged |
| Standalone.NormalizeCaseSentences | test_normalization_standalone.py:53 | the two-sentence text is unchanged |
| Standalone.PassesWhen | test_normalization_standalone.py:21-40 | a stripped text of two or more characters without digits, filler opening, banned or deletion words passes |
| Standalone.WordsAbsent | test_normalization_standalone.py:28-38 | a lower-case text without `d`, `uptime` and `since` holds no banned and no deletion word |
| Standalone.SinceInside | test_normalization_standalone.py:28 | a text without `since` lacks `operational since` |
| Standalone.BannedAt | test_normalization_standalone.py:29-31 | the banned word reported is the first of the list found as a whole word |
| Standalone.CleanLacking | test_normalization_standalone.py:28-38 | a text lacking one letter of each banned and each deletion word holds none of them |
| Standalone.NoBannedLacking | test_normalization_standalone.py:28-31 | a text lacking one letter of each banned word holds none of them |
| Standalone.CleanLackingJoin | test_normalization_standalone.py:28-38 | the same for a text given in two pieces |
| Standalone.PassesJoin | test_normalization_standalone.py:16-40 | a two-piece text with non-space ends, no digit, no filler opening and lacking one letter of each banned and deletion word passes |
| Standalone.JoinMisses | test_normalization_standalone.py:37 | a word without the separator found in none of three pieces is not in their join |
| Standalone.ValidCaseOperational | test_normalization_standalone.py:74 | `System operational.` passes |
| Standalone.ValidCaseGreen | test_normalization_standalone.py:75 | `All systems green!` passes |
| Standalone.ValidCaseNominal | test_normalization_standalone.py:76 | `Status nominal?` passes |
| Standalone.ValidCaseMaintenance | test_normalization_standalone.py:77 | `Maintenance complete;` passes |
| Standalone.ValidCaseSmoothly | test_normalization_standalone.py:78 | `Everything running smoothly.` passes |
| Standalone.ValidCaseMultiLine | test_normalization_standalone.py:79 | the three-line text passes here |
| Standalone.MultiClean | test_normalization_standalone.py:79 | that text holds no banned and no deletion word |
| Standalone.MultiNoDeleted | test_normalization_standalone.py:79 | the three-line text does not hold `deleted` |
| Standalone.ValidCaseLong | test_normalization_standalone.py:80 | two hundred `x` pass here |
| Standalone.InvalidCaseEmpty | test_normalization_standalone.py:84 | the empty text fails with `empty` |
| Standalone.InvalidCaseDigits | test_normalization_standalone.py:85 | `Contains 123 digits` fails with `contains digits` |
| Standalone.Rejected | test_normalization_standalone.py:29-38 | for a stripped text without filler opening, the reason is the first banned word found, else `contains digits`, else `claims deletion` |
| Standalone.InvalidCaseDeleted | test_normalization_standalone.py:86 | `Deleted files` fails with `claims deletion` |
| Standalone.DeletedNoBanned | test_normalization_standalone.py:86 | `Deleted files` has no banned word and no digit |
| Standalone.DeletedFirst | test_normalization_standalone.py:36-37 | a text opening with `Deleted` holds a deletion word once lower-cased |
| Standalone.InvalidCaseToday | test_normalization_standalone.py:87 | `Today is good` fails with `banned phrase 'today'` |
| Standalone.TodayFirst | test_normalization_standalone.py:28-31 | a text opening with the word `Today` has `today` as its first banned word |
| Standalone.InvalidCaseUptime | test_normalization_standalone.py:88 | `Uptime is high` fails with `banned phrase 'uptime'` |
| Standalone.UptimeFirst | test_normalization_standalone.py:28-31 | a text opening with the word `Uptime`, without `y`, has `uptime` as its first banned word |
| Standalone.InvalidCaseOk | test_normalization_standalone.py:89 | `ok` fails with `acknowledgement/assistant filler` |
| Standalone.InvalidCaseSinceYesterday | test_normalization_standalone.py:90 | `Since yesterday` fails, with `banned phrase 'yesterday'` since that word is tried before `since` |
| Standalone.YesterdaySecond | test_normalization_standalone.py:28-31 | a fifteen-character text without `o` ending in the word `yesterday` has it as its first banned word |
| Standalone.PipelineNormalizeSentences | test_normalization_standalone.py:120 | the double-quoted two-sentence reply normalises to its inner text |
| Standalone.PipelineValidSentences | test_normalization_standalone.py:120 | and that text passes |
| Standalone.SentencesClean | test_normalization_standalone.py:120 | it holds no banned and no deletion word |
| Standalone.CleanWithoutAP | test_normalization_standalone.py:28-38 | a text without `a`, `p`, `since`, `deleted` and `removed` holds no banned and no deletion word |
| Standalone.PipelineNormalizeOperational | test_normalization_standalone.py:121 | `"System operational"` normalises to `System operational` |
| Standalone.PipelineValidOperational | test_normalization_standalone.py:121 | and that text passes |
| Standalone.PipelineNormalizeDeleted | test_normalization_standalone.py:122 | `"Deleted 5 files"` normalises to `Deleted 5 files` |
| Standalone.PipelineValidDeleted | test_normalization_standalone.py:122 | which fails with `contains digits`, checked before the deletion claim |
| Standalone.PipelineNormalizeToday | test_normalization_standalone.py:123 | `"Today everything is fine"` normalises to its inner text |
| Standalone.PipelineValidToday | test_normalization_standalone.py:123 | which fails with `banned phrase 'today'` |
| Standalone.PipelineNormalizeMultiLine | test_normalization_standalone.py:124 | the three-line response is unchanged |
| Standalone.PipelineValidMultiLine | test_normalization_standalone.py:124 | and passes |
| Standalone.ResponseClean | test_normalization_standalone.py:124 | it holds no banned and no deletion word |
| Standalone.ValidatorsDiffer | test_normalization_standalone.py:16-40 | two hundred `x` and the three-line text pass here but fail the personality checks (`too long`, `newline`); `quiet since dawn` passes there |
| Standalone.SinceFirst | test_normalization_standalone.py:28-31 | a text without `y` and `p` holding the whole word `since` has it as its first banned word |
| Standalone.QuietSince | test_normalization_standalone.py:28-31 | `quiet since dawn` fails here with `banned phrase 'since'` |
| Standalone.QuietSinceFirst | test_normalization_standalone.py:28-31 | its first banned word is `since` |
| Text.LowerChar | framework/catcord_bots/personality.py:108 | an ASCII upper-case letter becomes its lower-case form; every other character is kept |
| Text.Lower | framework/catcord_bots/personality.py:108 | lower-casing keeps the length and maps every character by itself |
| Text.LowerAppend | framework/catcord_bots/personality.py:108 | lower-casing works piece by piece |
| Text.LowerKeeps | framework/catcord_bots/personality.py:108 | a text without upper-case letters is its own lower-case form |
| Text.LowerLacks | framework/catcord_bots/personality.py:108 | a letter missing from a text in both cases is missing from its lower-case form |
| Text.LacksLower | framework/catcord_bots/personality.py:108 | a text whose lower-cased characters avoid `cs` lower-cases to a text without them |
| Text.LacksAppend | framework/catcord_bots/personality.py:108 | lacking characters carries over to a concatenation |
| Text.LowerShows | framework/catcord_bots/personality.py:108 | a non-letter missing from the lower-cased text is missing from the text |
| Text.LeadLength | framework/catcord_bots/personality.py:107 | the leading run of class characters ends at the first character outside the class |
| Text.TrailLength | framework/catcord_bots/personality.py:107 | the trailing run of class characters ends at the last character outside the class |
| Text.Trim | framework/catcord_bots/personality.py:93-94 | `str.strip(chars)` never lengthens a text and leaves neither end in the class |
| Text.TrimShape | framework/catcord_bots/personality.py:93-94 | the stripped text is an infix with only class characters around it |
| Text.Strip | framework/catcord_bots/personality.py:107 | `str.strip()` never lengthens a text and leaves no whitespace at either end |
| Text.TrimUnique | framework/catcord_bots/personality.py:93-94 | the stripped text is the only infix with class characters around it and both ends outside the class |
| Text.TrimIdempotent | framework/catcord_bots/personality.py:95 | stripping twice is stripping once |
| Text.TrimKeeps | framework/catcord_bots/personality.py:93-95 | a text whose ends are outside the class is unchanged |
| Text.TrimPadded | framework/catcord_bots/personality.py:93-95 | class characters added on either side never change the result |
| Text.TrimLeading | framework/catcord_bots/personality.py:93-95 | class characters before a text never change the result |
| Text.TrimTrailing | framework/catcord_bots/personality.py:93-95 | class characters after a text never change the result |
| Text.MissingChar | framework/catcord_bots/personality.py:136 | a word holding a character the text lacks is not in the text |
| Text.FirstLine | framework/catcord_bots/personality.py:244 | `split("\n", 1)[0]` is a newline-free prefix followed by a newline or by the end |
| Words.ContainsTransitive | framework/catcord_bots/personality.py:136 | a substring of a substring is a substring |
| Words.TrimContained | framework/catcord_bots/personality.py:93-95 | a strip leaves a substring of its input |
| Words.DigitsAppend | framework/catcord_bots/personality.py:131 | two digit-free pieces join into a digit-free text |
| Words.WholeWordContained | framework/catcord_bots/personality.py:128 | a whole-word match is a substring |
| Words.FirstWholeWord | framework/catcord_bots/personality.py:126-129 | nothing is found exactly when no word of the list occurs as a whole word; a word found occurs as one and no earlier word of the list does |
| Words.MatchesFromOccurs | framework/catcord_bots/personality.py:136 | a character-by-character comparison succeeds where the word occurs |
| Words.SearchFromFinds | framework/catcord_bots/personality.py:136 | the naive search finds every occurrence at or after its start |
| Words.SearchMisses | framework/catcord_bots/personality.py:136 | a naive search that finds nothing shows the word is absent |
| Words.ContainsAcross | framework/catcord_bots/personality.py:136 | a word without the separator that is in neither piece is not in their join |
| Words.NotWholeWord | framework/catcord_bots/personality.py:128 | a word that is not a substring is not a whole word |
| Words.ContainedChar | framework/catcord_bots/personality.py:136 | every character of a substring is a character of the text |
| Words.TrimLacks | framework/catcord_bots/personality.py:244 | a character the text lacks is not in what a strip leaves |
| PyValue.GetOr | framework/catcord_bots/personality.py:99-102 | `d.get(k, default)` is the stored value when `k` is present and the default otherwise |
| PyValue.Section | framework/catcord_bots/personality.py:98 | `v or {}` gives `{}` for a falsy value and the dict itself for a dict; any other truthy value raises at its `.get` |
| PyValue.TruncateToInt | cleaner/cleaner.py:74 | `int(x)` truncates toward zero |

## Left out

- SQLite itself, `init_db` and its directory creation: the table is a map from event id to row, and each query is its selection and ORDER BY order; ties the ORDER BY leaves open may come back in any order.
- The `statvfs` behind `get_disk_usage_ratio`: the run takes its readings as a parameter (a ratio per step, or a raised error).
- The real `os.walk`: the media tree is a flat sequence of (directory, file name, size) entries in walk order.
- SHA-256 and `json.dumps`: the fingerprint is a `hash` parameter applied to the normalised dict; where distinct payloads must get distinct fingerprints, the lemma requires the hash to be injective.
- Float-to-text formatting (`:.1f`, `:.2f`, `str()` and the GB division): the formatters take a `Render` parameter, so the model fixes which line holds which rendered value but not the digits.
- `async`/`await`, `asyncio.sleep`, `print` and logging: the model is sequential and silent.
- The wall clock (`time.time()`): the run time and the rate-limit time are parameters.
- `_fetch_system_prompt` and its ETag cache: `render` takes what it returns, or the error it raises, as a parameter.
- The HTTP requests of `render`, both API modes and the parsing of their bodies: each attempt's outcome is `Timeout`, `HttpError`, another exception, or the content of the reply.
- `_validate_output`: it is deprecated and always passes.
- Eviction.RetentionQueryAt: the cutoffs are `nowMs` minus whole days of 86 400 000 ms. The source subtracts the days from a naive local `datetime.now()` and converts back with `.timestamp()`, so across a daylight-saving change its cutoff is an hour off from this; it also reads the clock twice and truncates the float milliseconds. The local time zone is not modelled.
- Eviction.DefaultRetentionWindows: states the windows in the same fixed-length days as `RetentionQueryAt`, so the daylight-saving shift above is not captured either.
- Dedup.Gate: the state file is an optional string and its reads and writes always succeed. The source can raise out of `should_send`: `os.makedirs("")` fails for a state path without a directory part when a message is to be sent, and errors of `open`, `read` and `write` propagate. These failures are not modelled.
- Numerals.FloatText: SQLite writes a REAL stored in a TEXT column as `%!.15g`. The model writes the sign, the integer part and `.0`, which matches for integral values below 10^15 only. What the model relies on, a first character that is a digit or `-` and so never passes `LIKE 'image/%'`, holds for the real text too.
- Numerals.ParseInt: only ASCII digits count as digits. Python's `int()` also accepts other Unicode decimal digits.
- Media.SizeOfValue: a float size is a real number, so the `inf` and `nan` of a decoded JSON float, for which `int()` raises, cannot occur.
- The object branch of `extract_mxc_and_info`, which relies on attribute lookup on a non-dict event.
- Matrix and HTTP client code, configuration loading, the entry points and the package re-exports are not part of this model. The entry point in `cleaner/main.py` passes an `ai_cfg` argument that the run functions do not accept; the model follows the run functions.
- Regular expressions and case: `\d` is an ASCII digit, `\b` is a boundary between ASCII word characters and others, `[A-Z]` is ASCII, and `str.lower()` maps only ASCII letters. `str.strip()` removes Python's `str.isspace` characters.
- Python comparisons between strings: a summary whose numeric field holds a string is modelled as raising where the program would compare or format it, not as Python's string ordering.
- `Standalone.InvalidCaseSinceYesterday`: the script's table names `banned phrase 'since'` as the reason for `Since yesterday`. The code tries `yesterday` first and reports it. The table only checks that the text is rejected, so the lemma states the reason the code gives.
- Tests that exercise a constructor argument, methods or modules that the source does not have, or a 160-character limit where the code uses 180: these are not used as requirements. `tests/test_matrix.py` is I/O only.

## Findings

| source | as written | input that shows it | evidently intended | confidence | as-written member | corrected member |
|---|---|---|---|---|---|---|
| framework/catcord_bots/formatting.py:108 | the disk line joins the two percentages with the three characters U+00E2 U+2020 U+2019, the UTF-8 bytes of the arrow decoded as Windows-1252 | the payload of tests/test_formatting.py:30-35 (87.0 % to 82.0 %), whose test asks for `Disk: 87.0% → 82.0%` | the arrow U+2192 | high; not executed | Formatting.PressureTestAsWrittenFails | Formatting.PressureTestPasses |
