# Dynamic tags, time filters and write-behind buffers of uniset

A Dafny model of three parts of the uniset SCADA framework, with proofs about all their runs.

**The dynamic tag cache of the ClickHouse backend.** `Templates.dfy`, `TagRanges.dfy`, `TagsModel.dfy`,
`ClickHouseTagsConfig.dfy`, `TagsAgreement.dfy`, `TagsNecessity.dfy` and `TagsDelivery.dfy`. Tag texts with the placeholders
`%v`, `%min` and `%max` are cached inside ranges that several users share, and are refreshed only if a user's
remembered value is out of date and a per-range flag still says that replacing is worth while. The
specification is a recomputation of every text from the current sensor values. The cache meets it in every run
exactly for well-formed configurations: each column of texts of a list in use has a placeholder in all texts, or
has no `%v` and its texts with placeholders come first; and a list that mentions `%v` has one user. The ClickHouse
backend drives the cache in a restricted way, one update and one request per message; for it the condition on the
tags that messages can ask for is always sufficient, and exact when sensors are separate.

**Write-behind buffers and connections.** `LossyLog.dfy`, `WholeBlocks.dfy`, `PostgresServer.dfy`, `ClickHouseBackend.dfy` and
`OpenTSDBBackend.dfy`. Each backend keeps a ghost log in which every item offered has one fate (pending,
committed, refused, lost) that never changes once settled, and whose pending part is the real buffer. The
database is nondeterministic: the outcome of each insert, ping and connect is a parameter of the call.

**Time filters.** `PassiveTimer.dfy`, `HourGlass.dfy`, `DelayTimer.dfy`, `Pulse.dfy` and `Sweep.dfy`. Each
class records a ghost history of its calls and agrees, after every history at arbitrary times, with a reference
definition: an ideal hourglass with one grain per millisecond, a debouncer defined on timed samples, windows for
the edges of a pulse train, and a closed-form triangle wave.

## Where the code and its documentation differ

The model follows the code.

- The tag example documented in ClickHouseTagsConfig.h:67 goes stale once the value changes
  (`TagsNecessity.DocumentedExampleGoesStale`).
- DBServer_PostgreSQL.cc:211-220 announces that `lastRemove` deletes the newest records and that otherwise the
  oldest are deleted, a given number of them. The erase leaves D records: with `lastRemove` the newest D, without it
  the oldest D. The vector then holds D records while the counter is lowered by D, so the two may differ.
- DBServer_PostgreSQL.cc:155-160 names the newest query as lost if `lastRemove` is set, but always drops the oldest.
- With a clean factor so small that nothing survives cleaning, the counter exceeds `ibufMaxSize`
  (`PostgresServer.BoundHoldsIffSomethingSurvives`).
- A timer message that was already queued when its timer was disarmed can leave `connect_ok` out of step with the
  timers; `DBServer.PingTimer` and `DBServer.ReconnectTimer` state exactly when.
- In BackendOpenTSDB.cc:346-361 a send that fails with an error other than EPIPE and EBADF still clears the buffer.
  Such a block counts as lost, not as sent.
- In HourGlass.h:183 the remaining sand passes through a 32-bit int
  (`HourGlass.RemainExactIffSizeFits`).

## Model

| member | source | states |
|---|---|---|
| `Templates.FindIsFirst` | src/Core/UniSetTypes.cc:857-863 | the search used by the replacement reports the least position at or after its start: nothing matches before it |
| `Templates.ReplaceAll` | src/Core/UniSetTypes.cc:850-867 | the in-place search-and-replace loop computes one left-to-right replacement of every occurrence and never rescans inserted text; it ends for every input, also an empty pattern |
| `Templates.SequentialIsSimultaneous` | extensions/Backend-ClickHouse/ClickHouseTagsConfig.cc:499-501 | replacing `%v`, then `%min`, then `%max` equals one simultaneous left-to-right substitution, for every text, when the inserted values are printed integers |
| `Templates.UnchangedIffNoPlaceholder` | extensions/Backend-ClickHouse/ClickHouseTagsConfig.cc:503-504 | the comparison with the original text detects exactly the texts without any placeholder |
| `Templates.SubstLosesPercents` | extensions/Backend-ClickHouse/ClickHouseTagsConfig.cc:499-504 | a substitution strictly lowers the number of percent signs iff the text has a placeholder, so rendering never reproduces such a text by accident |
| `Templates.ValueMatters` | extensions/Backend-ClickHouse/ClickHouseTagsConfig.cc:499-501 | text without `%v` is independent of the value; text with it grows strictly with the length of the printed value |
| `Templates.ContrastShows` | extensions/Backend-ClickHouse/ClickHouseTagsConfig.cc:499-501 | for every value there is another one that every text mentioning `%v` shows differently |
| `Templates.DecimalReadsBack` | extensions/Backend-ClickHouse/ClickHouseTagsConfig.cc:499-501 | a printed number read back digit by digit is the number, with a minus sign iff it is negative |
| `Templates.RenderAround` | extensions/Backend-ClickHouse/ClickHouseTagsConfig.cc:499-501 | wherever `%v`, `%min` or `%max` stands in a text it shows the value, the lower or the upper bound, and what stands before and after it is rendered on its own |
| `Templates.RenderSpelled` | extensions/Backend-ClickHouse/ClickHouseTagsConfig.cc:499-501 | a text spelled by parts shows every literal unchanged and every placeholder as the number it stands for, in order |
| `TagRanges.RefreshedTag` | extensions/Backend-ClickHouse/ClickHouseTagsConfig.cc:492-517 | told by the texts alone: while the flag is set and all texts so far have a placeholder, key and value of a tag show their own parts in order; behind a plain text nothing changes |
| `TagRanges.RefreshedFlags` | extensions/Backend-ClickHouse/ClickHouseTagsConfig.cc:503-514 | each flag survives a refresh iff it was set and all texts of its column have a placeholder |
| `TagRanges.UpdateOne` | extensions/Backend-ClickHouse/ClickHouseTagsConfig.cc:497-505 | one text: if the flag is still set every part of it is shown as it should be, value, lower and upper bound each in its place; the flag survives iff the text has a placeholder |
| `TagRanges.UpdateText` | extensions/Backend-ClickHouse/ClickHouseTagsConfig.cc:492-517 | one pass over a range renders, in each column whose flag is set, exactly the texts up to and including the first one without a placeholder, and clears the flag iff there is such a text |
| `TagRanges.RefreshStaysReached` | extensions/Backend-ClickHouse/ClickHouseTagsConfig.cc:492-517 | whatever the texts, after any refresh the texts behind the first plain one still hold their originals and a dead column shows one single past value |
| `TagRanges.RefreshMakesCoherent` | extensions/Backend-ClickHouse/ClickHouseTagsConfig.cc:492-517 | refreshing a steady column makes every text right for the new value, even when its flag was cleared long before |
| `TagRanges.UnsteadyWitness` | extensions/Backend-ClickHouse/ClickHouseTagsConfig.cc:492-517 | a column that is not steady has a placeholder hidden behind a plain text, or `%v` in front of one |
| `ClickHouseTags.NewRange` | extensions/Backend-ClickHouse/ClickHouseTagsConfig.cc:356-374 | bounds given in the wrong order are swapped, so a value is in range iff it lies between them either way; the flags start set, and keys and values are as written |
| `ClickHouseTags.PutItemKeeps` | extensions/Backend-ClickHouse/ClickHouseTagsConfig.cc:186-220 | a list of users never holds a sensor twice; each entry is an old one or points the given sensor at the given list |
| `ClickHouseTags.ClickHouseTagsConfig.constructor` | extensions/Backend-ClickHouse/ClickHouseTagsConfig.cc:65-68 | starts with the given lists, no sensor and no user |
| `ClickHouseTags.ClickHouseTagsConfig.AddState` | extensions/Backend-ClickHouse/ClickHouseTagsConfig.cc:222-226 | the first registered default of a sensor wins |
| `ClickHouseTags.ClickHouseTagsConfig.InitFromTags` | extensions/Backend-ClickHouse/ClickHouseTagsConfig.cc:126-142 | fixed tags replace what the sensor had; the configuration stays as loading leaves it |
| `ClickHouseTags.ClickHouseTagsConfig.InitFromValues` | extensions/Backend-ClickHouse/ClickHouseTagsConfig.cc:160-184 | a known list replaces what the sensor had; an unknown one is an error that changes nothing |
| `ClickHouseTags.ClickHouseTagsConfig.AddTagsInfo` | extensions/Backend-ClickHouse/ClickHouseTagsConfig.cc:380-396 | finds the first user for the sensor, changing nothing, or appends one with default value 0 |
| `ClickHouseTags.ClickHouseTagsConfig.InitFromTagsItem` | extensions/Backend-ClickHouse/ClickHouseTagsConfig.cc:192-219 | one entry of a section: the user of that sensor is pointed at the list; an unknown list is an error that changes nothing |
| `ClickHouseTags.ClickHouseTagsConfig.UpdateTags` | extensions/Backend-ClickHouse/ClickHouseTagsConfig.cc:398-409 | a known sensor gets the value and nothing else changes, an unknown one changes nothing, and the result says which |
| `ClickHouseTags.ClickHouseTagsConfig.GetTags` | extensions/Backend-ClickHouse/ClickHouseTagsConfig.cc:435-443 | result and new state are those of the functional model; a sensor without users gives no tags |
| `ClickHouseTags.ClickHouseTagsConfig.MakeTags` | extensions/Backend-ClickHouse/ClickHouseTagsConfig.cc:445-485 | the outer loop serves the users one after another, each on the state the previous one left |
| `ClickHouseTags.ClickHouseTagsConfig.MakeUserTags` | extensions/Backend-ClickHouse/ClickHouseTagsConfig.cc:452-480 | fixed tags iff the value is not zero; otherwise the matching ranges, refreshed iff the user is outdated, which it then no longer is |
| `ClickHouseTags.ClickHouseTagsConfig.MakeRangeTags` | extensions/Backend-ClickHouse/ClickHouseTagsConfig.cc:463-473 | refreshes the shared list in place, all ranges or none, and collects those that contain the value, in order |
| `TagsModel.ShownInOrder` | extensions/Backend-ClickHouse/ClickHouseTagsConfig.cc:463-473 | the ranges of a list contribute in order: all tags of those that contain the value, bounds included, and none of the others |
| `TagsModel.FreshTagsShow` | extensions/Backend-ClickHouse/ClickHouseTagsConfig.cc:492-517 | the recomputed tags of a range show each part of their own text as it should be |
| `TagsModel.RecomputedByUser` | extensions/Backend-ClickHouse/ClickHouseTagsConfig.cc:452-480 | fixed tags are shown while the value is not zero; otherwise the list decides |
| `TagsModel.UsersInOrder` | extensions/Backend-ClickHouse/ClickHouseTagsConfig.cc:450-481 | the users of a sensor contribute in order |
| `TagsModel.GetKeepsShape` | extensions/Backend-ClickHouse/ClickHouseTagsConfig.cc:445-485 | a request changes cached texts, flags and remembered values only: bounds, original texts, users and lists stay |
| `TagsModel.RecomputedDependsOnShape` | extensions/Backend-ClickHouse/ClickHouseTagsConfig.cc:445-517 | the recomputed tags depend on the sensor values and the static configuration only |
| `TagsAgreement.GetAgrees` | extensions/Backend-ClickHouse/ClickHouseTagsConfig.cc:435-517 | on a well-formed configuration in step, the cached answer equals recomputing every text from the current sensor values, in the same order, and the invariant survives |
| `TagsAgreement.ServedStaysSynced` | extensions/Backend-ClickHouse/ClickHouseTagsConfig.cc:461-480 | serving one user keeps every refreshed user right about its list, though the list is shared and remembered values are not |
| `TagsAgreement.RunKeepsSynced` | extensions/Backend-ClickHouse/ClickHouseTagsConfig.cc:398-517 | the invariant holds after every sequence of updates and requests |
| `TagsAgreement.WellFormedIsTransparent` | extensions/Backend-ClickHouse/ClickHouseTagsConfig.cc:398-517 | from a freshly loaded well-formed configuration, after every run of `updateTags` and `getTags`, every request returns what a recomputation from scratch returns |
| `TagsNecessity.HiddenTextFails` | extensions/Backend-ClickHouse/ClickHouseTagsConfig.cc:503-504 | a placeholder behind a plain text is never replaced, and some request returns it |
| `TagsNecessity.FrozenTextFails` | extensions/Backend-ClickHouse/ClickHouseTagsConfig.cc:503-504 | a text with `%v` in front of a plain text keeps its first value, and some request returns it stale |
| `TagsNecessity.SharedUnderOneSensorFails` | extensions/Backend-ClickHouse/ClickHouseTagsConfig.cc:465-480 | two users of one `%v` list under one sensor: some request returns the value of the other user |
| `TagsNecessity.SharedByTwoSensorsFails` | extensions/Backend-ClickHouse/ClickHouseTagsConfig.cc:465-480 | two users of one `%v` list under different sensors: some request returns the value of the other user |
| `TagsNecessity.DocumentedExampleGoesStale` | extensions/Backend-ClickHouse/ClickHouseTagsConfig.h:66-69 | the documented values `%v`, `%min`, `text` in one range make any configuration that uses the range go stale |
| `TagsNecessity.TransparentIsWellFormed` | extensions/Backend-ClickHouse/ClickHouseTagsConfig.cc:398-517 | a configuration that never answers wrongly is well formed |
| `TagsNecessity.TransparentIffWellFormed` | extensions/Backend-ClickHouse/ClickHouseTagsConfig.cc:398-517 | exactly the well-formed configurations always agree with recomputation: the condition looks at configuration text alone, and is necessary and sufficient for every loaded configuration |
| `TagsDelivery.WellFormedAnswersRight` | extensions/Backend-ClickHouse/BackendClickHouse.cc:364-367 | whatever else is configured, if the tags messages can ask for are well formed, every message of every run gets the recomputed tags |
| `TagsDelivery.OnlyAskedMatter` | extensions/Backend-ClickHouse/BackendClickHouse.cc:313-316 | tags of sensors the backend does not handle play no part, neither as answers nor through shared lists |
| `TagsDelivery.SetAndAsk` | extensions/Backend-ClickHouse/BackendClickHouse.cc:364-367 | setting the sensor of a user and asking for its tags can be done by one or two messages with no other effect, if sensors are separate |
| `TagsDelivery.DeliveryTransparentIffWellFormed` | extensions/Backend-ClickHouse/BackendClickHouse.cc:364-367 | with separate sensors (each one that chooses from a list is handled by the backend, and owns the tags itself or owns no list-made tags), messages never get a wrong answer exactly if the tags they can ask for are well formed |
| `TagsDelivery.UndeliveredSensorNeedsLess` | extensions/Backend-ClickHouse/BackendClickHouse.cc:364-367 | a sole user of a sensor that is never delivered is right in every run if no placeholder hides behind a plain text in the ranges around the default |
| `TagsDelivery.QuietExampleNeverFails` | extensions/Backend-ClickHouse/BackendClickHouse.cc:364-367 | a concrete configuration that is not well formed and never answers wrongly: without separate sensors well-formedness is not necessary |
| `LossyLogs.Conservation` | extensions/DBServer-PostgreSQL/DBServer_PostgreSQL.cc:199-257 | every offered item has exactly one place: the four lists of positions share out the offered items |
| `LossyLogs.ItemsAreSubsequence` | extensions/DBServer-PostgreSQL/DBServer_PostgreSQL.cc:199-257 | the items with one fate stand in the offered sequence at strictly increasing positions |
| `LossyLogs.EverythingIsAccounted` | extensions/DBServer-PostgreSQL/DBServer_PostgreSQL.cc:199-257 | if nothing was refused: committed, buffered and lost items are disjoint in-order subsequences of the offered ones, together all of them, and everything buffered was offered after everything committed |
| `LossyLogs.KeptIsCommittedThenPending` | extensions/Backend-OpenTSDB/BackendOpenTSDB.cc:246-383 | what was neither refused nor lost is the committed items followed by the buffered ones |
| `LossyLogs.CommitAll` | extensions/Backend-ClickHouse/BackendClickHouse.cc:450-477 | writing a whole buffer appends it in order to what is committed and touches no other fate |
| `WholeBlocks.SegmentsTell` | extensions/Backend-ClickHouse/BackendClickHouse.cc:311-477 | a log of whole blocks followed by the buffer: the offered items split in order into them, and the lost items are a whole number of blocks of the fixed length |
| `WholeBlocks.SegmentedSettle` | extensions/Backend-ClickHouse/BackendClickHouse.cc:379-390 | settling a whole buffer adds one block and nothing else |
| `LossyLogs.LoseStretch` | extensions/DBServer-PostgreSQL/DBServer_PostgreSQL.cc:208-223 | dropping a stretch of the buffer loses exactly that many items and keeps the order of the rest |
| `PostgresServer.OutageKeepsTheNewest` | extensions/DBServer-PostgreSQL/DBServer_PostgreSQL.cc:146-171 | after any number of queries submitted during an outage the queue is the suffix of length at most `qbufSize` of those pending and submitted, so the last one submitted is still there |
| `PostgresServer.PassedAreTheAccepted` | extensions/DBServer-PostgreSQL/DBServer_PostgreSQL.cc:188-196 | the queries executed while draining are exactly those whose call succeeds, each once and in order |
| `PostgresServer.CleanCountBounds` | extensions/DBServer-PostgreSQL/DBServer_PostgreSQL.cc:207 | the clean count is the product rounded to the nearest integer, halves upwards, and grows by at most one per record |
| `PostgresServer.FillRelation` | extensions/DBServer-PostgreSQL/DBServer_PostgreSQL.cc:199-257 | if cleaning a full buffer leaves a record, the counter stays within ibufMaxSize and vector length minus counter is 0 or 2D-n |
| `PostgresServer.CleaningStaysInside` | extensions/DBServer-PostgreSQL/DBServer_PostgreSQL.cc:201-229 | in every reachable state the iterator moved by the clean count stays inside the vector, and the relation between vector length and counter (equal, or apart by twice the clean count minus the full count) is kept |
| `PostgresServer.LengthBound` | extensions/DBServer-PostgreSQL/DBServer_PostgreSQL.cc:201-257 | the vector length stays within max(ibufMaxSize, 2D-1, 1) |
| `PostgresServer.BoundHoldsIffSomethingSurvives` | extensions/DBServer-PostgreSQL/DBServer_PostgreSQL.cc:206-226 | the counter stays within ibufMaxSize through every outage iff cleaning a full buffer leaves at least one record |
| `PostgresServer.ArmedTicksKeepCoupling` | extensions/DBServer-PostgreSQL/DBServer_PostgreSQL.cc:367-427 | from start-up on, through every loss and recovery in which only armed timers deliver, connected means pinging and not trying to reconnect |
| `PostgresServer.LeftOverTickBreaksCoupling` | extensions/DBServer-PostgreSQL/DBServer_PostgreSQL.cc:389-404 | connecting, a failed ping and a ping message left over from the disarmed timer: the coupling is broken iff some timer is in use |
| `PostgresServer.DBServer.constructor` | extensions/DBServer-PostgreSQL/DBServer_PostgreSQL.h:121-135 | both buffers empty, not connected, no timer armed |
| `PostgresServer.DBServer.NothingUnaccounted` | extensions/DBServer-PostgreSQL/DBServer_PostgreSQL.cc:142-257 | between calls all records and queries ever submitted are written, buffered or lost, each once and in order of submission |
| `PostgresServer.DBServer.CleanOverflow` | extensions/DBServer-PostgreSQL/DBServer_PostgreSQL.cc:201-229 | of an overfull buffer D records survive, the newest if `lastRemove` is set and the oldest if not, and the counter drops by D; how many records are lost |
| `PostgresServer.DBServer.FlushInsertBuffer` | extensions/DBServer-PostgreSQL/DBServer_PostgreSQL.cc:199-248 | cleaning comes first; then everything left is written in order, or nothing is |
| `PostgresServer.DBServer.FlushTimer` | extensions/DBServer-PostgreSQL/DBServer_PostgreSQL.cc:429-434 | the same from the timer, keeping the invariant |
| `PostgresServer.DBServer.AddRecord` | extensions/DBServer-PostgreSQL/DBServer_PostgreSQL.cc:250-257 | the new record goes to the end; a full buffer is cleaned and written; new buffer, history and both counts in full |
| `PostgresServer.DBServer.PopQuery` | extensions/DBServer-PostgreSQL/DBServer_PostgreSQL.cc:190-195 | the front query leaves the queue executed or lost, and no other query changes its fate |
| `PostgresServer.DBServer.FlushBuffer` | extensions/DBServer-PostgreSQL/DBServer_PostgreSQL.cc:183-197 | the draining loop tries every queued query once, in order; those accepted by the database are executed, the rest are lost, and the queue is empty |
| `PostgresServer.DBServer.WriteToBase` | extensions/DBServer-PostgreSQL/DBServer_PostgreSQL.cc:142-181 | offline: the query is queued last, the oldest one gives way if the queue is full, and false is returned; online: the queue is drained before the query is tried |
| `PostgresServer.DBServer.ConfirmInfo` | extensions/DBServer-PostgreSQL/DBServer_PostgreSQL.cc:84-113 | the record buffer is flushed before the update is written |
| `PostgresServer.DBServer.InitDBServer` | extensions/DBServer-PostgreSQL/DBServer_PostgreSQL.cc:303-381 | a first success connects, arms the ping timer, disarms the reconnect timer and drains the queue; a failure arms the reconnect timer; an existing connection is left alone |
| `PostgresServer.DBServer.PingTimer` | extensions/DBServer-PostgreSQL/DBServer_PostgreSQL.cc:389-404 | connected iff the ping succeeds; the coupling of connection flag and timers is kept for every message of an armed timer, and for a left-over message is broken iff a ping succeeds while disconnected and some timer is in use |
| `PostgresServer.DBServer.ReconnectTimer` | extensions/DBServer-PostgreSQL/DBServer_PostgreSQL.cc:406-427 | the same for the reconnect timer: a left-over message breaks the coupling iff the connection object exists, its ping fails while connected, and some timer is in use |
| `OpenTSDBBackend.RefusedIffTwoAttemptsFail` | extensions/Backend-OpenTSDB/BackendOpenTSDB.cc:253-263 | a line is refused iff the buffer has reached both sizes and two successive attempts fail; then buffer and sent lines are unchanged |
| `OpenTSDBBackend.LinesAreConserved` | extensions/Backend-OpenTSDB/BackendOpenTSDB.cc:246-383 | sent lines followed by the buffer grow by exactly the accepted line, unless a send fails silently, which loses exactly the buffered block |
| `OpenTSDBBackend.BackendOpenTSDB.constructor` | extensions/Backend-OpenTSDB/BackendOpenTSDB.h:169-171 | starts empty |
| `OpenTSDBBackend.BackendOpenTSDB.FlushBuffer` | extensions/Backend-OpenTSDB/BackendOpenTSDB.cc:320-383 | a block taken by a connected socket is sent and leaves the buffer empty; EPIPE, EBADF and exceptions leave everything and the socket to the reconnect; another error loses the block; after a success without losses everything not refused has been sent |
| `OpenTSDBBackend.BackendOpenTSDB.MakeRoom` | extensions/Backend-OpenTSDB/BackendOpenTSDB.cc:253-264 | room means the buffer is below its bound; up to two attempts are made |
| `OpenTSDBBackend.BackendOpenTSDB.SensorInfo` | extensions/Backend-OpenTSDB/BackendOpenTSDB.cc:246-298 | an accepted line is the last one buffered, a refused one is the only one refused; the buffer stays within max(bufSize, bufMaxSize, 1) and the timer flag is set iff the buffer is not empty |
| `OpenTSDBBackend.BackendOpenTSDB.TimerFlush` | extensions/Backend-OpenTSDB/BackendOpenTSDB.cc:302-303 | one attempt, with the effect of each outcome |
| `OpenTSDBBackend.BackendOpenTSDB.TimerReconnect` | extensions/Backend-OpenTSDB/BackendOpenTSDB.cc:304-308 | the socket exists iff reconnecting succeeded; only success ends the asking |
| `OpenTSDBBackend.BackendOpenTSDB.NothingButRefusals` | extensions/Backend-OpenTSDB/BackendOpenTSDB.cc:246-383 | while no send failed silently, the lines taken by the socket followed by the buffer are exactly the lines offered without the refused ones, in order |
| `ClickHouseBackend.LastValueIsNewest` | extensions/Backend-ClickHouse/BackendClickHouse.cc:364-367 | the value of a sensor is the one its newest message delivered |
| `ClickHouseBackend.RowFields` | extensions/Backend-ClickHouse/BackendClickHouse.cc:331-377 | the fields of a row in terms of its message: time, value, name, node, producer with their defaults, and own, global and dynamic tags position by position |
| `ClickHouseBackend.Informed` | extensions/Backend-ClickHouse/BackendClickHouse.cc:364-367 | the loaded configuration with the last delivered value of each tracked sensor, or its first default; ids not tracked change nothing |
| `ClickHouseBackend.RowsStayRight` | extensions/Backend-ClickHouse/BackendClickHouse.cc:329-377 | rows that the cache gave for their prefixes stay so when a message is added |
| `ClickHouseBackend.CacheIsInformed` | extensions/Backend-ClickHouse/BackendClickHouse.cc:364-367 | whatever its texts, after any messages the cache holds the last delivered value of every sensor and the loaded lists and users |
| `ClickHouseBackend.RowBuiltIffAnswerRight` | extensions/Backend-ClickHouse/BackendClickHouse.cc:331-377 | a stored row is the one its messages call for iff the cache answered rightly, though a row shows keys and values only |
| `ClickHouseBackend.RowsPureIffWellFormed` | extensions/Backend-ClickHouse/BackendClickHouse.cc:311-377 | with separate sensors, every row of every run is the one its messages call for exactly if the tags that can be asked for are well formed |
| `ClickHouseBackend.OverflowLosesTheLimit` | extensions/Backend-ClickHouse/BackendClickHouse.cc:379-390 | the buffer stays below M = max(bufSize, bufMaxSize, 1); a drop loses exactly M rows; otherwise inserted rows followed by buffered ones grow by exactly the new row |
| `ClickHouseBackend.BackendClickHouse.constructor` | extensions/Backend-ClickHouse/BackendClickHouse.h:218-220 | starts empty and disconnected over any loaded tag configuration |
| `ClickHouseBackend.BackendClickHouse.CollectTags` | extensions/Backend-ClickHouse/BackendClickHouse.cc:347-373 | keys and values of the own, the global and the dynamic tags, in that order and in step |
| `ClickHouseBackend.BackendClickHouse.DynamicTags` | extensions/Backend-ClickHouse/BackendClickHouse.cc:364-367 | the dynamic tags of a message come from the cache as all accepted messages have left it, updated with this one first |
| `ClickHouseBackend.BackendClickHouse.AppendFields` | extensions/Backend-ClickHouse/BackendClickHouse.cc:331-345 | time, value, name, node and producer of the message go to their own columns, with the defaults for an unknown node and supplier |
| `ClickHouseBackend.BackendClickHouse.AppendRow` | extensions/Backend-ClickHouse/BackendClickHouse.cc:329-377 | each of the seven columns grows by the part of one row; all stay equally long |
| `ClickHouseBackend.BackendClickHouse.ClearData` | extensions/Backend-ClickHouse/BackendClickHouse.cc:192-201 | all seven columns are emptied |
| `ClickHouseBackend.BackendClickHouse.FlushBuffer` | extensions/Backend-ClickHouse/BackendClickHouse.cc:450-477 | the whole block is inserted, or nothing changes; false for an empty buffer |
| `ClickHouseBackend.BackendClickHouse.DropAllRows` | extensions/Backend-ClickHouse/BackendClickHouse.cc:384-389 | every buffered row is lost and no other |
| `ClickHouseBackend.BackendClickHouse.WriteOrDrop` | extensions/Backend-ClickHouse/BackendClickHouse.cc:379-390 | a full buffer is written, and one at its maximum that cannot be written is dropped |
| `ClickHouseBackend.BackendClickHouse.StoreRow` | extensions/Backend-ClickHouse/BackendClickHouse.cc:329-398 | the row is buffered, then the buffer written or dropped; the flush timer flag afterwards |
| `ClickHouseBackend.BackendClickHouse.SensorInfo` | extensions/Backend-ClickHouse/BackendClickHouse.cc:311-411 | a message for an unknown sensor or one without a name changes nothing; any other adds exactly one row with the fields of the message, which is then buffered, written or dropped with the rest by size and connection |
| `ClickHouseBackend.BackendClickHouse.TimerFlush` | extensions/Backend-ClickHouse/BackendClickHouse.cc:413-425 | the buffer is written or untouched; the flag stays set iff the write fails and the ping succeeds |
| `ClickHouseBackend.BackendClickHouse.TimerReconnect` | extensions/Backend-ClickHouse/BackendClickHouse.cc:426-438 | only a successful reconnect writes the buffer and sets the flush flag |
| `ClickHouseBackend.BackendClickHouse.RowsSplitIntoBlocks` | extensions/Backend-ClickHouse/BackendClickHouse.cc:311-477 | in every state between calls the rows, one per accepted message, split in order into blocks inserted or dropped as a whole and then the buffer; every drop loses exactly M rows; the database holds the inserted blocks one after another |
| `ClickHouseBackend.BackendClickHouse.InsertedRowsArePure` | extensions/Backend-ClickHouse/BackendClickHouse.cc:311-477 | end to end: every row in the database has the fields of its message and own, global and recomputed dynamic tags in their places, and so is a pure function of the accepted messages up to and including its own, in the order of the messages, if the tags that can be asked for are well formed |
| `PassiveTimers.PassiveTimer.constructor` | src/Timers/PassiveTimer.cc:27-38 | never fires until it is set |
| `PassiveTimers.PassiveTimer.CheckTime` | src/Timers/PassiveTimer.cc:46-55 | for a non-negative interval: fires iff the interval is not the never-value and has elapsed |
| `PassiveTimers.PassiveTimer.SetTiming` | src/Timers/PassiveTimer.cc:59-70 | records interval and time |
| `PassiveTimers.PassiveTimer.Reset` | src/Timers/PassiveTimer.cc:73-76 | records the time and keeps the interval |
| `HourGlasses.SteadySand` | include/HourGlass.h:30-40 | between turns the ideal sand falls or rises by one per millisecond and saturates at both ends |
| `HourGlasses.TurnKeepsPast` | include/HourGlass.h:92-127 | a turn does not change any earlier level |
| `HourGlasses.EmptyIffDrained` | include/HourGlass.h:30-53 | the ideal glass is empty iff there is a moment since the start from which upright time minus inverted time reaches the size and never falls behind again |
| `HourGlasses.SandSplit` | include/HourGlass.h:92-189 | the sand at any time is that of a glass restarted at an earlier time with what it held then |
| `HourGlasses.SandContracts` | include/HourGlass.h:92-189 | two levels under the same turns keep their order and never move further apart |
| `HourGlasses.GlassesContract` | include/HourGlass.h:92-189 | two hourglasses of equal size, with any pasts, turned alike from some time on: the one with less sand then never has more, and their levels never move further apart |
| `HourGlasses.RotateBoth` | include/HourGlass.h:92-127 | turning both hourglasses alike keeps them turned alike, from the first common turn on |
| `HourGlasses.HourGlass.constructor` | include/HourGlass.h:191-195 | an hourglass of size 0, upside down |
| `HourGlasses.HourGlass.Run` | include/HourGlass.h:70-76 | starts a new history, upright and full |
| `HourGlasses.HourGlass.Reset` | include/HourGlass.h:78-81 | starts anew with the same size |
| `HourGlasses.HourGlass.Rotate` | include/HourGlass.h:92-127 | timer and register go on encoding the ideal level after any turn at any time; the level itself does not jump; turning to the same side changes nothing |
| `HourGlasses.HourGlass.LevelNow` | include/HourGlass.h:92-189 | the ideal level at any later time from register and timer alone |
| `HourGlasses.HourGlass.LevelMovesOn` | include/HourGlass.h:30-40 | until the next turn the level falls by one per millisecond if the glass is upright and rises if not, and stops at the ends |
| `HourGlasses.HourGlass.RemainIsLevel` | include/HourGlass.h:158-189 | for sizes within int, `remain` and `amount` are the ideal level and its complement at every time after every run of calls |
| `HourGlasses.HourGlass.RemainExactIffSizeFits` | include/HourGlass.h:183-188 | just after a start `remain` is right iff the size fits an int |
| `HourGlasses.HourGlass.CheckIsEmpty` | include/HourGlass.h:142-150 | `check` holds iff the glass is upright and the ideal level is 0 |
| `HourGlasses.HourGlass.CheckMeansDrained` | include/HourGlass.h:142-150 | `check` holds iff the glass is upright and such a draining stretch exists since the start |
| `DelayTimers.OutputIsLastSustained` | include/DelayTimer.h:24-28 | the reference debouncer without recursion: true iff true was sustained at some sample and false at none since |
| `DelayTimers.OutputIsPrompt` | include/DelayTimer.h:57-127 | the reference output turns true as soon as a run of true samples has lasted the on-delay, false as soon as a run of false ones has lasted the off-delay, and changes at no other sample |
| `DelayTimers.PhaseLength` | include/DelayTimer.h:57-127 | a true phase that ends lasts at least the off-delay, a false one the on-delay |
| `DelayTimers.ChangesAreRare` | include/DelayTimer.h:57-127 | in any window, (changes - 1) times the shorter delay is at most the length of the window |
| `DelayTimers.LastChange` | include/DelayTimer.h:57-127 | the last change in a window fixes the output, and those before it took at least their delays |
| `DelayTimers.DelayTimer.constructor` | include/DelayTimer.h:34-35 | output false, nothing sampled |
| `DelayTimers.DelayTimer.Set` | include/DelayTimer.h:39-46 | new delays and an empty history |
| `DelayTimers.DelayTimer.Reset` | include/DelayTimer.h:49-55 | an empty history |
| `DelayTimers.DelayTimer.Check` | include/DelayTimer.h:57-127 | after every history of samples since a reset, the state machine with one timer and two flags shows what the reference debouncer shows: a run of equal samples as long as its own delay decides, a shorter one changes nothing |
| `DelayTimers.DelayTimer.Get` | include/DelayTimer.h:129-132 | asking for the output counts as repeating the last sample |
| `DelayTimers.DelayTimer.IsWaiting` | include/DelayTimer.h:158-162 | a delay is running iff the output differs from the last sample |
| `DelayTimers.GlassFollowsRun` | include/HourGlass.h:92-127 | from the beginning of the last run on, a glass turned with the samples stands as the run says |
| `DelayTimers.RiseMeansGlassChecks` | include/HourGlass.h:142-150 | whenever the debouncer turns true, an hourglass of the on-delay started anywhere in the history before that run of true samples, and driven by the samples since, reports the end |
| `DelayTimers.ForgottenSamples` | include/DelayTimer.h:57-127 | samples from before the last run do not matter for when it began |
| `DelayTimers.StartGlass` | include/HourGlass.h:70-76 | starting an hourglass at any time makes it follow the debouncer from there |
| `DelayTimers.CheckAndRotate` | include/DelayTimer.h:57-127 | giving one sample to a debouncer and its hourglass keeps the hourglass following, and if the debouncer turns true the hourglass reports the end |
| `Pulses.RiseWindow` | include/Pulse.h:62-83 | if each phase lasts its interval and at most one pause longer, the k-th rise lies in its window |
| `Pulses.Pulse.constructor` | include/Pulse.h:137-140 | switched off |
| `Pulses.Pulse.SetTiming` | include/Pulse.h:48-55 | both intervals are set; running starts a high phase now |
| `Pulses.Pulse.Set` | include/Pulse.h:95-107 | switching on starts a high phase now, switching off ends the output |
| `Pulses.Pulse.Reset` | include/Pulse.h:57-60 | switching on again |
| `Pulses.Pulse.Step` | include/Pulse.h:62-83 | a poll only adds edges at its own time, at most two; every finished phase lasts at least its interval and at most one pause longer |
| `Pulses.Pulse.StepFall` | include/Pulse.h:70-74 | falls iff high and the high interval is over |
| `Pulses.Pulse.StepRise` | include/Pulse.h:76-80 | rises iff low and the low interval is over |
| `Pulses.Pulse.Phases` | include/Pulse.h:62-83 | every finished high phase lasts t1 and every finished low phase t0, up to one pause more |
| `Pulses.Pulse.KthRise` | include/Pulse.h:62-83 | polled at most p apart, the k-th rise after switching on at T lies in [T + k(t1+t0), T + k(t1+t0) + 2kp] |
| `Pulses.Pulse.RiseHasCome` | include/Pulse.h:62-83 | and it does come: once that window has passed the rise is recorded, for a positive low interval |
| `Sweep.StepsIsCeiling` | Utilities/SImitator/main.cc:214-254 | the number of steps between the bounds is the distance divided by the step, rounded up |
| `Sweep.TriangleShape` | Utilities/SImitator/main.cc:217-273 | from the lower bound in equal steps up to the upper one, the last step cut short, and down again in the same way |
| `Sweep.TriangleIsPeriodic` | Utilities/SImitator/main.cc:217-273 | the sweep repeats after twice that many iterations |
| `Sweep.TriangleStaysInside` | Utilities/SImitator/main.cc:217-273 | no value leaves the bounds |
| `Sweep.IterationFollowsTriangle` | Utilities/SImitator/main.cc:219-270 | one iteration of the two clamped counters yields the next value of the closed-form triangle |
| `Sweep.Simulate` | Utilities/SImitator/main.cc:164-273 | bounds are swapped if needed, a step that is not positive is an error, and any number of iterations yields the clamped triangle wave |

## Left out

- Clock: sub-millisecond truncation, and the several clock readings within one call, which share one `now`.
- 64-bit overflow of sums of durations in `HourGlass`, and int overflow of the counters in the sweep; negative durations.
- HourGlasses.HourGlass.RemainIsLevel: covers sizes up to 2^31-1 only, because larger ones are wrong already when the glass is started, as `RemainExactIffSizeFits` states.
- ClickHouseBackend.BackendClickHouse.InsertedRowsArePure: requires that the tags messages can ask for are well formed. This is sufficient; `RowsPureIffWellFormed` shows it exact for configurations with separate sensors. For the others (a sensor that is never delivered, or one that owns list-made tags and chooses those of another sensor) it is not necessary, as `QuietExampleNeverFails` shows, and the exact condition is out of reach here: it depends on defaults, ranges of a single value and the order in which users are served.
- OpenTSDBBackend.BackendOpenTSDB.NothingButRefusals: requires that no send failed silently, because such a send loses its block; `LinesAreConserved` covers that case.
- Pulses.Pulse.RiseHasCome: requires a positive low interval, because with an interval of zero a poll can fall and rise at once and an unset timer never fires.
- PostgresServer.DBServer.FlushBuffer: the outcome of the n-th insert of one call is a parameter; nothing is assumed about it.
- Containers: lists, maps and queues are `seq` and `map` fields of the classes, keys stand for stored iterators, and `Range` and `TagsInfo` are values stored in them, so aliasing of single ranges outside their list is not captured.
- Configuration: XML reading, name lookup, parsing of tag and range strings, and the errors they raise; re-reading of settings on reconnect; fixed-tag entries that parse to no tag at all.
- The clean factor is a real number between 0 and 1: float rounding of the product is not modelled.
- Text of SQL statements and of OpenTSDB lines, timestamps and numbers in them; messages for sensors OpenTSDB does not know, which it ignores.
- Whether a flush timer is really pending in the ClickHouse and OpenTSDB backends: only the flags are modelled, no liveness is claimed.
- Exceptions thrown while columns are appended, and partial sends: a send takes a block as a whole or not at all, a failed insert writes nothing.
- The order of updates against buffered inserts across an outage: the query queue is drained first on reconnect, so none holds.
- `lastError`, logging, monitoring texts, getters, `isWaitingOn` and `isWaitingOff`, `deactivateObject`, `sysCommand`, locks.
- `DBServer_MySQL` and `DBServer_SQLite`: the same query queue and connection machine again.
- Random, sine and cosine modes of the simulator, and its writes to sensors.
